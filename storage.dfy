/**
 * The file system as the executor sees it: configuration records stored at paths, the set of
 * other existing non-empty files, and the prefixes whose folders were created.
 */
module Storage {
  import opened ConfigOps

  datatype Disk = Disk(records: map<string, Config>, artifacts: set<string>, folders: set<string>)
  {
    /** The path names an existing, non-empty file. */
    predicate IsResource(path: string)
    {
      path in records || path in artifacts
    }

    /** The value is a path that names an existing, non-empty file. */
    predicate IsResourceValue(v: Value)
    {
      v.Str? && IsResource(v.s)
    }

    /** Every value the record holds under a key ending in `_file` names an existing file. */
    predicate OutputFilesPresent(outcfg: Config)
    {
      forall k :: k in outcfg && EndsWith(k, FileKeySuffix) ==> IsResourceValue(outcfg[k])
    }

    function WriteConfig(path: string, cfg: Config): Disk
    {
      this.(records := records[path := cfg])
    }

    function CreatePrefixFolders(prefix: string): Disk
    {
      this.(folders := folders + {prefix})
    }

    function AddArtifacts(paths: set<string>): Disk
    {
      this.(artifacts := artifacts + paths)
    }
  }

  /** The mutable file system that one execution reads and writes. */
  class FileStore {
    var records: map<string, Config>
    var artifacts: set<string>
    var folders: set<string>

    constructor (records: map<string, Config>, artifacts: set<string>)
      ensures Snapshot() == Disk(records, artifacts, {})
    {
      this.records := records;
      this.artifacts := artifacts;
      this.folders := {};
    }

    function Snapshot(): Disk
      reads this
    {
      Disk(records, artifacts, folders)
    }

    method WriteConfig(path: string, cfg: Config)
      modifies this
      ensures Snapshot() == old(Snapshot()).WriteConfig(path, cfg)
      ensures path in records && records[path] == cfg
    {
      records := records[path := cfg];
    }

    method ReadConfig(path: string) returns (cfg: Config)
      requires path in records
      ensures cfg == records[path]
    {
      cfg := records[path];
    }

    method HasRecord(path: string) returns (b: bool)
      ensures b <==> path in records
    {
      b := path in records;
    }

    method OutputFilesPresent(outcfg: Config) returns (b: bool)
      ensures b == Snapshot().OutputFilesPresent(outcfg)
    {
      b := forall k :: k in outcfg && EndsWith(k, FileKeySuffix) ==>
             outcfg[k].Str? && (outcfg[k].s in records || outcfg[k].s in artifacts);
    }

    method CreatePrefixFolders(prefix: string)
      modifies this
      ensures Snapshot() == old(Snapshot()).CreatePrefixFolders(prefix)
    {
      folders := folders + {prefix};
    }

    method AddArtifacts(paths: set<string>)
      modifies this
      ensures Snapshot() == old(Snapshot()).AddArtifacts(paths)
    {
      artifacts := artifacts + paths;
    }
  }
}
