/**
 * The resumable pipeline executor: validation of the invocation, the stage loop with its countdown
 * of requested stages, fresh runs with input/output checkpoints, resumption from stored output
 * records, the merge into the global state, and the final record.
 *
 * `Step`, `Steps` and `ExecuteSpec` state what an execution does, as functions of the invocation
 * and of the file system before it; the method `Execute` does it in place on a `FileStore`.
 */
module Executor {
  import opened Wrappers
  import opened ConfigOps
  import opened Registry
  import opened Storage

  /** The `stages` entry of the invocation: missing, given as `None`, or a list of names. */
  datatype StagesEntry = Absent | NoneGiven | Names(names: seq<string>)

  /**
   * The keyword arguments of an execution. An `Option` field is `None` when the key is missing;
   * `sections` holds the per-stage settings, keyed by stage name.
   */
  datatype Invocation = Invocation(
    pipeline: Option<string>,
    stages: StagesEntry,
    global: Option<Config>,
    tools: Option<Config>,
    databases: Option<Config>,
    sections: map<string, Config>)

  /** Which check of a resumed stage failed. */
  datatype Resource = Checkpoint | OutputFiles

  datatype Error =
    | MissingParameter(keys: set<string>)         // a required configuration key is absent
    | InvalidParameter(key: string)               // unknown pipeline name, or `stages` is None
    | MissingKey(key: string)                     // a dictionary lookup without a check fails
    | WrongType(key: string)                      // the global prefix is not a string
    | MissingResource(stage: string, what: Resource) // a resumed stage's record or files are missing
    | StageFailed(stage: string)                  // the stage runner raised

  /** What a stage runner does: it returns its output and the files it created, or it raises. */
  datatype RunResult = Completed(output: Config, created: set<string>) | Raised

  /** The collaborators the executor calls: the stage runners and the path helper `insert_dir`. */
  datatype Env = Env(run: (Runner, Config) -> RunResult, insertDir: (string, string) -> string)

  /** What stays fixed during the stage loop. */
  datatype Ctx = Ctx(inv: Invocation, env: Env, requested: seq<string>, prefix: string)

  /** One entry per stage the loop processed: its runner was invoked, or it was resumed from disk. */
  datatype Event = Ran(stage: string) | Resumed(stage: string)

  datatype Status = Running | Failed(error: Error)

  /** The variables of the stage loop, and the file system. */
  datatype LoopState = LoopState(status: Status, globalState: Config, countdown: int, disk: Disk,
                                 trace: seq<Event>)

  datatype Outcome = Outcome(result: Result<Config, Error>, disk: Disk, trace: seq<Event>)

  function InputRecordPath(stagePrefix: string, stage: string): string
  {
    stagePrefix + "_" + stage + ".incfg"
  }

  function OutputRecordPath(stagePrefix: string, stage: string): string
  {
    stagePrefix + "_" + stage + ".outcfg"
  }

  function FinalRecordPath(prefix: string): string
  {
    prefix + FinalConfigSuffix
  }

  /** The number of fresh runs in a trace. */
  function Runs(trace: seq<Event>): nat
  {
    if trace == [] then 0 else Runs(trace[..|trace| - 1]) + (if trace[|trace| - 1].Ran? then 1 else 0)
  }

  /** The keys among `pipeline`, `stages` and `global` that the invocation lacks. */
  function MissingRequired(inv: Invocation): (r: set<string>)
    ensures r <= {"pipeline", "stages", "global"}
    ensures "pipeline" in r <==> inv.pipeline.None?
    ensures "stages" in r <==> inv.stages.Absent?
    ensures "global" in r <==> inv.global.None?
  {
    (if inv.pipeline.None? then {"pipeline"} else {})
    + (if inv.stages.Absent? then {"stages"} else {})
    + (if inv.global.None? then {"global"} else {})
  }

  /** A requested stage: write the input record, call the runner, prefix and store its output. */
  function RunStage(ctx: Ctx, s: Stage, stagePrefix: string, st: LoopState): (r: LoopState)
    requires st.status.Running? && s.name in ctx.inv.sections
    ensures r.countdown == st.countdown || (r.status.Running? && r.countdown == st.countdown - 1)
    ensures r.status.Running? ==> r.countdown == st.countdown - 1
    ensures r.trace == st.trace || r.trace == st.trace + [Ran(s.name)]
    ensures r.status.Running? ==> r.trace == st.trace + [Ran(s.name)]
    ensures r.status.Failed? ==> r.globalState == st.globalState
    ensures r.trace == st.trace ==> r == st.(status := r.status) && r.status.Failed?
    // the input record is written before the runner is invoked, whatever the runner then does
    ensures r.trace != st.trace ==>
              ctx.inv.tools.Some? && ctx.inv.databases.Some?
              && InputRecordPath(stagePrefix, s.name) in r.disk.records
              && r.disk.records[InputRecordPath(stagePrefix, s.name)]
                 == StageInput(ctx.inv.tools.value, ctx.inv.databases.value, ctx.inv.sections[s.name],
                               st.globalState, stagePrefix)
    // a successful run stores the prefixed output of the runner on that input, and merges exactly it
    ensures r.status.Running? ==>
              var incfg := r.disk.records[InputRecordPath(stagePrefix, s.name)];
              && ctx.env.run(s.runner, incfg).Completed?
              && OutputRecordPath(stagePrefix, s.name) in r.disk.records
              && r.disk.records[OutputRecordPath(stagePrefix, s.name)]
                 == ApplyKeyPrefix(s.keyPrefix, ctx.env.run(s.runner, incfg).output)
              && r.globalState == Merge(st.globalState, r.disk.records[OutputRecordPath(stagePrefix, s.name)])
    // no other record is touched
    ensures forall p :: p in st.disk.records && p != InputRecordPath(stagePrefix, s.name)
                        && p != OutputRecordPath(stagePrefix, s.name) ==>
              p in r.disk.records && r.disk.records[p] == st.disk.records[p]
    ensures st.disk.records.Keys <= r.disk.records.Keys
            <= st.disk.records.Keys + {InputRecordPath(stagePrefix, s.name), OutputRecordPath(stagePrefix, s.name)}
    ensures r.disk.folders == st.disk.folders && r.disk.artifacts >= st.disk.artifacts
    // the failure cases, in the order the source meets them
    ensures ctx.inv.tools.None? ==> r == st.(status := Failed(MissingKey("tools")))
    ensures ctx.inv.tools.Some? && ctx.inv.databases.None? ==> r == st.(status := Failed(MissingKey("databases")))
    // with both sections present the runner is invoked, and the stage succeeds exactly when it returns
    ensures ctx.inv.tools.Some? && ctx.inv.databases.Some? ==>
              var result := ctx.env.run(s.runner, StageInput(ctx.inv.tools.value, ctx.inv.databases.value,
                                                             ctx.inv.sections[s.name], st.globalState, stagePrefix));
              && r.trace == st.trace + [Ran(s.name)]
              && (r.status.Running? <==> result.Completed?)
              && (result.Raised? ==> r.status == Failed(StageFailed(s.name)))
              && (result.Completed? ==> r.disk.artifacts == st.disk.artifacts + result.created)
    // the output record is written only after the runner returned
    ensures r.status.Failed? ==>
              var outPath := OutputRecordPath(stagePrefix, s.name);
              && (outPath in r.disk.records <==> outPath in st.disk.records)
              && (outPath in st.disk.records ==> r.disk.records[outPath] == st.disk.records[outPath])
              && r.disk.artifacts == st.disk.artifacts
  {
    if ctx.inv.tools.None? then st.(status := Failed(MissingKey("tools")))
    else if ctx.inv.databases.None? then st.(status := Failed(MissingKey("databases")))
    else
      var incfg := StageInput(ctx.inv.tools.value, ctx.inv.databases.value, ctx.inv.sections[s.name],
                              st.globalState, stagePrefix);
      var inPath := InputRecordPath(stagePrefix, s.name);
      var outPath := OutputRecordPath(stagePrefix, s.name);
      assert inPath != outPath by { assert |inPath| != |outPath|; }
      var disk1 := st.disk.WriteConfig(inPath, incfg);
      var trace1 := st.trace + [Ran(s.name)];
      match ctx.env.run(s.runner, incfg)
      case Raised => st.(status := Failed(StageFailed(s.name)), disk := disk1, trace := trace1)
      case Completed(output, created) =>
        var outcfg := ApplyKeyPrefix(s.keyPrefix, output);
        var disk2 := disk1.AddArtifacts(created).WriteConfig(outPath, outcfg);
        LoopState(Running, Merge(st.globalState, outcfg), st.countdown - 1, disk2, trace1)
  }

  /** A stage that is not requested: check and read back its stored output record. */
  function ResumeStage(ctx: Ctx, s: Stage, stagePrefix: string, st: LoopState): (r: LoopState)
    requires st.status.Running?
    ensures r.countdown == st.countdown && r.disk == st.disk
    ensures var outPath := OutputRecordPath(stagePrefix, s.name);
            r.status.Running? <==> outPath in st.disk.records && st.disk.OutputFilesPresent(st.disk.records[outPath])
    ensures OutputRecordPath(stagePrefix, s.name) !in st.disk.records ==>
              r.status == Failed(MissingResource(s.name, Checkpoint))
    ensures r.status.Failed? ==> r.status.error.MissingResource? && r.status.error.stage == s.name
                                 && r.globalState == st.globalState && r.trace == st.trace
    // the resumed output is exactly the stored record
    ensures r.status.Running? ==>
              r.globalState == Merge(st.globalState, st.disk.records[OutputRecordPath(stagePrefix, s.name)])
              && r.trace == st.trace + [Resumed(s.name)]
  {
    var outPath := OutputRecordPath(stagePrefix, s.name);
    if outPath !in st.disk.records then st.(status := Failed(MissingResource(s.name, Checkpoint)))
    else
      var outcfg := st.disk.records[outPath];
      if !st.disk.OutputFilesPresent(outcfg) then st.(status := Failed(MissingResource(s.name, OutputFiles)))
      else st.(globalState := Merge(st.globalState, outcfg), trace := st.trace + [Resumed(s.name)])
  }

  /** One iteration of the stage loop. */
  function Step(ctx: Ctx, s: Stage, st: LoopState): (r: LoopState)
    // after a failure, and once the countdown is 0, nothing more happens
    ensures st.status.Failed? || st.countdown == 0 ==> r == st
    ensures st.status.Running? && st.countdown != 0 && s.name !in ctx.inv.sections ==>
              r == st.(status := Failed(MissingParameter({s.name})))
    // the countdown drops by one exactly on a successful fresh run, and never from 0
    ensures r.countdown == st.countdown
            || (r.countdown == st.countdown - 1 && st.countdown != 0 && s.name in ctx.requested
                && r.status.Running? && r.trace == st.trace + [Ran(s.name)])
    ensures r.status.Running? ==> r.countdown + Runs(r.trace) == st.countdown + Runs(st.trace)
    // at most one event, naming this stage; a runner is invoked only for a requested stage
    ensures r.trace == st.trace
            || (r.trace == st.trace + [Ran(s.name)] && s.name in ctx.requested)
            || (r.trace == st.trace + [Resumed(s.name)] && s.name !in ctx.requested)
    ensures st.status.Running? && st.countdown != 0 && r.status.Running? ==> |r.trace| == |st.trace| + 1
    ensures r.trace == st.trace ==> r.globalState == st.globalState
    ensures r.globalState.Keys >= st.globalState.Keys
    ensures r.disk.records.Keys >= st.disk.records.Keys
    ensures r.disk.artifacts >= st.disk.artifacts
  {
    if st.status.Failed? || st.countdown == 0 then st
    else if s.name !in ctx.inv.sections then st.(status := Failed(MissingParameter({s.name})))
    else
      var stagePrefix := ctx.env.insertDir(ctx.prefix, s.name);
      var st1 := st.(disk := st.disk.CreatePrefixFolders(stagePrefix));
      if s.name in ctx.requested then RunStage(ctx, s, stagePrefix, st1)
      else ResumeStage(ctx, s, stagePrefix, st1)
  }

  /** The loop over the first `|stages|` stages, as a left fold of `Step`. */
  function Steps(ctx: Ctx, stages: seq<Stage>, st: LoopState): (r: LoopState)
    decreases |stages|
    ensures |st.trace| <= |r.trace| && r.trace[..|st.trace|] == st.trace
    ensures r.status.Running? ==> st.status.Running?
    ensures r.status.Running? ==> r.countdown + Runs(r.trace) == st.countdown + Runs(st.trace)
    ensures 0 <= st.countdown ==> 0 <= r.countdown <= st.countdown
    ensures r.globalState.Keys >= st.globalState.Keys
    ensures r.disk.records.Keys >= st.disk.records.Keys
    ensures r.disk.artifacts >= st.disk.artifacts
  {
    if stages == [] then st
    else Step(ctx, stages[|stages| - 1], Steps(ctx, stages[..|stages| - 1], st))
  }

  /** The whole execution: validation, the stage loop, and the final record. */
  function ExecuteSpec(inv: Invocation, env: Env, disk: Disk): (o: Outcome)
    // failures of validation happen before anything is created or written
    ensures MissingRequired(inv) != {} ==> o == Outcome(Err(MissingParameter(MissingRequired(inv))), disk, [])
    ensures MissingRequired(inv) == {} && inv.pipeline.value !in Pipelines() ==>
              o == Outcome(Err(InvalidParameter("pipeline")), disk, [])
    ensures MissingRequired(inv) == {} && inv.pipeline.value in Pipelines() && inv.stages.NoneGiven? ==>
              o == Outcome(Err(InvalidParameter("stages")), disk, [])
    // a successful execution returns the final global state, which it has also stored
    ensures o.result.Ok? ==>
              inv.global.Some? && PrefixKey in inv.global.value && inv.global.value[PrefixKey].Str?
              && var path := FinalRecordPath(inv.global.value[PrefixKey].s);
                 path in o.disk.records && o.disk.records[path] == o.result.value
    ensures o.result.Ok? ==> inv.global.value.Keys <= o.result.value.Keys
    // the lookup of the global prefix
    ensures MissingRequired(inv) == {} && inv.pipeline.value in Pipelines() && inv.stages.Names? ==>
              && (PrefixKey !in inv.global.value ==> o == Outcome(Err(MissingKey(PrefixKey)), disk, []))
              && (PrefixKey in inv.global.value && !inv.global.value[PrefixKey].Str? ==>
                    o == Outcome(Err(WrongType(PrefixKey)), disk, []))
    // once validation passes, the only error is the loop's own, and otherwise the final record is written
    ensures MissingRequired(inv) == {} && inv.pipeline.value in Pipelines() && inv.stages.Names?
            && PrefixKey in inv.global.value && inv.global.value[PrefixKey].Str? ==>
              var prefix := inv.global.value[PrefixKey].s;
              var last := Steps(Ctx(inv, env, inv.stages.names, prefix), Pipelines()[inv.pipeline.value],
                                LoopState(Running, inv.global.value, |inv.stages.names|,
                                          disk.CreatePrefixFolders(prefix), []));
              && o.trace == last.trace
              && (last.status.Failed? ==> o.result == Err(last.status.error) && o.disk == last.disk)
              && (last.status.Running? ==>
                    && o.result == Ok(last.globalState)
                    && o.disk == last.disk.WriteConfig(FinalRecordPath(prefix), last.globalState))
    ensures o.disk.records.Keys >= disk.records.Keys
  {
    if MissingRequired(inv) != {} then Outcome(Err(MissingParameter(MissingRequired(inv))), disk, [])
    else if inv.pipeline.value !in Pipelines() then Outcome(Err(InvalidParameter("pipeline")), disk, [])
    else if inv.stages.NoneGiven? then Outcome(Err(InvalidParameter("stages")), disk, [])
    else
      var global := inv.global.value;
      if PrefixKey !in global then Outcome(Err(MissingKey(PrefixKey)), disk, [])
      else if !global[PrefixKey].Str? then Outcome(Err(WrongType(PrefixKey)), disk, [])
      else
        var prefix := global[PrefixKey].s;
        var ctx := Ctx(inv, env, inv.stages.names, prefix);
        var init := LoopState(Running, global, |inv.stages.names|, disk.CreatePrefixFolders(prefix), []);
        var last := Steps(ctx, Pipelines()[inv.pipeline.value], init);
        if last.status.Failed? then Outcome(Err(last.status.error), last.disk, last.trace)
        else Outcome(Ok(last.globalState), last.disk.WriteConfig(FinalRecordPath(prefix), last.globalState), last.trace)
  }

  /** Processing `a` and then `b` is processing `a + b`. */
  lemma {:induction false} StepsAppend(ctx: Ctx, a: seq<Stage>, b: seq<Stage>, st: LoopState)
    ensures Steps(ctx, a + b, st) == Steps(ctx, b, Steps(ctx, a, st))
    decreases |b|
  {
    if b == [] {
      assert a + b == a;
    } else {
      var b' := b[..|b| - 1];
      assert (a + b)[..|a + b| - 1] == a + b';
      assert (a + b)[|a + b| - 1] == b[|b| - 1];
      StepsAppend(ctx, a, b', st);
    }
  }

  /** A failed loop, and one whose countdown is 0, does nothing more. */
  lemma {:induction false} HaltedStaysHalted(ctx: Ctx, stages: seq<Stage>, st: LoopState)
    requires st.status.Failed? || st.countdown == 0
    ensures Steps(ctx, stages, st) == st
    decreases |stages|
  {
    if stages != [] {
      HaltedStaysHalted(ctx, stages[..|stages| - 1], st);
    }
  }

  /** Once the loop has halted after the first `i` stages, the remaining stages change nothing. */
  lemma HaltedAfterPrefix(ctx: Ctx, stages: seq<Stage>, i: nat, st: LoopState)
    requires i <= |stages|
    requires Steps(ctx, stages[..i], st).status.Failed? || Steps(ctx, stages[..i], st).countdown == 0
    ensures Steps(ctx, stages, st) == Steps(ctx, stages[..i], st)
  {
    assert stages == stages[..i] + stages[i..];
    StepsAppend(ctx, stages[..i], stages[i..], st);
    HaltedStaysHalted(ctx, stages[i..], Steps(ctx, stages[..i], st));
  }

  /** The loop body for a requested stage: lines that write the input record, run, prefix, store. */
  method RunRequestedStage(ctx: Ctx, s: Stage, stagePrefix: string, globalState: Config,
                           numStagesToRun: int, ghost trace: seq<Event>, store: FileStore)
    returns (failure: Option<Error>, newGlobal: Config, newCount: int, ghost newTrace: seq<Event>)
    requires s.name in ctx.inv.sections
    modifies store
    ensures RunStage(ctx, s, stagePrefix, LoopState(Running, globalState, numStagesToRun, old(store.Snapshot()), trace))
            == LoopState(if failure.Some? then Failed(failure.value) else Running, newGlobal, newCount,
                         store.Snapshot(), newTrace)
  {
    newGlobal, newCount, newTrace := globalState, numStagesToRun, trace;
    if ctx.inv.tools.None? {
      return Some(MissingKey("tools")), newGlobal, newCount, newTrace;
    }
    if ctx.inv.databases.None? {
      return Some(MissingKey("databases")), newGlobal, newCount, newTrace;
    }
    var stageIncfg := InputRecordPath(stagePrefix, s.name);
    var stageOutcfg := OutputRecordPath(stagePrefix, s.name);
    assert stageIncfg != stageOutcfg by { assert |stageIncfg| != |stageOutcfg|; }
    var incfg := StageInput(ctx.inv.tools.value, ctx.inv.databases.value, ctx.inv.sections[s.name],
                            globalState, stagePrefix);
    store.WriteConfig(stageIncfg, incfg);
    newTrace := trace + [Ran(s.name)];
    var ran := ctx.env.run(s.runner, incfg);
    if ran.Raised? {
      return Some(StageFailed(s.name)), newGlobal, newCount, newTrace;
    }
    store.AddArtifacts(ran.created);
    var outcfg := ApplyKeyPrefix(s.keyPrefix, ran.output);
    store.WriteConfig(stageOutcfg, outcfg);
    failure := None;
    newCount := numStagesToRun - 1;
    newGlobal := Merge(globalState, outcfg);
  }

  /** The loop body for a stage that is not requested: check and read back its output record. */
  method ResumeStoredStage(ctx: Ctx, s: Stage, stagePrefix: string, globalState: Config,
                           numStagesToRun: int, ghost trace: seq<Event>, store: FileStore)
    returns (failure: Option<Error>, newGlobal: Config, ghost newTrace: seq<Event>)
    ensures var r := ResumeStage(ctx, s, stagePrefix, LoopState(Running, globalState, numStagesToRun, store.Snapshot(), trace));
            && (failure.None? <==> r.status.Running?)
            && (failure.Some? ==> r.status == Failed(failure.value))
            && newGlobal == r.globalState
    ensures newTrace == ResumeStage(ctx, s, stagePrefix, LoopState(Running, globalState, numStagesToRun, store.Snapshot(), trace)).trace
  {
    newGlobal, newTrace := globalState, trace;
    var stageOutcfg := OutputRecordPath(stagePrefix, s.name);
    var present := store.HasRecord(stageOutcfg);
    if !present {
      return Some(MissingResource(s.name, Checkpoint)), newGlobal, newTrace;
    }
    var outcfg := store.ReadConfig(stageOutcfg);
    var filesPresent := store.OutputFilesPresent(outcfg);
    if !filesPresent {
      return Some(MissingResource(s.name, OutputFiles)), newGlobal, newTrace;
    }
    failure := None;
    newGlobal := Merge(globalState, outcfg);
    newTrace := trace + [Resumed(s.name)];
  }

  /** One iteration of the stage loop on the file store, as `Step` says. */
  method ProcessStage(ctx: Ctx, s: Stage, globalState: Config, numStagesToRun: int,
                      ghost trace: seq<Event>, store: FileStore)
    returns (failure: Option<Error>, newGlobal: Config, newCount: int, ghost newTrace: seq<Event>)
    requires numStagesToRun != 0
    modifies store
    ensures Step(ctx, s, LoopState(Running, globalState, numStagesToRun, old(store.Snapshot()), trace))
            == LoopState(if failure.Some? then Failed(failure.value) else Running, newGlobal, newCount,
                         store.Snapshot(), newTrace)
  {
    if s.name !in ctx.inv.sections {
      return Some(MissingParameter({s.name})), globalState, numStagesToRun, trace;
    }
    var stagePrefix := ctx.env.insertDir(ctx.prefix, s.name);
    store.CreatePrefixFolders(stagePrefix);
    if s.name in ctx.requested {
      failure, newGlobal, newCount, newTrace :=
        RunRequestedStage(ctx, s, stagePrefix, globalState, numStagesToRun, trace, store);
    } else {
      failure, newGlobal, newTrace :=
        ResumeStoredStage(ctx, s, stagePrefix, globalState, numStagesToRun, trace, store);
      newCount := numStagesToRun;
    }
  }

  /** The stage loop on the file store, as `Steps` over the whole pipeline says. */
  method RunStages(ctx: Ctx, pipeline: seq<Stage>, global: Config, store: FileStore)
    returns (failure: Option<Error>, globalState: Config, numStagesToRun: int, ghost trace: seq<Event>)
    modifies store
    ensures Steps(ctx, pipeline, LoopState(Running, global, |ctx.requested|, old(store.Snapshot()), []))
            == LoopState(if failure.Some? then Failed(failure.value) else Running, globalState, numStagesToRun,
                         store.Snapshot(), trace)
  {
    globalState := global;
    numStagesToRun := |ctx.requested|;
    trace := [];
    ghost var init := LoopState(Running, global, |ctx.requested|, store.Snapshot(), []);

    var i := 0;
    while i < |pipeline|
      invariant 0 <= i <= |pipeline|
      invariant Steps(ctx, pipeline[..i], init)
                == LoopState(Running, globalState, numStagesToRun, store.Snapshot(), trace)
      decreases |pipeline| - i
    {
      if numStagesToRun == 0 {
        break;
      }
      assert pipeline[..i + 1][..i] == pipeline[..i];
      failure, globalState, numStagesToRun, trace :=
        ProcessStage(ctx, pipeline[i], globalState, numStagesToRun, trace, store);
      if failure.Some? {
        HaltedAfterPrefix(ctx, pipeline, i + 1, init);
        return;
      }
      i := i + 1;
    }
    if i < |pipeline| {
      HaltedAfterPrefix(ctx, pipeline, i, init);
    } else {
      assert pipeline[..i] == pipeline;
    }
    failure := None;
  }

  /** Executes the invocation on the file store, as `ExecuteSpec` says. */
  method Execute(inv: Invocation, env: Env, store: FileStore) returns (result: Result<Config, Error>)
    modifies store
    ensures result == ExecuteSpec(inv, env, old(store.Snapshot())).result
    ensures store.Snapshot() == ExecuteSpec(inv, env, old(store.Snapshot())).disk
  {
    var missing := MissingRequired(inv);
    if missing != {} {
      return Err(MissingParameter(missing));
    }
    if inv.pipeline.value !in Pipelines() {
      return Err(InvalidParameter("pipeline"));
    }
    if inv.stages.NoneGiven? {
      return Err(InvalidParameter("stages"));
    }
    var stages := inv.stages.names;
    var pipeline := Pipelines()[inv.pipeline.value];
    var global := inv.global.value;
    if PrefixKey !in global {
      return Err(MissingKey(PrefixKey));
    }
    if !global[PrefixKey].Str? {
      return Err(WrongType(PrefixKey));
    }
    var prefix := global[PrefixKey].s;
    store.CreatePrefixFolders(prefix);

    var failure, globalState, numStagesToRun, trace := RunStages(Ctx(inv, env, stages, prefix), pipeline, global, store);
    if failure.Some? {
      return Err(failure.value);
    }
    store.WriteConfig(FinalRecordPath(prefix), globalState);
    result := Ok(globalState);
  }
}
