/**
 * Properties of whole executions: which stages run, how the countdown relates to the requested
 * stages, what resumption gives back, key-prefix isolation, and the final record.
 */
module ExecutorProperties {
  import opened Wrappers
  import opened ConfigOps
  import opened Registry
  import opened Storage
  import opened Executor

  /** The events added to `st`'s trace by the loop over `stages`. */
  function NewEvents(ctx: Ctx, stages: seq<Stage>, st: LoopState): seq<Event>
  {
    var r := Steps(ctx, stages, st);
    r.trace[|st.trace|..]
  }

  /** The runner is invoked only for requested stages, and only stages that are not requested are resumed. */
  lemma {:induction false} OnlyRequestedStagesRun(ctx: Ctx, stages: seq<Stage>, st: LoopState)
    ensures var t := NewEvents(ctx, stages, st);
            forall j :: 0 <= j < |t| ==> (t[j].Ran? <==> t[j].stage in ctx.requested)
    decreases |stages|
  {
    if stages != [] {
      var front := stages[..|stages| - 1];
      OnlyRequestedStagesRun(ctx, front, st);
      var mid := Steps(ctx, front, st);
      var r := Steps(ctx, stages, st);
      assert r == Step(ctx, stages[|stages| - 1], mid);
      assert mid.trace[|st.trace|..] == NewEvents(ctx, front, st);
      forall j | 0 <= j < |r.trace| - |st.trace|
        ensures r.trace[|st.trace|..][j].Ran? <==> r.trace[|st.trace|..][j].stage in ctx.requested
      {
        if |st.trace| + j < |mid.trace| {
          assert r.trace[|st.trace| + j] == mid.trace[|st.trace| + j];
          assert mid.trace[|st.trace|..][j] == mid.trace[|st.trace| + j];
        }
      }
    }
  }

  /** A loop that ends running with a non-zero countdown has added one event for every stage. */
  lemma {:induction false} VisitsEveryStage(ctx: Ctx, stages: seq<Stage>, st: LoopState)
    requires st.status.Running?
    ensures var r := Steps(ctx, stages, st);
            r.status.Running? && r.countdown != 0 ==> |r.trace| == |st.trace| + |stages|
    decreases |stages|
  {
    if stages != [] {
      var front := stages[..|stages| - 1];
      VisitsEveryStage(ctx, front, st);
      var mid := Steps(ctx, front, st);
      var r := Steps(ctx, stages, st);
      assert r == Step(ctx, stages[|stages| - 1], mid);
      if r.status.Running? && r.countdown != 0 {
        assert mid.status.Running? && mid.countdown != 0;
      }
    }
  }

  /** The events of `t` name the first `|t|` stages of `stages`, in order. */
  predicate FollowsStages(t: seq<Event>, stages: seq<Stage>)
  {
    |t| <= |stages| && forall j :: 0 <= j < |t| ==> t[j].stage == stages[j].name
  }

  lemma ExtendFollowsStages(front: seq<Stage>, s: Stage, tm: seq<Event>, t: seq<Event>)
    requires FollowsStages(tm, front)
    requires t == tm || (|tm| == |front| && |t| == |tm| + 1 && t[..|tm|] == tm && t[|tm|].stage == s.name)
    ensures FollowsStages(t, front + [s])
  {
    var stages := front + [s];
    forall j | 0 <= j < |t| ensures t[j].stage == stages[j].name {
      if j < |tm| {
        assert t[j] == t[..|tm|][j];
      }
    }
  }

  /** One iteration keeps the trace in pipeline order. */
  lemma StepFollowsStages(ctx: Ctx, front: seq<Stage>, s: Stage, mid: LoopState)
    requires FollowsStages(mid.trace, front)
    requires mid.status.Running? && mid.countdown != 0 ==> |mid.trace| == |front|
    ensures FollowsStages(Step(ctx, s, mid).trace, front + [s])
  {
    var r := Step(ctx, s, mid);
    if r.trace != mid.trace {
      assert r.trace[..|mid.trace|] == mid.trace;
    }
    ExtendFollowsStages(front, s, mid.trace, r.trace);
  }

  /** From an empty trace, the loop visits the stages in pipeline order, adding at most one event per stage. */
  lemma {:induction false} VisitsStagesInOrder(ctx: Ctx, stages: seq<Stage>, st: LoopState)
    requires st.trace == []
    ensures FollowsStages(Steps(ctx, stages, st).trace, stages)
    decreases |stages|
  {
    if stages != [] {
      var front := stages[..|stages| - 1];
      var s := stages[|stages| - 1];
      VisitsStagesInOrder(ctx, front, st);
      if st.status.Running? {
        VisitsEveryStage(ctx, front, st);
      }
      StepFollowsStages(ctx, front, s, Steps(ctx, front, st));
      assert stages == front + [s];
    }
  }

  /** The stage names the runner was invoked for, in a trace. */
  function RanStages(trace: seq<Event>): set<string>
  {
    set j | 0 <= j < |trace| && trace[j].Ran? :: trace[j].stage
  }

  /** The stages run in a trace are those run before its last event, plus that event's if it is a run. */
  lemma RanStagesSnoc(t: seq<Event>)
    requires t != []
    ensures var front := t[..|t| - 1];
            var e := t[|t| - 1];
            RanStages(t) == RanStages(front) + (if e.Ran? then {e.stage} else {})
  {
    var front := t[..|t| - 1];
    forall j | 0 <= j < |front| ensures front[j] == t[j] { }
  }

  /** With distinct stage names, the number of fresh runs is the number of stages that ran. */
  lemma {:induction false} RunsOfDistinctTrace(t: seq<Event>)
    requires forall i, j :: 0 <= i < j < |t| ==> t[i].stage != t[j].stage
    ensures Runs(t) == |RanStages(t)|
    decreases |t|
  {
    if t != [] {
      var front := t[..|t| - 1];
      var e := t[|t| - 1];
      assert forall i, j :: 0 <= i < j < |front| ==> front[i].stage != front[j].stage;
      RunsOfDistinctTrace(front);
      RanStagesSnoc(t);
      assert e.stage !in RanStages(front);
    }
  }

  /** The requested names that the pipeline has a stage for. */
  function Honoured(requested: seq<string>, pipeline: seq<Stage>): set<string>
  {
    set j | 0 <= j < |pipeline| && pipeline[j].name in requested :: pipeline[j].name
  }

  lemma {:induction false} DistinctElementsAtMostLength(s: seq<string>)
    ensures |set x | x in s| <= |s|
    decreases |s|
  {
    if s != [] {
      DistinctElementsAtMostLength(s[1..]);
      assert (set x | x in s) == (set x | x in s[1..]) + {s[0]};
    }
  }

  /**
   * From the start of the loop, the number of fresh runs never exceeds the number of distinct
   * requested names that are stages of the pipeline.
   */
  lemma RunsBoundedByHonoured(ctx: Ctx, pipeline: seq<Stage>, i: nat, init: LoopState)
    requires DistinctNames(pipeline) && i <= |pipeline| && init.trace == []
    ensures Runs(Steps(ctx, pipeline[..i], init).trace) <= |Honoured(ctx.requested, pipeline)|
    ensures |Honoured(ctx.requested, pipeline)| <= |set x | x in ctx.requested| <= |ctx.requested|
  {
    var t := Steps(ctx, pipeline[..i], init).trace;
    VisitsStagesInOrder(ctx, pipeline[..i], init);
    OnlyRequestedStagesRun(ctx, pipeline[..i], init);
    assert NewEvents(ctx, pipeline[..i], init) == t;
    assert FollowsStages(t, pipeline[..i]);
    forall a, b | 0 <= a < b < |t| ensures t[a].stage != t[b].stage {
      assert t[a].stage == pipeline[a].name && t[b].stage == pipeline[b].name;
    }
    RunsOfDistinctTrace(t);
    assert RanStages(t) <= Honoured(ctx.requested, pipeline) by {
      forall n | n in RanStages(t) ensures n in Honoured(ctx.requested, pipeline) {
        var j :| 0 <= j < |t| && t[j].Ran? && t[j].stage == n;
        assert t[j].stage == pipeline[j].name;
      }
    }
    SubsetCardinality(RanStages(t), Honoured(ctx.requested, pipeline));
    SubsetCardinality(Honoured(ctx.requested, pipeline), set x | x in ctx.requested);
    DistinctElementsAtMostLength(ctx.requested);
  }

  lemma SubsetCardinality<T>(a: set<T>, b: set<T>)
    requires a <= b
    ensures |a| <= |b|
  {
    assert b == a + (b - a);
  }

  /**
   * The countdown starts at the number of requested names, drops by one per fresh run, and
   * never falls below the number of requested names that can never be run.
   */
  lemma CountdownBounds(ctx: Ctx, pipeline: seq<Stage>, i: nat, init: LoopState)
    requires DistinctNames(pipeline) && i <= |pipeline|
    requires init.status.Running? && init.trace == [] && init.countdown == |ctx.requested|
    ensures var r := Steps(ctx, pipeline[..i], init);
            r.status.Running? ==>
              && r.countdown == |ctx.requested| - Runs(r.trace)
              && r.countdown >= |ctx.requested| - |Honoured(ctx.requested, pipeline)| >= 0
  {
    RunsBoundedByHonoured(ctx, pipeline, i, init);
  }

  /**
   * A requested name that is no stage of the pipeline keeps the countdown above 0, so the loop
   * never stops early: a run that does not fail visits every stage of the pipeline.
   */
  lemma UnknownRequestVisitsEveryStage(ctx: Ctx, pipeline: seq<Stage>, init: LoopState, unknown: string)
    requires DistinctNames(pipeline)
    requires init.status.Running? && init.trace == [] && init.countdown == |ctx.requested|
    requires unknown in ctx.requested && unknown !in StageNames(pipeline)
    ensures var r := Steps(ctx, pipeline, init);
            r.status.Running? ==> r.countdown > 0 && |r.trace| == |pipeline|
  {
    assert pipeline[..|pipeline|] == pipeline;
    RunsBoundedByHonoured(ctx, pipeline, |pipeline|, init);
    var h := Honoured(ctx.requested, pipeline);
    var all := set x | x in ctx.requested;
    assert h <= all - {unknown} by {
      forall n | n in h ensures n in all - {unknown} {
        var j :| 0 <= j < |pipeline| && pipeline[j].name in ctx.requested && pipeline[j].name == n;
        assert StageNames(pipeline)[j] == n;
      }
    }
    SubsetCardinality(h, all - {unknown});
    assert all == (all - {unknown}) + {unknown};
    var r := Steps(ctx, pipeline, init);
    VisitsEveryStage(ctx, pipeline, init);
  }

  lemma SubsetOfEqualCardinality<T>(a: set<T>, b: set<T>)
    requires a <= b && |a| == |b|
    ensures a == b
  {
    assert b == a + (b - a);
    assert |b - a| == 0;
  }

  /**
   * The loop stops early only when the requested names are distinct and every one of them has
   * been run; conversely, once each of a list of distinct requested names has been run, the
   * countdown is 0.
   */
  lemma CountdownZeroMeansAllRequestedRan(ctx: Ctx, pipeline: seq<Stage>, i: nat, init: LoopState)
    requires DistinctNames(pipeline) && i <= |pipeline|
    requires init.status.Running? && init.trace == [] && init.countdown == |ctx.requested|
    ensures var r := Steps(ctx, pipeline[..i], init);
            r.status.Running? ==>
              (r.countdown == 0 <==>
                 && RanStages(r.trace) == (set x | x in ctx.requested)
                 && |set x | x in ctx.requested| == |ctx.requested|)
  {
    var r := Steps(ctx, pipeline[..i], init);
    if r.status.Running? {
      var all := set x | x in ctx.requested;
      RunsOfLoopTrace(ctx, pipeline, i, init);
      SubsetCardinality(RanStages(r.trace), all);
      DistinctElementsAtMostLength(ctx.requested);
      if r.countdown == 0 {
        SubsetOfEqualCardinality(RanStages(r.trace), all);
      }
    }
  }

  /** From the start of the loop, each requested stage runs at most once, and only requested ones run. */
  lemma RunsOfLoopTrace(ctx: Ctx, pipeline: seq<Stage>, i: nat, init: LoopState)
    requires DistinctNames(pipeline) && i <= |pipeline| && init.trace == []
    ensures var t := Steps(ctx, pipeline[..i], init).trace;
            Runs(t) == |RanStages(t)| && RanStages(t) <= (set x | x in ctx.requested)
  {
    var t := Steps(ctx, pipeline[..i], init).trace;
    VisitsStagesInOrder(ctx, pipeline[..i], init);
    OnlyRequestedStagesRun(ctx, pipeline[..i], init);
    assert NewEvents(ctx, pipeline[..i], init) == t;
    forall a, b | 0 <= a < b < |t| ensures t[a].stage != t[b].stage {
      assert t[a].stage == pipeline[a].name && t[b].stage == pipeline[b].name;
    }
    RunsOfDistinctTrace(t);
    forall n | n in RanStages(t) ensures n in ctx.requested {
      var j :| 0 <= j < |t| && t[j].Ran? && t[j].stage == n;
    }
  }

  /**
   * Write-then-read of a checkpoint: once a stage has run, a later invocation that does not
   * request it, finds the same stage folder, and still finds the output record that run stored
   * (with its output files present) resumes it successfully. It merges exactly what the run
   * merged; the runner is not invoked again and the countdown is not decremented. From the same
   * global state, the resumption gives the same global state as the run.
   */
  lemma RunThenResumeAgree(ctx: Ctx, s: Stage, st: LoopState, ctx': Ctx, st': LoopState)
    requires st.status.Running? && st.countdown != 0 && s.name in ctx.requested
    requires Step(ctx, s, st).status.Running?
    requires ctx'.env.insertDir(ctx'.prefix, s.name) == ctx.env.insertDir(ctx.prefix, s.name)
    requires s.name in ctx'.inv.sections && s.name !in ctx'.requested
    requires st'.status.Running? && st'.countdown != 0
    requires var sp := ctx.env.insertDir(ctx.prefix, s.name);
             var outPath := OutputRecordPath(sp, s.name);
             && outPath in st'.disk.records
             && st'.disk.records[outPath] == Step(ctx, s, st).disk.records[outPath]
             && st'.disk.OutputFilesPresent(st'.disk.records[outPath])
    ensures var outPath := OutputRecordPath(ctx.env.insertDir(ctx.prefix, s.name), s.name);
            var stored := Step(ctx, s, st).disk.records[outPath];
            var r' := Step(ctx', s, st');
            && Step(ctx, s, st).globalState == Merge(st.globalState, stored)
            && r'.status.Running?
            && r'.globalState == Merge(st'.globalState, stored)
            && (st'.globalState == st.globalState ==> r'.globalState == Step(ctx, s, st).globalState)
            && r'.trace == st'.trace + [Resumed(s.name)]
            && r'.countdown == st'.countdown
  {
    var sp := ctx.env.insertDir(ctx.prefix, s.name);
    var st1' := st'.(disk := st'.disk.CreatePrefixFolders(sp));
    assert Step(ctx', s, st') == ResumeStage(ctx', s, sp, st1');
    assert st1'.disk.records == st'.disk.records && st1'.disk.artifacts == st'.disk.artifacts;
  }

  /**
   * The two alignment stages of the complex pipeline store their outputs under disjoint keys, so
   * after both are merged each one's values are all present under its own prefix.
   */
  lemma KeyPrefixIsolation(g: Config, out1: Config, out2: Config)
    ensures var first := ApplyKeyPrefix(ProteinComplex[0].keyPrefix, out1);
            var second := ApplyKeyPrefix(ProteinComplex[1].keyPrefix, out2);
            var r := Merge(Merge(g, first), second);
            && first.Keys !! second.Keys
            && (forall k :: k in out1 ==> "first_" + k in r && r["first_" + k] == out1[k])
            && (forall k :: k in out2 ==> "second_" + k in r && r["second_" + k] == out2[k])
  {
    assert ProteinComplex[0].keyPrefix == Some("first_") && ProteinComplex[1].keyPrefix == Some("second_");
    AlignmentKeysDisjoint(out1, out2);
    PrefixedValuesSurviveMerge(g, "first_", out1, "second_", out2);
  }

  /** Keys stored under `first_` and under `second_` never collide. */
  lemma AlignmentKeysDisjoint(out1: Config, out2: Config)
    ensures ApplyKeyPrefix(Some("first_"), out1).Keys !! ApplyKeyPrefix(Some("second_"), out2).Keys
  {
    PrefixedKeysStartWith("first_", out1);
    PrefixedKeysStartWith("second_", out2);
  }

  /** Every key stored under a non-empty prefix starts with the prefix's first character. */
  lemma PrefixedKeysStartWith(p: string, out: Config)
    requires p != []
    ensures forall k :: k in ApplyKeyPrefix(Some(p), out) ==> k != [] && k[0] == p[0]
  {
    forall k | k in ApplyKeyPrefix(Some(p), out) ensures k != [] && k[0] == p[0] {
      assert k[..|p|] == p;
      assert k[0] == k[..|p|][0];
    }
  }

  /** Outputs stored under two prefixes whose keys do not collide both survive the merges. */
  lemma PrefixedValuesSurviveMerge(g: Config, p1: string, out1: Config, p2: string, out2: Config)
    requires ApplyKeyPrefix(Some(p1), out1).Keys !! ApplyKeyPrefix(Some(p2), out2).Keys
    ensures var r := Merge(Merge(g, ApplyKeyPrefix(Some(p1), out1)), ApplyKeyPrefix(Some(p2), out2));
            && (forall k :: k in out1 ==> p1 + k in r && r[p1 + k] == out1[k])
            && (forall k :: k in out2 ==> p2 + k in r && r[p2 + k] == out2[k])
  {
  }

  /**
   * An empty list of stages is accepted: the countdown starts at 0, no stage is touched, and only
   * the folder for the prefix and the final record, holding the global section, are written.
   */
  lemma EmptyStageListWritesOnlyFinal(inv: Invocation, env: Env, disk: Disk)
    requires inv.pipeline.Some? && inv.pipeline.value in Pipelines() && inv.stages == Names([])
    requires inv.global.Some? && PrefixKey in inv.global.value && inv.global.value[PrefixKey].Str?
    ensures var global := inv.global.value;
            var prefix := global[PrefixKey].s;
            ExecuteSpec(inv, env, disk)
            == Outcome(Ok(global), disk.CreatePrefixFolders(prefix).WriteConfig(FinalRecordPath(prefix), global), [])
  {
    var global := inv.global.value;
    var prefix := global[PrefixKey].s;
    var ctx := Ctx(inv, env, [], prefix);
    var init := LoopState(Running, global, 0, disk.CreatePrefixFolders(prefix), []);
    HaltedStaysHalted(ctx, Pipelines()[inv.pipeline.value], init);
  }

  /** No stage of `stages` has a record path ending like `p`. */
  predicate NoStageRecordAt(p: string, stages: seq<Stage>)
  {
    forall j :: 0 <= j < |stages| ==>
      !EndsWith(p, "_" + stages[j].name + ".incfg") && !EndsWith(p, "_" + stages[j].name + ".outcfg")
  }

  lemma EndsWithAppended(a: string, b: string)
    ensures EndsWith(a + b, b)
  {
    assert (a + b)[|a|..] == b;
  }

  /** One iteration writes only the two records of its stage. */
  lemma StepLeavesOtherRecords(ctx: Ctx, s: Stage, st: LoopState, p: string)
    requires !EndsWith(p, "_" + s.name + ".incfg") && !EndsWith(p, "_" + s.name + ".outcfg")
    ensures var r := Step(ctx, s, st);
            && (p in r.disk.records <==> p in st.disk.records)
            && (p in st.disk.records ==> r.disk.records[p] == st.disk.records[p])
  {
    if !(st.status.Failed? || st.countdown == 0) && s.name in ctx.inv.sections && s.name in ctx.requested {
      var sp := ctx.env.insertDir(ctx.prefix, s.name);
      assert InputRecordPath(sp, s.name) == sp + ("_" + s.name + ".incfg");
      assert OutputRecordPath(sp, s.name) == sp + ("_" + s.name + ".outcfg");
      EndsWithAppended(sp, "_" + s.name + ".incfg");
      EndsWithAppended(sp, "_" + s.name + ".outcfg");
    }
  }

  /** The loop writes stage records only: a path no stage record can have is left as it was. */
  lemma {:induction false} LoopLeavesOtherRecords(ctx: Ctx, stages: seq<Stage>, st: LoopState, p: string)
    requires NoStageRecordAt(p, stages)
    ensures var r := Steps(ctx, stages, st);
            && (p in r.disk.records <==> p in st.disk.records)
            && (p in st.disk.records ==> r.disk.records[p] == st.disk.records[p])
    decreases |stages|
  {
    if stages != [] {
      var front := stages[..|stages| - 1];
      var s := stages[|stages| - 1];
      assert NoStageRecordAt(p, front) by {
        forall j | 0 <= j < |front| ensures front[j] == stages[j] { }
      }
      LoopLeavesOtherRecords(ctx, front, st, p);
      StepLeavesOtherRecords(ctx, s, Steps(ctx, front, st), p);
    }
  }

  /** `p` cannot end like a record of a stage whose name is non-empty and does not end in `l`. */
  lemma FinalPathIsNoStageRecord(prefix: string, name: string)
    requires name != [] && name[|name| - 1] != 'l'
    ensures !EndsWith(FinalRecordPath(prefix), "_" + name + ".incfg")
    ensures !EndsWith(FinalRecordPath(prefix), "_" + name + ".outcfg")
  {
    var p := FinalRecordPath(prefix);
    var n := |p|;
    assert p[n - 8] == 'l' && p[n - 6] == 'o';
    var qi := "_" + name + ".incfg";
    SuffixChar(p, qi, 6);
    assert qi[|qi| - 6] == '.';
    var qo := "_" + name + ".outcfg";
    SuffixChar(p, qo, 8);
    assert qo[|qo| - 8] == name[|name| - 1];
  }

  /** A string ending in `q` has the character of `q` at the same distance from its end. */
  lemma SuffixChar(p: string, q: string, i: nat)
    requires 0 < i <= |q|
    ensures EndsWith(p, q) ==> p[|p| - i] == q[|q| - i]
  {
    if EndsWith(p, q) {
      assert p[|p| - i] == p[|p| - |q|..][|q| - i];
    }
  }

  /** No stage record of a registered pipeline can sit at a final-record path. */
  lemma FinalRecordIsNoStageRecord(prefix: string, pipeline: seq<Stage>)
    requires pipeline in Pipelines().Values
    ensures NoStageRecordAt(FinalRecordPath(prefix), pipeline)
  {
    forall j | 0 <= j < |pipeline|
      ensures !EndsWith(FinalRecordPath(prefix), "_" + pipeline[j].name + ".incfg")
      ensures !EndsWith(FinalRecordPath(prefix), "_" + pipeline[j].name + ".outcfg")
    {
      var name := pipeline[j].name;
      assert name != [] && name[|name| - 1] != 'l';
      FinalPathIsNoStageRecord(prefix, name);
    }
  }

  /**
   * A failed execution leaves the final record as it was: it is written only after the whole
   * loop succeeds.
   */
  lemma FailureWritesNoFinalRecord(inv: Invocation, env: Env, disk: Disk)
    requires inv.global.Some? && PrefixKey in inv.global.value && inv.global.value[PrefixKey].Str?
    ensures var o := ExecuteSpec(inv, env, disk);
            var path := FinalRecordPath(inv.global.value[PrefixKey].s);
            o.result.Err? ==>
              && (path in o.disk.records <==> path in disk.records)
              && (path in disk.records ==> o.disk.records[path] == disk.records[path])
  {
    if MissingRequired(inv) == {} && inv.pipeline.value in Pipelines() && inv.stages.Names? {
      var global := inv.global.value;
      var prefix := global[PrefixKey].s;
      var ctx := Ctx(inv, env, inv.stages.names, prefix);
      var init := LoopState(Running, global, |inv.stages.names|, disk.CreatePrefixFolders(prefix), []);
      var pipeline := Pipelines()[inv.pipeline.value];
      FinalRecordIsNoStageRecord(prefix, pipeline);
      LoopLeavesOtherRecords(ctx, pipeline, init, FinalRecordPath(prefix));
    }
  }
}
