/**
 * The session logic of one browser session: the state `init_state` sets
 * up, the "Apply Fix & Retry" handler with its budget of two attempts, the
 * regeneration of the assets and the 20-step run. One call of `ScriptRun`
 * is one pass of the script after a widget interaction. The asset
 * directories live beside the session, one per demo, and the session reads
 * the scenario catalog through `catalog`.
 */
module Simulator {
  import opened Wrappers
  import opened Artifacts
  import opened Catalog
  import opened Generator
  import opened Verifier
  import opened Mitigator
  import opened Pipeline

  /** What the fix handler did on this pass. */
  datatype FixOutcome =
    | NotRequested
    | NoFailureYet
    | AttemptsExhausted
    | Applied(message: string)
    | MitigationFailed(message: string)

  /** The largest number of fixes a session may apply. */
  const MaxAttempts: nat := 2

  /** The mitigation of scenario `sc` against its directory, if the store has one. */
  function FixOf(dirs: map<nat, Artifacts>, k: nat, sc: Scenario): Mitigation {
    if k in dirs then Mitigate(dirs[k], sc) else MitigateAbsent(sc)
  }

  /** The handler's decision, from the state before the pass. */
  function FixDecision(failure: Option<Failure>, attempts: nat, m: Mitigation): FixOutcome {
    if failure.None? then NoFailureYet
    else if attempts >= MaxAttempts then AttemptsExhausted
    else if m.ok then Applied(m.message)
    else MitigationFailed(m.message)
  }

  /** Every directory in the store holds the baseline of its demo. */
  ghost predicate Baselines(dirs: map<nat, Artifacts>, catalog: seq<Scenario>) {
    forall k :: k in dirs ==> k < |catalog| && dirs[k] == Baseline(catalog[k])
  }

  /** Every directory but demo `d`'s holds the baseline of its demo. */
  ghost predicate BaselinesExcept(dirs: map<nat, Artifacts>, catalog: seq<Scenario>, d: nat) {
    forall k :: k in dirs && k != d ==> k < |catalog| && dirs[k] == Baseline(catalog[k])
  }

  /**
   * Why a retry fails again: the fix does repair the demo's baseline, but a
   * successful fix requests a run, the run regenerates the baseline first,
   * and the run over the baseline fails at the same step with the same
   * detail as before (demo 1 aside, whose baseline already passes).
   */
  lemma RetryFailsAgain(k: nat)
    requires k < |Scenarios| && Scenarios[k].defect != MissingDependency
    ensures var sc := Scenarios[k]; var m := Mitigate(Baseline(sc), sc);
      m.ok && CheckStep(m.after, sc, sc.failureStep).passed
    ensures var sc := Scenarios[k];
      Run(Baseline(sc), sc).failure == Some(Failure(sc.failureStep, BaselineDetail(sc.defect)))
  {
    MitigatedBaselines(Scenarios[k]);
    RunOfBaseline(k);
  }

  class Session {
    /** The scenario catalog, by selector position. */
    const catalog: seq<Scenario>
    var demoKey: Option<nat>
    var debugAttempts: nat
    var lastRunLogs: seq<string>
    var lastFailure: Option<Failure>
    var pipelineCompleted: bool
    var running: bool
    /** The asset directories on disk, by demo. */
    var dirs: map<nat, Artifacts>

    /**
     * Between passes: at most two fixes used, no run in progress, every
     * directory holding its demo's baseline (a successful fix always
     * requests a run, which regenerates), and the selected demo has one.
     */
    ghost predicate Valid()
      reads this
    {
      && debugAttempts <= MaxAttempts
      && !running
      && Baselines(dirs, catalog)
      && (demoKey.Some? ==> demoKey.value < |catalog| && demoKey.value in dirs)
    }

    /** `init_state()` on a server with no asset directories yet. */
    constructor ()
      ensures Valid() && catalog == Scenarios
      ensures demoKey == None && debugAttempts == 0 && lastRunLogs == [] && lastFailure == None
      ensures !pipelineCompleted && !running && dirs == map[]
    {
      catalog := Scenarios;
      demoKey := None;
      debugAttempts := 0;
      lastRunLogs := [];
      lastFailure := None;
      pipelineCompleted := false;
      running := false;
      dirs := map[];
    }

    /** `generate_assets`: wipe demo `k`'s directory and write its baseline. */
    method GenerateAssets(k: nat)
      requires k < |catalog|
      modifies this`dirs
      ensures dirs == old(dirs)[k := Baseline(catalog[k])]
    {
      dirs := dirs[k := Baseline(catalog[k])];
    }

    /** The "Apply Fix & Retry" handler, when the button was pressed. */
    method HandleFix(k: nat, pressed: bool) returns (outcome: FixOutcome)
      requires k < |catalog|
      modifies this`debugAttempts, this`dirs
      ensures outcome ==
        if pressed then FixDecision(lastFailure, old(debugAttempts), FixOf(old(dirs), k, catalog[k])) else NotRequested
      ensures outcome.Applied? ==>
        debugAttempts == old(debugAttempts) + 1 && dirs == old(dirs)[k := FixOf(old(dirs), k, catalog[k]).after]
      ensures !outcome.Applied? ==> debugAttempts == old(debugAttempts) && dirs == old(dirs)
    {
      if !pressed {
        outcome := NotRequested;
      } else if lastFailure.None? {
        outcome := NoFailureYet;
      } else if debugAttempts >= MaxAttempts {
        outcome := AttemptsExhausted;
      } else {
        var sc := catalog[k];
        var ok, msg, after;
        if k in dirs {
          ok, msg, after := ApplyMitigation(dirs[k], sc);
        } else {
          var m := MitigateAbsent(sc);
          ok, msg, after := m.ok, m.message, m.after;
        }
        if ok {
          debugAttempts := debugAttempts + 1;
          dirs := dirs[k := after];
          outcome := Applied(msg);
        } else {
          outcome := MitigationFailed(msg);
        }
      }
    }

    /**
     * The same "Apply Fix & Retry" handler as `HandleFix` (the source has one
     * button), called through a coarser contract: a fix is applied only on
     * request, after a recorded failure and within the budget; it touches
     * demo `k`'s directory alone and counts one attempt. `ScriptRun` calls it
     * so that its own proof need not unfold the mitigation.
     */
    method FixButton(k: nat, pressed: bool) returns (outcome: FixOutcome)
      requires k < |catalog| && Baselines(dirs, catalog)
      modifies this`debugAttempts, this`dirs
      ensures !pressed ==> outcome == NotRequested
      ensures outcome.Applied? ==>
        pressed && lastFailure.Some? && old(debugAttempts) < MaxAttempts
        && debugAttempts == old(debugAttempts) + 1 && dirs.Keys == old(dirs).Keys + {k}
      ensures !outcome.Applied? ==> debugAttempts == old(debugAttempts) && dirs == old(dirs)
      ensures BaselinesExcept(dirs, catalog, k)
    {
      outcome := HandleFix(k, pressed);
    }

    /**
     * A run, when one is requested: clear the record, run the 20 steps and
     * keep their log lines and failure, and set the completion flag when no
     * step failed.
     */
    method RunPipeline(k: nat, run: bool)
      requires k < |catalog| && k in dirs && !running
      modifies this`running, this`lastRunLogs, this`lastFailure, this`pipelineCompleted
      ensures run ==> var r := Run(dirs[k], catalog[k]);
        lastRunLogs == r.logs && lastFailure == r.failure && pipelineCompleted == r.failure.None?
      ensures !run ==>
        lastRunLogs == old(lastRunLogs) && lastFailure == old(lastFailure)
        && pipelineCompleted == old(pipelineCompleted)
      ensures !running
    {
      if run {
        running := true;
        lastRunLogs := [];
        pipelineCompleted := false;
        lastFailure := None;
        lastRunLogs, lastFailure := RunSteps(dirs[k], catalog[k]);
        if lastFailure.None? {
          pipelineCompleted := true;
        }
        running := false;
      }
    }

    /** Regenerate demo `demo`'s assets when its directory is missing, nothing has run yet or a run is requested. */
    method EnsureAssets(demo: nat, run: bool)
      requires demo < |catalog|
      requires BaselinesExcept(dirs, catalog, demo)
      requires !run && demo in dirs ==> dirs[demo] == Baseline(catalog[demo])
      modifies this`dirs
      ensures Baselines(dirs, catalog) && dirs.Keys == old(dirs).Keys + {demo}
      ensures dirs == old(dirs)[demo := Baseline(catalog[demo])]
    {
      if demo !in dirs || lastRunLogs == [] || run {
        GenerateAssets(demo);
      }
    }

    /**
     * One pass of the script: select demo `demo`, handle the fix button,
     * regenerate the assets when the directory is missing, nothing has run
     * yet or a run is requested (a successful fix requests one), then run.
     */
    method ScriptRun(demo: nat, runBtn: bool, fixBtn: bool) returns (outcome: FixOutcome)
      requires Valid() && demo < |catalog|
      modifies this
      ensures Valid()
      ensures demoKey == Some(demo)
      ensures !fixBtn ==> outcome == NotRequested
      ensures outcome.Applied? ==> fixBtn && old(lastFailure).Some? && old(debugAttempts) < MaxAttempts
      ensures debugAttempts == old(debugAttempts) + (if outcome.Applied? then 1 else 0)
      ensures dirs.Keys == old(dirs).Keys + {demo}
      ensures runBtn || outcome.Applied? ==>
        var sc := catalog[demo]; var r := Run(Baseline(sc), sc);
        lastRunLogs == r.logs && lastFailure == r.failure && pipelineCompleted == r.failure.None?
      ensures !(runBtn || outcome.Applied?) ==>
        lastRunLogs == old(lastRunLogs) && lastFailure == old(lastFailure)
        && pipelineCompleted == old(pipelineCompleted)
    {
      demoKey := Some(demo);
      outcome := FixButton(demo, fixBtn);
      var run := runBtn || outcome.Applied?;
      EnsureAssets(demo, run);
      RunPipeline(demo, run);
    }
  }
}
