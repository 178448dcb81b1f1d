/**
 * The 20-step run: steps are checked in order, one log line each, and the
 * first failing step is recorded and ends the run.
 */
module Pipeline {
  import opened Wrappers
  import opened Artifacts
  import opened Catalog
  import opened Generator
  import opened Verifier

  /** `{"step": idx, "detail": detail}`. */
  datatype Failure = Failure(step: nat, detail: string)

  datatype RunResult = RunResult(logs: seq<string>, failure: Option<Failure>)

  /** `f"✅ {step}: OK ({detail})"` for step `i` (1-based). */
  function OkLine(i: nat, detail: string): string
    requires 1 <= i <= StepCount
  {
    "✅ " + Steps[i - 1] + ": OK (" + detail + ")"
  }

  /** `f"❌ {step}: {detail}"` for step `i` (1-based). */
  function FailLine(i: nat, detail: string): string
    requires 1 <= i <= StepCount
  {
    "❌ " + Steps[i - 1] + ": " + detail
  }

  /** The verdicts of steps 1..20, in order. */
  function StepVerdicts(a: Artifacts, sc: Scenario): (vs: seq<Verdict>)
    ensures |vs| == StepCount
    ensures forall s :: 1 <= s <= StepCount ==> vs[s - 1] == CheckStep(a, sc, s)
  {
    seq(StepCount, i requires 0 <= i < StepCount => CheckStep(a, sc, i + 1))
  }

  /** The run from step `i` on, given the verdict of every step. */
  function RunFrom(vs: seq<Verdict>, i: nat): RunResult
    requires |vs| == StepCount && 1 <= i <= StepCount + 1
    decreases StepCount + 1 - i
  {
    if i > StepCount then RunResult([], None)
    else
      var v := vs[i - 1];
      if v.passed then
        var rest := RunFrom(vs, i + 1);
        RunResult([OkLine(i, v.detail)] + rest.logs, rest.failure)
      else RunResult([FailLine(i, v.detail)], Some(Failure(i, v.detail)))
  }

  /** A whole run over the scenario's files. */
  function Run(a: Artifacts, sc: Scenario): RunResult {
    RunFrom(StepVerdicts(a, sc), 1)
  }

  /** The verdict of step `s` (1-based). */
  function At(vs: seq<Verdict>, s: nat): Verdict
    requires 1 <= s <= |vs|
  {
    vs[s - 1]
  }

  /** The lines `logs` already written, followed by the rest of a run. */
  function Prepend(logs: seq<string>, r: RunResult): RunResult {
    RunResult(logs + r.logs, r.failure)
  }

  /** A passing step `i` moves its "OK" line from the rest of the run to the lines written. */
  lemma RunAdvance(vs: seq<Verdict>, logs: seq<string>, i: nat)
    requires |vs| == StepCount && 1 <= i <= StepCount && At(vs, i).passed
    ensures Prepend(logs, RunFrom(vs, i)) == Prepend(logs + [OkLine(i, At(vs, i).detail)], RunFrom(vs, i + 1))
  {
    var rest := RunFrom(vs, i + 1);
    assert logs + ([OkLine(i, At(vs, i).detail)] + rest.logs) == logs + [OkLine(i, At(vs, i).detail)] + rest.logs;
  }

  /** A failing step `i` ends the run with its failure line and record. */
  lemma RunStop(vs: seq<Verdict>, logs: seq<string>, i: nat)
    requires |vs| == StepCount && 1 <= i <= StepCount && !At(vs, i).passed
    ensures Prepend(logs, RunFrom(vs, i))
         == RunResult(logs + [FailLine(i, At(vs, i).detail)], Some(Failure(i, At(vs, i).detail)))
  {
  }

  /** The loop of the run: steps 1..20 in order, one line each, stopping at the first failure. */
  method RunSteps(a: Artifacts, sc: Scenario) returns (logs: seq<string>, failure: Option<Failure>)
    ensures RunResult(logs, failure) == Run(a, sc)
  {
    logs, failure := [], None;
    ghost var vs := StepVerdicts(a, sc);
    var idx := 1;
    while idx <= StepCount
      invariant 1 <= idx <= StepCount + 1
      invariant Prepend(logs, RunFrom(vs, idx)) == RunFrom(vs, 1)
      decreases StepCount + 1 - idx
    {
      var v := CheckStep(a, sc, idx);
      assert v == At(vs, idx);
      if v.passed {
        RunAdvance(vs, logs, idx);
        logs := logs + [OkLine(idx, v.detail)];
        idx := idx + 1;
      } else {
        RunStop(vs, logs, idx);
        logs := logs + [FailLine(idx, v.detail)];
        failure := Some(Failure(idx, v.detail));
        break;
      }
    }
  }

  /** Steps `i..j-1` passed and were logged as such, in order, from log position 0. */
  ghost predicate PassedRange(vs: seq<Verdict>, logs: seq<string>, i: nat, j: nat)
    requires |vs| == StepCount && 1 <= i <= j <= StepCount + 1
  {
    |logs| >= j - i
    && forall s :: i <= s < j ==> At(vs, s).passed && logs[s - i] == OkLine(s, At(vs, s).detail)
  }

  /**
   * A run from step `i` that records no failure passed every remaining
   * step, with one "OK" line per step, in order.
   */
  lemma {:induction false} RunFromCompletes(vs: seq<Verdict>, i: nat)
    requires |vs| == StepCount && 1 <= i <= StepCount + 1
    ensures var r := RunFrom(vs, i);
      r.failure.None? ==> |r.logs| == StepCount + 1 - i && PassedRange(vs, r.logs, i, StepCount + 1)
    decreases StepCount + 1 - i
  {
    if i <= StepCount && vs[i - 1].passed {
      RunFromCompletes(vs, i + 1);
      var rest := RunFrom(vs, i + 1);
      if rest.failure.None? {
        PassedPrepend(vs, rest.logs, i, StepCount + 1);
      }
    }
  }

  /**
   * A run from step `i` that records a failure logged "OK" lines up to the
   * first failing step, recorded that step and its detail, added its
   * failure line and stopped.
   */
  lemma {:induction false} RunFromFails(vs: seq<Verdict>, i: nat)
    requires |vs| == StepCount && 1 <= i <= StepCount + 1
    ensures var r := RunFrom(vs, i);
      r.failure.Some? ==>
        var f := r.failure.value;
        i <= f.step <= StepCount && |r.logs| == f.step - i + 1
        && PassedRange(vs, r.logs, i, f.step)
        && !vs[f.step - 1].passed && f.detail == vs[f.step - 1].detail
        && r.logs[f.step - i] == FailLine(f.step, f.detail)
    decreases StepCount + 1 - i
  {
    if i <= StepCount && vs[i - 1].passed {
      RunFromFails(vs, i + 1);
      var rest := RunFrom(vs, i + 1);
      if rest.failure.Some? {
        PassedPrepend(vs, rest.logs, i, rest.failure.value.step);
      }
    }
  }

  /** A passing step `i` in front of a logged passing range `i+1..j-1` extends it. */
  lemma PassedPrepend(vs: seq<Verdict>, logs: seq<string>, i: nat, j: nat)
    requires |vs| == StepCount && 1 <= i < j <= StepCount + 1 && vs[i - 1].passed
    requires PassedRange(vs, logs, i + 1, j)
    ensures PassedRange(vs, [OkLine(i, vs[i - 1].detail)] + logs, i, j)
  {
    var l := [OkLine(i, vs[i - 1].detail)] + logs;
    assert l[1..] == logs;
  }

  /**
   * Since only the failure step inspects anything, a run of a catalog
   * scenario fails exactly when the check at its failure step fails, and
   * then at that step, after one "OK" line per earlier step.
   */
  lemma RunDecidedAtFailureStep(a: Artifacts, sc: Scenario)
    requires 1 <= sc.failureStep <= StepCount
    ensures var r := Run(a, sc);
      r.failure.Some? <==> !CheckStep(a, sc, sc.failureStep).passed
    ensures var r := Run(a, sc);
      r.failure.Some? ==> r.failure.value == Failure(sc.failureStep, CheckStep(a, sc, sc.failureStep).detail)
                          && |r.logs| == sc.failureStep
    ensures var r := Run(a, sc);
      r.failure.None? ==> |r.logs| == StepCount
  {
    var vs := StepVerdicts(a, sc);
    RunFromCompletes(vs, 1);
    RunFromFails(vs, 1);
    var r := Run(a, sc);
    if r.failure.Some? {
      var f := r.failure.value;
      if f.step != sc.failureStep {
        OnlyFailureStepInspects(a, a, sc, f.step);
      }
    } else {
      assert At(vs, sc.failureStep).passed;
    }
  }

  /**
   * The run over each generated baseline: the missing-dependency demo
   * completes all 20 steps, every other demo fails at its failure step
   * with the baseline's detail.
   */
  lemma RunOfBaseline(k: nat)
    requires k < |Scenarios|
    ensures var sc := Scenarios[k]; var r := Run(Baseline(sc), sc);
      if sc.defect == MissingDependency then r.failure.None? && |r.logs| == StepCount
      else r.failure == Some(Failure(sc.failureStep, BaselineDetail(sc.defect)))
  {
    var sc := Scenarios[k];
    CatalogShape();
    BaselineVerdict(sc);
    RunDecidedAtFailureStep(Baseline(sc), sc);
  }
}
