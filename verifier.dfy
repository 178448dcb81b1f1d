/**
 * The verifier (`check_step_truth`): a verdict for one pipeline step of one
 * scenario, computed from the contents of the scenario's files. Only the
 * scenario's failure step reads anything; a file that cannot be opened or
 * parsed turns into a failing verdict whose detail starts with
 * "check error: ", never into an escaping exception.
 */
module Verifier {
  import opened Wrappers
  import opened Text
  import opened Artifacts
  import opened Catalog
  import opened Generator

  datatype Verdict = Verdict(passed: bool, detail: string)

  const Pass := Verdict(true, "OK")

  function CheckError(message: string): Verdict {
    Verdict(false, "check error: " + message)
  }

  /** `key in env and len(env.split(key)[1].strip()) > 0`. */
  predicate KeyHasValue(env: string, key: string)
    requires |key| > 0
  {
    Contains(env, key) && |Strip(Split(env, key)[1])| > 0
  }

  /**
   * The same test with `strip()` replaced by its meaning: the key occurs and
   * the second piece of the split is not blank (`Blank` is stated by itself).
   */
  ghost predicate KeySet(env: string, key: string)
    requires |key| > 0
  {
    var pieces := Split(env, key);
    |pieces| > 1 && !Blank(pieces[1])
  }

  /** `prof.get("p90_ms", 9999) <= 1000`, with the detail `f"p90={prof.get('p90_ms')}ms"`. */
  function LatencyVerdict(prof: Document): (v: Verdict)
    ensures "p90_ms" !in prof ==> v == Verdict(false, "p90=Nonems")
    ensures v.passed <==>
      "p90_ms" in prof && (prof["p90_ms"].BoolValue? || (prof["p90_ms"].IntValue? && prof["p90_ms"].i <= 1000))
  {
    match Get(prof, "p90_ms", IntValue(9999))
    case IntValue(n) =>
      Verdict(n <= 1000, "p90=" + (if "p90_ms" in prof then IntToString(n) else "None") + "ms")
    case BoolValue(b) =>
      // a Python bool compares as 0 or 1
      Verdict(true, "p90=" + (if b then "True" else "False") + "ms")
    case NullValue => CheckError("'<=' not supported between instances of 'NoneType' and 'int'")
    case StrValue(_) => CheckError("'<=' not supported between instances of 'str' and 'int'")
  }

  /** The defect-specific inspection performed at the failure step. */
  function Inspect(a: Artifacts, d: Defect): Verdict {
    match d
    case MissingDependency =>
      (match a.requirements
       case Present(req) =>
         (match a.model
          case Present(code) =>
            var declared := Contains(req, "numpy");
            var imported := Contains(code, "numpy");
            Verdict(declared || !imported, if declared then "numpy present" else "numpy missing")
          case _ => CheckError(ReadError(ModelPy, a.model)))
       case _ => CheckError(ReadError(RequirementsTxt, a.requirements)))
    case DockerfileSyntax =>
      (match a.dockerfile
       case Present(content) =>
         var invalid := Contains(content, "COPY.");
         Verdict(!invalid, if !invalid then "Dockerfile COPY valid" else "Invalid COPY directive")
       case _ => CheckError(ReadError(Dockerfile, a.dockerfile)))
    case EnvMissing =>
      (match a.env
       case Present(env) =>
         var ok := KeyHasValue(env, "DB_USER=") && KeyHasValue(env, "DB_PASS=") && KeyHasValue(env, "DB_HOST=");
         Verdict(ok, if ok then "env ok" else "env keys missing")
       case _ => CheckError(ReadError(DotEnv, a.env)))
    case NullValues =>
      (match a.data
       case Present(df) =>
         var ok := !AnyMissing(df);
         Verdict(ok, if ok then "no NaNs" else "NaNs present")
       case _ => CheckError(ReadError(DataCsv, a.data)))
    case HighLatency =>
      (match a.profile
       case Present(prof) => LatencyVerdict(prof)
       case _ => CheckError(ReadError(ProfileJson, a.profile)))
    case PublicBucket =>
      (match a.policy
       case Present(policy) =>
         var open := Truthy(Get(policy, "public_write", BoolValue(false)));
         Verdict(!open, if !open then "public_write=false" else "public_write=true")
       case _ => CheckError(ReadError(IacYaml, a.policy)))
    case MemoryLeak =>
      (match a.model
       case Present(code) =>
         var leaking := Contains(code, "LEAK_DEMO = True");
         Verdict(!leaking, if !leaking then "no leak" else "leak flag true")
       case _ => CheckError(ReadError(ModelPy, a.model)))
    case SchemaDrift =>
      (match a.training
       case Present(df) =>
         var ok := HasColumn(df, "target");
         Verdict(ok, if ok then "target present" else "target missing")
       case _ => CheckError(ReadError(TrainingCsv, a.training)))
  }

  /**
   * `check_step_truth(base_dir, scenario_key, step_idx)`. Only the failure
   * step can fail; every other step passes with "OK".
   */
  function CheckStep(a: Artifacts, sc: Scenario, step: int): (v: Verdict)
    ensures !v.passed ==> step == sc.failureStep
  {
    if step < sc.failureStep then Pass
    else if step == sc.failureStep then Inspect(a, sc.defect)
    // no branch applies to a step past the failure step
    else Pass
  }

  /** The files the inspection of defect `d` opens, all of them readable. */
  ghost predicate Readable(a: Artifacts, d: Defect) {
    match d
    case MissingDependency => a.requirements.Present? && a.model.Present?
    case DockerfileSyntax => a.dockerfile.Present?
    case EnvMissing => a.env.Present?
    case NullValues => a.data.Present?
    case HighLatency => a.profile.Present?
    case PublicBucket => a.policy.Present?
    case MemoryLeak => a.model.Present?
    case SchemaDrift => a.training.Present?
  }

  // ---------------------------------------------------------------------
  // Properties of the verifier
  // ---------------------------------------------------------------------

  /**
   * Every step other than the failure step passes with "OK", whatever the
   * files hold: the verdict does not depend on the artifacts at all.
   */
  lemma OnlyFailureStepInspects(a: Artifacts, b: Artifacts, sc: Scenario, step: int)
    requires step != sc.failureStep
    ensures CheckStep(a, sc, step) == CheckStep(b, sc, step) == Verdict(true, "OK")
  {
  }

  /**
   * An unreadable file never escapes as an exception: the verdict fails
   * with a "check error: " detail.
   */
  lemma UnreadableFilesFail(a: Artifacts, sc: Scenario)
    ensures var v := CheckStep(a, sc, sc.failureStep);
      !Readable(a, sc.defect) ==> !v.passed && v.detail[..13] == "check error: "
  {
  }

  /** A key counts as set exactly when the piece after its first occurrence is not blank. */
  lemma KeyHasValueMeaning(env: string, key: string)
    requires |key| > 0
    ensures KeyHasValue(env, key) <==> KeySet(env, key)
  {
    var pieces := Split(env, key);
    if |pieces| > 1 {
      StripEmptyIffBlank(pieces[1]);
    }
  }

  /**
   * The verdict at the failure step, defect by defect, in terms of the
   * independent specifications of substring and blankness.
   */
  lemma InspectionMeaning(a: Artifacts, sc: Scenario)
    requires Readable(a, sc.defect)
    ensures var v := CheckStep(a, sc, sc.failureStep);
      match sc.defect
      case MissingDependency =>
        v.passed <==> Substring("numpy", a.requirements.content) || !Substring("numpy", a.model.content)
      case DockerfileSyntax => v.passed <==> !Substring("COPY.", a.dockerfile.content)
      case EnvMissing =>
        v.passed <==> KeySet(a.env.content, "DB_USER=") && KeySet(a.env.content, "DB_PASS=")
                      && KeySet(a.env.content, "DB_HOST=")
      case NullValues =>
        v.passed <==> forall k, j :: 0 <= k < |a.data.content.columns| && 0 <= j < |a.data.content.columns[k].cells|
                        ==> a.data.content.columns[k].cells[j].Some?
      case HighLatency =>
        v.passed <==> "p90_ms" in a.profile.content
                      && (a.profile.content["p90_ms"].BoolValue?
                          || (a.profile.content["p90_ms"].IntValue? && a.profile.content["p90_ms"].i <= 1000))
      case PublicBucket =>
        v.passed <==> !("public_write" in a.policy.content && Truthy(a.policy.content["public_write"]))
      case MemoryLeak => v.passed <==> !Substring("LEAK_DEMO = True", a.model.content)
      case SchemaDrift =>
        v.passed <==> exists k :: 0 <= k < |a.training.content.columns| && a.training.content.columns[k].name == "target"
  {
    match sc.defect
    case MissingDependency =>
      ContainsIsSubstring(a.requirements.content, "numpy");
      ContainsIsSubstring(a.model.content, "numpy");
    case DockerfileSyntax =>
      ContainsIsSubstring(a.dockerfile.content, "COPY.");
    case EnvMissing =>
      KeyHasValueMeaning(a.env.content, "DB_USER=");
      KeyHasValueMeaning(a.env.content, "DB_PASS=");
      KeyHasValueMeaning(a.env.content, "DB_HOST=");
    case MemoryLeak =>
      ContainsIsSubstring(a.model.content, "LEAK_DEMO = True");
    case _ =>
  }

  /**
   * When `key` occurs exactly once, `env.split(key)[1]` is the whole rest of
   * the file after it, not just the rest of its line.
   */
  lemma {:induction false} FieldOfSoleOccurrence(s: string, key: string, i: nat)
    requires |key| > 0 && IndexOf(s, key) == Some(i) && IndexFrom(s, key, i + 1).None?
    ensures |Split(s, key)| == 2 && Split(s, key)[1] == s[i + |key|..]
  {
    var rest := s[i + |key|..];
    forall j | 0 <= j ensures !OccursAt(rest, key, j) {
      if j + |key| <= |rest| {
        assert rest[j..j + |key|] == s[i + |key| + j..i + |key| + j + |key|];
        assert !OccursAt(s, key, i + |key| + j);
      }
    }
    ContainsIsSubstring(rest, key);
  }

  /** A key that occurs once and is followed by a non-space character counts as set. */
  lemma SoleKeySet(s: string, key: string, i: nat)
    requires |key| > 0 && IndexOf(s, key) == Some(i) && IndexFrom(s, key, i + 1).None?
    requires i + |key| < |s| && !IsSpace(s[i + |key|])
    ensures KeySet(s, key)
  {
    FieldOfSoleOccurrence(s, key, i);
    assert s[i + |key|..][0] == s[i + |key|];
  }

  /**
   * The incomplete `.env`: `DB_USER=` counts as set, because its rest of the
   * file holds the comment line; `DB_PASS=` is absent; `DB_HOST=` is
   * followed only by a newline.
   */
  lemma IncompleteEnvKeysSet()
    ensures KeySet(IncompleteEnv, "DB_USER=")
    ensures !KeySet(IncompleteEnv, "DB_PASS=")
    ensures !KeySet(IncompleteEnv, "DB_HOST=")
  {
    var s := IncompleteEnv;
    IncompleteEnvKeys();
    FieldOfSoleOccurrence(s, "DB_USER=", 0);
    assert s[8..][1] == s[9] == '#';
    ContainsIsSubstring(s, "DB_PASS=");
    FieldOfSoleOccurrence(s, "DB_HOST=", 27);
    assert s[35..] == "\n";
  }

  /** The detail a baseline produces at its failure step. */
  function BaselineDetail(d: Defect): string {
    match d
    case MissingDependency => "numpy present"
    case DockerfileSyntax => "Invalid COPY directive"
    case EnvMissing => "env keys missing"
    case NullValues => "NaNs present"
    case HighLatency => "p90=1400ms"
    case PublicBucket => "public_write=true"
    case MemoryLeak => "leak flag true"
    case SchemaDrift => "target missing"
  }

  /**
   * Every baseline fails at its failure step except the missing-dependency
   * one, which passes because its manifest's comment line contains "numpy".
   */
  lemma BaselineVerdict(sc: Scenario)
    ensures CheckStep(Baseline(sc), sc, sc.failureStep)
         == Verdict(sc.defect == MissingDependency, BaselineDetail(sc.defect))
  {
    match sc.defect
    case MissingDependency | DockerfileSyntax | EnvMissing | MemoryLeak => BaselineTextVerdict(sc);
    case NullValues | HighLatency | PublicBucket | SchemaDrift => BaselineRecordVerdict(sc);
  }

  /** The defects whose check reads a plain-text file, and those whose check reads a table or a document. */
  const TextDefects := {MissingDependency, DockerfileSyntax, EnvMissing, MemoryLeak}
  const RecordDefects := {NullValues, HighLatency, SchemaDrift, PublicBucket}

  lemma BaselineTextVerdict(sc: Scenario)
    requires sc.defect in TextDefects
    ensures Inspect(Baseline(sc), sc.defect) == Verdict(sc.defect == MissingDependency, BaselineDetail(sc.defect))
  {
    var a := Baseline(sc);
    var v := Inspect(a, sc.defect);
    if sc.defect == MissingDependency {
      DependencyRequirementsMentionNumpy();
      OccurrenceFound(DependencyRequirements, "numpy", 16);
      assert a.requirements == Present(DependencyRequirements) && a.model.Present?;
      assert v == Verdict(true, "numpy present");
    } else if sc.defect == DockerfileSyntax {
      BrokenDockerfileHasBadCopy();
      OccurrenceFound(BrokenDockerfile, "COPY.", 35);
      assert a.dockerfile == Present(BrokenDockerfile);
      assert v == Verdict(false, "Invalid COPY directive");
    } else if sc.defect == EnvMissing {
      BaselineEnvVerdict();
      assert a.env == Present(IncompleteEnv);
      assert v == Verdict(false, "env keys missing");
    } else {
      LeakyModelSetsFlag();
      OccurrenceFound(LeakyModel, "LEAK_DEMO = True", 13);
      assert a.model == Present(LeakyModel);
      assert v == Verdict(false, "leak flag true");
    }
  }

  lemma BaselineRecordVerdict(sc: Scenario)
    requires sc.defect in RecordDefects
    ensures Inspect(Baseline(sc), sc.defect) == Verdict(false, BaselineDetail(sc.defect))
  {
    var a := Baseline(sc);
    var v := Inspect(a, sc.defect);
    if sc.defect == NullValues {
      assert a.data == Present(TransactionData);
      assert TransactionData.columns[0].cells[1].None?;
      assert v == Verdict(false, "NaNs present");
    } else if sc.defect == HighLatency {
      SlowProfileVerdict();
      assert a.profile == Present(SlowProfile);
    } else if sc.defect == SchemaDrift {
      assert a.training == Present(DriftedTraining);
      assert forall k :: 0 <= k < 3 ==> DriftedTraining.columns[k].name != "target";
      assert v == Verdict(false, "target missing");
    } else {
      assert a.policy == Present(PublicPolicy);
      assert v == Verdict(false, "public_write=true");
    }
  }

  /** The recorded p90 of 1400 ms misses the objective. */
  lemma SlowProfileVerdict()
    ensures LatencyVerdict(SlowProfile) == Verdict(false, "p90=1400ms")
  {
    assert Get(SlowProfile, "p90_ms", IntValue(9999)) == IntValue(1400);
    assert NatToString(14) == "14";
    assert NatToString(140) == "140";
    assert IntToString(1400) == "1400";
  }

  /** The incomplete `.env` fails the provisioning check. */
  lemma BaselineEnvVerdict()
    ensures Inspect(EmptyDir.(env := Present(IncompleteEnv)), EnvMissing) == Verdict(false, "env keys missing")
    ensures !KeyHasValue(IncompleteEnv, "DB_PASS=")
  {
    IncompleteEnvKeysSet();
    KeyHasValueMeaning(IncompleteEnv, "DB_PASS=");
  }
}
