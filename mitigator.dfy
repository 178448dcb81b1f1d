/**
 * The mitigation engine (`apply_mitigation`): the guided fix of one
 * scenario rewrites the one file that carries its defect. It reports
 * success with the scenario's FMEA fix text, or failure with
 * "mitigation error: " and the exception text, in which case nothing was
 * written.
 */
module Mitigator {
  import opened Wrappers
  import opened Text
  import opened Artifacts
  import opened Catalog
  import opened Generator
  import opened Verifier
  import opened Fill

  datatype Mitigation = Mitigation(ok: bool, message: string, after: Artifacts)

  /** The line appended to the manifest. */
  const NumpyPin: string := "\n" + "numpy" + "==1.26.4\n"

  const BadCopy: string := "COPY."
  const GoodCopy: string := "COPY " + "." + " /app\n"

  /** The complete `.env` written over the incomplete one. */
  const FixedEnv: string := "DB_USER" + "=" + "demo\nDB_PASS" + "=" + "demo123\nDB_HOST" + "=" + "localhost\n"

  const LeakOn: string := "LEAK_DEMO = True"
  const LeakOff: string := "LEAK_DEMO " + "=" + " False\n# fixed"

  /** The file each mitigation rewrites. */
  function TargetFile(d: Defect): FileName {
    match d
    case MissingDependency => RequirementsTxt
    case DockerfileSyntax => Dockerfile
    case EnvMissing => DotEnv
    case NullValues => DataCsv
    case HighLatency => ProfileJson
    case PublicBucket => IacYaml
    case MemoryLeak => ModelPy
    case SchemaDrift => TrainingCsv
  }

  /**
   * The schema-drift repair: copy `label` into a new `target` column, or,
   * without a label, add a `target` column of zeros; a table that already
   * has a target is kept.
   */
  function WithTarget(t: Table): (r: Table)
    ensures HasColumn(r, "target")
    ensures r.rows == t.rows && |t.columns| <= |r.columns| && r.columns[..|t.columns|] == t.columns
    ensures HasColumn(t, "target") ==> r == t
    ensures !HasColumn(t, "target") ==> |r.columns| == |t.columns| + 1 && r.columns[|t.columns|].name == "target"
    ensures !HasColumn(t, "target") && HasColumn(t, "label") ==>
      exists k :: 0 <= k < |t.columns| && t.columns[k].name == "label"
                  && r.columns[|t.columns|].cells == t.columns[k].cells
    ensures !HasColumn(t, "target") && !HasColumn(t, "label") ==>
      r.columns[|t.columns|].cells == seq(t.rows, _ => Some(Num(0.0)))
    ensures WellFormed(t) ==> WellFormed(r)
  {
    var labelAt := ColumnIndex(t, "label");
    var r :=
      if labelAt.Some? && !HasColumn(t, "target") then
        t.(columns := t.columns + [Column("target", t.columns[labelAt.value].cells)])
      else if !HasColumn(t, "target") then
        t.(columns := t.columns + [Column("target", seq(t.rows, _ => Some(Num(0.0))))])
      else t;
    assert r.columns[..|t.columns|] == t.columns;
    assert !HasColumn(t, "target") ==> r.columns[|t.columns|].name == "target";
    r
  }

  function Failed(a: Artifacts, message: string): (m: Mitigation)
    ensures !m.ok && m.after == a && |m.message| >= 18 && m.message[..18] == "mitigation error: "
  {
    Mitigation(false, "mitigation error: " + message, a)
  }

  /** `apply_mitigation(base_dir, scenario_key)` on an existing directory. */
  function Mitigate(a: Artifacts, sc: Scenario): (m: Mitigation)
    ensures SameExcept(a, m.after, TargetFile(sc.defect))
    ensures m.ok ==> m.message == sc.fmea.mitigationFix
    ensures !m.ok ==> m.after == a && |m.message| >= 18 && m.message[..18] == "mitigation error: "
  {
    var fixed := sc.fmea.mitigationFix;
    match sc.defect
    case MissingDependency =>
      // append mode creates a missing file; appending to an undecodable one leaves it undecodable
      (match a.requirements
       case Present(req) => Mitigation(true, fixed, a.(requirements := Present(req + NumpyPin)))
       case Missing => Mitigation(true, fixed, a.(requirements := Present(NumpyPin)))
       case Corrupt(_) => Mitigation(true, fixed, a))
    case DockerfileSyntax =>
      (match a.dockerfile
       case Present(txt) => Mitigation(true, fixed, a.(dockerfile := Present(ReplaceAll(txt, BadCopy, GoodCopy))))
       case _ => Failed(a, ReadError(Dockerfile, a.dockerfile)))
    case EnvMissing =>
      Mitigation(true, fixed, a.(env := Present(FixedEnv)))
    case NullValues =>
      (match a.data
       case Present(df) => Mitigation(true, fixed, a.(data := Present(Filled(df))))
       case _ => Failed(a, ReadError(DataCsv, a.data)))
    case HighLatency =>
      (match a.profile
       case Present(prof) => Mitigation(true, fixed, a.(profile := Present(prof["p90_ms" := IntValue(400)])))
       case _ => Failed(a, ReadError(ProfileJson, a.profile)))
    case PublicBucket =>
      (match a.policy
       case Present(policy) =>
         Mitigation(true, fixed, a.(policy := Present(policy["public_write" := BoolValue(false)])))
       case _ => Failed(a, ReadError(IacYaml, a.policy)))
    case MemoryLeak =>
      (match a.model
       case Present(txt) => Mitigation(true, fixed, a.(model := Present(ReplaceAll(txt, LeakOn, LeakOff))))
       case _ => Failed(a, ReadError(ModelPy, a.model)))
    case SchemaDrift =>
      (match a.training
       case Present(df) => Mitigation(true, fixed, a.(training := Present(WithTarget(df))))
       case _ => Failed(a, ReadError(TrainingCsv, a.training)))
  }

  /**
   * `apply_mitigation` when the scenario directory does not exist: appending
   * to the manifest and reading any file fail, but the `.env` rewrite
   * creates the directory with that one file in it.
   */
  function MitigateAbsent(sc: Scenario): (m: Mitigation)
    ensures m.ok <==> sc.defect == EnvMissing
    ensures m.ok ==> m.after == EmptyDir.(env := Present(FixedEnv)) && m.message == sc.fmea.mitigationFix
    ensures !m.ok ==> m.message == "mitigation error: " + ReadError(TargetFile(sc.defect), EmptyDir.requirements)
  {
    if sc.defect == MissingDependency then Failed(EmptyDir, ReadError(RequirementsTxt, EmptyDir.requirements))
    else Mitigate(EmptyDir, sc)
  }

  /** The branch chain of `apply_mitigation`, with the column loop of the null-values repair. */
  method ApplyMitigation(a: Artifacts, sc: Scenario) returns (ok: bool, message: string, after: Artifacts)
    ensures Mitigation(ok, message, after) == Mitigate(a, sc)
  {
    ok, message, after := true, sc.fmea.mitigationFix, a;
    if sc.defect == MissingDependency {
      if a.requirements.Present? {
        after := a.(requirements := Present(a.requirements.content + NumpyPin));
      } else if a.requirements.Missing? {
        after := a.(requirements := Present(NumpyPin));
      }
    } else if sc.defect == DockerfileSyntax {
      if a.dockerfile.Present? {
        after := a.(dockerfile := Present(ReplaceAll(a.dockerfile.content, BadCopy, GoodCopy)));
      } else {
        ok, message := false, "mitigation error: " + ReadError(Dockerfile, a.dockerfile);
      }
    } else if sc.defect == EnvMissing {
      after := a.(env := Present(FixedEnv));
    } else if sc.defect == NullValues {
      if a.data.Present? {
        var df := FillMissingValues(a.data.content);
        after := a.(data := Present(df));
      } else {
        ok, message := false, "mitigation error: " + ReadError(DataCsv, a.data);
      }
    } else if sc.defect == HighLatency {
      if a.profile.Present? {
        after := a.(profile := Present(a.profile.content["p90_ms" := IntValue(400)]));
      } else {
        ok, message := false, "mitigation error: " + ReadError(ProfileJson, a.profile);
      }
    } else if sc.defect == PublicBucket {
      if a.policy.Present? {
        after := a.(policy := Present(a.policy.content["public_write" := BoolValue(false)]));
      } else {
        ok, message := false, "mitigation error: " + ReadError(IacYaml, a.policy);
      }
    } else if sc.defect == MemoryLeak {
      if a.model.Present? {
        after := a.(model := Present(ReplaceAll(a.model.content, LeakOn, LeakOff)));
      } else {
        ok, message := false, "mitigation error: " + ReadError(ModelPy, a.model);
      }
    } else {
      if a.training.Present? {
        after := a.(training := Present(WithTarget(a.training.content)));
      } else {
        ok, message := false, "mitigation error: " + ReadError(TrainingCsv, a.training);
      }
    }
  }

  // ---------------------------------------------------------------------
  // Properties of the mitigation engine
  // ---------------------------------------------------------------------

  /** The files a fix needs in order to make its own check pass. */
  ghost predicate Repairable(a: Artifacts, d: Defect) {
    match d
    case MissingDependency => !a.requirements.Corrupt? && a.model.Present?
    case DockerfileSyntax => a.dockerfile.Present?
    case EnvMissing => true
    case NullValues => a.data.Present? && forall k :: 0 <= k < |a.data.content.columns| ==> HasValueOrEmpty(a.data.content.columns[k])
    case HighLatency => a.profile.Present?
    case PublicBucket => a.policy.Present?
    case MemoryLeak => a.model.Present?
    case SchemaDrift => a.training.Present?
  }

  /** A fix reports failure exactly when the file it must read cannot be read. */
  lemma MitigationFails(a: Artifacts, sc: Scenario)
    ensures !Mitigate(a, sc).ok <==>
      match sc.defect
      case MissingDependency => false
      case EnvMissing => false
      case _ => !Readable(a, sc.defect)
  {
  }

  /** The '=' of the fixed `.env`, one per assignment. */
  lemma FixedEnvEquals()
    ensures |FixedEnv| == 47
    ensures forall k :: 0 <= k < |FixedEnv| && FixedEnv[k] == '=' ==> k == 7 || k == 20 || k == 36
  {
    assert '=' !in "DB_USER" && '=' !in "demo\nDB_PASS" && '=' !in "demo123\nDB_HOST" && '=' !in "localhost\n";
  }

  /** Each key of the fixed `.env` occurs exactly once: at 0, 13 and 29. */
  lemma FixedEnvKeys()
    ensures IndexOf(FixedEnv, "DB_USER=") == Some(0) && IndexFrom(FixedEnv, "DB_USER=", 1).None?
    ensures IndexOf(FixedEnv, "DB_PASS=") == Some(13) && IndexFrom(FixedEnv, "DB_PASS=", 14).None?
    ensures IndexOf(FixedEnv, "DB_HOST=") == Some(29) && IndexFrom(FixedEnv, "DB_HOST=", 30).None?
  {
    var s := FixedEnv;
    FixedEnvEquals();
    assert OccursAt(s, "DB_USER=", 0) && OccursAt(s, "DB_PASS=", 13) && OccursAt(s, "DB_HOST=", 29);
    forall j | 0 <= j && j + 8 <= |s|
      ensures j != 0 ==> !OccursAt(s, "DB_USER=", j)
      ensures j != 13 ==> !OccursAt(s, "DB_PASS=", j)
      ensures j != 29 ==> !OccursAt(s, "DB_HOST=", j)
    {
      assert s[j..j + 8][7] == s[j + 7];
      if j == 0 {
        assert s[j..j + 8][3] == 'U';
      } else if j == 13 {
        assert s[j..j + 8][3] == 'P';
      } else if j == 29 {
        assert s[j..j + 8][3] == 'H';
      }
    }
  }

  /** One key of the fixed `.env`, at its sole occurrence `i`, is followed by a value. */
  lemma FixedEnvKeySet(key: string, i: nat)
    requires (key, i) in [("DB_USER=", 0), ("DB_PASS=", 13), ("DB_HOST=", 29)]
    ensures KeySet(FixedEnv, key)
  {
    FixedEnvKeys();
    assert FixedEnv[8] == 'd' && FixedEnv[21] == 'd' && FixedEnv[37] == 'l';
    SoleKeySet(FixedEnv, key, i);
  }

  /** Each key of the fixed `.env` is followed by a value. */
  lemma FixedEnvKeysSet()
    ensures KeySet(FixedEnv, "DB_USER=") && KeySet(FixedEnv, "DB_PASS=") && KeySet(FixedEnv, "DB_HOST=")
  {
    FixedEnvKeySet("DB_USER=", 0);
    FixedEnvKeySet("DB_PASS=", 13);
    FixedEnvKeySet("DB_HOST=", 29);
  }

  /** The corrected COPY line cannot itself form a bad COPY. */
  lemma GoodCopyIsClean()
    ensures !Substring(BadCopy, GoodCopy)
  {
    assert '.' !in "COPY " && '.' !in " /app\n";
    forall j | 0 <= j ensures !OccursAt(GoodCopy, BadCopy, j) {
      if j + 5 <= |GoodCopy| {
        assert GoodCopy[j..j + 5][4] == GoodCopy[j + 4];
        if j == 1 {
          assert GoodCopy[j..j + 5][0] == 'O';
        }
      }
    }
  }

  /** The cleared flag line cannot itself set the flag. */
  lemma LeakOffIsClean()
    ensures !Substring(LeakOn, LeakOff)
  {
    forall j | 0 <= j ensures !OccursAt(LeakOff, LeakOn, j) {
      if j + 16 <= |LeakOff| {
        assert LeakOff[j..j + 16][10] == LeakOff[j + 10];
        if j == 0 {
          assert LeakOff[j..j + 16][12] == 'F';
        }
      }
    }
  }

  /** After the Dockerfile rewrite no bad COPY remains. */
  lemma DockerfileFixed(txt: string)
    ensures !Substring(BadCopy, ReplaceAll(txt, BadCopy, GoodCopy))
    ensures !Contains(ReplaceAll(txt, BadCopy, GoodCopy), BadCopy)
  {
    GoodCopyIsClean();
    ReplaceAllRemoves(txt, BadCopy, GoodCopy);
    ContainsIsSubstring(ReplaceAll(txt, BadCopy, GoodCopy), BadCopy);
  }

  /**
   * The Dockerfile fix on the generated Dockerfile rewrites the one bad
   * `COPY.` line and keeps every other line.
   */
  lemma FixedBaselineDockerfile()
    ensures ReplaceAll(BrokenDockerfile, BadCopy, GoodCopy)
      == "FROM python:3.11-slim\n" + "WORKDIR /app\n" + GoodCopy + "\n" + "RUN pip install -r requirements.txt\n"
  {
    var head := "FROM python:3.11-slim\n" + "WORKDIR /app\n";
    var tail := "\n" + "RUN pip install -r requirements.txt\n";
    assert BrokenDockerfile == head + BadCopy + tail;
    assert 'C' !in head && 'C' !in tail;
    ReplaceAllSingle(head, BadCopy, GoodCopy, tail);
  }

  /** After the model rewrite the leak flag is no longer set. */
  lemma LeakFixed(txt: string)
    ensures !Substring(LeakOn, ReplaceAll(txt, LeakOn, LeakOff))
    ensures !Contains(ReplaceAll(txt, LeakOn, LeakOff), LeakOn)
  {
    LeakOffIsClean();
    ReplaceAllRemoves(txt, LeakOn, LeakOff);
    ContainsIsSubstring(ReplaceAll(txt, LeakOn, LeakOff), LeakOn);
  }

  /**
   * A fix makes its scenario's check pass exactly when the files it needs
   * are there: a readable model beside a manifest that is not undecodable,
   * a readable Dockerfile, profile, policy, model or training table, and a
   * data table whose every column has a value (the `.env` is always
   * rewritten in full).
   */
  lemma MitigationRepairs(a: Artifacts, sc: Scenario)
    ensures CheckStep(Mitigate(a, sc).after, sc, sc.failureStep).passed <==> Repairable(a, sc.defect)
  {
    match sc.defect
    case MissingDependency | DockerfileSyntax | EnvMissing | MemoryLeak => TextMitigationRepairs(a, sc);
    case NullValues | HighLatency | PublicBucket | SchemaDrift => RecordMitigationRepairs(a, sc);
  }

  lemma TextMitigationRepairs(a: Artifacts, sc: Scenario)
    requires sc.defect in TextDefects
    ensures Inspect(Mitigate(a, sc).after, sc.defect).passed <==> Repairable(a, sc.defect)
  {
    match sc.defect
    case MissingDependency =>
      if a.requirements.Present? {
        PinMentionsNumpy(a.requirements.content);
      } else {
        PinMentionsNumpy([]);
        assert [] + NumpyPin == NumpyPin;
      }
    case DockerfileSyntax =>
      if a.dockerfile.Present? {
        DockerfileFixed(a.dockerfile.content);
      }
    case EnvMissing =>
      FixedEnvPasses();
    case MemoryLeak =>
      if a.model.Present? {
        LeakFixed(a.model.content);
      }
  }

  lemma RecordMitigationRepairs(a: Artifacts, sc: Scenario)
    requires sc.defect in RecordDefects
    ensures Inspect(Mitigate(a, sc).after, sc.defect).passed <==> Repairable(a, sc.defect)
  {
    match sc.defect
    case NullValues =>
      if a.data.Present? {
        FilledMeaning(a.data.content);
      }
    case HighLatency =>
    case PublicBucket =>
    case SchemaDrift =>
  }

  /** The appended pin names numpy, whatever the manifest held before. */
  lemma PinMentionsNumpy(req: string)
    ensures Contains(req + NumpyPin, "numpy")
  {
    var s := req + NumpyPin;
    assert s[|req| + 1..|req| + 6] == NumpyPin[1..6] == "numpy";
    OccurrenceFound(s, "numpy", |req| + 1);
  }

  /** The rewritten `.env` passes the provisioning check. */
  lemma FixedEnvPasses()
    ensures KeyHasValue(FixedEnv, "DB_USER=") && KeyHasValue(FixedEnv, "DB_PASS=") && KeyHasValue(FixedEnv, "DB_HOST=")
  {
    FixedEnvKeysSet();
    KeyHasValueMeaning(FixedEnv, "DB_USER=");
    KeyHasValueMeaning(FixedEnv, "DB_PASS=");
    KeyHasValueMeaning(FixedEnv, "DB_HOST=");
  }

  /**
   * Applying a fix a second time changes nothing more, for every defect but
   * the missing dependency, whose fix appends the pin once per application.
   */
  lemma MitigationIdempotent(a: Artifacts, sc: Scenario)
    requires sc.defect != MissingDependency
    ensures var m := Mitigate(a, sc); Mitigate(m.after, sc) == m
  {
    var m := Mitigate(a, sc);
    match sc.defect
    case DockerfileSyntax =>
      if a.dockerfile.Present? {
        var txt := ReplaceAll(a.dockerfile.content, BadCopy, GoodCopy);
        DockerfileFixed(a.dockerfile.content);
        ReplaceAllAbsent(txt, BadCopy, GoodCopy);
        assert m.after.(dockerfile := Present(ReplaceAll(txt, BadCopy, GoodCopy))) == m.after;
      }
    case NullValues =>
      if a.data.Present? {
        FilledIdempotent(a.data.content);
        assert m.after.(data := Present(Filled(Filled(a.data.content)))) == m.after;
      }
    case MemoryLeak =>
      if a.model.Present? {
        var txt := ReplaceAll(a.model.content, LeakOn, LeakOff);
        LeakFixed(a.model.content);
        ReplaceAllAbsent(txt, LeakOn, LeakOff);
        assert m.after.(model := Present(ReplaceAll(txt, LeakOn, LeakOff))) == m.after;
      }
    case HighLatency =>
      if a.profile.Present? {
        var prof := m.after.profile.content;
        assert prof["p90_ms" := IntValue(400)] == prof;
        assert m.after.(profile := Present(prof)) == m.after;
      }
    case PublicBucket =>
      if a.policy.Present? {
        var policy := m.after.policy.content;
        assert policy["public_write" := BoolValue(false)] == policy;
        assert m.after.(policy := Present(policy)) == m.after;
      }
    case SchemaDrift =>
      if a.training.Present? {
        assert m.after.(training := Present(WithTarget(m.after.training.content))) == m.after;
      }
    case EnvMissing =>
      assert m.after.(env := Present(FixedEnv)) == m.after;
  }

  /**
   * The latency and bucket fixes set their one key and keep every other key
   * of the document (the profile's notes, the policy's bucket name).
   */
  lemma DocumentFixKeepsOtherKeys(a: Artifacts, sc: Scenario)
    ensures sc.defect == HighLatency && a.profile.Present? ==>
      var before := a.profile.content; var after := Mitigate(a, sc).after.profile;
      after.Present? && after.content.Keys == before.Keys + {"p90_ms"} && after.content["p90_ms"] == IntValue(400)
      && forall key :: key in before && key != "p90_ms" ==> after.content[key] == before[key]
    ensures sc.defect == PublicBucket && a.policy.Present? ==>
      var before := a.policy.content; var after := Mitigate(a, sc).after.policy;
      after.Present? && after.content.Keys == before.Keys + {"public_write"}
      && after.content["public_write"] == BoolValue(false)
      && forall key :: key in before && key != "public_write" ==> after.content[key] == before[key]
  {
  }

  /** The dependency fix is not idempotent: each application appends another pin. */
  lemma DependencyFixAppends(a: Artifacts, sc: Scenario)
    requires sc.defect == MissingDependency && a.requirements.Present?
    ensures var m := Mitigate(a, sc);
      m.ok && m.after.requirements == Present(a.requirements.content + NumpyPin)
      && Mitigate(m.after, sc).after.requirements == Present(a.requirements.content + NumpyPin + NumpyPin)
      && Mitigate(m.after, sc) != m
  {
    var m := Mitigate(a, sc);
    assert |Mitigate(m.after, sc).after.requirements.content| > |m.after.requirements.content|;
  }

  /** The fix of every generated baseline succeeds and makes its check pass. */
  lemma MitigatedBaselines(sc: Scenario)
    ensures Mitigate(Baseline(sc), sc).ok
    ensures CheckStep(Mitigate(Baseline(sc), sc).after, sc, sc.failureStep).passed
  {
    var a := Baseline(sc);
    MitigationRepairs(a, sc);
    if sc.defect == NullValues {
      var t := TransactionData;
      assert t.columns[0].cells[0].Some? && t.columns[1].cells[0].Some?;
      assert HasValueOrEmpty(t.columns[0]) && HasValueOrEmpty(t.columns[1]);
    }
  }

  /** The mean of the generated amounts is that of 100 and 45. */
  lemma TransactionAmountMean()
    ensures Mean(TransactionData.columns[0].cells) == Some(72.5)
  {
    var c := TransactionData.columns[0].cells;
    assert c[..|c| - 1] == c[..3] && c[..3][..2] == c[..2] && c[..2][..1] == c[..1] && c[..1][..0] == [];
    assert c[..1][0] == Some(Num(100.0)) && SumPresent(c[..1][..0]) == 0.0;
    assert CountPresent(c[..1]) == 1 && SumPresent(c[..1]) == 100.0;
    assert CountPresent(c[..2]) == 1 && SumPresent(c[..2]) == 100.0;
    assert CountPresent(c[..3]) == 2 && SumPresent(c[..3]) == 145.0;
  }

  /**
   * The repair of the generated transactions: both missing amounts take the
   * mean of 100 and 45, and the merchant column is kept.
   */
  lemma RepairedTransactionData()
    ensures Filled(TransactionData) == Table(4, [
      Column("amount", [Some(Num(100.0)), Some(Num(72.5)), Some(Num(45.0)), Some(Num(72.5))]),
      TransactionData.columns[1]
    ])
  {
    var amount := TransactionData.columns[0];
    TransactionAmountMean();
    assert IsNumeric(amount.cells);
    var filled := FillNa(amount.cells, Num(72.5));
    assert filled == [Some(Num(100.0)), Some(Num(72.5)), Some(Num(45.0)), Some(Num(72.5))];
    assert FillColumn(amount) == Column("amount", filled);
    FillColumnComplete(TransactionData.columns[1]);
    assert Filled(TransactionData).columns == [Column("amount", filled), TransactionData.columns[1]];
  }
}
