/**
 * The baseline generator: the files `generate_assets` writes into a freshly
 * wiped scenario directory. Each scenario gets the common `app.py` plus the
 * files that carry its defect.
 *
 * Some literals are written as concatenations (split at `=` or at line ends);
 * they denote the same strings as in the generator and let the proofs locate
 * individual characters.
 */
module Generator {
  import opened Wrappers
  import opened Text
  import opened Artifacts
  import opened Catalog

  /** The common `app.py`, after `textwrap.dedent(...).strip()`. */
  function AppEntrypoint(key: string): string {
    "# minimal app entrypoint for " + key + "\ndef predict(x): \n    return x"
  }

  // missing_dependency: the code imports numpy, the manifest only mentions it in a comment.
  const DependencyModel: string := "import " + "numpy" + " as np\n\nDEF_FLAG=1\n"
  const DependencyRequirements: string := "pandas==2.2.2\n" + "# " + "numpy" + " intentionally missing\n"

  // dockerfile_syntax: `COPY.` lacks the separator and the destination.
  const BrokenDockerfile: string :=
    "FROM python:3.11-slim\n" + "WORKDIR /app\n" + "COPY." + "\n" + "RUN pip install -r requirements.txt\n"
  const DockerRequirements: string := "pandas==2.2.2\n"

  // env_missing: DB_USER and DB_HOST are empty, DB_PASS is only named in a comment.
  const IncompleteEnv: string := "DB_USER" + "=" + "\n# DB_PASS missing\nDB_HOST" + "=" + "\n"
  const ProvisionSpec: string := "service: nlp-sentiment\nresources: test-db\n"

  // null_values: two of the four amounts are NaN.
  const TransactionData: Table := Table(4, [
    Column("amount", [Some(Num(100.0)), None, Some(Num(45.0)), None]),
    Column("merchant", [Some(Text("a")), Some(Text("b")), Some(Text("c")), Some(Text("d"))])
  ])

  // high_latency: the recorded p90 exceeds the 1000 ms objective.
  const SlowProfile: Document := map["p90_ms" := IntValue(1400), "notes" := StrValue("needs tuning")]

  // public_bucket: the bucket policy grants public write.
  const PublicPolicy: Document := map["bucket" := StrValue("my-forecast-bucket"), "public_write" := BoolValue(true)]

  // memory_leak: the flag makes every inference call grow a global buffer.
  const LeakyModel: string :=
    "\n" + "buffer = []\n" + "LEAK_DEMO = True" + "\n" + "def infer(x):\n" + "    global buffer\n"
    + "    if LEAK_DEMO:\n" + "        buffer.append(bytes(1024*256))  # grow 256KB per call\n" + "    return x\n"

  // schema_drift: the training set calls its target `label`.
  const DriftedTraining: Table := Table(3, [
    Column("feature1", [Some(Num(1.0)), Some(Num(2.0)), Some(Num(3.0))]),
    Column("feature2", [Some(Num(0.1)), Some(Num(0.2)), Some(Num(0.3))]),
    Column("label", [Some(Num(0.0)), Some(Num(1.0)), Some(Num(0.0))])
  ])

  /** The directory `generate_assets` leaves behind for scenario `sc`. */
  function Baseline(sc: Scenario): Artifacts {
    var dir := EmptyDir.(app := Present(AppEntrypoint(sc.key)));
    match sc.defect
    case MissingDependency =>
      dir.(model := Present(DependencyModel), requirements := Present(DependencyRequirements))
    case DockerfileSyntax =>
      dir.(dockerfile := Present(BrokenDockerfile), requirements := Present(DockerRequirements))
    case EnvMissing =>
      dir.(env := Present(IncompleteEnv), provision := Present(ProvisionSpec))
    case NullValues => dir.(data := Present(TransactionData))
    case HighLatency => dir.(profile := Present(SlowProfile))
    case PublicBucket => dir.(policy := Present(PublicPolicy))
    case MemoryLeak => dir.(model := Present(LeakyModel))
    case SchemaDrift => dir.(training := Present(DriftedTraining))
  }

  /** Both generated tables are well formed: one cell per row in every column. */
  lemma GeneratedTablesWellFormed()
    ensures WellFormed(TransactionData) && WellFormed(DriftedTraining)
  {
  }

  /** The only `=` signs of the incomplete `.env` are those of its two assignments. */
  lemma IncompleteEnvEquals()
    ensures forall k :: 0 <= k < |IncompleteEnv| && IncompleteEnv[k] == '=' ==> k == 7 || k == 34
  {
    assert '=' !in "DB_USER" && '=' !in "\n# DB_PASS missing\nDB_HOST" && '=' !in "\n";
  }

  /**
   * The three keys of the incomplete `.env`: `DB_USER=` occurs once, at the
   * start; `DB_PASS=` does not occur (the comment has no `=`); `DB_HOST=`
   * occurs once, at index 27.
   */
  lemma IncompleteEnvKeys()
    ensures IndexOf(IncompleteEnv, "DB_USER=") == Some(0) && IndexFrom(IncompleteEnv, "DB_USER=", 1).None?
    ensures !Substring("DB_PASS=", IncompleteEnv)
    ensures IndexOf(IncompleteEnv, "DB_HOST=") == Some(27) && IndexFrom(IncompleteEnv, "DB_HOST=", 28).None?
  {
    var s := IncompleteEnv;
    IncompleteEnvEquals();
    assert OccursAt(s, "DB_USER=", 0) && OccursAt(s, "DB_HOST=", 27);
    forall j | 0 <= j && j + 8 <= |s|
      ensures !OccursAt(s, "DB_PASS=", j)
      ensures j != 0 ==> !OccursAt(s, "DB_USER=", j)
      ensures j != 27 ==> !OccursAt(s, "DB_HOST=", j)
    {
      assert s[j..j + 8][7] == s[j + 7];
      if j == 0 {
        assert s[j..j + 8][3] == 'U';
      } else if j == 27 {
        assert s[j..j + 8][3] == 'H';
      }
    }
  }

  /** The baseline manifest mentions numpy, in its comment line, at index 16. */
  lemma DependencyRequirementsMentionNumpy()
    ensures OccursAt(DependencyRequirements, "numpy", 16)
  {
  }

  lemma BrokenDockerfileHasBadCopy()
    ensures OccursAt(BrokenDockerfile, "COPY.", 35)
  {
  }

  lemma LeakyModelSetsFlag()
    ensures OccursAt(LeakyModel, "LEAK_DEMO = True", 13)
  {
  }
}
