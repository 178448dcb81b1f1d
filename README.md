# CI/CT/CD flight simulator: verified model of the engine

The simulator walks a 20-step CI/CT/CD pipeline over one of eight demo
projects. Each demo carries one real defect in a generated file. The
engine behind the page has four parts, all modelled here:

- the **scenario catalog**: eight demos, each with a defect type, the step
  at which it is checked and its FMEA text (module `Catalog`);
- the **baseline generator** `generate_assets`, which wipes a demo's
  directory and writes its defective files (module `Generator`);
- the **verifier** `check_step_truth`, which gives a verdict per (demo,
  step) from the file contents (module `Verifier`);
- the **mitigator** `apply_mitigation`, which rewrites the offending file
  (module `Mitigator`, with the null-value repair in `Fill`).

Two pieces of session logic drive them:

- the "Apply Fix & Retry" handler, with its budget of two attempts;
- the 20-step run, which stops at the first failing step (module
  `Pipeline`).

The session itself is the class `Simulator.Session`. One call of `ScriptRun`
is one pass of the Streamlit script. The Python string operations the
checks rely on (`in`, `replace`, `split`, `strip`, `str(int)`) are modelled
exactly in `Text`.

A directory is an `Artifacts` record with one entry per file. A file is
`Missing`, `Corrupt` (it exists but cannot be decoded or parsed) or
`Present` with its content:

- text files are strings;
- the CSV files are tables of columns of optional cells;
- the JSON profile and the YAML policy are maps from keys to scalars.

The directories of all demos form a map in the session, keyed by the demo's
position in the catalog.

What the model shows about the code:

- **The dependency baseline passes.** Demo 1's `requirements.txt` mentions
  numpy in a comment. The check is a plain substring test, so demo 1 passes
  all 20 steps (`Verifier.BaselineVerdict`, `Pipeline.RunOfBaseline`).
- **Two env keys fail, not one.** The env check looks at the text between
  the first and the second `KEY=`, or at the rest of the file when the key
  occurs once, as on the baseline (`Verifier.FieldOfSoleOccurrence`). It does
  not stop at the end of the line. On the baseline `.env`, `DB_USER=` counts
  as set because the comment line follows it. `DB_PASS=` is absent.
  `DB_HOST=` is followed only by a newline. So two keys fail, not one
  (`Verifier.IncompleteEnvKeysSet`).
- **A retry fails again.** A successful fix sets the run request. Every run
  request regenerates the baseline before the run. So the re-run checks
  the regenerated baseline, and it fails again at the same step with the
  same detail (`Simulator.Session.ScriptRun`, `Simulator.RetryFailsAgain`).
  Between passes, every directory holds its demo's baseline
  (`Simulator.Session.Valid`).
- **The attempt budget is never reset.** Nothing resets the attempt count
  or the recorded failure when another demo is selected. `init_state` only
  sets missing keys, and the selection only assigns the demo key. This is
  so even though the message at app.py:442 says choosing another demo
  resets the attempts.

## Model

| member | source | states |
|---|---|---|
| Catalog.CatalogShape | app.py:88-212 | 8 scenarios with distinct keys and distinct defect types. Each fails at a step in 1..20. There are 20 step names. |
| Generator.Baseline | app.py:222-277 | The files `generate_assets` writes for a scenario. `Generator.GeneratedTablesWellFormed`, `Generator.IncompleteEnvKeys`, `Verifier.BaselineVerdict` and `Pipeline.RunOfBaseline` state what they hold and how they fare. |
| Generator.GeneratedTablesWellFormed | app.py:250-275 | The generated transaction table and training table have one cell per row in every column. |
| Generator.IncompleteEnvKeys | app.py:247 | In the baseline `.env`, `DB_USER=` occurs only at 0 and `DB_HOST=` only at 27. `DB_PASS=` does not occur at all. |
| Generator.DependencyRequirementsMentionNumpy | app.py:240 | The baseline manifest contains "numpy", in its comment line. |
| Text.IndexFrom | app.py:296-297 | The first occurrence of a pattern at or after an index: it occurs there and nowhere before it, or it occurs nowhere. |
| Text.ContainsIsSubstring | app.py:296-297 | Python's `p in s` holds exactly when `p` occurs at some index of `s`. |
| Text.Split | app.py:307-309 | `s.split(sep)` gives more than one piece exactly when `sep` occurs, and then the first cut is at the first occurrence of `sep`. No piece contains `sep`. |
| Text.JoinSplit | app.py:307-309 | Joining the pieces of `s.split(sep)` with `sep` gives `s` back. |
| Text.ReplaceAllAbsent | app.py:356 | `str.replace` leaves text without the pattern unchanged. |
| Text.ReplaceAllRemoves | app.py:356 | After `str.replace`, the pattern no longer occurs, provided the replacement cannot contain it or glue onto neighbouring text to form it. |
| Text.ReplaceAll | app.py:356 | `str.replace` with a non-empty pattern, also used at app.py:387. `Text.ReplaceAllIsJoinSplit` pins it to `r.join(s.split(p))`: every occurrence is replaced and the text between occurrences is kept. `Text.ReplaceAllAbsent` and `Text.ReplaceAllRemoves` state that text without the pattern is unchanged and that afterwards the pattern no longer occurs. |
| Text.ReplaceAllIsJoinSplit | app.py:356 | `s.replace(p, r)` equals `r.join(s.split(p))` for every `s`. With `Text.JoinSplit`, the text outside the occurrences is kept in order. |
| Text.ReplaceAllSingle | app.py:356 | Text holding the pattern once, between parts that cannot start an occurrence, has exactly that occurrence replaced and the rest kept. |
| Text.Strip | app.py:307-309 | `str.strip()`. `Text.StripEmptyIffBlank` states that the result is empty exactly when the text holds only whitespace. |
| Text.StripEmptyIffBlank | app.py:307-309 | `len(s.strip()) > 0` exactly when `s` holds a non-whitespace character. |
| Text.NatToStringValue | app.py:320 | `str(n)` for a non-negative integer reads back as `n` in decimal and has no leading zero. |
| Artifacts.Truthy | app.py:322-324 | Python truth testing of a scalar, as `not policy.get(...)` applies it: None, False, 0 and the empty string are falsy, every other value is truthy. `Verifier.InspectionMeaning` uses it for the bucket check. |
| Artifacts.Get | app.py:318-324 | `d.get(key, default)`: the stored value when the key is present, the default otherwise. `Verifier.LatencyVerdict` states what the lookup with default 9999 means for the profile. |
| Verifier.CheckStep | app.py:282-339 | Only the scenario's failure step can fail. `Verifier.OnlyFailureStepInspects`, `Verifier.UnreadableFilesFail` and `Verifier.InspectionMeaning` state the verdict at every other step, for unreadable files and for each defect. |
| Verifier.Inspect | app.py:292-334 | The inspection at the failure step. `Verifier.InspectionMeaning` states each defect's pass condition, and `Verifier.UnreadableFilesFail` the "check error: " verdict for a file it cannot read. |
| Verifier.LatencyVerdict | app.py:318-320 | The profile passes exactly when `p90_ms` is present and is a bool or an integer of at most 1000. Without `p90_ms` the default 9999 fails, with detail "p90=Nonems". |
| Verifier.OnlyFailureStepInspects | app.py:282-289 | A step other than the failure step passes with (True, "OK"), whatever the files hold. This covers steps before it and steps after it. |
| Verifier.UnreadableFilesFail | app.py:292-339 | At the failure step, a file the check cannot read or parse gives a failing verdict whose detail starts with "check error: ". |
| Verifier.KeyHasValueMeaning | app.py:307-309 | A key counts as set exactly when it occurs and the text between its first and second occurrence is not blank. When the key occurs once, as on the baseline, that text is the rest of the file (`Verifier.FieldOfSoleOccurrence`). |
| Verifier.InspectionMeaning | app.py:292-334 | For each defect, the verdict at the failure step passes exactly when the source's condition holds: numpy in the manifest or not in the code; no `COPY.`; all three keys set; no missing cell; p90 at most 1000; public_write absent or falsy; no leak flag; a `target` column. |
| Verifier.IncompleteEnvKeysSet | app.py:305-311 | On the baseline `.env`, `DB_USER=` counts as set, while `DB_PASS=` and `DB_HOST=` do not. |
| Verifier.BaselineVerdict | app.py:238-334 | At its failure step, every generated baseline fails with its detail, except demo 1's, which passes with "numpy present". |
| Verifier.SlowProfileVerdict | app.py:318-320 | The baseline latency profile fails with detail "p90=1400ms". |
| Fill.Mean | app.py:368 | The column mean exists exactly when some cell of the column is present. |
| Fill.FillNa | app.py:368 | `fillna(v)` keeps every present cell and puts `v` in every missing one. |
| Fill.ForwardFill | app.py:370 | Forward fill keeps present cells and the first cell. A missing cell takes the filled value before it. |
| Fill.BackwardFill | app.py:370 | Backward fill keeps present cells and the last cell. A missing cell takes the filled value after it. |
| Fill.PadComplete | app.py:370 | Forward then backward fill leaves no gap exactly when the column has a present cell or no rows. |
| Fill.FillColumnMeaning | app.py:366-370 | Repairing a column keeps its name, its length and its present cells. In a numeric column every gap takes the column mean. In any other column a gap takes the nearest present cell above it, or the first present cell below it when there is none above. It leaves no gap exactly when the column had a present cell or no rows; otherwise the column is unchanged. |
| Fill.FillColumn | app.py:366-370 | The repair of one column. `Fill.FillColumnMeaning` states it against the independent `Fill.RepairedFrom`: names, lengths and present cells kept, the mean in every numeric gap, the nearest value above (else below) in every other gap, and no gap left exactly when a value was present. |
| Fill.Filled | app.py:363-371 | The repaired table has the same rows and the same number of columns. `Fill.FilledMeaning` states each column's fill values, including that an all-missing column stays all-missing, and `Fill.FilledIdempotent` that repairing twice changes nothing. |
| Fill.FillMissingValues | app.py:363-371 | The loop over the columns yields the table with every column repaired on its own. |
| Fill.FilledMeaning | app.py:363-371 | Every column of the repaired table is repaired as `Fill.RepairedFrom` says: names and present cells kept, numeric gaps get the column mean, other gaps get the nearest present value above, else below, and a column with rows but no present cell is left unchanged. The table has no missing cell exactly when every column had a present cell or no rows. |
| Fill.FilledIdempotent | app.py:363-371 | Repairing a repaired table changes nothing. |
| Mitigator.TransactionAmountMean | app.py:368 | The mean of the generated amounts is 72.5, the mean of 100 and 45. |
| Mitigator.RepairedTransactionData | app.py:363-371 | On the generated transactions, the repair gives amounts 100, 72.5, 45, 72.5 and keeps the merchant column. |
| Mitigator.WithTarget | app.py:390-397 | The repaired training table has a `target` column. Existing columns are unchanged. A new target copies `label`, or is all zeros when there is no label. A table that already has a target is kept as it is. |
| Mitigator.Failed | app.py:400-401 | A failed fix reports "mitigation error: " followed by the error, and changes nothing. |
| Mitigator.Mitigate | app.py:344-401 | A fix changes at most its defect's file. On success its message is the scenario's FMEA fix text. On failure it reports "mitigation error: " and leaves the directory as it was. |
| Mitigator.MitigateAbsent | app.py:348-401 | With no directory, only the `.env` rewrite succeeds, and it creates a directory holding that one file. Every other fix fails with a read error. |
| Mitigator.ApplyMitigation | app.py:344-401 | The branch chain, including the column loop, computes exactly `Mitigate`. |
| Mitigator.MitigationFails | app.py:348-401 | A fix fails exactly when the file it must read cannot be read. The dependency fix and the env fix never fail. |
| Mitigator.FixedEnvKeysSet | app.py:359-361 | In the rewritten `.env`, all three keys count as set. |
| Mitigator.DockerfileFixed | app.py:354-357 | After the Dockerfile fix, `COPY.` no longer occurs. |
| Mitigator.FixedBaselineDockerfile | app.py:354-357 | On the generated Dockerfile, the fix turns the `COPY.` line into `COPY . /app` followed by an empty line, and keeps the other lines. |
| Mitigator.LeakFixed | app.py:385-388 | After the leak fix, `LEAK_DEMO = True` no longer occurs. |
| Mitigator.PinMentionsNumpy | app.py:349-352 | The appended pin makes the manifest mention numpy, whatever it held before. |
| Mitigator.MitigationRepairs | app.py:344-401 | After a fix, its scenario's check passes exactly when the files the fix needs were usable. |
| Mitigator.MitigationIdempotent | app.py:354-397 | Applying any fix but the dependency fix a second time gives the same result as applying it once. |
| Mitigator.DependencyFixAppends | app.py:349-352 | The dependency fix appends another pin on each application, so it is not idempotent. |
| Mitigator.DocumentFixKeepsOtherKeys | app.py:373-383 | The latency and bucket fixes set their one key and keep every other key of the document. |
| Mitigator.MitigatedBaselines | app.py:344-401 | The fix of every generated baseline succeeds and makes its check pass. |
| Pipeline.RunFrom | app.py:495-519 | The run from one step on. `Pipeline.RunFromCompletes` and `Pipeline.RunFromFails` state its lines and record for a completed and a failed run. |
| Pipeline.Run | app.py:483-519 | The whole run. `Pipeline.RunDecidedAtFailureStep` states that it fails exactly when the failure step's check fails, and then at that step. |
| Pipeline.RunSteps | app.py:483-519 | The step loop produces exactly the log lines and failure of the run. |
| Pipeline.RunFromCompletes | app.py:483-525 | A run that records no failure passed all 20 steps, with one "OK" line per step in order. |
| Pipeline.RunFromFails | app.py:495-519 | A run that records a failure logged "OK" lines up to the first failing step. It recorded that step and its detail, added the failure line and stopped. |
| Pipeline.RunDecidedAtFailureStep | app.py:483-519 | A run fails exactly when the check at the scenario's failure step fails, and then at that step. |
| Pipeline.RunOfBaseline | app.py:483-525 | Demo 1's baseline completes all 20 steps. Every other baseline fails at its failure step with its baseline detail. |
| Simulator.RetryFailsAgain | app.py:444-457 | The fix does repair each defective baseline. The run over the baseline still fails at the same step with the same detail. |
| Simulator.Session.Valid | app.py:438-457 | The session invariant: at most 2 attempts, no run in progress, every directory holding its demo's baseline, and the selected demo has a directory. The constructor establishes it and `Simulator.Session.ScriptRun` keeps it. |
| Simulator.Session.constructor | app.py:39-48 | A new session has no demo, no attempts, no logs, no failure, is not completed or running, and has no directories. |
| Simulator.Session.GenerateAssets | app.py:222-277 | The demo's directory becomes its baseline. Other directories are untouched. |
| Simulator.Session.HandleFix | app.py:438-451 | With no recorded failure or with 2 attempts used, nothing happens. Otherwise the fix runs. On success the directory takes the fixed files and one attempt is counted. On failure nothing changes. |
| Simulator.Session.FixButton | app.py:438-451 | A fix is applied only on request, after a recorded failure and within the budget. It touches only the selected demo's directory. |
| Simulator.Session.EnsureAssets | app.py:456-457 | The demo's directory is regenerated when it is missing, when nothing has run yet, or when a run is requested. Afterwards every directory holds its baseline. |
| Simulator.Session.RunPipeline | app.py:462-525 | A requested run clears the record, then keeps the run's logs and failure. It sets the completion flag exactly when no step failed. Without a request nothing changes. |
| Simulator.Session.ScriptRun | app.py:422-525 | One pass keeps the session invariant: at most 2 attempts, no run in progress, every directory a baseline. It counts an attempt only for an applied fix. After a run, the record is that of a run over the regenerated baseline, so the fix is never seen by the checks. |

## Left out

- Streamlit rendering, CSS, expanders, the progress bar and the marketing text are not modelled. They are UI only.
- The cloud-provider selector and its service labels are not modelled. They do not affect any verdict.
- The step names are kept only as the text of the log lines.
- Filesystem plumbing is not modelled: `os.makedirs`, `shutil.rmtree`, `open` and the `/tmp` path built from the demo name. Each directory is a value in a map keyed by the demo's catalog position.
- The directory part of the error text is not modelled. Error texts name the file as a relative path.
- pandas CSV parsing and writing, and JSON and YAML (de)serialisation, are not modelled; the parsed structures are modelled directly. A file that fails to parse is `Corrupt`.
- pandas dtype inference is simplified. A column counts as numeric when all its present cells are numbers, and boolean or mixed-type cells are not distinguished. A value written back to a CSV is not re-read as a different type.
- The column mean is taken over mathematical reals, not floating point. An all-missing numeric column stays all-missing, as pandas fills NaN with NaN.
- `time.sleep` pacing and the unused imports are left out.
- The asset directories are shared in the source: they live under a fixed path per demo, which every session on the server uses and which outlives a session. The model gives each session its own store, starting empty. Races between sessions writing the same directory are not modelled. A new session regenerates before its first run anyway, because its log is empty.
- Simulator.Session.RunPipeline: the source assigns the record line by line during the loop; the model assigns it once the loop is done. No check reads the session in between.
- Simulator.Session.ScriptRun: the fix outcome is stated only as "applied only on request, after a recorded failure and within the budget". The exact outcome is the contract of `Simulator.Session.HandleFix`. The pass's own proof works from `FixButton`'s summary, which keeps it small.
- Simulator.Session.FixButton: it states only that a fix is applied on request, after a recorded failure and within the budget, and that the other directories stay baselines. It does not say that such a fix is applied when the mitigation succeeds, nor what demo `k`'s directory becomes. Those are the contract of `Simulator.Session.HandleFix`, which `FixButton` calls; the summary keeps the proof of `ScriptRun` small.
- JSON and YAML scalars are null, bool, integer or string. Floats, lists and nested maps are not modelled, so a profile such as `"p90_ms": 999.5`, which Python compares without error, cannot be represented.
- Simulator.Session.Valid: the recorded logs and failure are not part of the invariant. `ScriptRun` states them after every run, and keeps them unchanged otherwise.
