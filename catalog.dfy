/** The fixed scenario catalog and the 20 pipeline step names. */
module Catalog {
  /** The defect class a scenario plants in its generated files. */
  datatype Defect =
    | MissingDependency | DockerfileSyntax | EnvMissing | NullValues
    | HighLatency | PublicBucket | MemoryLeak | SchemaDrift

  /** The FMEA record shown when a scenario fails. */
  datatype Fmea = Fmea(mode: string, effect: string, cause: string, detection: string,
                       mitigationHint: string, mitigationFix: string)

  datatype Scenario = Scenario(key: string, defect: Defect, failureStep: nat, fmea: Fmea)

  /** Number of pipeline steps. */
  const StepCount: nat := 20

  /** Display names of the pipeline steps, step `i` (1-based) at index `i - 1`. */
  const Steps: seq<string> := [
    "Code Commit",
    "Static Code Analysis",
    "Dependency Check",
    "Unit Tests",
    "Integration Tests",
    "Build Docker Image",
    "Push to Container Registry",
    "IaC Validation",
    "Security Scan",
    "Provision Test Environment",
    "Deploy to Test",
    "Smoke Tests",
    "Deploy to Staging",
    "Load Tests",
    "Deploy to Pre-Prod",
    "User Acceptance Testing",
    "Approval Gate",
    "Deploy to Production",
    "Post-Deploy Monitoring",
    "Feedback Loop & Continuous Training"
  ]

  /** The eight demo scenarios, in the order the selector lists them. */
  const Scenarios: seq<Scenario> := [
    Scenario("Demo 1 \U{B7} Linear Regression (dep missing)", MissingDependency, 3,
      Fmea("ImportError: numpy not installed",
           "Build cannot run unit tests; pipeline blocked",
           "requirements.txt lacks numpy though code imports it",
           "Dependency audit at step 3",
           "Add `numpy` to requirements.txt",
           "Appended `numpy` to requirements.txt and reinstalled deps")),
    Scenario("Demo 2 \U{B7} Image Classifier (Dockerfile syntax)", DockerfileSyntax, 6,
      Fmea("Dockerfile invalid: `COPY.` missing space",
           "Image can't be built",
           "Syntax error in Dockerfile",
           "Docker build at step 6",
           "Replace `COPY.` with `COPY . /app`",
           "Fixed Dockerfile COPY directive")),
    Scenario("Demo 3 \U{B7} NLP Sentiment (env credentials missing)", EnvMissing, 10,
      Fmea("Missing DB_USER/DB_PASS/DB_HOST in .env",
           "Test environment provision fails",
           "Incomplete secrets/config",
           "Provision step 10",
           "Populate required keys in .env",
           "Wrote DB_USER/DB_PASS/DB_HOST to .env (placeholder values)")),
    Scenario("Demo 4 \U{B7} Fraud Detection (nulls in data)", NullValues, 12,
      Fmea("Smoke test fails due to NaNs",
           "API /predict crashes with null input",
           "Dataset contains missing values",
           "Smoke tests step 12",
           "Impute/drop NaNs in CSV",
           "Filled NaNs with column means")),
    Scenario("Demo 5 \U{B7} Recommender (high latency in profile)", HighLatency, 15,
      Fmea("p90 latency > SLO",
           "Pre-prod gate blocks release",
           "Inefficient queries / insufficient resources",
           "Load tests step 15",
           "Tune or scale; set p90 <= 1000ms",
           "Reduced p90 to 400ms in profile (proxy for tuning)")),
    Scenario("Demo 6 \U{B7} Forecasting (public bucket policy)", PublicBucket, 17,
      Fmea("S3/Bucket allows public write",
           "Security approval rejects",
           "Over-permissive ACL",
           "Approval gate step 17",
           "Block public access",
           "Set BlockPublicAcls=True / removed public write")),
    Scenario("Demo 7 \U{B7} Speech-to-Text (memory leak)", MemoryLeak, 19,
      Fmea("Growing list in inference loop",
           "Pod OOM post-deploy",
           "Objects retained across calls",
           "Monitoring step 19",
           "Free buffers; avoid global accumulation",
           "Disabled leak flag; cleared buffers")),
    Scenario("Demo 8 \U{B7} Anomaly Detection (schema drift)", SchemaDrift, 20,
      Fmea("Column `target` missing (found `label`)",
           "CT retrain pipeline fails",
           "Upstream ETL changed schema",
           "CT step 20",
           "Map `label` \U{2192} `target` before training",
           "Created `target` column from `label`"))
  ]

  /**
   * The catalog holds eight scenarios with distinct keys and distinct defect
   * types, each failing at a step within 1..20.
   */
  lemma CatalogShape()
    ensures |Scenarios| == 8 && |Steps| == StepCount
    ensures forall k :: 0 <= k < |Scenarios| ==> 1 <= Scenarios[k].failureStep <= StepCount
    ensures forall j, k :: 0 <= j < k < |Scenarios| ==>
      Scenarios[j].defect != Scenarios[k].defect && Scenarios[j].key != Scenarios[k].key
  {
  }
}
