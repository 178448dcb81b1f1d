/**
 * The generated project files of one scenario directory, as parsed values.
 * Plain-text files are strings, the CSV files are tables of columns of
 * optional cells (a missing cell is pandas' NaN), and the JSON profile and
 * YAML policy are maps from keys to scalar values.
 */
module Artifacts {
  import opened Wrappers

  /**
   * The state of one file when it is read: absent (`FileNotFoundError`),
   * present but not readable as its format (a decoding or parse error whose
   * message is `reason`), or present with its parsed content.
   */
  datatype File<+T> = Missing | Corrupt(reason: string) | Present(content: T)

  /** A scalar of a JSON or YAML document. */
  datatype Scalar = NullValue | BoolValue(b: bool) | IntValue(i: int) | StrValue(s: string)

  /** A JSON object or YAML mapping at the top level of a document. */
  type Document = map<string, Scalar>

  /** Python truthiness of a scalar (`not v` is its negation). */
  predicate Truthy(v: Scalar) {
    match v
    case NullValue => false
    case BoolValue(b) => b
    case IntValue(i) => i != 0
    case StrValue(s) => |s| > 0
  }

  /** `d.get(key, default)`. */
  function Get(d: Document, key: string, default: Scalar): Scalar {
    if key in d then d[key] else default
  }

  /** A CSV cell as pandas parses it: a number or a string. */
  datatype Cell = Num(x: real) | Text(s: string)

  /** A named column; `None` is a missing value. */
  datatype Column = Column(name: string, cells: seq<Option<Cell>>)

  datatype Table = Table(rows: nat, columns: seq<Column>)

  /** Every column holds one cell per row. */
  ghost predicate WellFormed(t: Table) {
    forall k :: 0 <= k < |t.columns| ==> |t.columns[k].cells| == t.rows
  }

  /** `name in df.columns`. */
  predicate HasColumn(t: Table, name: string) {
    exists k :: 0 <= k < |t.columns| && t.columns[k].name == name
  }

  /** Index of the first column called `name`. */
  function ColumnIndex(t: Table, name: string): (r: Option<nat>)
    ensures r.Some? <==> HasColumn(t, name)
    ensures r.Some? ==> r.value < |t.columns| && t.columns[r.value].name == name
  {
    ColumnIndexFrom(t.columns, name, 0)
  }

  function ColumnIndexFrom(columns: seq<Column>, name: string, k: nat): (r: Option<nat>)
    requires k <= |columns|
    ensures r.Some? ==> k <= r.value < |columns| && columns[r.value].name == name
    ensures r.None? ==> forall j :: k <= j < |columns| ==> columns[j].name != name
    decreases |columns| - k
  {
    if k == |columns| then None
    else if columns[k].name == name then Some(k)
    else ColumnIndexFrom(columns, name, k + 1)
  }

  /** `df.isna().any().any()`. */
  predicate AnyMissing(t: Table) {
    exists k, j :: 0 <= k < |t.columns| && 0 <= j < |t.columns[k].cells| && t.columns[k].cells[j].None?
  }

  /** The files of one scenario directory. */
  datatype Artifacts = Artifacts(
    app: File<string>,             // app.py
    model: File<string>,           // model.py
    requirements: File<string>,    // requirements.txt
    dockerfile: File<string>,      // Dockerfile
    env: File<string>,             // .env
    provision: File<string>,       // provision.yaml (never parsed)
    data: File<Table>,             // data.csv
    training: File<Table>,         // training.csv
    profile: File<Document>,       // endpoint_profile.json
    policy: File<Document>         // iac.yaml
  )

  /** A freshly created, empty directory. */
  const EmptyDir := Artifacts(Missing, Missing, Missing, Missing, Missing, Missing, Missing, Missing, Missing, Missing)

  /** The names by which the engine refers to the files. */
  datatype FileName =
    | AppPy | ModelPy | RequirementsTxt | Dockerfile | DotEnv | ProvisionYaml
    | DataCsv | TrainingCsv | ProfileJson | IacYaml

  function PathOf(f: FileName): string {
    match f
    case AppPy => "app.py"
    case ModelPy => "model.py"
    case RequirementsTxt => "requirements.txt"
    case Dockerfile => "Dockerfile"
    case DotEnv => ".env"
    case ProvisionYaml => "provision.yaml"
    case DataCsv => "data.csv"
    case TrainingCsv => "training.csv"
    case ProfileJson => "endpoint_profile.json"
    case IacYaml => "iac.yaml"
  }

  /** The two directories agree on every file except possibly `f`. */
  predicate SameExcept(a: Artifacts, b: Artifacts, f: FileName) {
    && (f != AppPy ==> a.app == b.app)
    && (f != ModelPy ==> a.model == b.model)
    && (f != RequirementsTxt ==> a.requirements == b.requirements)
    && (f != Dockerfile ==> a.dockerfile == b.dockerfile)
    && (f != DotEnv ==> a.env == b.env)
    && (f != ProvisionYaml ==> a.provision == b.provision)
    && (f != DataCsv ==> a.data == b.data)
    && (f != TrainingCsv ==> a.training == b.training)
    && (f != ProfileJson ==> a.profile == b.profile)
    && (f != IacYaml ==> a.policy == b.policy)
  }

  /**
   * The text of the exception raised when a file that is not `Present` is
   * opened or parsed (the directory prefix of the path is not modelled).
   */
  function ReadError<T>(f: FileName, file: File<T>): string
    requires !file.Present?
  {
    match file
    case Missing => "[Errno 2] No such file or directory: '" + PathOf(f) + "'"
    case Corrupt(reason) => reason
  }
}
