/**
 * What one validation session does, as functions from the session state
 * (the diagnostic log and the table index) to the new state. Every function
 * returns the state reached and, when the source raises, the exception that
 * is on its way to a handler. The methods of `Validator` are proved to
 * follow these functions step by step.
 */
module Semantics {
  import opened Wrappers
  import opened Json
  import opened Paths
  import opened Messages
  import opened Documents

  /** What reading a path and loading all its YAML documents yields: the
      documents (null ones included), a scanner error, or another YAML error. */
  datatype FileContent =
    | Parsed(docs: seq<Option<Document>>)
    | ScannerFailure(detail: string)
    | ParserFailure(detail: string)

  /** The files that can be opened, and the paths for which `os.path.isfile`
      holds. */
  datatype FileSystem = FileSystem(contents: map<Path, FileContent>, files: set<Path>)

  /** The three JSON-schema checks, each reporting a violation or nothing. */
  datatype Schemas = Schemas(
    submission: Document -> Option<Violation>,
    data: Document -> Option<Violation>,
    additional: Document -> Option<Violation>)

  datatype Env = Env(fs: FileSystem, schemas: Schemas)

  /** The session state: the message log and the table index. */
  datatype State = State(log: Log, tables: map<Value, Document>)

  /** An exception in flight: a schema violation (`jsonschema.ValidationError`)
      or anything else. */
  datatype Exc = Invalid(violation: Violation) | Raised(fault: Fault)

  datatype Run = Run(st: State, exc: Option<Exc>)

  /** What a call of `validate` returns, or the `LookupError` it raises when
      no path is given. */
  datatype Outcome = Returned(ok: bool) | LookupError

  const RESOURCES: string := "additional_resources"
  const LOCATION: string := "location"

  /** Record one message for file `f`. */
  function Note(st: State, f: Path, level: int, text: Text): (r: State)
    ensures r.tables == st.tables
  {
    st.(log := Append(st.log, f, level, text))
  }

  /** One entry of `additional_resources`: external locations are skipped; a
      local one is looked up next to `filename` and must not contain a slash. */
  function ResourceStep(st: State, env: Env, filename: Path, resource: Value): (r: Run)
    ensures r.st.tables == st.tables
    ensures r.exc.None? || r.exc.value.Raised?
  {
    if !resource.Object? then Run(st, Some(Raised(AttributeError(NoGet))))
    else
      var location := Get(resource.fields, LOCATION, Str(""));
      if !location.Str? then Run(st, Some(Raised(AttributeError(NoStartsWith))))
      else if StartsWith(location.s, "http") then Run(st, None)
      else
        var resolved := Join(Dirname(filename), location.s);
        var st1 := if resolved in env.fs.files then st else Note(st, filename, WARNING, ResourceNotFound(resolved));
        var st2 := if '/' in location.s then Note(st1, filename, WARNING, ResourceHasSlash(resolved)) else st1;
        Run(st2, None)
  }

  /** The resource loop from a given entry on; the first exception ends it. */
  function ResourcesFrom(st: State, env: Env, filename: Path, resources: seq<Value>): (r: Run)
    ensures r.st.tables == st.tables
    ensures r.exc.None? || r.exc.value.Raised?
    decreases |resources|
  {
    if resources == [] then Run(st, None)
    else
      var step := ResourceStep(st, env, filename, resources[0]);
      if step.exc.Some? then step else ResourcesFrom(step.st, env, filename, resources[1..])
  }

  /** `validate_res`. */
  function CheckResources(st: State, env: Env, filename: Path, doc: Document): (r: Run)
    ensures r.st.tables == st.tables
    ensures r.exc.None? || r.exc.value.Raised?
  {
    match Iterate(Get(doc, RESOURCES, List([])))
    case CannotIterate => Run(st, Some(Raised(TypeError(NotIterable))))
    case StringItems => Run(st, Some(Raised(AttributeError(NoGet))))
    case Items(resources) => ResourcesFrom(st, env, filename, resources)
  }

  /** `validate_dat`: the data schema, the column lengths, then one INFO. */
  function CheckData(st: State, env: Env, filename: Path, doc: Document): (r: Run)
    ensures r.st.tables == st.tables
    ensures (r.exc.Some? && r.exc.value.Invalid?) <==> env.schemas.data(doc).Some?
    ensures r.exc.Some? && r.exc.value.Invalid? ==> r.st == st && env.schemas.data(doc) == Some(r.exc.value.violation)
  {
    match env.schemas.data(doc)
    case Some(v) => Run(st, Some(Invalid(v)))
    case None =>
      if INDEPENDENT !in doc then Run(st, Some(Raised(KeyError(INDEPENDENT))))
      else match ColumnLengths(doc[INDEPENDENT])
      case Err(f) => Run(st, Some(Raised(f)))
      case Ok(independent) =>
        if DEPENDENT !in doc then Run(st, Some(Raised(KeyError(DEPENDENT))))
        else match ColumnLengths(doc[DEPENDENT])
        case Err(f) => Run(st, Some(Raised(f)))
        case Ok(dependent) =>
          var st1 := if Inconsistent(independent + dependent)
                     then Note(st, filename, WARNING, InconsistentLengths(independent, dependent))
                     else st;
          Run(Note(st1, filename, INFO, ValidDataTable(Get(doc, NAME, Str("")))), None)
  }

  /** `validate_add`: the additional-information schema, the resources, then
      one INFO. */
  function CheckAdditional(st: State, env: Env, filename: Path, doc: Document): (r: Run)
    ensures r.st.tables == st.tables
    ensures (r.exc.Some? && r.exc.value.Invalid?) <==> env.schemas.additional(doc).Some?
    ensures r.exc.Some? && r.exc.value.Invalid? ==> r.st == st && env.schemas.additional(doc) == Some(r.exc.value.violation)
  {
    match env.schemas.additional(doc)
    case Some(v) => Run(st, Some(Invalid(v)))
    case None =>
      var res := CheckResources(st, env, filename, doc);
      if res.exc.Some? then res
      else Run(Note(res.st, filename, INFO, ValidAdditionalInfo), None)
  }

  /** The checks `validate_sub` applies to `data_file` before following it:
      `'/' in df` (an exception on a scalar; a slash reaches the misdirected
      `add_warning` call) and `os.path.join`, which wants a string. */
  function DataFileName(df: Value): (r: Result<string, Fault>)
    ensures r.Ok? <==> df.Str? && '/' !in df.s
    ensures r.Ok? ==> r.value == df.s
    ensures df.Str? && '/' in df.s ==> r == Err(TypeError(AddWarningArity))
  {
    match df
    case Str(s) => if '/' in s then Err(TypeError(AddWarningArity)) else Ok(s)
    case List(xs) => if Str("/") in xs then Err(TypeError(AddWarningArity)) else Err(TypeError(NotAPath))
    case Object(m) => if "/" in m then Err(TypeError(AddWarningArity)) else Err(TypeError(NotAPath))
    case _ => Err(TypeError(NotIterable))
  }

  /** `validate_sub`: the submission schema, the resources, then, unless the
      entry's name is already in the table index, the data file is followed;
      finally one INFO. */
  function CheckSubmission(st: State, env: Env, filename: Path, doc: Document, fuel: nat): (r: Run)
    ensures (r.exc.Some? && r.exc.value.Invalid?) <==> env.schemas.submission(doc).Some?
    ensures r.exc.Some? && r.exc.value.Invalid? ==> r.st == st && env.schemas.submission(doc) == Some(r.exc.value.violation)
    decreases fuel, 0, 1
  {
    match env.schemas.submission(doc)
    case Some(v) => Run(st, Some(Invalid(v)))
    case None =>
      var res := CheckResources(st, env, filename, doc);
      if res.exc.Some? then res
      else if NAME !in doc then Run(res.st, Some(Raised(KeyError(NAME))))
      else if !Hashable(doc[NAME]) then Run(res.st, Some(Raised(TypeError(Unhashable))))
      else if HashKey(doc[NAME]) in res.st.tables then Run(Note(res.st, filename, INFO, ValidSubmission(doc[NAME])), None)
      else FollowDataFile(res.st, env, filename, doc, fuel)
  }

  /** The tail of `validate_sub` for an entry whose name is not indexed: a
      recursive validation of the data file next to `filename`, then one
      INFO. With no fuel left the recursive call raises, as Python's does at
      its recursion limit. */
  function FollowDataFile(st: State, env: Env, filename: Path, doc: Document, fuel: nat): (r: Run)
    requires NAME in doc
    ensures r.exc.None? || r.exc.value.Raised?
    ensures r.exc.None? <==> DATA_FILE in doc && DataFileName(doc[DATA_FILE]).Ok? && fuel > 0
    ensures r.exc.None? ==> var log := r.st.log.Of(filename);
      |log| > 0 && log[|log| - 1] == Message(filename, ValidSubmission(doc[NAME]), INFO)
    decreases fuel, 0, 0
  {
    if DATA_FILE !in doc then Run(st, Some(Raised(KeyError(DATA_FILE))))
    else match DataFileName(doc[DATA_FILE])
    case Err(f) => Run(st, Some(Raised(f)))
    case Ok(df) =>
      if fuel == 0 then Run(st, Some(Raised(RecursionLimit)))
      else
        var nested := ValidateFile(st, env, Join(Dirname(filename), df), None, fuel - 1);
        Run(Note(nested.0, filename, INFO, ValidSubmission(doc[NAME])), None)
  }

  /** The dispatch of the main pass on the kind of one document. */
  function Dispatch(st: State, env: Env, path: Path, doc: Document, fuel: nat): (r: Run)
    ensures r.exc.Some? && r.exc.value.Invalid? ==>
      r.st == st || (Classify(doc) == CombinedEntry && r.st == CheckData(st, env, path, Split(doc).0).st)
    decreases fuel, 1, 0
  {
    match Classify(doc)
    case SubmissionEntry => CheckSubmission(st, env, path, doc, fuel)
    case CombinedEntry =>
      var (data, meta) := Split(doc);
      var r := CheckData(st, env, path, data);
      if r.exc.Some? then r else CheckSubmission(r.st, env, path, meta, fuel)
    case DataTable => CheckData(st, env, path, doc)
    case AdditionalInfo => CheckAdditional(st, env, path, doc)
  }

  /** One document of the main pass: dispatch on its kind, and turn a schema
      violation into one ERROR for the current file. */
  function CheckDocument(st: State, env: Env, path: Path, doc: Document, fuel: nat): (r: Run)
    ensures r.exc.None? || r.exc.value.Raised?
    decreases fuel, 1, 1
  {
    var attempt := Dispatch(st, env, path, doc, fuel);
    if attempt.exc.Some? && attempt.exc.value.Invalid?
    then Run(Note(attempt.st, path, ERROR, SchemaViolation(attempt.exc.value.violation)), None)
    else attempt
  }

  /** The main pass from a given document on: null documents are skipped and
      an exception other than a schema violation ends the pass. */
  function MainPass(st: State, env: Env, path: Path, docs: seq<Option<Document>>, fuel: nat): (r: Run)
    ensures r.exc.None? || r.exc.value.Raised?
    decreases fuel, 2, |docs|
  {
    if docs == [] then Run(st, None)
    else if docs[0].None? then MainPass(st, env, path, docs[1..], fuel)
    else
      var r := CheckDocument(st, env, path, docs[0].value, fuel);
      if r.exc.Some? then r else MainPass(r.st, env, path, docs[1..], fuel)
  }

  /** The documents of a bundle: those handed in, or those read from `path`. */
  function Load(fs: FileSystem, path: Path, data: Option<seq<Option<Document>>>): (r: Result<seq<Option<Document>>, Text>)
    ensures data.Some? ==> r == Ok(data.value)
    ensures data.None? && path !in fs.contents ==> r == Err(ExceptionRaised(FileNotFound(path)))
    ensures data.None? && path in fs.contents && fs.contents[path].ScannerFailure? ==>
      r == Err(ParseProblem(fs.contents[path].detail))
    ensures data.None? && path in fs.contents && fs.contents[path].ParserFailure? ==>
      r == Err(ExceptionRaised(YamlError(fs.contents[path].detail)))
  {
    if data.Some? then Ok(data.value)
    else if path !in fs.contents then Err(ExceptionRaised(FileNotFound(path)))
    else match fs.contents[path]
      case Parsed(docs) => Ok(docs)
      case ScannerFailure(detail) => Err(ParseProblem(detail))
      case ParserFailure(detail) => Err(ExceptionRaised(YamlError(detail)))
  }

  /** `validate` once a path is known: load, pre-scan, main pass; any
      exception that reaches the outer handler becomes one ERROR for `path`
      and the result false; otherwise the result is that no file of the
      session has an ERROR. */
  function ValidateFile(st: State, env: Env, path: Path, data: Option<seq<Option<Document>>>, fuel: nat)
    : (r: (State, bool))
    ensures r.1 <==> !AnyErrors(r.0.log)
    decreases fuel, 3, 0
  {
    match Load(env.fs, path, data)
    case Err(text) =>
      AnyErrorsAfterAppend(st.log, path, ERROR, text);
      (Note(st, path, ERROR, text), false)
    case Ok(docs) =>
      var (tables, fault) := PreScan(st.tables, docs);
      if fault.Some? then
        AnyErrorsAfterAppend(st.log, path, ERROR, ExceptionRaised(fault.value));
        (Note(State(st.log, tables), path, ERROR, ExceptionRaised(fault.value)), false)
      else
        var r := MainPass(State(st.log, tables), env, path, docs, fuel);
        if r.exc.Some? then
          AnyErrorsAfterAppend(r.st.log, path, ERROR, ExceptionRaised(r.exc.value.fault));
          (Note(r.st, path, ERROR, ExceptionRaised(r.exc.value.fault)), false)
        else (r.st, !AnyErrors(r.st.log))
  }

  /** `validate(file_path=..., data=...)`: without a path it raises
      `LookupError` and changes nothing. */
  function ValidateCall(st: State, env: Env, filePath: Option<Path>, data: Option<seq<Option<Document>>>, fuel: nat)
    : (r: (State, Outcome))
    ensures filePath.None? <==> r.1 == LookupError
    ensures filePath.None? ==> r.0 == st
  {
    if filePath.None? then (st, LookupError)
    else var (st', ok) := ValidateFile(st, env, filePath.value, data, fuel); (st', Returned(ok))
  }
}
