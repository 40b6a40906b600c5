/**
 * Properties of a validation session, stated over the functions of
 * `Semantics` and therefore about every run of the `Validator` methods.
 */
module Properties {
  import opened Wrappers
  import opened Json
  import opened Paths
  import opened Messages
  import opened Documents
  import opened Semantics

  // ------------------------------------------------------------------
  // The session only ever grows.

  /** `later` keeps everything `earlier` had: the file order, every file's
      messages as a prefix, and every table name. */
  ghost predicate Extends(earlier: State, later: State) {
    && earlier.log.order <= later.log.order
    && (forall f :: earlier.log.Of(f) <= later.log.Of(f))
    && earlier.tables.Keys <= later.tables.Keys
  }

  lemma ExtendsTrans(a: State, b: State, c: State)
    requires Extends(a, b) && Extends(b, c)
    ensures Extends(a, c)
  {
    forall f ensures a.log.Of(f) <= c.log.Of(f) {
      assert a.log.Of(f) <= b.log.Of(f) && b.log.Of(f) <= c.log.Of(f);
    }
  }

  lemma NoteExtends(st: State, f: Path, level: int, text: Text)
    ensures Extends(st, Note(st, f, level, text))
  {
    var r := Note(st, f, level, text);
    forall g ensures st.log.Of(g) <= r.log.Of(g) {
      if g == f {
        assert r.log.Of(f) == st.log.Of(f) + [Message(f, text, level)];
      }
    }
  }

  /** `validate_res` appends only WARNINGs, at most two per resource, and
      only to the current file; the table index does not change. This holds
      also when a malformed resource ends the loop early. */
  ghost predicate OnlyWarnings(earlier: State, later: State, f: Path) {
    && later.tables == earlier.tables
    && earlier.log.order <= later.log.order
    && (forall g :: g != f ==> later.log.Of(g) == earlier.log.Of(g))
    && earlier.log.Of(f) <= later.log.Of(f)
    && (forall i :: |earlier.log.Of(f)| <= i < |later.log.Of(f)| ==> later.log.Of(f)[i].level == WARNING)
  }

  lemma OnlyWarningsTrans(a: State, b: State, c: State, f: Path)
    requires OnlyWarnings(a, b, f) && OnlyWarnings(b, c, f)
    ensures OnlyWarnings(a, c, f)
  {
    forall i | |a.log.Of(f)| <= i < |c.log.Of(f)| ensures c.log.Of(f)[i].level == WARNING {
      if i < |b.log.Of(f)| {
        assert c.log.Of(f)[i] == b.log.Of(f)[i];
      }
    }
  }

  lemma OnlyWarningsExtends(a: State, b: State, f: Path)
    requires OnlyWarnings(a, b, f)
    ensures Extends(a, b)
  {
  }

  lemma NoteWarns(st: State, f: Path, text: Text)
    ensures OnlyWarnings(st, Note(st, f, WARNING, text), f)
    ensures |Note(st, f, WARNING, text).log.Of(f)| == |st.log.Of(f)| + 1
  {
    assert Note(st, f, WARNING, text).log.Of(f) == st.log.Of(f) + [Message(f, text, WARNING)];
  }

  lemma ResourceStepWarns(st: State, env: Env, filename: Path, resource: Value)
    ensures var r := ResourceStep(st, env, filename, resource);
      OnlyWarnings(st, r.st, filename) && |r.st.log.Of(filename)| <= |st.log.Of(filename)| + 2
  {
    if resource.Object? {
      var location := Get(resource.fields, LOCATION, Str(""));
      if location.Str? && !StartsWith(location.s, "http") {
        var resolved := Join(Dirname(filename), location.s);
        var st1 := if resolved in env.fs.files then st else Note(st, filename, WARNING, ResourceNotFound(resolved));
        if resolved !in env.fs.files {
          NoteWarns(st, filename, ResourceNotFound(resolved));
        }
        if '/' in location.s {
          NoteWarns(st1, filename, ResourceHasSlash(resolved));
          OnlyWarningsTrans(st, st1, Note(st1, filename, WARNING, ResourceHasSlash(resolved)), filename);
        }
      }
    }
  }

  lemma {:induction false} ResourcesOnlyWarn(st: State, env: Env, filename: Path, resources: seq<Value>)
    ensures var r := ResourcesFrom(st, env, filename, resources);
      OnlyWarnings(st, r.st, filename) && |r.st.log.Of(filename)| <= |st.log.Of(filename)| + 2 * |resources|
    decreases |resources|
  {
    if resources != [] {
      var step := ResourceStep(st, env, filename, resources[0]);
      ResourceStepWarns(st, env, filename, resources[0]);
      if step.exc.None? {
        ResourcesOnlyWarn(step.st, env, filename, resources[1..]);
        OnlyWarningsTrans(st, step.st, ResourcesFrom(step.st, env, filename, resources[1..]).st, filename);
      }
    }
  }

  lemma CheckResourcesOnlyWarn(st: State, env: Env, filename: Path, doc: Document)
    ensures OnlyWarnings(st, CheckResources(st, env, filename, doc).st, filename)
  {
    match Iterate(Get(doc, RESOURCES, List([])))
    case CannotIterate =>
    case StringItems =>
    case Items(resources) => ResourcesOnlyWarn(st, env, filename, resources);
  }

  /** Every resource located at a `http` address is skipped: a list of them
      records nothing and raises nothing. */
  lemma {:induction false} ExternalResourcesIgnored(st: State, env: Env, filename: Path, resources: seq<Value>)
    requires forall i :: 0 <= i < |resources| ==>
      resources[i].Object? && LOCATION in resources[i].fields &&
      resources[i].fields[LOCATION].Str? && StartsWith(resources[i].fields[LOCATION].s, "http")
    ensures ResourcesFrom(st, env, filename, resources) == Run(st, None)
    decreases |resources|
  {
    if resources != [] {
      ExternalResourcesIgnored(st, env, filename, resources[1..]);
    }
  }

  /** A local resource whose location contains a slash is always warned
      about, whether or not the file exists; a missing one is warned about
      separately; both name the location resolved next to `filename`. */
  lemma LocalResourceWarnings(st: State, env: Env, filename: Path, fields: map<string, Value>, location: string)
    requires LOCATION in fields && fields[LOCATION] == Str(location) && !StartsWith(location, "http")
    ensures var resolved := Join(Dirname(filename), location);
      var r := ResourceStep(st, env, filename, Object(fields));
      && r.exc.None?
      && r.st.log.Of(filename) == st.log.Of(filename)
           + (if resolved in env.fs.files then [] else [Message(filename, ResourceNotFound(resolved), WARNING)])
           + (if '/' in location then [Message(filename, ResourceHasSlash(resolved), WARNING)] else [])
  {
    var resolved := Join(Dirname(filename), location);
    var st1 := if resolved in env.fs.files then st else Note(st, filename, WARNING, ResourceNotFound(resolved));
    assert st1.log.Of(filename) == st.log.Of(filename)
      + (if resolved in env.fs.files then [] else [Message(filename, ResourceNotFound(resolved), WARNING)]);
  }

  lemma CheckDataExtends(st: State, env: Env, filename: Path, doc: Document)
    ensures Extends(st, CheckData(st, env, filename, doc).st)
  {
    if env.schemas.data(doc).None? && INDEPENDENT in doc && DEPENDENT in doc
       && ColumnLengths(doc[INDEPENDENT]).Ok? && ColumnLengths(doc[DEPENDENT]).Ok? {
      var independent := ColumnLengths(doc[INDEPENDENT]).value;
      var dependent := ColumnLengths(doc[DEPENDENT]).value;
      var st1 := if Inconsistent(independent + dependent)
                 then Note(st, filename, WARNING, InconsistentLengths(independent, dependent)) else st;
      if Inconsistent(independent + dependent) {
        NoteExtends(st, filename, WARNING, InconsistentLengths(independent, dependent));
      }
      NoteExtends(st1, filename, INFO, ValidDataTable(Get(doc, NAME, Str(""))));
      ExtendsTrans(st, st1, CheckData(st, env, filename, doc).st);
    }
  }

  lemma CheckAdditionalExtends(st: State, env: Env, filename: Path, doc: Document)
    ensures Extends(st, CheckAdditional(st, env, filename, doc).st)
  {
    if env.schemas.additional(doc).None? {
      var res := CheckResources(st, env, filename, doc);
      CheckResourcesOnlyWarn(st, env, filename, doc);
      if res.exc.None? {
        NoteExtends(res.st, filename, INFO, ValidAdditionalInfo);
        ExtendsTrans(st, res.st, CheckAdditional(st, env, filename, doc).st);
      }
    }
  }

  /** A validation run never drops a message or a table name: the whole
      session state after a call extends the state before it. */
  lemma {:induction false} ValidateFileExtends(st: State, env: Env, path: Path, data: Option<seq<Option<Document>>>, fuel: nat)
    ensures Extends(st, ValidateFile(st, env, path, data, fuel).0)
    decreases fuel, 3, 0
  {
    match Load(env.fs, path, data)
    case Err(text) => NoteExtends(st, path, ERROR, text);
    case Ok(docs) =>
      var (tables, fault) := PreScan(st.tables, docs);
      var scanned := State(st.log, tables);
      assert Extends(st, scanned);
      if fault.Some? {
        NoteExtends(scanned, path, ERROR, ExceptionRaised(fault.value));
        ExtendsTrans(st, scanned, ValidateFile(st, env, path, data, fuel).0);
      } else {
        var r := MainPass(scanned, env, path, docs, fuel);
        MainPassExtends(scanned, env, path, docs, fuel);
        ExtendsTrans(st, scanned, r.st);
        if r.exc.Some? {
          NoteExtends(r.st, path, ERROR, ExceptionRaised(r.exc.value.fault));
          ExtendsTrans(st, r.st, ValidateFile(st, env, path, data, fuel).0);
        }
      }
  }

  lemma {:induction false} MainPassExtends(st: State, env: Env, path: Path, docs: seq<Option<Document>>, fuel: nat)
    ensures Extends(st, MainPass(st, env, path, docs, fuel).st)
    decreases fuel, 2, |docs|
  {
    if docs != [] {
      if docs[0].None? {
        MainPassExtends(st, env, path, docs[1..], fuel);
      } else {
        var r := CheckDocument(st, env, path, docs[0].value, fuel);
        CheckDocumentExtends(st, env, path, docs[0].value, fuel);
        if r.exc.None? {
          MainPassExtends(r.st, env, path, docs[1..], fuel);
          ExtendsTrans(st, r.st, MainPass(r.st, env, path, docs[1..], fuel).st);
        }
      }
    }
  }

  lemma {:induction false} CheckDocumentExtends(st: State, env: Env, path: Path, doc: Document, fuel: nat)
    ensures Extends(st, CheckDocument(st, env, path, doc, fuel).st)
    decreases fuel, 1, 1
  {
    var attempt := Dispatch(st, env, path, doc, fuel);
    DispatchExtends(st, env, path, doc, fuel);
    if attempt.exc.Some? && attempt.exc.value.Invalid? {
      var after := Note(attempt.st, path, ERROR, SchemaViolation(attempt.exc.value.violation));
      assert CheckDocument(st, env, path, doc, fuel).st == after;
      NoteExtends(attempt.st, path, ERROR, SchemaViolation(attempt.exc.value.violation));
      ExtendsTrans(st, attempt.st, after);
    }
  }

  lemma {:induction false} DispatchExtends(st: State, env: Env, path: Path, doc: Document, fuel: nat)
    ensures Extends(st, Dispatch(st, env, path, doc, fuel).st)
    decreases fuel, 1, 0
  {
    match Classify(doc)
    case SubmissionEntry => CheckSubmissionExtends(st, env, path, doc, fuel);
    case CombinedEntry =>
      var (data, meta) := Split(doc);
      var r := CheckData(st, env, path, data);
      CheckDataExtends(st, env, path, data);
      if r.exc.None? {
        var next := CheckSubmission(r.st, env, path, meta, fuel);
        assert Dispatch(st, env, path, doc, fuel) == next;
        CheckSubmissionExtends(r.st, env, path, meta, fuel);
        ExtendsTrans(st, r.st, next.st);
      }
    case DataTable => CheckDataExtends(st, env, path, doc);
    case AdditionalInfo => CheckAdditionalExtends(st, env, path, doc);
  }

  lemma {:induction false} CheckSubmissionExtends(st: State, env: Env, filename: Path, doc: Document, fuel: nat)
    ensures Extends(st, CheckSubmission(st, env, filename, doc, fuel).st)
    decreases fuel, 0, 1
  {
    var r := CheckSubmission(st, env, filename, doc, fuel);
    if env.schemas.submission(doc).None? {
      var res := CheckResources(st, env, filename, doc);
      CheckResourcesOnlyWarn(st, env, filename, doc);
      OnlyWarningsExtends(st, res.st, filename);
      if res.exc.None? && NAME in doc && Hashable(doc[NAME]) {
        if HashKey(doc[NAME]) in res.st.tables {
          NoteExtends(res.st, filename, INFO, ValidSubmission(doc[NAME]));
        } else {
          FollowDataFileExtends(res.st, env, filename, doc, fuel);
        }
        ExtendsTrans(st, res.st, r.st);
      }
    }
  }

  lemma {:induction false} FollowDataFileExtends(st: State, env: Env, filename: Path, doc: Document, fuel: nat)
    requires NAME in doc
    ensures Extends(st, FollowDataFile(st, env, filename, doc, fuel).st)
    decreases fuel, 0, 0
  {
    if DATA_FILE in doc && DataFileName(doc[DATA_FILE]).Ok? && fuel > 0 {
      var rdf := Join(Dirname(filename), DataFileName(doc[DATA_FILE]).value);
      FollowDataFileUnfolds(st, env, filename, doc, fuel);
      ValidateFileExtends(st, env, rdf, None, fuel - 1);
      NotedAfterExtends(st, ValidateFile(st, env, rdf, None, fuel - 1).0, filename, ValidSubmission(doc[NAME]));
    }
  }

  lemma FollowDataFileUnfolds(st: State, env: Env, filename: Path, doc: Document, fuel: nat)
    requires NAME in doc && DATA_FILE in doc && DataFileName(doc[DATA_FILE]).Ok? && fuel > 0
    ensures var rdf := Join(Dirname(filename), DataFileName(doc[DATA_FILE]).value);
      FollowDataFile(st, env, filename, doc, fuel).st
        == Note(ValidateFile(st, env, rdf, None, fuel - 1).0, filename, INFO, ValidSubmission(doc[NAME]))
  {
  }

  lemma NotedAfterExtends(st: State, nested: State, f: Path, text: Text)
    requires Extends(st, nested)
    ensures Extends(st, Note(nested, f, INFO, text))
  {
    NoteExtends(nested, f, INFO, text);
    ExtendsTrans(st, nested, Note(nested, f, INFO, text));
  }

  /** An entry whose table name is already in the index is not followed:
      `validate_sub` ends with the resources' warnings and one INFO. */
  lemma IndexedEntryNotFollowed(st: State, env: Env, filename: Path, doc: Document, fuel: nat)
    requires env.schemas.submission(doc).None? && CheckResources(st, env, filename, doc).exc.None?
    requires NAME in doc && Hashable(doc[NAME]) && HashKey(doc[NAME]) in st.tables
    ensures CheckSubmission(st, env, filename, doc, fuel)
         == Run(Note(CheckResources(st, env, filename, doc).st, filename, INFO, ValidSubmission(doc[NAME])), None)
  {
  }

  // ------------------------------------------------------------------
  // The return value of `validate` speaks for the whole session.

  lemma ErrorsPersist(earlier: State, later: State)
    requires Extends(earlier, later)
    requires AnyErrors(earlier.log)
    ensures AnyErrors(later.log)
  {
    var f :| f in earlier.log.byFile && HasLevel(earlier.log.byFile[f], ERROR);
    var i :| 0 <= i < |earlier.log.byFile[f]| && earlier.log.byFile[f][i].level == ERROR;
    assert earlier.log.Of(f) <= later.log.Of(f);
    assert later.log.Of(f)[i].level == ERROR;
    assert f in later.log.byFile;
  }

  /** `validate` returns true only when no file of the session, before or
      after the call, has an ERROR: once any file has one, every later call
      returns false, whatever it checks. */
  lemma ValidateIsGlobal(st: State, env: Env, path: Path, data: Option<seq<Option<Document>>>, fuel: nat)
    ensures var (st', ok) := ValidateFile(st, env, path, data, fuel);
      && (ok <==> !AnyErrors(st'.log))
      && (ok ==> !AnyErrors(st.log))
  {
    var (st', ok) := ValidateFile(st, env, path, data, fuel);
    ValidateFileExtends(st, env, path, data, fuel);
    if AnyErrors(st.log) {
      ErrorsPersist(st, st');
    }
  }

  /** A file with nothing wrong in it still yields false when another file
      of the session has an ERROR. */
  lemma CleanFileReportsOtherErrors()
    ensures var other := Message("other.yaml", ParseProblem("bad"), ERROR);
      var st := State(Log(["other.yaml"], map["other.yaml" := [other]]), map[]);
      var env := Env(FileSystem(map[], {}), Schemas(d => None, d => None, d => None));
      var (st', ok) := ValidateFile(st, env, "clean.yaml", Some([]), 1);
      !ok && st'.log.Of("clean.yaml") == []
  {
    var other := Message("other.yaml", ParseProblem("bad"), ERROR);
    var st := State(Log(["other.yaml"], map["other.yaml" := [other]]), map[]);
    assert st.log.byFile["other.yaml"][0].level == ERROR;
    assert AnyErrors(st.log);
  }

  // ------------------------------------------------------------------
  // Error containment.

  /** The schema a document's kind is checked against first; for a combined
      entry that is the data schema, applied to its data half. */
  function FirstViolation(schemas: Schemas, doc: Document): Option<Violation> {
    match Classify(doc)
    case SubmissionEntry => schemas.submission(doc)
    case CombinedEntry => schemas.data(Split(doc).0)
    case DataTable => schemas.data(doc)
    case AdditionalInfo => schemas.additional(doc)
  }

  /** A schema violation costs its document one ERROR and nothing else; the
      main pass goes on with the next document. */
  lemma ViolationIsContained(st: State, env: Env, path: Path, doc: Document, rest: seq<Option<Document>>, fuel: nat)
    requires FirstViolation(env.schemas, doc).Some?
    ensures var v := FirstViolation(env.schemas, doc).value;
      var after := Note(st, path, ERROR, SchemaViolation(v));
      && CheckDocument(st, env, path, doc, fuel) == Run(after, None)
      && MainPass(st, env, path, [Some(doc)] + rest, fuel) == MainPass(after, env, path, rest, fuel)
  {
    var v := FirstViolation(env.schemas, doc).value;
    assert Dispatch(st, env, path, doc, fuel) == Run(st, Some(Invalid(v)));
    assert ([Some(doc)] + rest)[1..] == rest;
  }

  /** A combined entry whose data half passes but whose metadata half the
      submission schema rejects keeps what the data half recorded, gets one
      ERROR for the violation, and the main pass goes on with the next
      document. */
  lemma MetadataViolationIsContained(st: State, env: Env, path: Path, doc: Document,
                                     rest: seq<Option<Document>>, fuel: nat)
    requires Classify(doc) == CombinedEntry
    requires CheckData(st, env, path, Split(doc).0).exc.None?
    requires env.schemas.submission(Split(doc).1).Some?
    ensures var v := env.schemas.submission(Split(doc).1).value;
      var after := Note(CheckData(st, env, path, Split(doc).0).st, path, ERROR, SchemaViolation(v));
      && CheckDocument(st, env, path, doc, fuel) == Run(after, None)
      && MainPass(st, env, path, [Some(doc)] + rest, fuel) == MainPass(after, env, path, rest, fuel)
  {
    var data := CheckData(st, env, path, Split(doc).0);
    var v := env.schemas.submission(Split(doc).1).value;
    assert CheckSubmission(data.st, env, path, Split(doc).1, fuel) == Run(data.st, Some(Invalid(v)));
    assert Dispatch(st, env, path, doc, fuel) == Run(data.st, Some(Invalid(v)));
    assert ([Some(doc)] + rest)[1..] == rest;
  }

  /** The main pass stops at the first document that raises something other
      than a schema violation: the documents after it are never looked at. */
  lemma {:induction false} MainPassStopsAtFault(st: State, env: Env, path: Path, before: seq<Option<Document>>,
                                                doc: Document, rest: seq<Option<Document>>, fuel: nat, reached: State)
    requires MainPass(st, env, path, before, fuel) == Run(reached, None)
    requires CheckDocument(reached, env, path, doc, fuel).exc.Some?
    ensures MainPass(st, env, path, before + [Some(doc)] + rest, fuel) == CheckDocument(reached, env, path, doc, fuel)
    decreases |before|
  {
    var all := before + [Some(doc)] + rest;
    if before == [] {
      assert all == [Some(doc)] + rest && all[1..] == rest;
    } else {
      assert all[0] == before[0] && all[1..] == before[1..] + [Some(doc)] + rest;
      if before[0].None? {
        MainPassStopsAtFault(st, env, path, before[1..], doc, rest, fuel, reached);
      } else {
        var r := CheckDocument(st, env, path, before[0].value, fuel);
        MainPassStopsAtFault(r.st, env, path, before[1..], doc, rest, fuel, reached);
      }
    }
  }

  /** Any other exception ends its file wherever it occurs: `validate`
      records it as one ERROR for the file, after what the documents before
      it recorded, and returns false. */
  lemma FaultEndsFile(st: State, env: Env, path: Path, data: Option<seq<Option<Document>>>,
                      before: seq<Option<Document>>, doc: Document, rest: seq<Option<Document>>,
                      fuel: nat, reached: State)
    requires Load(env.fs, path, data) == Ok(before + [Some(doc)] + rest)
    requires PreScan(st.tables, before + [Some(doc)] + rest).1.None?
    requires MainPass(State(st.log, PreScan(st.tables, before + [Some(doc)] + rest).0), env, path, before, fuel)
             == Run(reached, None)
    requires CheckDocument(reached, env, path, doc, fuel).exc.Some?
    ensures var r := CheckDocument(reached, env, path, doc, fuel);
      ValidateFile(st, env, path, data, fuel)
        == (Note(r.st, path, ERROR, ExceptionRaised(r.exc.value.fault)), false)
  {
    var docs := before + [Some(doc)] + rest;
    MainPassStopsAtFault(State(st.log, PreScan(st.tables, docs).0), env, path, before, doc, rest, fuel, reached);
  }

  /** A file that cannot be loaded gets exactly one ERROR, naming the
      problem, and `validate` returns false; nothing else changes. */
  lemma LoadFailureIsOneError(st: State, env: Env, path: Path, data: Option<seq<Option<Document>>>, fuel: nat)
    requires Load(env.fs, path, data).Err?
    ensures var (st', ok) := ValidateFile(st, env, path, data, fuel);
      && !ok
      && st'.log.Of(path) == st.log.Of(path) + [Message(path, Load(env.fs, path, data).error, ERROR)]
      && (forall g :: g != path ==> st'.log.Of(g) == st.log.Of(g))
      && st'.tables == st.tables
  {
  }

  /** A registered document whose name cannot be a dictionary key ends its
      file before the main pass: exactly one ERROR for the TypeError, the
      result false, and the names registered before it stay registered. */
  lemma ScanFailureIsOneError(st: State, env: Env, path: Path, data: Option<seq<Option<Document>>>,
                              docs: seq<Option<Document>>, fuel: nat)
    requires Load(env.fs, path, data) == Ok(docs)
    requires exists i :: 0 <= i < |docs| && RegisteredAt(docs, i) && !Hashable(docs[i].value[NAME])
    ensures var (st', ok) := ValidateFile(st, env, path, data, fuel);
      && !ok
      && st'.log.Of(path) == st.log.Of(path) + [Message(path, ExceptionRaised(TypeError(Unhashable)), ERROR)]
      && (forall g :: g != path ==> st'.log.Of(g) == st.log.Of(g))
      && st.tables.Keys <= st'.tables.Keys
  {
    PreScanFailsIffUnhashable(st.tables, docs);
  }

  /** A submission entry whose table is not indexed and whose `data_file`
      contains a slash ends its file with a TypeError (the source passes a
      single argument to `add_warning`), instead of a warning. */
  lemma SlashedDataFileRaises(st: State, env: Env, filename: Path, doc: Document, fuel: nat)
    requires env.schemas.submission(doc).None?
    requires CheckResources(st, env, filename, doc).exc.None?
    requires NAME in doc && Hashable(doc[NAME]) && HashKey(doc[NAME]) !in st.tables
    requires DATA_FILE in doc && doc[DATA_FILE].Str? && '/' in doc[DATA_FILE].s
    ensures var r := CheckSubmission(st, env, filename, doc, fuel);
      r.exc == Some(Raised(TypeError(AddWarningArity)))
      && OnlyWarnings(st, r.st, filename)
  {
    CheckResourcesOnlyWarn(st, env, filename, doc);
  }

  // ------------------------------------------------------------------
  // The table index decides whether a data file is read.

  /** The resource checks consult only which paths are files, never the
      contents of any file. */
  lemma {:induction false} ResourcesIgnoreContents(st: State, schemas: Schemas, fs1: FileSystem, fs2: FileSystem,
                                                   filename: Path, resources: seq<Value>)
    requires fs1.files == fs2.files
    ensures ResourcesFrom(st, Env(fs1, schemas), filename, resources)
         == ResourcesFrom(st, Env(fs2, schemas), filename, resources)
    decreases |resources|
  {
    if resources != [] {
      var step := ResourceStep(st, Env(fs1, schemas), filename, resources[0]);
      assert step == ResourceStep(st, Env(fs2, schemas), filename, resources[0]);
      if step.exc.None? {
        ResourcesIgnoreContents(step.st, schemas, fs1, fs2, filename, resources[1..]);
      }
    }
  }

  /** A submission entry whose table name is already indexed never opens a
      file: its outcome is the same whatever the files contain. */
  lemma IndexedEntryReadsNoFile(st: State, schemas: Schemas, fs1: FileSystem, fs2: FileSystem,
                                filename: Path, doc: Document, fuel: nat)
    requires fs1.files == fs2.files
    requires NAME in doc && Hashable(doc[NAME]) && HashKey(doc[NAME]) in st.tables
    ensures CheckSubmission(st, Env(fs1, schemas), filename, doc, fuel)
         == CheckSubmission(st, Env(fs2, schemas), filename, doc, fuel)
  {
    match Iterate(Get(doc, RESOURCES, List([])))
    case CannotIterate =>
    case StringItems =>
    case Items(resources) => ResourcesIgnoreContents(st, schemas, fs1, fs2, filename, resources);
  }

  /** A submission entry whose table name is not indexed is followed: its
      data file, next to `filename`, is validated in the same session, and
      the entry then gets its INFO. */
  lemma UnindexedEntryFollowed(st: State, env: Env, filename: Path, doc: Document, fuel: nat)
    requires env.schemas.submission(doc).None?
    requires CheckResources(st, env, filename, doc).exc.None?
    requires NAME in doc && Hashable(doc[NAME]) && HashKey(doc[NAME]) !in st.tables
    requires DATA_FILE in doc && doc[DATA_FILE].Str? && '/' !in doc[DATA_FILE].s && fuel > 0
    ensures var res := CheckResources(st, env, filename, doc);
      var nested := ValidateFile(res.st, env, Join(Dirname(filename), doc[DATA_FILE].s), None, fuel - 1).0;
      CheckSubmission(st, env, filename, doc, fuel) == Run(Note(nested, filename, INFO, ValidSubmission(doc[NAME])), None)
  {
  }

  /** A submission entry whose table name is not indexed is followed to its
      data file next to `filename`: when that file cannot be opened, the
      session records an ERROR for it and the entry still gets its INFO. */
  lemma UnindexedEntryOpensDataFile(st: State, env: Env, filename: Path, doc: Document, fuel: nat)
    requires env.schemas.submission(doc).None?
    requires CheckResources(st, env, filename, doc).exc.None?
    requires NAME in doc && Hashable(doc[NAME]) && HashKey(doc[NAME]) !in st.tables
    requires DATA_FILE in doc && doc[DATA_FILE].Str? && '/' !in doc[DATA_FILE].s && fuel > 0
    requires Join(Dirname(filename), doc[DATA_FILE].s) !in env.fs.contents
    ensures var rdf := Join(Dirname(filename), doc[DATA_FILE].s);
      var r := CheckSubmission(st, env, filename, doc, fuel);
      && r.exc.None?
      && Message(rdf, ExceptionRaised(FileNotFound(rdf)), ERROR) in r.st.log.Of(rdf)
      && Message(filename, ValidSubmission(doc[NAME]), INFO) in r.st.log.Of(filename)
  {
    var rdf := Join(Dirname(filename), doc[DATA_FILE].s);
    var res := CheckResources(st, env, filename, doc);
    var nested := Note(res.st, rdf, ERROR, ExceptionRaised(FileNotFound(rdf)));
    assert ValidateFile(res.st, env, rdf, None, fuel - 1) == (nested, false);
    var r := CheckSubmission(st, env, filename, doc, fuel);
    assert r == FollowDataFile(res.st, env, filename, doc, fuel);
    assert r.st == Note(nested, filename, INFO, ValidSubmission(doc[NAME]));
    assert nested.log.Of(rdf)[|res.st.log.Of(rdf)|] == Message(rdf, ExceptionRaised(FileNotFound(rdf)), ERROR);
    if rdf == filename {
      assert r.st.log.Of(rdf) == nested.log.Of(rdf) + [Message(filename, ValidSubmission(doc[NAME]), INFO)];
    } else {
      assert r.st.log.Of(rdf) == nested.log.Of(rdf);
    }
    assert r.st.log.Of(filename)[|nested.log.Of(filename)|] == Message(filename, ValidSubmission(doc[NAME]), INFO);
  }

  /** A combined entry is never followed to a file once its name is indexed,
      which the pre-scan of its own bundle guarantees. */
  lemma CombinedEntryReadsNoFile(st: State, schemas: Schemas, fs1: FileSystem, fs2: FileSystem,
                                 path: Path, doc: Document, fuel: nat)
    requires fs1.files == fs2.files
    requires Classify(doc) == CombinedEntry
    requires NAME in doc && Hashable(doc[NAME]) && HashKey(doc[NAME]) in st.tables
    ensures CheckDocument(st, Env(fs1, schemas), path, doc, fuel)
         == CheckDocument(st, Env(fs2, schemas), path, doc, fuel)
  {
    var (data, meta) := Split(doc);
    var r := CheckData(st, Env(fs1, schemas), path, data);
    assert r == CheckData(st, Env(fs2, schemas), path, data);
    if r.exc.None? {
      assert meta[NAME] == doc[NAME];
      IndexedEntryReadsNoFile(r.st, schemas, fs1, fs2, path, meta, fuel);
    }
  }

  /** The pre-scan registers a named combined entry or data table, so every
      such document of a successfully scanned bundle finds its name in the
      index. */
  lemma ScannedTablesAreIndexed(tables: map<Value, Document>, docs: seq<Option<Document>>, i: nat)
    requires PreScan(tables, docs).1.None?
    requires i < |docs| && docs[i].Some? && NAME in docs[i].value
    requires Classify(docs[i].value) in {CombinedEntry, DataTable}
    ensures Hashable(docs[i].value[NAME]) && HashKey(docs[i].value[NAME]) in PreScan(tables, docs).0
  {
    IndexCoversTables(docs[i].value);
    assert RegisteredAt(docs, i);
    PreScanFailsIffUnhashable(tables, docs);
    PreScanKeys(tables, docs);
  }

  /** `validate_add`: a schema violation is raised before anything is
      recorded; otherwise the document gets its resources' WARNINGs and,
      unless a resource raised, exactly one INFO, all for the current file. */
  lemma AdditionalChecked(st: State, env: Env, filename: Path, doc: Document)
    ensures env.schemas.additional(doc).Some? ==>
      CheckAdditional(st, env, filename, doc) == Run(st, Some(Invalid(env.schemas.additional(doc).value)))
    ensures var r := CheckAdditional(st, env, filename, doc);
      var res := CheckResources(st, env, filename, doc);
      env.schemas.additional(doc).None? ==>
        && OnlyWarnings(st, res.st, filename)
        && (res.exc.Some? ==> r == res)
        && (res.exc.None? ==>
              && r.exc.None? && r.st.tables == st.tables
              && r.st.log.Of(filename) == res.st.log.Of(filename) + [Message(filename, ValidAdditionalInfo, INFO)]
              && (forall g :: g != filename ==> r.st.log.Of(g) == st.log.Of(g)))
  {
    CheckResourcesOnlyWarn(st, env, filename, doc);
  }

  // ------------------------------------------------------------------
  // Column lengths.

  /** `validate_dat` on a table that passes its schema and whose columns can
      be measured records exactly one WARNING when two columns differ in
      length, none otherwise, and then one INFO. */
  lemma DataWarnsIffInconsistent(st: State, env: Env, filename: Path, doc: Document,
                                 independent: seq<nat>, dependent: seq<nat>)
    requires env.schemas.data(doc).None?
    requires INDEPENDENT in doc && ColumnLengths(doc[INDEPENDENT]) == Ok(independent)
    requires DEPENDENT in doc && ColumnLengths(doc[DEPENDENT]) == Ok(dependent)
    ensures var lengths := independent + dependent;
      var differ := exists i, j :: 0 <= i < |lengths| && 0 <= j < |lengths| && lengths[i] != lengths[j];
      var r := CheckData(st, env, filename, doc);
      && r.exc.None? && r.st.tables == st.tables
      && (forall g :: g != filename ==> r.st.log.Of(g) == st.log.Of(g))
      && r.st.log.Of(filename) == st.log.Of(filename)
           + (if differ then [Message(filename, InconsistentLengths(independent, dependent), WARNING)] else [])
           + [Message(filename, ValidDataTable(Get(doc, NAME, Str(""))), INFO)]
  {
    InconsistentIff(independent + dependent);
    var st1 := if Inconsistent(independent + dependent)
               then Note(st, filename, WARNING, InconsistentLengths(independent, dependent)) else st;
    assert st1.log.Of(filename) == st.log.Of(filename)
      + (if Inconsistent(independent + dependent)
         then [Message(filename, InconsistentLengths(independent, dependent), WARNING)] else []);
  }

  // ------------------------------------------------------------------
  // Null documents.

  /** The non-null documents of a bundle, in order. */
  function NonNull(docs: seq<Option<Document>>): (r: seq<Option<Document>>)
    ensures forall i :: 0 <= i < |r| ==> r[i].Some?
    ensures forall d :: d in r <==> d in docs && d.Some?
    ensures |r| <= |docs|
  {
    if docs == [] then []
    else (if docs[0].Some? then [docs[0]] else []) + NonNull(docs[1..])
  }

  /** Dropping the nulls keeps the order: it works document by document. */
  lemma {:induction false} NonNullConcat(a: seq<Option<Document>>, b: seq<Option<Document>>)
    ensures NonNull(a + b) == NonNull(a) + NonNull(b)
    decreases |a|
  {
    if a == [] {
      assert a + b == b;
    } else {
      assert (a + b)[0] == a[0] && (a + b)[1..] == a[1..] + b;
      NonNullConcat(a[1..], b);
    }
  }

  /** Null documents change nothing: neither pass sees them. */
  lemma {:induction false} NullsSkipped(st: State, env: Env, path: Path, docs: seq<Option<Document>>, fuel: nat)
    ensures PreScan(st.tables, docs) == PreScan(st.tables, NonNull(docs))
    ensures MainPass(st, env, path, docs, fuel) == MainPass(st, env, path, NonNull(docs), fuel)
    decreases |docs|
  {
    PreScanNullsSkipped(st.tables, docs);
    if docs != [] {
      var n := NonNull(docs);
      if docs[0].None? {
        assert n == NonNull(docs[1..]);
        NullsSkipped(st, env, path, docs[1..], fuel);
      } else {
        assert n[0] == docs[0] && n[1..] == NonNull(docs[1..]);
        var r := CheckDocument(st, env, path, docs[0].value, fuel);
        if r.exc.None? {
          NullsSkipped(r.st, env, path, docs[1..], fuel);
        }
      }
    }
  }

  lemma {:induction false} PreScanNullsSkipped(tables: map<Value, Document>, docs: seq<Option<Document>>)
    ensures PreScan(tables, docs) == PreScan(tables, NonNull(docs))
    decreases |docs|
  {
    if docs != [] {
      var n := NonNull(docs);
      if docs[0].None? {
        assert n == NonNull(docs[1..]);
        PreScanNullsSkipped(tables, docs[1..]);
      } else {
        assert n[0] == docs[0] && n[1..] == NonNull(docs[1..]);
        if RegistersTable(docs[0].value) && Hashable(docs[0].value[NAME]) {
          PreScanNullsSkipped(tables[HashKey(docs[0].value[NAME]) := docs[0].value], docs[1..]);
        } else {
          PreScanNullsSkipped(tables, docs[1..]);
        }
      }
    }
  }
}
