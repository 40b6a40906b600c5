/**
 * Whole validation sessions on small bundles of plain file names (no
 * directory part), with schemas that accept every document.
 */
module Scenarios {
  import opened Wrappers
  import opened Json
  import opened Paths
  import opened Messages
  import opened Documents
  import opened Semantics
  import opened Properties

  ghost predicate AcceptsAll(schemas: Schemas) {
    forall d :: schemas.submission(d).None? && schemas.data(d).None? && schemas.additional(d).None?
  }

  /** A variable with `n` values. */
  function Column(n: nat): (c: Value)
    ensures c.Object? && VALUES in c.fields && Len(c.fields[VALUES]) == Some(n)
  {
    Object(map[VALUES := List(seq(n, i => Int(i)))])
  }

  /** An unnamed data table with one independent and one dependent variable. */
  function Table(independent: nat, dependent: nat): Document {
    map[INDEPENDENT := List([Column(independent)]), DEPENDENT := List([Column(dependent)])]
  }

  /** A submission entry naming its table and data file, without resources. */
  function Entry(name: string, dataFile: Path): Document {
    map[NAME := Str(name), DATA_FILE := Str(dataFile)]
  }

  /** The messages a table with these two column lengths earns. */
  function TableMessages(path: Path, independent: nat, dependent: nat): seq<Message> {
    (if independent == dependent then []
     else [Message(path, InconsistentLengths([independent], [dependent]), WARNING)])
    + [Message(path, ValidDataTable(Str("")), INFO)]
  }

  lemma OneColumn(n: nat)
    ensures ColumnLengths(List([Column(n)])) == Ok([n])
  {
    assert [Column(n)][1..] == [];
    assert [n] + [] == [n];
  }

  lemma PlainName(p: Path, name: Path)
    requires '/' !in p
    ensures Dirname(p) == "" && Join(Dirname(p), name) == name
  {
    AfterLastSlashNone(p);
  }

  /** The state a table with these column lengths leaves behind. */
  function AfterTable(st: State, path: Path, independent: nat, dependent: nat): (r: State)
    ensures r.tables == st.tables
  {
    var st1 := if independent == dependent then st
               else Note(st, path, WARNING, InconsistentLengths([independent], [dependent]));
    Note(st1, path, INFO, ValidDataTable(Str("")))
  }

  lemma AfterTableLog(st: State, path: Path, independent: nat, dependent: nat)
    ensures var r := AfterTable(st, path, independent, dependent);
      && r.log.Of(path) == st.log.Of(path) + TableMessages(path, independent, dependent)
      && (forall g :: g != path ==> r.log.Of(g) == st.log.Of(g))
      && r.log.order == if path in st.log.byFile then st.log.order else st.log.order + [path]
  {
  }

  lemma TableChecked(st: State, env: Env, path: Path, independent: nat, dependent: nat)
    requires AcceptsAll(env.schemas)
    ensures CheckData(st, env, path, Table(independent, dependent)) == Run(AfterTable(st, path, independent, dependent), None)
  {
    var table := Table(independent, dependent);
    OneColumn(independent);
    OneColumn(dependent);
    InconsistentIff([independent] + [dependent]);
    assert Inconsistent([independent] + [dependent]) <==> independent != dependent by {
      var l := [independent] + [dependent];
      assert l[0] == independent && l[1] == dependent;
    }
    assert env.schemas.data(table).None?;
  }

  lemma TableNotRegistered(tables: map<Value, Document>, independent: nat, dependent: nat)
    ensures PreScan(tables, [Some(Table(independent, dependent))]) == (tables, None)
  {
    assert !RegistersTable(Table(independent, dependent));
    assert [Some(Table(independent, dependent))][1..] == [];
  }

  lemma TablePass(st: State, env: Env, path: Path, independent: nat, dependent: nat, fuel: nat)
    requires AcceptsAll(env.schemas)
    ensures MainPass(st, env, path, [Some(Table(independent, dependent))], fuel)
         == Run(AfterTable(st, path, independent, dependent), None)
  {
    var table := Table(independent, dependent);
    assert Classify(table) == DataTable;
    TableChecked(st, env, path, independent, dependent);
    assert CheckDocument(st, env, path, table, fuel) == Run(AfterTable(st, path, independent, dependent), None);
    assert [Some(table)][1..] == [];
  }

  /** A file holding one unnamed table: the table is checked and the file
      gets the table's messages; no table name is registered. */
  lemma TableFile(st: State, env: Env, path: Path, independent: nat, dependent: nat, fuel: nat)
    requires AcceptsAll(env.schemas)
    requires path in env.fs.contents && env.fs.contents[path] == Parsed([Some(Table(independent, dependent))])
    ensures ValidateFile(st, env, path, None, fuel).0 == AfterTable(st, path, independent, dependent)
  {
    TableNotRegistered(st.tables, independent, dependent);
    TablePass(st, env, path, independent, dependent, fuel);
  }

  /** What a file holding one submission entry whose table is not indexed
      amounts to: the nested validation of its data file, then one INFO. */
  function AfterEntry(st: State, env: Env, sub: Path, name: string, dataFile: Path, fuel: nat): (r: State)
  {
    Note(ValidateFile(st, env, dataFile, None, fuel).0, sub, INFO, ValidSubmission(Str(name)))
  }

  lemma EntryFollowed(st: State, env: Env, sub: Path, doc: Document, name: string, dataFile: Path, fuel: nat)
    requires AcceptsAll(env.schemas)
    requires '/' !in sub && '/' !in dataFile && Str(name) !in st.tables && fuel > 0
    requires RESOURCES !in doc && NAME in doc && doc[NAME] == Str(name)
    requires DATA_FILE in doc && doc[DATA_FILE] == Str(dataFile)
    ensures CheckSubmission(st, env, sub, doc, fuel)
         == Run(AfterEntry(st, env, sub, name, dataFile, fuel - 1), None)
  {
    EntryReachesDataFile(st, env, sub, doc, fuel);
    EntryDataFile(st, env, sub, doc, name, dataFile, fuel);
  }

  lemma EntryReachesDataFile(st: State, env: Env, sub: Path, doc: Document, fuel: nat)
    requires AcceptsAll(env.schemas)
    requires RESOURCES !in doc && NAME in doc && Hashable(doc[NAME]) && HashKey(doc[NAME]) !in st.tables
    ensures CheckSubmission(st, env, sub, doc, fuel) == FollowDataFile(st, env, sub, doc, fuel)
  {
    assert env.schemas.submission(doc).None?;
    assert CheckResources(st, env, sub, doc) == Run(st, None);
  }

  lemma EntryDataFile(st: State, env: Env, sub: Path, doc: Document, name: string, dataFile: Path, fuel: nat)
    requires '/' !in sub && '/' !in dataFile && fuel > 0
    requires NAME in doc && doc[NAME] == Str(name) && DATA_FILE in doc && doc[DATA_FILE] == Str(dataFile)
    ensures FollowDataFile(st, env, sub, doc, fuel) == Run(AfterEntry(st, env, sub, name, dataFile, fuel - 1), None)
  {
    PlainName(sub, dataFile);
    assert DataFileName(doc[DATA_FILE]) == Ok(dataFile);
  }

  lemma EntryNotRegistered(tables: map<Value, Document>, name: string, dataFile: Path)
    ensures PreScan(tables, [Some(Entry(name, dataFile))]) == (tables, None)
  {
    assert !RegistersTable(Entry(name, dataFile));
    assert [Some(Entry(name, dataFile))][1..] == [];
  }

  lemma EntryPass(st: State, env: Env, sub: Path, name: string, dataFile: Path, fuel: nat)
    requires AcceptsAll(env.schemas)
    requires '/' !in sub && '/' !in dataFile && Str(name) !in st.tables && fuel > 0
    ensures MainPass(st, env, sub, [Some(Entry(name, dataFile))], fuel)
         == Run(AfterEntry(st, env, sub, name, dataFile, fuel - 1), None)
  {
    var entry := Entry(name, dataFile);
    assert RESOURCES !in entry && entry[NAME] == Str(name) && entry[DATA_FILE] == Str(dataFile);
    EntryFollowed(st, env, sub, entry, name, dataFile, fuel);
    assert Classify(entry) == SubmissionEntry;
    assert Dispatch(st, env, sub, entry, fuel) == CheckSubmission(st, env, sub, entry, fuel);
    assert CheckDocument(st, env, sub, entry, fuel) == Run(AfterEntry(st, env, sub, name, dataFile, fuel - 1), None);
    assert [Some(entry)][1..] == [];
  }

  lemma EntryFile(st: State, env: Env, sub: Path, name: string, dataFile: Path, fuel: nat)
    requires AcceptsAll(env.schemas)
    requires '/' !in sub && '/' !in dataFile && Str(name) !in st.tables && fuel > 0
    requires sub in env.fs.contents && env.fs.contents[sub] == Parsed([Some(Entry(name, dataFile))])
    ensures var after := AfterEntry(st, env, sub, name, dataFile, fuel - 1);
      ValidateFile(st, env, sub, None, fuel) == (after, !AnyErrors(after.log))
  {
    EntryNotRegistered(st.tables, name, dataFile);
    EntryPass(st, env, sub, name, dataFile, fuel);
  }

  /** A submission file with one entry whose table is not indexed yet, and
      whose data file holds that table: the session succeeds; the data file
      is validated first and gets one INFO, preceded by one WARNING quoting
      both length lists when the lengths differ; the submission file then
      gets one INFO. */
  lemma SubmissionWithDataFile(env: Env, sub: Path, dataFile: Path, name: string,
                               independent: nat, dependent: nat)
    requires AcceptsAll(env.schemas)
    requires '/' !in sub && '/' !in dataFile && sub != dataFile
    requires sub in env.fs.contents && env.fs.contents[sub] == Parsed([Some(Entry(name, dataFile))])
    requires dataFile in env.fs.contents && env.fs.contents[dataFile] == Parsed([Some(Table(independent, dependent))])
    ensures var (st, ok) := ValidateFile(State(EmptyLog, map[]), env, sub, None, 1);
      && ok
      && st.log.order == [dataFile, sub]
      && st.log.Of(dataFile) == TableMessages(dataFile, independent, dependent)
      && st.log.Of(sub) == [Message(sub, ValidSubmission(Str(name)), INFO)]
  {
    var start := State(EmptyLog, map[]);
    EntryFile(start, env, sub, name, dataFile, 1);
    TableFile(start, env, dataFile, independent, dependent, 0);
    TwoFilesLog(sub, dataFile, name, independent, dependent);
  }

  lemma TwoFilesLog(sub: Path, dataFile: Path, name: string, independent: nat, dependent: nat)
    requires sub != dataFile
    ensures var done := Note(AfterTable(State(EmptyLog, map[]), dataFile, independent, dependent),
                             sub, INFO, ValidSubmission(Str(name)));
      && !AnyErrors(done.log)
      && done.log.order == [dataFile, sub]
      && done.log.Of(dataFile) == TableMessages(dataFile, independent, dependent)
      && done.log.Of(sub) == [Message(sub, ValidSubmission(Str(name)), INFO)]
  {
    var start := State(EmptyLog, map[]);
    var nested := AfterTable(start, dataFile, independent, dependent);
    TwoFilesMessages(sub, dataFile, name, independent, dependent);
    AfterTableNoErrors(start, dataFile, independent, dependent);
    AnyErrorsAfterAppend(nested.log, sub, INFO, ValidSubmission(Str(name)));
  }

  lemma TwoFilesMessages(sub: Path, dataFile: Path, name: string, independent: nat, dependent: nat)
    requires sub != dataFile
    ensures var done := Note(AfterTable(State(EmptyLog, map[]), dataFile, independent, dependent),
                             sub, INFO, ValidSubmission(Str(name)));
      && done.log.order == [dataFile, sub]
      && done.log.Of(dataFile) == TableMessages(dataFile, independent, dependent)
      && done.log.Of(sub) == [Message(sub, ValidSubmission(Str(name)), INFO)]
  {
    var start := State(EmptyLog, map[]);
    AfterTableLog(start, dataFile, independent, dependent);
    var nested := AfterTable(start, dataFile, independent, dependent);
    assert nested.log.Of(dataFile) == TableMessages(dataFile, independent, dependent);
    assert nested.log.Of(sub) == [];
    assert nested.log.order == [dataFile];
  }

  lemma AfterTableNoErrors(st: State, path: Path, independent: nat, dependent: nat)
    requires !AnyErrors(st.log)
    ensures !AnyErrors(AfterTable(st, path, independent, dependent).log)
  {
    var st1 := if independent == dependent then st
               else Note(st, path, WARNING, InconsistentLengths([independent], [dependent]));
    if independent != dependent {
      AnyErrorsAfterAppend(st.log, path, WARNING, InconsistentLengths([independent], [dependent]));
    }
    AnyErrorsAfterAppend(st1.log, path, INFO, ValidDataTable(Str("")));
  }

  /** A submission entry whose data file does not exist: that file gets one
      ERROR, the entry still gets its INFO, and the session fails. */
  lemma MissingDataFile(env: Env, sub: Path, dataFile: Path, name: string)
    requires AcceptsAll(env.schemas)
    requires '/' !in sub && '/' !in dataFile && sub != dataFile
    requires sub in env.fs.contents && env.fs.contents[sub] == Parsed([Some(Entry(name, dataFile))])
    requires dataFile !in env.fs.contents
    ensures var (st, ok) := ValidateFile(State(EmptyLog, map[]), env, sub, None, 1);
      && !ok
      && st.log.Of(dataFile) == [Message(dataFile, ExceptionRaised(FileNotFound(dataFile)), ERROR)]
      && st.log.Of(sub) == [Message(sub, ValidSubmission(Str(name)), INFO)]
  {
    var start := State(EmptyLog, map[]);
    EntryFile(start, env, sub, name, dataFile, 1);
    var nested := Note(start, dataFile, ERROR, ExceptionRaised(FileNotFound(dataFile)));
    assert ValidateFile(start, env, dataFile, None, 0) == (nested, false);
    var done := Note(nested, sub, INFO, ValidSubmission(Str(name)));
    assert AfterEntry(start, env, sub, name, dataFile, 0) == done;
    assert done.log.byFile[dataFile][0].level == ERROR;
  }

  /** A single-file combined entry with one local resource. */
  function Combined(n: nat, name: string, location: string): Document {
    Table(n, n)[NAME := Str(name)][DESCRIPTION := Str("")]
      [RESOURCES := List([Object(map[LOCATION := Str(location)])])]
  }

  lemma CombinedRegistered(tables: map<Value, Document>, n: nat, name: string, location: string)
    ensures PreScan(tables, [Some(Combined(n, name, location))])
         == (tables[Str(name) := Combined(n, name, location)], None)
  {
    var doc := Combined(n, name, location);
    assert RegistersTable(doc) && doc[NAME] == Str(name);
    assert [Some(doc)][1..] == [];
  }

  /** The state after the data half (one INFO) and the resource (one
      WARNING for its slash). */
  function AfterHalves(st: State, path: Path, location: string): (r: State)
    ensures r.tables == st.tables
  {
    Note(Note(st, path, INFO, ValidDataTable(Str(""))), path, WARNING, ResourceHasSlash(location))
  }

  lemma CombinedResources(st: State, env: Env, path: Path, meta: Document, location: string)
    requires '/' !in path && '/' in location && !StartsWith(location, "http") && location in env.fs.files
    requires RESOURCES in meta && meta[RESOURCES] == List([Object(map[LOCATION := Str(location)])])
    ensures CheckResources(Note(st, path, INFO, ValidDataTable(Str(""))), env, path, meta)
         == Run(AfterHalves(st, path, location), None)
  {
    var resource := Object(map[LOCATION := Str(location)]);
    var afterData := Note(st, path, INFO, ValidDataTable(Str("")));
    PlainName(path, location);
    assert ResourceStep(afterData, env, path, resource) == Run(AfterHalves(st, path, location), None);
    assert Get(meta, RESOURCES, List([])) == List([resource]);
    assert ResourcesFrom(afterData, env, path, [resource]) == Run(AfterHalves(st, path, location), None) by {
      assert [resource][1..] == [];
    }
  }

  lemma CombinedMeta(st: State, env: Env, path: Path, meta: Document, name: string, location: string)
    requires AcceptsAll(env.schemas)
    requires '/' !in path && '/' in location && !StartsWith(location, "http") && location in env.fs.files
    requires Str(name) in st.tables
    requires RESOURCES in meta && meta[RESOURCES] == List([Object(map[LOCATION := Str(location)])])
    requires NAME in meta && meta[NAME] == Str(name)
    ensures CheckSubmission(Note(st, path, INFO, ValidDataTable(Str(""))), env, path, meta, 0)
         == Run(Note(AfterHalves(st, path, location), path, INFO, ValidSubmission(Str(name))), None)
  {
    var afterData := Note(st, path, INFO, ValidDataTable(Str("")));
    CombinedResources(st, env, path, meta, location);
    assert env.schemas.submission(meta).None?;
    IndexedEntryNotFollowed(afterData, env, path, meta, 0);
  }

  lemma CombinedChecked(st: State, env: Env, path: Path, n: nat, name: string, location: string)
    requires AcceptsAll(env.schemas)
    requires '/' !in path && '/' in location && !StartsWith(location, "http") && location in env.fs.files
    requires Str(name) in st.tables
    ensures CheckDocument(st, env, path, Combined(n, name, location), 0)
         == Run(Note(AfterHalves(st, path, location), path, INFO, ValidSubmission(Str(name))), None)
  {
    var doc := Combined(n, name, location);
    assert DATA_FILE !in doc && INDEPENDENT in doc && DESCRIPTION in doc;
    var data := Split(doc).0;
    var meta := Split(doc).1;
    assert data == Table(n, n);
    TableChecked(st, env, path, n, n);
    assert meta[RESOURCES] == List([Object(map[LOCATION := Str(location)])]) && meta[NAME] == Str(name);
    CombinedMeta(st, env, path, meta, name, location);
    CombinedDispatched(st, env, path, doc, 0, Note(st, path, INFO, ValidDataTable(Str(""))));
  }

  /** A combined entry whose data half passes is checked as a submission
      entry from the state the data half leaves behind. */
  lemma CombinedDispatched(st: State, env: Env, path: Path, doc: Document, fuel: nat, afterData: State)
    requires DATA_FILE !in doc && INDEPENDENT in doc && DESCRIPTION in doc
    requires CheckData(st, env, path, Split(doc).0) == Run(afterData, None)
    ensures Dispatch(st, env, path, doc, fuel) == CheckSubmission(afterData, env, path, Split(doc).1, fuel)
  {
  }

  /** A single-file bundle whose one combined entry lists one local resource
      in a subdirectory, and the resource exists: the data half gets one
      INFO, the resource's slash one WARNING, the entry one INFO, and the
      session succeeds without following the entry to a data file. */
  lemma SingleFileWithResource(env: Env, path: Path, name: string, location: string, n: nat)
    requires AcceptsAll(env.schemas)
    requires '/' !in path && '/' in location && !StartsWith(location, "http")
    requires location in env.fs.files
    requires path in env.fs.contents && env.fs.contents[path] == Parsed([Some(Combined(n, name, location))])
    ensures var (st, ok) := ValidateFile(State(EmptyLog, map[]), env, path, None, 0);
      && ok
      && st.log.order == [path]
      && st.log.Of(path) == [
           Message(path, ValidDataTable(Str("")), INFO),
           Message(path, ResourceHasSlash(location), WARNING),
           Message(path, ValidSubmission(Str(name)), INFO)]
  {
    var scanned := State(EmptyLog, map[Str(name) := Combined(n, name, location)]);
    CombinedFile(env, path, name, location, n);
    SingleFileLog(scanned, path, name, location);
  }

  lemma CombinedFile(env: Env, path: Path, name: string, location: string, n: nat)
    requires AcceptsAll(env.schemas)
    requires '/' !in path && '/' in location && !StartsWith(location, "http")
    requires location in env.fs.files
    requires path in env.fs.contents && env.fs.contents[path] == Parsed([Some(Combined(n, name, location))])
    ensures var scanned := State(EmptyLog, map[Str(name) := Combined(n, name, location)]);
      var done := Note(AfterHalves(scanned, path, location), path, INFO, ValidSubmission(Str(name)));
      ValidateFile(State(EmptyLog, map[]), env, path, None, 0) == (done, !AnyErrors(done.log))
  {
    var doc := Combined(n, name, location);
    CombinedRegistered(map[], n, name, location);
    var scanned := State(EmptyLog, map[Str(name) := doc]);
    CombinedChecked(scanned, env, path, n, name, location);
    var done := Note(AfterHalves(scanned, path, location), path, INFO, ValidSubmission(Str(name)));
    assert MainPass(scanned, env, path, [Some(doc)], 0) == Run(done, None) by {
      assert [Some(doc)][1..] == [];
    }
  }

  lemma SingleFileLog(st: State, path: Path, name: string, location: string)
    requires st.log == EmptyLog
    ensures var done := Note(AfterHalves(st, path, location), path, INFO, ValidSubmission(Str(name)));
      && !AnyErrors(done.log)
      && done.log.order == [path]
      && done.log.Of(path) == [
           Message(path, ValidDataTable(Str("")), INFO),
           Message(path, ResourceHasSlash(location), WARNING),
           Message(path, ValidSubmission(Str(name)), INFO)]
  {
    var st1 := Note(st, path, INFO, ValidDataTable(Str("")));
    var st2 := AfterHalves(st, path, location);
    AnyErrorsAfterAppend(st.log, path, INFO, ValidDataTable(Str("")));
    AnyErrorsAfterAppend(st1.log, path, WARNING, ResourceHasSlash(location));
    AnyErrorsAfterAppend(st2.log, path, INFO, ValidSubmission(Str(name)));
  }
}
