/**
 * The validator object: a message log per file and a table index, updated in
 * place by its methods. Each method is proved to leave the object in the
 * state that the corresponding function of `Semantics` computes.
 */
module Validation {
  import opened Wrappers
  import opened Json
  import opened Paths
  import opened Messages
  import opened Documents
  import opened Semantics

  class Validator {
    /** Each touched file's messages, in insertion order. */
    var messages: map<Path, seq<Message>>
    /** The files of `messages` in the order they were first touched. */
    var order: seq<Path>
    /** Table name to the document that defines it. */
    var tables: map<Value, Document>
    /** The submission, data and additional-information schemas. */
    const schemas: Schemas

    ghost predicate Valid()
      reads this
    {
      Log(order, messages).Valid()
    }

    /** The session state the object stands for. */
    function Current(): State
      reads this
    {
      State(Log(order, messages), tables)
    }

    /** A validator with the given schemas and nothing recorded yet. */
    constructor (schemas: Schemas)
      ensures Valid() && this.schemas == schemas
      ensures Current() == State(EmptyLog, map[])
    {
      this.schemas := schemas;
      messages := map[];
      order := [];
      tables := map[];
    }

    /** `ensure_messages`: the file's list, created empty when missing. */
    method EnsureMessages(filename: Path) returns (ms: seq<Message>)
      requires Valid()
      modifies this
      ensures Valid()
      ensures Current() == old(Current()).(log := Ensure(old(Current()).log, filename))
      ensures ms == old(Current()).log.Of(filename)
    {
      AppendKeepsValid(Current().log, filename, INFO, ValidAdditionalInfo);
      if filename !in messages {
        messages := messages[filename := []];
        order := order + [filename];
      }
      ms := messages[filename];
    }

    /** `add_error`. */
    method AddError(filename: Path, text: Text)
      requires Valid()
      modifies this
      ensures Valid()
      ensures Current() == Note(old(Current()), filename, ERROR, text)
    {
      AppendKeepsValid(Current().log, filename, ERROR, text);
      var ms := EnsureMessages(filename);
      messages := messages[filename := ms + [Message(filename, text, ERROR)]];
    }

    /** `add_warning`. */
    method AddWarning(filename: Path, text: Text)
      requires Valid()
      modifies this
      ensures Valid()
      ensures Current() == Note(old(Current()), filename, WARNING, text)
    {
      AppendKeepsValid(Current().log, filename, WARNING, text);
      var ms := EnsureMessages(filename);
      messages := messages[filename := ms + [Message(filename, text, WARNING)]];
    }

    /** `add_info`. */
    method AddInfo(filename: Path, text: Text)
      requires Valid()
      modifies this
      ensures Valid()
      ensures Current() == Note(old(Current()), filename, INFO, text)
    {
      AppendKeepsValid(Current().log, filename, INFO, text);
      var ms := EnsureMessages(filename);
      messages := messages[filename := ms + [Message(filename, text, INFO)]];
    }

    /** `filter_messages`: the file's messages at exactly `least`, or at
        `least` and above, in their original order. */
    method FilterMessages(filename: Path, least: int, exact: bool) returns (r: seq<Message>)
      requires Valid()
      modifies this
      ensures Valid()
      ensures Current() == old(Current()).(log := Ensure(old(Current()).log, filename))
      ensures r == Filter(old(Current()).log.Of(filename), least, exact)
    {
      var ms := EnsureMessages(filename);
      r := Filter(ms, least, exact);
    }

    /** `get_messages(filename, least, exact)` for one file: all of its
        messages, or the filtered ones. */
    method GetMessages(filename: Path, least: Option<int>, exact: bool) returns (r: seq<Message>)
      requires Valid()
      modifies this
      ensures Valid()
      ensures Current() == old(Current()).(log := Ensure(old(Current()).log, filename))
      ensures least.None? ==> r == old(Current()).log.Of(filename)
      ensures least.Some? ==> r == Filter(old(Current()).log.Of(filename), least.value, exact)
    {
      if least.None? {
        r := EnsureMessages(filename);
      } else {
        r := FilterMessages(filename, least.value, exact);
      }
    }

    /** `get_messages(None, least, exact)`: the whole log, or every touched
        file with its filtered list, files in the same order. */
    method GetAllMessages(least: Option<int>, exact: bool) returns (r: Log)
      requires Valid()
      ensures r.order == order && r.byFile.Keys == messages.Keys
      ensures least.None? ==> r.byFile == messages
      ensures least.Some? ==> forall f :: f in messages ==> r.byFile[f] == Filter(messages[f], least.value, exact)
    {
      if least.None? {
        return Log(order, messages);
      }
      var byFile: map<Path, seq<Message>> := map[];
      var i := 0;
      while i < |order|
        invariant 0 <= i <= |order|
        invariant forall f :: f in byFile <==> f in order[..i]
        invariant forall f :: f in byFile ==> f in messages && byFile[f] == Filter(messages[f], least.value, exact)
      {
        var f := order[i];
        byFile := byFile[f := Filter(messages[f], least.value, exact)];
        i := i + 1;
      }
      assert order[..i] == order;
      r := Log(order, byFile);
    }

    /** `clear_messages`. */
    method ClearMessages()
      requires Valid()
      modifies this
      ensures Valid()
      ensures Current() == old(Current()).(log := EmptyLog)
    {
      messages := map[];
      order := [];
    }

    /** `has_errors(filename)`: the file has an ERROR message. */
    method HasErrors(filename: Path) returns (b: bool)
      requires Valid()
      modifies this
      ensures Valid()
      ensures Current() == old(Current()).(log := Ensure(old(Current()).log, filename))
      ensures b == HasLevel(old(Current()).log.Of(filename), ERROR)
    {
      var errors := GetMessages(filename, Some(ERROR), true);
      b := |errors| > 0;
    }

    /** `has_errors(None)`: some touched file has an ERROR message. */
    method HasErrorsAnywhere() returns (b: bool)
      requires Valid()
      ensures b <==> exists f :: f in messages && exists i :: 0 <= i < |messages[f]| && messages[f][i].level == ERROR
      ensures b == AnyErrors(Current().log)
    {
      var i := 0;
      while i < |order|
        invariant 0 <= i <= |order|
        invariant forall k :: 0 <= k < i ==> !HasLevel(messages[order[k]], ERROR)
      {
        if HasLevel(messages[order[i]], ERROR) {
          return true;
        }
        i := i + 1;
      }
      forall f | f in messages ensures !HasLevel(messages[f], ERROR) {
        var k :| 0 <= k < |order| && order[k] == f;
      }
      return false;
    }

    /** `has_warnings(filename)`: the file has a WARNING message. */
    method HasWarnings(filename: Path) returns (b: bool)
      requires Valid()
      modifies this
      ensures Valid()
      ensures Current() == old(Current()).(log := Ensure(old(Current()).log, filename))
      ensures b == HasLevel(old(Current()).log.Of(filename), WARNING)
    {
      var warnings := GetMessages(filename, Some(WARNING), true);
      b := |warnings| > 0;
    }

    /** `has_warnings(None)`, which the command-line summary calls: it asks
        `get_messages(None, WARNING, exact=True)` and tests the length of the
        dictionary that comes back. */
    method HasWarningsAnywhere() returns (b: bool)
      requires Valid()
      ensures b == HasWarningsAsWritten(Current().log)
    {
      var all := GetAllMessages(Some(WARNING), true);
      assert all.byFile == FilterAll(Current().log, WARNING, true);
      b := |all.byFile| > 0;
    }

    /** `validate_res`: returns the exception it raises, if any. */
    method ValidateRes(filename: Path, doc: Document, fs: FileSystem) returns (exc: Option<Exc>)
      requires Valid()
      modifies this
      ensures Valid()
      ensures Run(Current(), exc) == CheckResources(old(Current()), Env(fs, schemas), filename, doc)
    {
      var resources: seq<Value>;
      match Iterate(Get(doc, RESOURCES, List([])))
      case CannotIterate => return Some(Raised(TypeError(NotIterable)));
      case StringItems => return Some(Raised(AttributeError(NoGet)));
      case Items(rs) => resources := rs;
      ghost var env := Env(fs, schemas);
      ghost var start := Current();
      var i := 0;
      while i < |resources|
        invariant 0 <= i <= |resources|
        invariant Valid()
        invariant ResourcesFrom(start, env, filename, resources) == ResourcesFrom(Current(), env, filename, resources[i..])
      {
        assert resources[i..][1..] == resources[i + 1..];
        exc := ValidateResource(filename, resources[i], fs);
        if exc.Some? {
          return;
        }
        i := i + 1;
      }
      return None;
    }

    /** One pass of the loop of `validate_res`. */
    method ValidateResource(filename: Path, resource: Value, fs: FileSystem) returns (exc: Option<Exc>)
      requires Valid()
      modifies this
      ensures Valid()
      ensures Run(Current(), exc) == ResourceStep(old(Current()), Env(fs, schemas), filename, resource)
    {
      if !resource.Object? {
        return Some(Raised(AttributeError(NoGet)));
      }
      var location := Get(resource.fields, LOCATION, Str(""));
      if !location.Str? {
        return Some(Raised(AttributeError(NoStartsWith)));
      }
      if StartsWith(location.s, "http") {
        return None;
      }
      var resolved := Join(Dirname(filename), location.s);
      if resolved !in fs.files {
        AddWarning(filename, ResourceNotFound(resolved));
      }
      if '/' in location.s {
        AddWarning(filename, ResourceHasSlash(resolved));
      }
      return None;
    }

    /** `validate_dat`: returns the exception it raises, if any. */
    method ValidateDat(filename: Path, doc: Document) returns (exc: Option<Exc>)
      requires Valid()
      modifies this
      ensures Valid()
      ensures forall fs :: Run(Current(), exc) == CheckData(old(Current()), Env(fs, schemas), filename, doc)
    {
      var violation := schemas.data(doc);
      if violation.Some? {
        return Some(Invalid(violation.value));
      }
      if INDEPENDENT !in doc {
        return Some(Raised(KeyError(INDEPENDENT)));
      }
      var independent := ColumnLengths(doc[INDEPENDENT]);
      if independent.Err? {
        return Some(Raised(independent.error));
      }
      if DEPENDENT !in doc {
        return Some(Raised(KeyError(DEPENDENT)));
      }
      var dependent := ColumnLengths(doc[DEPENDENT]);
      if dependent.Err? {
        return Some(Raised(dependent.error));
      }
      if Inconsistent(independent.value + dependent.value) {
        AddWarning(filename, InconsistentLengths(independent.value, dependent.value));
      }
      AddInfo(filename, ValidDataTable(Get(doc, NAME, Str(""))));
      return None;
    }

    /** `validate_add`: returns the exception it raises, if any. */
    method ValidateAdd(filename: Path, doc: Document, fs: FileSystem) returns (exc: Option<Exc>)
      requires Valid()
      modifies this
      ensures Valid()
      ensures Run(Current(), exc) == CheckAdditional(old(Current()), Env(fs, schemas), filename, doc)
    {
      var violation := schemas.additional(doc);
      if violation.Some? {
        return Some(Invalid(violation.value));
      }
      exc := ValidateRes(filename, doc, fs);
      if exc.Some? {
        return;
      }
      AddInfo(filename, ValidAdditionalInfo);
    }

    /** `validate_sub`: returns the exception it raises, if any. */
    method ValidateSub(filename: Path, doc: Document, fs: FileSystem, fuel: nat) returns (exc: Option<Exc>)
      requires Valid()
      modifies this
      ensures Valid()
      ensures Run(Current(), exc) == CheckSubmission(old(Current()), Env(fs, schemas), filename, doc, fuel)
      decreases fuel, 1
    {
      var violation := schemas.submission(doc);
      if violation.Some? {
        return Some(Invalid(violation.value));
      }
      exc := ValidateRes(filename, doc, fs);
      if exc.Some? {
        return;
      }
      if NAME !in doc {
        return Some(Raised(KeyError(NAME)));
      }
      var name := doc[NAME];
      if !Hashable(name) {
        return Some(Raised(TypeError(Unhashable)));
      }
      if HashKey(name) !in tables {
        exc := ValidateDataFile(filename, doc, fs, fuel);
        return;
      }
      AddInfo(filename, ValidSubmission(name));
    }

    /** The rest of `validate_sub` for an entry whose table name is not
        indexed: validate the data file next to `filename`, then record one
        INFO. */
    method ValidateDataFile(filename: Path, doc: Document, fs: FileSystem, fuel: nat) returns (exc: Option<Exc>)
      requires Valid() && NAME in doc
      modifies this
      ensures Valid()
      ensures Run(Current(), exc) == FollowDataFile(old(Current()), Env(fs, schemas), filename, doc, fuel)
      decreases fuel, 0
    {
      if DATA_FILE !in doc {
        return Some(Raised(KeyError(DATA_FILE)));
      }
      var df := DataFileName(doc[DATA_FILE]);
      if df.Err? {
        return Some(Raised(df.error));
      }
      if fuel == 0 {
        return Some(Raised(RecursionLimit));
      }
      ghost var before := Current();
      var path := Join(Dirname(filename), df.value);
      var _ := Validate(Some(path), None, fs, fuel - 1);
      ghost var nested := Current();
      assert nested == ValidateFile(before, Env(fs, schemas), path, None, fuel - 1).0;
      AddInfo(filename, ValidSubmission(doc[NAME]));
      exc := None;
      assert Run(Current(), exc) == FollowDataFile(before, Env(fs, schemas), filename, doc, fuel);
    }

    /** The pre-scan loop of `validate`: register every named document with a
        variables key; returns the exception an unhashable name raises. */
    method ScanTables(docs: seq<Option<Document>>) returns (fault: Option<Fault>)
      requires Valid()
      modifies this
      ensures Valid() && messages == old(messages) && order == old(order)
      ensures (tables, fault) == PreScan(old(tables), docs)
    {
      var i := 0;
      while i < |docs|
        invariant 0 <= i <= |docs|
        invariant Valid() && messages == old(messages) && order == old(order)
        invariant PreScan(old(tables), docs) == PreScan(tables, docs[i..])
      {
        assert docs[i..][1..] == docs[i + 1..];
        if docs[i].Some? && RegistersTable(docs[i].value) {
          var name := docs[i].value[NAME];
          if !Hashable(name) {
            return Some(TypeError(Unhashable));
          }
          tables := tables[HashKey(name) := docs[i].value];
        }
        i := i + 1;
      }
      return None;
    }

    /** One pass of the main loop of `validate`: dispatch on the document's
        kind; a schema violation becomes one ERROR for `filename`, any other
        exception is returned. */
    method ValidateDocument(filename: Path, doc: Document, fs: FileSystem, fuel: nat) returns (exc: Option<Exc>)
      requires Valid()
      modifies this
      ensures Valid()
      ensures Run(Current(), exc) == CheckDocument(old(Current()), Env(fs, schemas), filename, doc, fuel)
      decreases fuel, 2
    {
      ghost var before := Current();
      var d := doc;
      if DATA_FILE in d {
        exc := ValidateSub(filename, d, fs, fuel);
      } else if INDEPENDENT in d {
        if DESCRIPTION in d {
          // The single-file format: pop the variables into a table of their
          // own, then check the rest as a submission entry.
          var table := map[INDEPENDENT := Get(d, INDEPENDENT, Null), DEPENDENT := Get(d, DEPENDENT, Null)];
          d := d - {INDEPENDENT, DEPENDENT};
          exc := ValidateDat(filename, table);
          if exc.None? {
            d := d[DATA_FILE := Str("")];
            assert (table, d) == Split(doc);
            exc := ValidateSub(filename, d, fs, fuel);
          }
        } else {
          exc := ValidateDat(filename, d);
        }
      } else {
        exc := ValidateAdd(filename, d, fs);
      }
      assert Run(Current(), exc) == Dispatch(before, Env(fs, schemas), filename, doc, fuel);
      if exc.Some? && exc.value.Invalid? {
        AddError(filename, SchemaViolation(exc.value.violation));
        exc := None;
      }
    }

    /** `validate(file_path=filePath, data=data)`. */
    method Validate(filePath: Option<Path>, data: Option<seq<Option<Document>>>, fs: FileSystem, fuel: nat)
      returns (outcome: Outcome)
      requires Valid()
      modifies this
      ensures Valid()
      ensures (Current(), outcome) == ValidateCall(old(Current()), Env(fs, schemas), filePath, data, fuel)
      decreases fuel, 3
    {
      if filePath.None? {
        return LookupError;
      }
      var filename := filePath.value;
      ghost var env := Env(fs, schemas);
      var docs: seq<Option<Document>>;
      match Load(fs, filename, data)
      case Err(text) =>
        AddError(filename, text);
        return Returned(false);
      case Ok(loaded) =>
        docs := loaded;

      var fault := ScanTables(docs);
      if fault.Some? {
        AddError(filename, ExceptionRaised(fault.value));
        return Returned(false);
      }

      ghost var scanned := Current();
      var i := 0;
      while i < |docs|
        invariant 0 <= i <= |docs|
        invariant Valid()
        invariant MainPass(scanned, env, filename, docs, fuel) == MainPass(Current(), env, filename, docs[i..], fuel)
      {
        assert docs[i..][1..] == docs[i + 1..];
        if docs[i].Some? {
          var exc := ValidateDocument(filename, docs[i].value, fs, fuel);
          if exc.Some? {
            AddError(filename, ExceptionRaised(exc.value.fault));
            return Returned(false);
          }
        }
        i := i + 1;
      }
      var anyErrors := HasErrorsAnywhere();
      return Returned(!anyErrors);
    }
  }
}
