/**
 * The severity-tagged diagnostic log: message levels, the text of every
 * diagnostic the validator can record, and the per-file message lists kept
 * in the order their files were first touched.
 */
module Messages {
  import opened Wrappers
  import opened Json
  import opened Paths

  const INFO: int := 0
  const WARNING: int := 1
  const ERROR: int := 2

  /** `Message.levelStr`: the name of a level; anything but the three known
      levels is "Unknown". */
  function LevelStr(level: int): (name: string)
    ensures name == "Unknown" <==> level !in {INFO, WARNING, ERROR}
  {
    if level == ERROR then "Error"
    else if level == WARNING then "Warning"
    else if level == INFO then "Info"
    else "Unknown"
  }

  /** Why a field-access, iteration, `len`, hashing or call raised `TypeError`. */
  datatype TypeCause =
    | NotIterable        // `for x in v` where v is null, a number or a boolean
    | NotSubscriptable   // `x['values']` where x is not a mapping
    | NoLength           // `len(v)` where v is null, a number or a boolean
    | Unhashable         // a list or mapping used as a table name
    | NotAPath           // a non-string `data_file`
    | AddWarningArity    // `add_warning` called with a single argument

  /** Why a method lookup raised `AttributeError`. */
  datatype AttributeCause =
    | NoGet          // `.get` on a resource that is not a mapping
    | NoStartsWith   // `.startswith` on a location that is not a string

  /** Every exception other than a schema violation and a YAML scanner error
      that can reach the validator's generic handler. */
  datatype Fault =
    | FileNotFound(path: Path)
    | YamlError(detail: string)
    | KeyError(key: string)
    | TypeError(cause: TypeCause)
    | AttributeError(attribute: AttributeCause)
    | RecursionLimit

  /** What a JSON-schema check reports: the violated constraint and the
      offending fragment. */
  datatype Violation = Violation(message: string, instance: Value)

  /** The content of each diagnostic the validator records. */
  datatype Text =
    | ResourceNotFound(location: Path)
    | ResourceHasSlash(location: Path)
    | InconsistentLengths(independent: seq<nat>, dependent: seq<nat>)
    | ValidDataTable(name: Value)
    | ValidSubmission(name: Value)
    | ValidAdditionalInfo
    | SchemaViolation(violation: Violation)
    | ParseProblem(detail: string)
    | ExceptionRaised(fault: Fault)

  datatype Message = Message(file: Path, text: Text, level: int)

  /** The test of `filter_messages`: the exact level, or that level or worse. */
  predicate Keeps(m: Message, least: int, exact: bool) {
    (m.level == least && exact) || (m.level >= least && !exact)
  }

  /** `filter_messages` on one file's list. */
  function Filter(ms: seq<Message>, least: int, exact: bool): (r: seq<Message>)
    ensures |r| <= |ms|
    ensures forall m :: m in r <==> m in ms && Keeps(m, least, exact)
  {
    if ms == [] then []
    else (if Keeps(ms[0], least, exact) then [ms[0]] else []) + Filter(ms[1..], least, exact)
  }

  /** Whether some message of `ms` has exactly the given level: the test
      behind `has_errors(f)` and `has_warnings(f)`. */
  function HasLevel(ms: seq<Message>, level: int): (b: bool)
    ensures b <==> exists i :: 0 <= i < |ms| && ms[i].level == level
  {
    var r := Filter(ms, level, true);
    assert |r| > 0 <==> exists i :: 0 <= i < |ms| && ms[i].level == level by {
      if |r| > 0 {
        assert r[0] in r;
      }
      if i :| 0 <= i < |ms| && ms[i].level == level {
        assert ms[i] in ms;
      }
    }
    |r| > 0
  }

  /** The message store: each touched file's messages in insertion order,
      and the order in which files were first touched (the key order of the
      source's dictionary). */
  datatype Log = Log(order: seq<Path>, byFile: map<Path, seq<Message>>) {

    ghost predicate Valid() {
      && (forall i, j :: 0 <= i < j < |order| ==> order[i] != order[j])
      && (forall f :: f in byFile <==> f in order)
    }

    /** A file's messages; a file never touched has none. */
    function Of(f: Path): seq<Message> {
      if f in byFile then byFile[f] else []
    }
  }

  const EmptyLog: Log := Log([], map[])

  /** `ensure_messages`: give a file an empty list when it has none. */
  function Ensure(log: Log, f: Path): (r: Log)
    ensures f in r.byFile
    ensures forall g :: r.Of(g) == log.Of(g)
    ensures r.order == if f in log.byFile then log.order else log.order + [f]
  {
    if f in log.byFile then log else Log(log.order + [f], log.byFile[f := []])
  }

  /** `add_error`, `add_warning` and `add_info`: one message with the given
      level at the end of the file's list; nothing else changes. */
  function Append(log: Log, f: Path, level: int, text: Text): (r: Log)
    ensures f in r.byFile
    ensures r.Of(f) == log.Of(f) + [Message(f, text, level)]
    ensures forall g :: g != f ==> r.Of(g) == log.Of(g)
    ensures r.order == if f in log.byFile then log.order else log.order + [f]
  {
    var l := Ensure(log, f);
    Log(l.order, l.byFile[f := l.byFile[f] + [Message(f, text, level)]])
  }

  /** Recording a message keeps every touched file listed exactly once. */
  lemma AppendKeepsValid(log: Log, f: Path, level: int, text: Text)
    requires log.Valid()
    ensures Ensure(log, f).Valid() && Append(log, f, level, text).Valid()
  {
    var l := Ensure(log, f);
    if f !in log.byFile {
      assert l.order[|log.order|] == f;
      forall g ensures g in l.byFile <==> g in l.order {
        assert g in l.order <==> g in log.order || g == f by {
          assert l.order == log.order + [f];
        }
      }
    }
  }

  /** `has_errors(None)`: some touched file has an ERROR message. */
  predicate AnyErrors(log: Log) {
    exists f :: f in log.byFile && HasLevel(log.byFile[f], ERROR)
  }

  /** The filter is applied element by element: filtering a concatenation
      is concatenating the filtered parts, so the kept messages keep their
      original order. */
  lemma {:induction false} FilterDistributes(a: seq<Message>, b: seq<Message>, least: int, exact: bool)
    ensures Filter(a + b, least, exact) == Filter(a, least, exact) + Filter(b, least, exact)
  {
    if a == [] {
      assert a + b == b;
    } else {
      assert (a + b)[1..] == a[1..] + b;
      FilterDistributes(a[1..], b, least, exact);
    }
  }

  /** Appending a message extends the filtered view by that message exactly
      when the filter keeps it. */
  lemma FilterAfterAppend(log: Log, f: Path, level: int, text: Text, least: int, exact: bool)
    ensures var m := Message(f, text, level);
      Filter(Append(log, f, level, text).Of(f), least, exact)
        == Filter(log.Of(f), least, exact) + (if Keeps(m, least, exact) then [m] else [])
  {
    var m := Message(f, text, level);
    FilterDistributes(log.Of(f), [m], least, exact);
    assert Filter([m], least, exact) == (if Keeps(m, least, exact) then [m] else []) + Filter([], least, exact);
  }

  /** An ERROR recorded for any file makes `has_errors(None)` true; without
      one it holds exactly when it held before. */
  lemma AnyErrorsAfterAppend(log: Log, f: Path, level: int, text: Text)
    ensures AnyErrors(Append(log, f, level, text)) <==> AnyErrors(log) || level == ERROR
  {
    var r := Append(log, f, level, text);
    if level == ERROR {
      assert r.byFile[f][|log.Of(f)|].level == ERROR;
      assert HasLevel(r.byFile[f], ERROR);
    }
    if AnyErrors(log) {
      ErrorsKept(log, f, level, text);
    }
    if AnyErrors(r) && level != ERROR {
      NoErrorAdded(log, f, level, text);
    }
  }

  lemma ErrorsKept(log: Log, f: Path, level: int, text: Text)
    requires AnyErrors(log)
    ensures AnyErrors(Append(log, f, level, text))
  {
    var r := Append(log, f, level, text);
    var g :| g in log.byFile && HasLevel(log.byFile[g], ERROR);
    var i :| 0 <= i < |log.byFile[g]| && log.byFile[g][i].level == ERROR;
    assert log.Of(g) == log.byFile[g];
    assert r.Of(g)[i] == log.Of(g)[i];
    assert HasLevel(r.byFile[g], ERROR);
  }

  lemma NoErrorAdded(log: Log, f: Path, level: int, text: Text)
    requires level != ERROR && AnyErrors(Append(log, f, level, text))
    ensures AnyErrors(log)
  {
    var r := Append(log, f, level, text);
    var g :| g in r.byFile && HasLevel(r.byFile[g], ERROR);
    var i :| 0 <= i < |r.byFile[g]| && r.byFile[g][i].level == ERROR;
    assert r.Of(g) == r.byFile[g];
    if g == f {
      assert i < |log.Of(f)|;
      assert log.Of(f)[i] == r.Of(f)[i];
    } else {
      assert log.Of(g) == r.Of(g);
    }
    assert g in log.byFile && log.byFile[g][i].level == ERROR;
    assert HasLevel(log.byFile[g], ERROR);
  }

  /** `get_messages(None, least, exact)`: every touched file with its
      filtered list. */
  function FilterAll(log: Log, least: int, exact: bool): (r: map<Path, seq<Message>>)
    ensures r.Keys == log.byFile.Keys
    ensures forall f, m :: f in r ==> (m in r[f] <==> m in log.byFile[f] && Keeps(m, least, exact))
    ensures forall f :: f in r ==> r[f] == Filter(log.byFile[f], least, exact)
  {
    map f | f in log.byFile :: Filter(log.byFile[f], least, exact)
  }

  /** `has_warnings(None)` as written: the length of the dictionary of
      filtered lists, which counts the touched files rather than their
      warnings. */
  function HasWarningsAsWritten(log: Log): (b: bool)
    requires log.Valid()
    ensures b <==> log.order != []
  {
    var all := FilterAll(log, WARNING, true);
    assert log.order != [] ==> log.order[0] in all;
    assert log.order == [] ==> all == map[];
    |all| > 0
  }

  /** Some touched file has a WARNING message. */
  function AnyWarnings(log: Log): (b: bool)
    ensures b <==> exists f, i :: f in log.byFile && 0 <= i < |log.byFile[f]| && log.byFile[f][i].level == WARNING
  {
    exists f :: f in log.byFile && HasLevel(log.byFile[f], WARNING)
  }

  /** The query as written holds whenever some file has a warning. */
  lemma WarningsAsWrittenCoversWarnings(log: Log)
    requires log.Valid()
    ensures AnyWarnings(log) ==> HasWarningsAsWritten(log)
  {
    if AnyWarnings(log) {
      var f :| f in log.byFile && HasLevel(log.byFile[f], WARNING);
      assert f in log.order;
    }
  }

  /** It also holds for a log that has no warning at all: one file with
      one INFO message. */
  lemma WarningsAsWrittenWithoutWarnings()
    ensures var log := Log(["submission.yaml"],
                           map["submission.yaml" := [Message("submission.yaml", ValidAdditionalInfo, INFO)]]);
      log.Valid() && HasWarningsAsWritten(log) && !AnyWarnings(log)
  {
    var log := Log(["submission.yaml"],
                   map["submission.yaml" := [Message("submission.yaml", ValidAdditionalInfo, INFO)]]);
    assert !HasLevel(log.byFile["submission.yaml"], WARNING);
  }
}
