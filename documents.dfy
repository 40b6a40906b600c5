/**
 * What the validator does with one document before any schema is consulted:
 * recognise its kind from the keys it has, split a single-file entry into its
 * data and metadata halves, register data tables by name, and measure the
 * columns of a table.
 */
module Documents {
  import opened Wrappers
  import opened Json
  import opened Messages

  const DATA_FILE: string := "data_file"
  const INDEPENDENT: string := "independent_variables"
  const DEPENDENT: string := "dependent_variables"
  const DESCRIPTION: string := "description"
  const NAME: string := "name"
  const VALUES: string := "values"

  /** The four shapes a non-null document can have. */
  datatype Kind =
    | SubmissionEntry   // a table's metadata, pointing at its data file
    | CombinedEntry     // metadata and data merged into one document
    | DataTable         // a table's variables
    | AdditionalInfo    // the header, or anything else

  /** The dispatch of the main pass: `data_file` first, then
      `independent_variables`, split by `description`. */
  function Classify(d: Document): Kind {
    if DATA_FILE in d then SubmissionEntry
    else if INDEPENDENT in d then (if DESCRIPTION in d then CombinedEntry else DataTable)
    else AdditionalInfo
  }

  /** The test of the pre-scan: a named document with either variables key. */
  predicate RegistersTable(d: Document) {
    (INDEPENDENT in d || DEPENDENT in d) && NAME in d
  }

  /** A single-file entry split in two: the popped variable arrays (null when
      absent) become a data table of their own, and the rest gets an empty
      `data_file` so that it passes as a submission entry. */
  function Split(d: Document): (parts: (Document, Document))
    ensures parts.0.Keys == {INDEPENDENT, DEPENDENT}
    ensures parts.0[INDEPENDENT] == Get(d, INDEPENDENT, Null)
    ensures parts.0[DEPENDENT] == Get(d, DEPENDENT, Null)
    ensures parts.1.Keys == d.Keys - {INDEPENDENT, DEPENDENT} + {DATA_FILE}
    ensures parts.1[DATA_FILE] == Str("")
    ensures forall k :: k in d && k != DATA_FILE && k != INDEPENDENT && k != DEPENDENT ==> parts.1[k] == d[k]
  {
    var data := map[INDEPENDENT := Get(d, INDEPENDENT, Null), DEPENDENT := Get(d, DEPENDENT, Null)];
    var meta := (d - {INDEPENDENT, DEPENDENT})[DATA_FILE := Str("")];
    (data, meta)
  }

  /** The single-file writer of the BELLE 2017 converter: a copy of the
      submission entry without `data_file`, updated with the table's keys. */
  function MergeSingleFile(entry: Document, table: Document): (merged: Document)
    requires DATA_FILE in entry
    ensures DATA_FILE !in merged || DATA_FILE in table
    ensures merged.Keys == entry.Keys - {DATA_FILE} + table.Keys
  {
    (entry - {DATA_FILE}) + table
  }

  /** Validating a single-file bundle undoes the converter's merge: the merged
      document is recognised as a combined entry, its data half is the table
      that was merged in, and its metadata half is the original entry with
      `data_file` emptied. */
  lemma SplitUndoesMerge(entry: Document, table: Document)
    requires DATA_FILE in entry && DESCRIPTION in entry
    requires INDEPENDENT !in entry && DEPENDENT !in entry
    requires table.Keys == {INDEPENDENT, DEPENDENT}
    ensures Classify(MergeSingleFile(entry, table)) == CombinedEntry
    ensures Split(MergeSingleFile(entry, table)) == (table, entry[DATA_FILE := Str("")])
  {
    var merged := MergeSingleFile(entry, table);
    var (data, meta) := Split(merged);
    assert data == table;
    assert meta == entry[DATA_FILE := Str("")];
  }

  /** The two halves of a combined entry are each of the kind they are
      checked as: the data half a data table, the metadata half a
      submission entry. A document of any other kind keeps its shape. */
  lemma SplitHalvesKinds(d: Document)
    ensures Classify(d) == CombinedEntry ==>
      Classify(Split(d).0) == DataTable && Classify(Split(d).1) == SubmissionEntry
    ensures Classify(d) == CombinedEntry <==> DATA_FILE !in d && INDEPENDENT in d && DESCRIPTION in d
  {
  }

  /** Every named document the main pass treats as a table was registered by
      the pre-scan; the pre-scan also registers named documents the main pass
      treats otherwise: those with only `dependent_variables` (checked as
      additional information) and those that also have `data_file`. */
  lemma IndexCoversTables(d: Document)
    ensures NAME in d && Classify(d) in {CombinedEntry, DataTable} ==> RegistersTable(d)
    ensures RegistersTable(d) && Classify(d) == AdditionalInfo ==> DEPENDENT in d && INDEPENDENT !in d
  {
  }

  /** The pre-scan: every named document with a variables key is stored under
      its name, a later one replacing an earlier one; a name that cannot be a
      dictionary key aborts the scan with the entries made so far. */
  function PreScan(tables: map<Value, Document>, docs: seq<Option<Document>>)
    : (r: (map<Value, Document>, Option<Fault>))
    ensures r.1.None? || r.1 == Some(TypeError(Unhashable))
    ensures tables.Keys <= r.0.Keys
    decreases |docs|
  {
    if docs == [] then (tables, None)
    else if docs[0].None? || !RegistersTable(docs[0].value) then PreScan(tables, docs[1..])
    else
      var name := docs[0].value[NAME];
      if !Hashable(name) then (tables, Some(TypeError(Unhashable)))
      else PreScan(tables[HashKey(name) := docs[0].value], docs[1..])
  }

  /** The document at position i is registered by the pre-scan. */
  predicate RegisteredAt(docs: seq<Option<Document>>, i: int)
    requires 0 <= i < |docs|
  {
    docs[i].Some? && RegistersTable(docs[i].value)
  }

  /** The keys the pre-scan adds for the registered documents of `docs`. */
  function TableNames(docs: seq<Option<Document>>): set<Value> {
    set i | 0 <= i < |docs| && RegisteredAt(docs, i) && Hashable(docs[i].value[NAME])
      :: HashKey(docs[i].value[NAME])
  }

  lemma TableNamesCons(docs: seq<Option<Document>>)
    requires docs != []
    ensures TableNames(docs) ==
      TableNames(docs[1..]) +
      (if RegisteredAt(docs, 0) && Hashable(docs[0].value[NAME]) then {HashKey(docs[0].value[NAME])} else {})
  {
    var rest := docs[1..];
    forall k | k in TableNames(docs)
      ensures k in TableNames(rest) || (RegisteredAt(docs, 0) && Hashable(docs[0].value[NAME]) && k == HashKey(docs[0].value[NAME]))
    {
      var i :| 0 <= i < |docs| && RegisteredAt(docs, i) && Hashable(docs[i].value[NAME]) && k == HashKey(docs[i].value[NAME]);
      if i > 0 {
        assert rest[i - 1] == docs[i];
        assert RegisteredAt(rest, i - 1);
      }
    }
    forall k | k in TableNames(rest) ensures k in TableNames(docs) {
      var i :| 0 <= i < |rest| && RegisteredAt(rest, i) && Hashable(rest[i].value[NAME]) && k == HashKey(rest[i].value[NAME]);
      assert docs[i + 1] == rest[i];
      assert RegisteredAt(docs, i + 1);
    }
  }

  /** The pre-scan fails exactly when some registered document has a name
      that cannot be a dictionary key. */
  lemma {:induction false} PreScanFailsIffUnhashable(tables: map<Value, Document>, docs: seq<Option<Document>>)
    ensures PreScan(tables, docs).1.Some? <==>
      exists i :: 0 <= i < |docs| && RegisteredAt(docs, i) && !Hashable(docs[i].value[NAME])
    decreases |docs|
  {
    if docs != [] {
      var rest := docs[1..];
      var t' := if RegisteredAt(docs, 0) && Hashable(docs[0].value[NAME])
                then tables[HashKey(docs[0].value[NAME]) := docs[0].value] else tables;
      PreScanFailsIffUnhashable(t', rest);
      if exists i :: 0 <= i < |docs| && RegisteredAt(docs, i) && !Hashable(docs[i].value[NAME]) {
        var i :| 0 <= i < |docs| && RegisteredAt(docs, i) && !Hashable(docs[i].value[NAME]);
        if i > 0 {
          assert rest[i - 1] == docs[i];
          assert RegisteredAt(rest, i - 1);
        }
      }
      if exists i :: 0 <= i < |rest| && RegisteredAt(rest, i) && !Hashable(rest[i].value[NAME]) {
        var i :| 0 <= i < |rest| && RegisteredAt(rest, i) && !Hashable(rest[i].value[NAME]);
        assert docs[i + 1] == rest[i];
        assert RegisteredAt(docs, i + 1);
      }
    }
  }

  /** After a successful pre-scan the index holds exactly the earlier keys and
      the names of the registered documents. */
  lemma {:induction false} PreScanKeys(tables: map<Value, Document>, docs: seq<Option<Document>>)
    requires PreScan(tables, docs).1.None?
    ensures PreScan(tables, docs).0.Keys == tables.Keys + TableNames(docs)
    decreases |docs|
  {
    if docs == [] {
      assert TableNames(docs) == {};
    } else {
      TableNamesCons(docs);
      if RegisteredAt(docs, 0) && Hashable(docs[0].value[NAME]) {
        PreScanKeys(tables[HashKey(docs[0].value[NAME]) := docs[0].value], docs[1..]);
      } else {
        PreScanKeys(tables, docs[1..]);
      }
    }
  }

  /** A registered document stays in the index unless a later registered
      document carries the same name: the last one wins. */
  lemma {:induction false} PreScanLastWins(tables: map<Value, Document>, docs: seq<Option<Document>>, i: nat)
    requires PreScan(tables, docs).1.None?
    requires i < |docs| && RegisteredAt(docs, i) && Hashable(docs[i].value[NAME])
    requires forall j :: i < j < |docs| && RegisteredAt(docs, j) && Hashable(docs[j].value[NAME]) ==>
      HashKey(docs[j].value[NAME]) != HashKey(docs[i].value[NAME])
    ensures var key := HashKey(docs[i].value[NAME]);
      key in PreScan(tables, docs).0 && PreScan(tables, docs).0[key] == docs[i].value
    decreases |docs|
  {
    var rest := docs[1..];
    var t' := if RegisteredAt(docs, 0) && Hashable(docs[0].value[NAME])
              then tables[HashKey(docs[0].value[NAME]) := docs[0].value] else tables;
    assert PreScan(tables, docs) == PreScan(t', rest);
    if i == 0 {
      PreScanUntouched(t', rest, HashKey(docs[0].value[NAME]));
    } else {
      assert rest[i - 1] == docs[i];
      forall j | i - 1 < j < |rest| && RegisteredAt(rest, j) && Hashable(rest[j].value[NAME])
        ensures HashKey(rest[j].value[NAME]) != HashKey(rest[i - 1].value[NAME])
      {
        assert rest[j] == docs[j + 1];
        assert RegisteredAt(docs, j + 1);
      }
      PreScanLastWins(t', rest, i - 1);
    }
  }

  /** A key that no registered document names keeps its entry. */
  lemma {:induction false} PreScanUntouched(tables: map<Value, Document>, docs: seq<Option<Document>>, key: Value)
    requires key in tables
    requires forall j :: 0 <= j < |docs| && RegisteredAt(docs, j) && Hashable(docs[j].value[NAME]) ==>
      HashKey(docs[j].value[NAME]) != key
    ensures key in PreScan(tables, docs).0 && PreScan(tables, docs).0[key] == tables[key]
    decreases |docs|
  {
    if docs != [] {
      var rest := docs[1..];
      forall j | 0 <= j < |rest| && RegisteredAt(rest, j) && Hashable(rest[j].value[NAME])
        ensures HashKey(rest[j].value[NAME]) != key
      {
        assert rest[j] == docs[j + 1];
        assert RegisteredAt(docs, j + 1);
      }
      if RegisteredAt(docs, 0) && Hashable(docs[0].value[NAME]) {
        PreScanUntouched(tables[HashKey(docs[0].value[NAME]) := docs[0].value], rest, key);
      } else {
        PreScanUntouched(tables, rest, key);
      }
    }
  }

  /** `len(column['values'])` for one variable of a table. */
  function ValuesLength(column: Value): (r: Result<nat, Fault>)
    ensures r.Ok? <==> column.Object? && VALUES in column.fields && Len(column.fields[VALUES]).Some?
    ensures r.Ok? ==> r.value == Len(column.fields[VALUES]).value
  {
    if !column.Object? then Err(TypeError(NotSubscriptable))
    else if VALUES !in column.fields then Err(KeyError(VALUES))
    else match Len(column.fields[VALUES])
      case None => Err(TypeError(NoLength))
      case Some(n) => Ok(n)
  }

  /** The list comprehension over a list of variables: the lengths in order,
      or the first failure. */
  function LengthsOf(columns: seq<Value>): (r: Result<seq<nat>, Fault>)
    ensures r.Ok? <==> forall i :: 0 <= i < |columns| ==> ValuesLength(columns[i]).Ok?
    ensures r.Ok? ==> (|r.value| == |columns| &&
      forall i :: 0 <= i < |columns| ==> ValuesLength(columns[i]) == Ok(r.value[i]))
    ensures r.Err? ==> exists i :: (0 <= i < |columns| && ValuesLength(columns[i]) == Err(r.error) &&
      forall j :: 0 <= j < i ==> ValuesLength(columns[j]).Ok?)
  {
    if columns == [] then Ok([])
    else match ValuesLength(columns[0])
      case Err(f) => Err(f)
      case Ok(n) =>
        match LengthsOf(columns[1..])
        case Err(f) => Err(f)
        case Ok(ns) => Ok([n] + ns)
  }

  /** `[len(c['values']) for c in v]`. */
  function ColumnLengths(v: Value): (r: Result<seq<nat>, Fault>)
    ensures v.List? ==> r == LengthsOf(v.items)
    ensures !v.List? ==> (r.Ok? <==> v == Str("") || v == Object(map[]))
    ensures v == Str("") || v == Object(map[]) ==> r == Ok([])
  {
    match Iterate(v)
    case CannotIterate => Err(TypeError(NotIterable))
    case StringItems => Err(TypeError(NotSubscriptable))
    case Items(xs) => LengthsOf(xs)
  }

  /** `set(lengths)`. */
  function Distinct(lengths: seq<nat>): set<nat> {
    set n | n in lengths
  }

  /** `len(set(lengths)) > 1`. */
  predicate Inconsistent(lengths: seq<nat>) {
    |Distinct(lengths)| > 1
  }

  /** More than one distinct length means exactly that two columns differ. */
  lemma InconsistentIff(lengths: seq<nat>)
    ensures Inconsistent(lengths) <==>
      exists i, j :: 0 <= i < |lengths| && 0 <= j < |lengths| && lengths[i] != lengths[j]
  {
    var s := Distinct(lengths);
    if exists i, j :: 0 <= i < |lengths| && 0 <= j < |lengths| && lengths[i] != lengths[j] {
      var i, j :| 0 <= i < |lengths| && 0 <= j < |lengths| && lengths[i] != lengths[j];
      assert lengths[i] in s && lengths[j] in s;
      var pair := {lengths[i], lengths[j]};
      assert |pair| == 2 by {
        assert pair == {lengths[i]} + {lengths[j]};
      }
      SubsetCard(pair, s);
    } else if lengths != [] {
      forall n | n in s ensures n == lengths[0] {
        var k :| 0 <= k < |lengths| && lengths[k] == n;
      }
      assert lengths[0] in s;
      assert s == {lengths[0]};
    } else {
      assert s == {};
    }
  }

  lemma SubsetCard<T>(a: set<T>, b: set<T>)
    requires a <= b
    ensures |a| <= |b|
  {
    assert b == a + (b - a);
  }
}
