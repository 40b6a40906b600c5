/**
 * Parsed YAML/JSON values, and the few Python built-ins the validator applies
 * to them: `dict.get`, `in`, iteration, `len` and dictionary hashing.
 */
module Json {
  import opened Wrappers

  /** One YAML/JSON node as the YAML loader hands it over. Floating-point
      scalars are not modelled (see README). */
  datatype Value =
    | Null
    | Bool(b: bool)
    | Int(i: int)
    | Str(s: string)
    | List(items: seq<Value>)
    | Object(fields: map<string, Value>)

  /** A top-level document of a bundle: a mapping from key to value. */
  type Document = map<string, Value>

  /** `d.get(key, default)`. */
  function Get(d: Document, key: string, default: Value): (v: Value)
    ensures key in d ==> v == d[key]
    ensures key !in d ==> v == default
  {
    if key in d then d[key] else default
  }

  /** What `for x in v` does. Iterating a non-empty string or mapping yields
      strings (characters or keys); every loop of the validator immediately
      subscripts or calls `.get` on its item, which fails on a string, so
      only the fact that such an item exists matters. */
  datatype Iteration =
    | Items(items: seq<Value>)
    | StringItems
    | CannotIterate

  function Iterate(v: Value): (it: Iteration)
    ensures it.Items? <==> (v.List? || v == Str("") || v == Object(map[]))
    ensures v.List? ==> it == Items(v.items)
    ensures it.Items? && !v.List? ==> it.items == []
    ensures it.CannotIterate? <==> (v.Null? || v.Bool? || v.Int?)
  {
    match v
    case List(xs) => Items(xs)
    case Str(s) => if s == "" then Items([]) else StringItems
    case Object(m) => if m == map[] then Items([]) else StringItems
    case _ => CannotIterate
  }

  /** `len(v)`: defined for strings, lists and mappings only. */
  function Len(v: Value): (n: Option<nat>)
    ensures n.Some? <==> (v.Str? || v.List? || v.Object?)
    ensures v.List? ==> n == Some(|v.items|)
  {
    match v
    case Str(s) => Some(|s|)
    case List(xs) => Some(|xs|)
    case Object(m) => Some(|m|)
    case _ => None
  }

  /** Lists and mappings cannot be dictionary keys in Python. */
  predicate Hashable(v: Value) {
    !v.List? && !v.Object?
  }

  /** The dictionary key a hashable value stands for: Python's `True == 1`
      and `False == 0` make a boolean and the matching integer the same key. */
  function HashKey(v: Value): (k: Value)
    requires Hashable(v)
    ensures Hashable(k) && !k.Bool?
    ensures v.Bool? ==> k == Int(if v.b then 1 else 0)
    ensures !v.Bool? ==> k == v
  {
    match v
    case Bool(b) => Int(if b then 1 else 0)
    case _ => v
  }

  /** Two table names land on the same dictionary key exactly when they are
      equal or are a boolean and the integer it equals. */
  lemma SameTableKey(a: Value, b: Value)
    requires Hashable(a) && Hashable(b)
    ensures HashKey(a) == HashKey(b) <==>
      a == b
      || (a.Bool? && b.Int? && b.i == (if a.b then 1 else 0))
      || (b.Bool? && a.Int? && a.i == (if b.b then 1 else 0))
  {
  }

  /** `s.startswith(prefix)`. */
  predicate StartsWith(s: string, prefix: string) {
    |prefix| <= |s| && s[..|prefix|] == prefix
  }
}
