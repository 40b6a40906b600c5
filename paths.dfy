/**
 * The two `os.path` operations the validator uses to resolve a reference
 * relative to the file that contains it, written out as POSIX `posixpath`
 * defines them.
 */
module Paths {

  type Path = string

  /** Every character of `s` is a slash. */
  predicate AllSlashes(s: string) {
    forall i :: 0 <= i < |s| ==> s[i] == '/'
  }

  /** The index just past the last slash of `p`, or 0 when there is none. */
  function AfterLastSlash(p: string): (i: nat)
    ensures i <= |p|
    ensures i > 0 ==> p[i - 1] == '/'
    ensures forall k :: i <= k < |p| ==> p[k] != '/'
  {
    if p == [] then 0
    else if p[|p| - 1] == '/' then |p|
    else AfterLastSlash(p[..|p| - 1])
  }

  /** `s.rstrip('/')`. */
  function StripTrailingSlashes(s: string): (r: string)
    ensures |r| <= |s| && r == s[..|r|]
    ensures r == [] || r[|r| - 1] != '/'
    ensures AllSlashes(s[|r|..])
  {
    if s != [] && s[|s| - 1] == '/' then
      var r := StripTrailingSlashes(s[..|s| - 1]);
      assert s[..|s| - 1][..|r|] == s[..|r|];
      assert s[|r|..] == s[..|s| - 1][|r|..] + ['/'];
      r
    else s
  }

  /** `os.path.dirname(p)`: everything before the last slash, with trailing
      slashes removed unless the head consists of slashes only. */
  function Dirname(p: Path): (d: Path)
  {
    var head := p[..AfterLastSlash(p)];
    if head != [] && !AllSlashes(head) then StripTrailingSlashes(head) else head
  }

  /** `os.path.join(a, b)` for two components. */
  function Join(a: Path, b: Path): (r: Path)
    ensures |b| <= |r| && r[|r| - |b|..] == b
    ensures b != [] && b[0] == '/' ==> r == b
  {
    if b != [] && b[0] == '/' then b
    else if a == [] || a[|a| - 1] == '/' then a + b
    else a + "/" + b
  }

  /** A directory name as `Dirname` returns it is either empty, all slashes,
      or does not end in a slash. */
  lemma {:induction false} DirnameShape(p: Path)
    ensures var d := Dirname(p);
      d == [] || AllSlashes(d) || d[|d| - 1] != '/'
  {
  }

  /** A plain file name (non-empty, no slash) joined to the directory of `p`
      lies in that same directory: a bundle's data files and resources are
      siblings of the file that names them. */
  lemma {:induction false} SiblingStaysInDirectory(p: Path, name: string)
    requires name != [] && '/' !in name
    ensures Dirname(Join(Dirname(p), name)) == Dirname(p)
  {
    var d := Dirname(p);
    var j := Join(d, name);
    DirnameShape(p);
    assert name[0] != '/' by { assert name[0] in name; }
    if d == [] {
      assert j == name;
      AfterLastSlashNone(name);
    } else if d[|d| - 1] == '/' {
      assert j == d + name;
      AfterLastSlashConcat(d, name);
      assert j[..AfterLastSlash(j)] == d;
    } else {
      assert j == d + "/" + name;
      AfterLastSlashConcat(d + "/", name);
      assert j[..AfterLastSlash(j)] == d + "/";
      assert !AllSlashes(d + "/") by { assert (d + "/")[|d| - 1] == d[|d| - 1]; }
      assert StripTrailingSlashes(d + "/") == StripTrailingSlashes(d);
    }
  }

  lemma {:induction false} AfterLastSlashNone(s: string)
    requires '/' !in s
    ensures AfterLastSlash(s) == 0
  {
    if s != [] {
      assert s[|s| - 1] in s;
      assert forall c :: c in s[..|s| - 1] ==> c in s;
      AfterLastSlashNone(s[..|s| - 1]);
    }
  }

  lemma {:induction false} AfterLastSlashConcat(a: string, b: string)
    requires a != [] && a[|a| - 1] == '/' && '/' !in b
    ensures AfterLastSlash(a + b) == |a|
  {
    if b != [] {
      assert (a + b)[..|a + b| - 1] == a + b[..|b| - 1];
      assert b[|b| - 1] in b;
      assert forall c :: c in b[..|b| - 1] ==> c in b;
      AfterLastSlashConcat(a, b[..|b| - 1]);
    } else {
      assert a + b == a;
    }
  }
}
