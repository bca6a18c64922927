/**
 * The functions of Go's `strings` and `path` packages that main.go uses,
 * over `string` (byte-level details of UTF-8 play no part: every test
 * below compares whole characters).
 *
 * The recursive helpers carry no postconditions of their own; what they
 * compute is stated by the lemmas beside them, so that code using Base or
 * Contains does not pay for those facts unless it asks for them.
 */
module GoStrings {

  /** strings.HasPrefix */
  predicate HasPrefix(s: string, prefix: string) {
    |prefix| <= |s| && s[..|prefix|] == prefix
  }

  /** strings.HasSuffix */
  predicate HasSuffix(s: string, suffix: string) {
    |suffix| <= |s| && s[|s| - |suffix|..] == suffix
  }

  /** strings.TrimSuffix: removes ONE trailing occurrence of `suffix`, if there is one. */
  function TrimSuffix(s: string, suffix: string): (r: string)
    ensures HasSuffix(s, suffix) ==> r + suffix == s
    ensures !HasSuffix(s, suffix) ==> r == s
  {
    if HasSuffix(s, suffix) then
      assert s == s[..|s| - |suffix|] + s[|s| - |suffix|..];
      s[..|s| - |suffix|]
    else s
  }

  /** `sub` occurs in `s` at position `i`. */
  predicate OccursAt(s: string, sub: string, i: int) {
    0 <= i && i + |sub| <= |s| && s[i..i + |sub|] == sub
  }

  /** strings.Index: the first position at which `sub` occurs in `s`, or -1. */
  function Index(s: string, sub: string): int
    decreases |s|
  {
    if |s| < |sub| then -1
    else if s[..|sub|] == sub then 0
    else
      var k := Index(s[1..], sub);
      if k < 0 then -1 else k + 1
  }

  /** An occurrence at j >= 1 is an occurrence at j - 1 in the tail. */
  lemma OccursAtTail(s: string, sub: string, j: int)
    requires 1 <= j && 1 <= |s|
    ensures OccursAt(s, sub, j) <==> OccursAt(s[1..], sub, j - 1)
  {
    if j + |sub| <= |s| {
      var a, b := s[j..j + |sub|], s[1..][j - 1..j - 1 + |sub|];
      assert |a| == |b| && forall k :: 0 <= k < |a| ==> a[k] == s[j + k] == b[k];
    }
  }

  /** Index finds the first occurrence, and -1 means there is none. */
  lemma {:induction false} IndexIsFirstOccurrence(s: string, sub: string)
    ensures Index(s, sub) == -1 || OccursAt(s, sub, Index(s, sub))
    ensures forall j :: 0 <= j && (Index(s, sub) == -1 || j < Index(s, sub)) ==> !OccursAt(s, sub, j)
    decreases |s|
  {
    if |s| >= |sub| && s[..|sub|] != sub {
      IndexIsFirstOccurrence(s[1..], sub);
      forall j | 1 <= j && j + |sub| <= |s|
        ensures OccursAt(s, sub, j) <==> OccursAt(s[1..], sub, j - 1)
      {
        OccursAtTail(s, sub, j);
      }
    }
  }

  /** strings.Contains, defined as Go defines it: Index(s, sub) >= 0. */
  predicate Contains(s: string, sub: string) {
    Index(s, sub) >= 0
  }

  lemma ContainsIffOccurs(s: string, sub: string)
    ensures Contains(s, sub) <==> exists i :: OccursAt(s, sub, i)
  {
    IndexIsFirstOccurrence(s, sub);
    if !Contains(s, sub) {
      forall i ensures !OccursAt(s, sub, i) {
        if 0 <= i {}
      }
    }
  }

  /** Every character of `s` is a slash (vacuously true of ""). */
  predicate AllSlashes(s: string) {
    forall i :: 0 <= i < |s| ==> s[i] == '/'
  }

  /** The loop at the head of path.Base that strips trailing slashes. */
  function TrimTrailingSlashes(p: string): string
  {
    if |p| > 0 && p[|p| - 1] == '/' then TrimTrailingSlashes(p[..|p| - 1]) else p
  }

  /** TrimTrailingSlashes keeps a prefix that does not end in '/' and drops only slashes. */
  lemma {:induction false} TrimTrailingSlashesSpec(p: string)
    ensures var r := TrimTrailingSlashes(p);
      && |r| <= |p| && r == p[..|r|]
      && (forall i :: |r| <= i < |p| ==> p[i] == '/')
      && (r == [] || r[|r| - 1] != '/')
  {
    if |p| > 0 && p[|p| - 1] == '/' {
      TrimTrailingSlashesSpec(p[..|p| - 1]);
    }
  }

  /** path.lastSlash: the index of the last '/' in `s`, or -1. */
  function LastSlash(s: string): int
  {
    if |s| == 0 then -1
    else if s[|s| - 1] == '/' then |s| - 1
    else LastSlash(s[..|s| - 1])
  }

  /** LastSlash is -1 or the position of a '/', and no '/' comes after it. */
  lemma {:induction false} LastSlashSpec(s: string)
    ensures var i := LastSlash(s);
      && -1 <= i < |s|
      && (i >= 0 ==> s[i] == '/')
      && (forall j :: i < j < |s| ==> s[j] != '/')
  {
    if |s| > 0 && s[|s| - 1] != '/' {
      LastSlashSpec(s[..|s| - 1]);
    }
  }

  /**
   * path.Base: "" gives "."; trailing slashes are dropped; what follows the
   * last remaining slash is the result, or "/" when only slashes were left.
   */
  function Base(p: string): (r: string)
    ensures r != []
  {
    if p == "" then "."
    else
      var t := TrimTrailingSlashes(p);
      TrimTrailingSlashesSpec(p);
      LastSlashSpec(t);
      var e := t[LastSlash(t) + 1..];
      if e == "" then "/" else e
  }

  /**
   * p[start..end] is the last slash-separated element of `p`: it is not
   * empty, holds no slash, is preceded by a slash or the start of `p`, and
   * only slashes follow it.
   */
  predicate IsLastElement(p: string, start: int, end: int) {
    && 0 <= start < end <= |p|
    && (start == 0 || p[start - 1] == '/')
    && (forall i :: start <= i < end ==> p[i] != '/')
    && (forall i :: end <= i < |p| ==> p[i] == '/')
  }

  /** A path of slashes only has base "/", and the empty path has base ".". */
  lemma BaseOfSlashes(p: string)
    requires AllSlashes(p)
    ensures Base(p) == if p == "" then "." else "/"
  {
    if p != "" {
      TrimTrailingSlashesSpec(p);
      assert TrimTrailingSlashes(p) == [];
    }
  }

  /** Any path with a character other than '/' has its last element as its base. */
  lemma BaseIsLastElement(p: string)
    requires !AllSlashes(p)
    ensures exists start, end :: IsLastElement(p, start, end) && Base(p) == p[start..end]
  {
    var t := TrimTrailingSlashes(p);
    TrimTrailingSlashesSpec(p);
    var k := LastSlash(t);
    LastSlashSpec(t);
    assert forall i :: 0 <= i < |t| ==> t[i] == p[i];
    assert IsLastElement(p, k + 1, |t|);
    assert Base(p) == p[k + 1..|t|];
  }

  /** The last element of a path, when there is one, is unique. */
  lemma {:induction false} LastElementUnique(p: string, s1: int, e1: int, s2: int, e2: int)
    requires IsLastElement(p, s1, e1) && IsLastElement(p, s2, e2)
    ensures s1 == s2 && e1 == e2
  {
    // the last character of either element is not a slash, so neither ends inside the other's trailing slashes
    assert p[e1 - 1] != '/' && p[e2 - 1] != '/';
    // and each element starts right after a slash, which the other element cannot contain
    assert s1 > 0 ==> p[s1 - 1] == '/';
    assert s2 > 0 ==> p[s2 - 1] == '/';
  }

  /** Base(p) is the element that IsLastElement picks out, whatever way it is found. */
  lemma BaseOfLastElement(p: string, start: int, end: int)
    requires IsLastElement(p, start, end)
    ensures Base(p) == p[start..end]
  {
    assert !AllSlashes(p) by { assert p[start] != '/'; }
    BaseIsLastElement(p);
    var s, e :| IsLastElement(p, s, e) && Base(p) == p[s..e];
    LastElementUnique(p, start, end, s, e);
  }

  /** The base of a path holds no slash, unless it is "/" itself. */
  lemma BaseHasNoSlash(p: string)
    ensures '/' in Base(p) ==> Base(p) == "/"
  {
    if AllSlashes(p) {
      BaseOfSlashes(p);
    } else {
      BaseIsLastElement(p);
    }
  }
}
