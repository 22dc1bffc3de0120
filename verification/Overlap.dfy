/**
 The check for nested mount paths: sort, then compare neighbours.

 It is meant to refuse any two nested paths. It refuses only nested paths, but a path that
 sorts between a directory and what lies below it can hide the nesting.
 */
module Overlap {
  import opened Common

  // --------------------------------------------------------- the order of strings

  /** Lexicographic order on bytes. */
  predicate LessEq(a: string, b: string) {
    a == "" || (b != "" && (a[0] < b[0] || (a[0] == b[0] && LessEq(a[1..], b[1..]))))
  }

  lemma {:induction false} Total(a: string, b: string)
    ensures LessEq(a, b) || LessEq(b, a)
  {
    if a != "" && b != "" && a[0] == b[0] {
      Total(a[1..], b[1..]);
    }
  }

  lemma {:induction false} Antisymmetric(a: string, b: string)
    requires LessEq(a, b) && LessEq(b, a)
    ensures a == b
  {
    if a != "" {
      Antisymmetric(a[1..], b[1..]);
      assert a == [a[0]] + a[1..] && b == [b[0]] + b[1..];
    }
  }

  lemma {:induction false} Transitive(a: string, b: string, c: string)
    requires LessEq(a, b) && LessEq(b, c)
    ensures LessEq(a, c)
  {
    if a != "" && a[0] == b[0] && b[0] == c[0] {
      Transitive(a[1..], b[1..], c[1..]);
    }
  }

  predicate Sorted(s: seq<string>) { forall i, j :: 0 <= i < j < |s| ==> LessEq(s[i], s[j]) }

  predicate Distinct(s: seq<string>) { forall i, j :: 0 <= i < j < |s| ==> s[i] != s[j] }

  /** Stands for sort.Strings. */
  function SortStrings(s: seq<string>): seq<string> {
    if s == [] then [] else Insert(s[0], SortStrings(s[1..]))
  }

  function Insert(x: string, s: seq<string>): seq<string> {
    if s == [] || LessEq(x, s[0]) then [x] + s else [s[0]] + Insert(x, s[1..])
  }

  lemma {:induction false} InsertSorts(x: string, s: seq<string>)
    requires Sorted(s)
    ensures Sorted(Insert(x, s)) && multiset(Insert(x, s)) == multiset{x} + multiset(s)
  {
    if s == [] {
    } else if LessEq(x, s[0]) {
      forall j | 0 <= j < |s| ensures LessEq(x, s[j]) {
        if j > 0 { Transitive(x, s[0], s[j]); }
      }
    } else {
      assert s == [s[0]] + s[1..];
      InsertSorts(x, s[1..]);
      Total(x, s[0]);
      var r := Insert(x, s[1..]);
      forall j | 0 <= j < |r| ensures LessEq(s[0], r[j]) {
        assert r[j] in multiset(r);
        assert r[j] == x || r[j] in s[1..];
      }
    }
  }

  lemma {:induction false} SortSorts(s: seq<string>)
    ensures Sorted(SortStrings(s)) && multiset(SortStrings(s)) == multiset(s)
  {
    if s != [] {
      SortSorts(s[1..]);
      InsertSorts(s[0], SortStrings(s[1..]));
      assert s == [s[0]] + s[1..];
    }
  }

  lemma SameMembers(s: seq<string>, t: seq<string>)
    requires multiset(s) == multiset(t)
    ensures forall x :: x in s <==> x in t
    ensures Distinct(s) ==> Distinct(t)
  {
    forall x ensures x in s <==> x in t {
      assert x in s <==> x in multiset(s);
      assert x in t <==> x in multiset(t);
    }
    if Distinct(s) {
      forall i, j | 0 <= i < j < |t| ensures t[i] != t[j] {
        if t[i] == t[j] {
          assert t == t[..i] + [t[i]] + t[i + 1..j] + [t[j]] + t[j + 1..];
          assert multiset(t)[t[i]] >= 2;
          OnceEach(s, t[i]);
        }
      }
    }
  }

  lemma {:induction false} OnceEach(s: seq<string>, x: string)
    requires Distinct(s)
    ensures multiset(s)[x] <= 1
  {
    if s != [] {
      OnceEach(s[1..], x);
      assert s == [s[0]] + s[1..];
      if s[0] == x { assert x !in s[1..]; }
    }
  }

  // --------------------------------------------------------------- the check

  /** Sorts the paths and looks for a neighbour below. */
  method RejectOverlappingMountPaths(paths: seq<string>) returns (rejected: bool)
    ensures rejected <==> AdjacentNested(SortStrings(paths))
  {
    var sorted := SortStrings(paths);
    var i := 1;
    while i < |sorted|
      invariant 1 <= i
      invariant forall j :: 1 <= j < i && j < |sorted| ==> !Below(sorted[j], sorted[j - 1])
    {
      if Below(sorted[i], sorted[i - 1]) {
        return true;
      }
      i := i + 1;
    }
    return false;
  }

  predicate AdjacentNested(s: seq<string>) {
    exists i :: 1 <= i < |s| && Below(s[i], s[i - 1])
  }

  /** `q` sorts between `p` and everything below `p`: it goes on from `p` with a byte below '/'. */
  predicate Shadows(q: string, p: string) { p < q && q[|p|] < '/' }

  /** Some path has another below it. */
  predicate Nested(paths: seq<string>) {
    exists p, c :: p in paths && c in paths && Below(c, p)
  }

  /** Some path has another below it and none that shadows it. */
  predicate NestedInSight(paths: seq<string>) {
    exists p, c :: p in paths && c in paths && Below(c, p) && forall q :: q in paths ==> !Shadows(q, p)
  }

  lemma {:induction false} PrefixFirst(p: string, q: string)
    requires p <= q
    ensures LessEq(p, q)
  {
    if p != "" {
      PrefixFirst(p[1..], q[1..]);
    }
  }

  lemma {:induction false} ShadowFirst(p: string, q: string, c: string)
    requires Shadows(q, p) && Below(c, p)
    ensures LessEq(q, c) && q != c
  {
    assert c[|p|] == '/';
    if p != "" {
      assert c[0] == (p + "/")[0] == q[0];
      assert (p + "/")[1..] == p[1..] + "/";
      ShadowFirst(p[1..], q[1..], c[1..]);
    }
  }

  /** What sorts after `p` and not after something below it is below it or shadows it. */
  lemma {:induction false} Between(p: string, x: string, c: string)
    requires LessEq(p, x) && LessEq(x, c) && x != p && Below(c, p)
    ensures Below(x, p) || Shadows(x, p)
  {
    assert c[|p|] == '/';
    if p == "" {
      assert x[0] <= '/';
      assert x[0] == '/' ==> "" + "/" <= x;
    } else {
      assert c[0] == (p + "/")[0];
      assert (p + "/")[1..] == p[1..] + "/";
      assert x[1..] != p[1..] by { assert x == [x[0]] + x[1..] && p == [p[0]] + p[1..]; }
      Between(p[1..], x[1..], c[1..]);
      assert Below(x[1..], p[1..]) ==> x[1..][..|p|] == p[1..] + "/";
      assert p + "/" == [p[0]] + (p[1..] + "/");
    }
  }

  lemma NeighbourInSight(s: seq<string>, i: nat)
    requires Sorted(s) && 1 <= i < |s| && Below(s[i], s[i - 1])
    ensures forall q :: q in s ==> !Shadows(q, s[i - 1])
  {
    var p, c := s[i - 1], s[i];
    forall q | q in s ensures !Shadows(q, p) {
      if Shadows(q, p) {
        var j :| 0 <= j < |s| && s[j] == q;
        ShadowFirst(p, q, c);
        PrefixFirst(p, q);
        if j < i { Antisymmetric(p, q); } else { Antisymmetric(q, c); }
      }
    }
  }

  lemma InSightIsNeighbour(s: seq<string>, p: string, c: string)
    requires Sorted(s) && Distinct(s) && p in s && c in s && Below(c, p)
    requires forall q :: q in s ==> !Shadows(q, p)
    ensures AdjacentNested(s)
  {
    var i :| 0 <= i < |s| && s[i] == p;
    var j :| 0 <= j < |s| && s[j] == c;
    PrefixFirst(p, c);
    if j < i { Antisymmetric(p, c); }
    assert i < j;
    var x := s[i + 1];
    if i + 1 == j { PrefixFirst(c, c); }
    Between(p, x, c);
    assert Below(s[i + 1], s[i]);
  }

  /** Exactly which lists of distinct paths are refused. */
  lemma OverlapExactly(paths: seq<string>)
    requires Distinct(paths)
    ensures AdjacentNested(SortStrings(paths)) <==> NestedInSight(paths)
  {
    var s := SortStrings(paths);
    SortSorts(paths);
    SameMembers(paths, s);
    if AdjacentNested(s) {
      var i :| 1 <= i < |s| && Below(s[i], s[i - 1]);
      NeighbourInSight(s, i);
      assert s[i - 1] in s && s[i] in s;
    }
    if NestedInSight(paths) {
      var p, c :| p in paths && c in paths && Below(c, p) && forall q :: q in paths ==> !Shadows(q, p);
      InSightIsNeighbour(s, p, c);
    }
  }

  predicate NoByteBelowSlash(p: string) { forall i :: 0 <= i < |p| ==> p[i] >= '/' }

  /** Over paths without a byte below '/', the check refuses exactly the lists with a nested pair. */
  lemma OverlapCompleteWithoutLowBytes(paths: seq<string>)
    requires Distinct(paths) && forall p :: p in paths ==> NoByteBelowSlash(p)
    ensures AdjacentNested(SortStrings(paths)) <==> Nested(paths)
  {
    OverlapExactly(paths);
    if Nested(paths) {
      var p, c :| p in paths && c in paths && Below(c, p);
      assert forall q :: q in paths ==> !Shadows(q, p);
    }
  }

  /** The proviso is needed: `/a-b` hides that `/a/b` lies below `/a`. */
  lemma ASiblingHidesTheNesting()
    ensures
      var paths := ["/a", "/a-b", "/a/b"];
      Distinct(paths) && Nested(paths) && !AdjacentNested(SortStrings(paths))
  {
    var paths := ["/a", "/a-b", "/a/b"];
    assert "/a" + "/" == "/a/" && "/a/" <= "/a/b";
    assert Below("/a/b", "/a") && "/a" in paths && "/a/b" in paths;
    OverlapExactly(paths);
    forall p, c | p in paths && c in paths && Below(c, p) ensures Shadows("/a-b", p) {
      assert p == "/a" by {
        assert "/a-b" + "/" == "/a-b/" && "/a/b" + "/" == "/a/b/";
      }
      assert "/a" <= "/a-b" && "/a-b"[2] == '-';
    }
    assert "/a-b" in paths;
  }
}
