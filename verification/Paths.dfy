/**
 Slash-separated paths: splitting, lexical cleaning, and what the repository builds on it:
 mount paths, repository file paths, and the directory of a cache on a node.
 */
module Paths {
  import opened Common

  // ------------------------------------------------------ splitting and joining

  /** The segments between slashes; there is always at least one. */
  function Split(s: string): (r: seq<string>)
    ensures |r| > 0
  {
    if s == "" then [""]
    else if s[0] == '/' then [""] + Split(s[1..])
    else var r := Split(s[1..]); [[s[0]] + r[0]] + r[1..]
  }

  function Join(segs: seq<string>): string {
    if segs == [] then ""
    else if |segs| == 1 then segs[0]
    else segs[0] + "/" + Join(segs[1..])
  }

  predicate NoSlash(s: string) { '/' !in s }

  lemma {:induction false} SplitJoin(s: string)
    ensures Join(Split(s)) == s
    ensures forall i :: 0 <= i < |Split(s)| ==> NoSlash(Split(s)[i])
  {
    if s != "" {
      SplitJoin(s[1..]);
      var r := Split(s[1..]);
      if s[0] == '/' {
        assert Split(s)[1..] == r;
      } else {
        assert Split(s)[1..] == r[1..];
      }
    }
  }

  lemma {:induction false} SplitWhole(s: string)
    requires NoSlash(s)
    ensures Split(s) == [s]
  {
    if s != "" {
      assert s[0] in s && forall c :: c in s[1..] ==> c in s;
      SplitWhole(s[1..]);
      assert [s[0]] + s[1..] == s;
    }
  }

  function Prepended(c: char, r: seq<string>): seq<string>
    requires r != []
  {
    if c == '/' then [""] + r else [[c] + r[0]] + r[1..]
  }

  lemma SplitStep(s: string)
    requires s != ""
    ensures Split(s) == Prepended(s[0], Split(s[1..]))
  {
  }

  lemma PrependedFirst(c: char, r: seq<string>, t: seq<string>)
    requires r != []
    ensures Prepended(c, r + t) == Prepended(c, r) + t
  {
  }

  lemma {:induction false} SplitConcat(a: string, b: string)
    ensures Split(a + "/" + b) == Split(a) + Split(b)
  {
    var s := a + "/" + b;
    SplitStep(s);
    if a == "" {
      assert s[1..] == b;
    } else {
      hide Split, Prepended;
      SplitStep(a);
      SplitConcat(a[1..], b);
      assert s[0] == a[0] && s[1..] == a[1..] + "/" + b;
      PrependedFirst(a[0], Split(a[1..]), Split(b));
    }
  }

  lemma {:induction false} JoinSplit(segs: seq<string>)
    requires segs != [] && forall i :: 0 <= i < |segs| ==> NoSlash(segs[i])
    ensures Split(Join(segs)) == segs
  {
    SplitWhole(segs[0]);
    if |segs| > 1 {
      JoinSplit(segs[1..]);
      SplitConcat(segs[0], Join(segs[1..]));
    }
  }

  // ----------------------------------------------------------------- cleaning

  predicate Dropped(seg: string) { seg == "" || seg == "." }

  /** The segments that count: not empty and not `.`. */
  function Kept(segs: seq<string>): seq<string> {
    if segs == [] then []
    else (if Dropped(segs[0]) then [] else [segs[0]]) + Kept(segs[1..])
  }

  /** Resolves `..` against what came before; at the root it has nothing to go back to. */
  function Resolve(segs: seq<string>, rooted: bool, acc: seq<string>): seq<string> {
    if segs == [] then acc
    else if Dropped(segs[0]) then Resolve(segs[1..], rooted, acc)
    else if segs[0] != ".." then Resolve(segs[1..], rooted, acc + [segs[0]])
    else if acc != [] && acc[|acc| - 1] != ".." then Resolve(segs[1..], rooted, acc[..|acc| - 1])
    else if rooted then Resolve(segs[1..], rooted, acc)
    else Resolve(segs[1..], rooted, acc + [".."])
  }

  predicate IsAbs(p: string) { p != "" && p[0] == '/' }

  function Resolved(p: string): seq<string> { Resolve(Split(p), IsAbs(p), []) }

  /** The shortest equivalent path, computed on the text alone. */
  function Clean(p: string): string {
    if IsAbs(p) then "/" + Join(Resolved(p))
    else if Resolved(p) == [] then "."
    else Join(Resolved(p))
  }

  /** A segment that names something below. */
  predicate Proper(seg: string) { !Dropped(seg) && seg != ".." && NoSlash(seg) }

  predicate AllProper(segs: seq<string>) { forall i :: 0 <= i < |segs| ==> Proper(segs[i]) }

  /** Proper segments, after leading `..` in a relative path. */
  predicate Resolvable(segs: seq<string>, rooted: bool) {
    && (forall i :: 0 <= i < |segs| ==> !Dropped(segs[i]) && NoSlash(segs[i]))
    && (forall i :: 0 <= i < |segs| && segs[i] == ".." ==> !rooted && (i > 0 ==> segs[i - 1] == ".."))
  }

  lemma {:induction false} ResolveShape(segs: seq<string>, rooted: bool, acc: seq<string>)
    requires Resolvable(acc, rooted) && forall i :: 0 <= i < |segs| ==> NoSlash(segs[i])
    ensures Resolvable(Resolve(segs, rooted, acc), rooted)
  {
    if segs == [] {
    } else if Dropped(segs[0]) {
      ResolveShape(segs[1..], rooted, acc);
    } else if segs[0] != ".." {
      ResolveShape(segs[1..], rooted, acc + [segs[0]]);
    } else if acc != [] && acc[|acc| - 1] != ".." {
      ResolveShape(segs[1..], rooted, acc[..|acc| - 1]);
    } else if rooted {
      ResolveShape(segs[1..], rooted, acc);
    } else {
      ResolveShape(segs[1..], rooted, acc + [".."]);
    }
  }

  lemma ResolvedShape(p: string)
    ensures Resolvable(Resolved(p), IsAbs(p))
  {
    SplitJoin(p);
    ResolveShape(Split(p), IsAbs(p), []);
  }

  lemma {:induction false} ResolveConcat(a: seq<string>, b: seq<string>, rooted: bool, acc: seq<string>)
    ensures Resolve(a + b, rooted, acc) == Resolve(b, rooted, Resolve(a, rooted, acc))
  {
    if a == [] {
      assert a + b == b;
    } else {
      assert (a + b)[1..] == a[1..] + b;
      if Dropped(a[0]) {
        ResolveConcat(a[1..], b, rooted, acc);
      } else if a[0] != ".." {
        ResolveConcat(a[1..], b, rooted, acc + [a[0]]);
      } else if acc != [] && acc[|acc| - 1] != ".." {
        ResolveConcat(a[1..], b, rooted, acc[..|acc| - 1]);
      } else if rooted {
        ResolveConcat(a[1..], b, rooted, acc);
      } else {
        ResolveConcat(a[1..], b, rooted, acc + [".."]);
      }
    }
  }

  /** Without `..`, cleaning keeps exactly the segments that count. */
  lemma {:induction false} ResolvePlain(segs: seq<string>, rooted: bool, acc: seq<string>)
    requires ".." !in segs
    ensures Resolve(segs, rooted, acc) == acc + Kept(segs)
  {
    if segs != [] {
      ResolvePlain(segs[1..], rooted, if Dropped(segs[0]) then acc else acc + [segs[0]]);
    }
  }

  lemma {:induction false} KeptProper(segs: seq<string>)
    requires forall i :: 0 <= i < |segs| ==> Proper(segs[i])
    ensures Kept(segs) == segs
  {
    if segs != [] {
      KeptProper(segs[1..]);
    }
  }

  lemma {:induction false} KeptShape(segs: seq<string>)
    requires ".." !in segs && forall i :: 0 <= i < |segs| ==> NoSlash(segs[i])
    ensures AllProper(Kept(segs))
  {
    if segs != [] {
      KeptShape(segs[1..]);
    }
  }

  lemma ResolveRooted(segs: seq<string>)
    requires AllProper(segs)
    ensures Resolve([""] + segs, true, []) == segs
  {
    ResolvePlain([""] + segs, true, []);
    KeptProper(segs);
    assert ([""] + segs)[1..] == segs;
  }

  /** A rooted path spelt out of proper segments reads back as those segments. */
  lemma ReadsBack(segs: seq<string>)
    requires AllProper(segs)
    ensures segs != [] ==> Split("/" + Join(segs)) == [""] + segs
    ensures Resolved("/" + Join(segs)) == segs && Clean("/" + Join(segs)) == "/" + Join(segs)
  {
    if segs == [] {
      SplitConcat("", "");
      SplitWhole("");
      assert Split("/") == ["", ""] && ["", ""][1..] == [""];
    } else {
      JoinSplit(segs);
      assert ("/" + Join(segs))[1..] == Join(segs);
      ResolveRooted(segs);
    }
  }

  // --------------------------------------------------------------- mount paths

  datatype MountPathError = Empty | NotAbsolute | ParentSegment | IsRoot

  /** Checks and cleans the mount path of an annotation. */
  method CleanMountPath(mountPath: string) returns (r: Result<string, MountPathError>)
    ensures r == CleanedMountPath(mountPath)
  {
    if mountPath == "" { return Err(Empty); }
    if !IsAbs(mountPath) { return Err(NotAbsolute); }
    var segments := Split(mountPath);
    for i := 0 to |segments|
      invariant ".." !in segments[..i]
    {
      if segments[i] == ".." { return Err(ParentSegment); }
    }
    var cleaned := Clean(mountPath);
    r := if cleaned == "/" then Err(IsRoot) else Ok(cleaned);
  }

  /** What the check makes of a mount path, said of its segments alone. */
  function CleanedMountPath(p: string): Result<string, MountPathError> {
    if p == "" then Err(Empty)
    else if !IsAbs(p) then Err(NotAbsolute)
    else if ".." in Split(p) then Err(ParentSegment)
    else if Clean(p) == "/" then Err(IsRoot)
    else Ok(Clean(p))
  }

  /** A path is accepted exactly if it is absolute, has no `..`, and some segment counts; those are what is kept. */
  lemma MountPathKeepsSegments(p: string)
    ensures CleanedMountPath(p).Ok? <==> IsAbs(p) && ".." !in Split(p) && Kept(Split(p)) != []
    ensures CleanedMountPath(p).Ok? ==>
      CleanedMountPath(p).value == "/" + Join(Kept(Split(p))) && AllProper(Kept(Split(p)))
  {
    if IsAbs(p) && ".." !in Split(p) {
      var kept := Kept(Split(p));
      SplitJoin(p);
      ResolvePlain(Split(p), true, []);
      KeptShape(Split(p));
      assert Resolved(p) == kept;
      if kept != [] {
        ReadsBack(kept);
        JoinSplit(kept);
        SplitWhole("");
        assert Join(kept) != "";
      }
    }
  }

  /** Cleaning is idempotent: an accepted path's clean form is accepted as it is. */
  lemma MountPathIdempotent(p: string)
    requires CleanedMountPath(p).Ok?
    ensures CleanedMountPath(CleanedMountPath(p).value) == CleanedMountPath(p)
  {
    MountPathKeepsSegments(p);
    var q := CleanedMountPath(p).value;
    ReadsBack(Kept(Split(p)));
    MountPathKeepsSegments(q);
    KeptProper(Kept(Split(p)));
    assert Split(q)[1..] == Kept(Split(p));
  }

  /** Two accepted paths have the same clean form exactly when the same segments count. */
  lemma MountPathsAgree(p: string, q: string)
    requires CleanedMountPath(p).Ok? && CleanedMountPath(q).Ok?
    ensures CleanedMountPath(p) == CleanedMountPath(q) <==> Kept(Split(p)) == Kept(Split(q))
  {
    MountPathKeepsSegments(p);
    MountPathKeepsSegments(q);
    ReadsBack(Kept(Split(p)));
    ReadsBack(Kept(Split(q)));
  }

  // --------------------------------------------------------- being inside a path

  /** `q` is `p` or lies below it. */
  predicate Inside(q: string, p: string) { q == p || (if p == "/" then p else p + "/") <= q }

  /** Below a rooted path lie exactly the paths whose segments go on from its own. */
  lemma InsideBySegments(a: seq<string>, b: seq<string>)
    requires AllProper(a) && AllProper(b)
    ensures Inside("/" + Join(b), "/" + Join(a)) <==> a <= b
    ensures "/" + Join(b) == "/" + Join(a) <==> a == b
  {
    hide Split, Join, Resolved, AllProper;
    ReadsBack(a);
    ReadsBack(b);
    RootIsEmpty(a);
    RootIsEmpty(b);
    if a < b {
      assert b == a + b[|a|..];
      GoesOnBelow(a, b[|a|..]);
    } else if a != [] && b != [] && "/" + Join(a) + "/" <= "/" + Join(b) {
      BelowGoesOn(a, b);
    }
    assert a <= b ==> a == b || a < b;
  }

  lemma RootIsEmpty(segs: seq<string>)
    requires AllProper(segs)
    ensures "/" + Join(segs) == "/" <==> segs == []
  {
    ReadsBack(segs);
    ReadsBack([]);
  }

  lemma GoesOnBelow(a: seq<string>, rest: seq<string>)
    requires rest != []
    ensures Inside("/" + Join(a + rest), "/" + Join(a))
  {
    if a != [] {
      JoinConcat(a, rest);
      assert "/" + Join(a + rest) == ("/" + Join(a) + "/") + Join(rest);
    }
  }

  lemma BelowGoesOn(a: seq<string>, b: seq<string>)
    requires a != [] && b != [] && AllProper(a) && AllProper(b) && "/" + Join(a) + "/" <= "/" + Join(b)
    ensures a <= b
  {
    hide Split, Join, Resolved, AllProper;
    var p, q := "/" + Join(a), "/" + Join(b);
    var rest := q[|p| + 1..];
    assert q == p + "/" + rest;
    SplitConcat(p, rest);
    ReadsBack(a);
    ReadsBack(b);
    assert [""] + b == [""] + a + Split(rest);
    assert b == ([""] + b)[1..] == a + Split(rest);
  }

  lemma {:induction false} JoinConcat(a: seq<string>, b: seq<string>)
    requires a != [] && b != []
    ensures Join(a + b) == Join(a) + "/" + Join(b)
  {
    if |a| == 1 {
      assert (a + b)[1..] == b;
    } else {
      assert (a + b)[1..] == a[1..] + b;
      JoinConcat(a[1..], b);
    }
  }

  // ------------------------------------------------------- repository file paths

  /** The clean form of a path from the repository listing, or nothing if it leads out or nowhere. */
  function CleanRelativePath(path: string): string {
    var cleaned := Clean(path);
    if cleaned == "." || "../" <= cleaned || cleaned == ".." || "/" <= cleaned then "" else cleaned
  }

  /** What is accepted goes strictly down; what is refused is absolute, empty, or leads up. */
  lemma RelativePathGoesDown(path: string)
    ensures CleanRelativePath(path) != "" <==> !IsAbs(path) && Resolved(path) != [] && Resolved(path)[0] != ".."
    ensures CleanRelativePath(path) != "" ==>
      CleanRelativePath(path) == Join(Resolved(path)) && AllProper(Resolved(path))
  {
    var r := Resolved(path);
    ResolvedShape(path);
    if !IsAbs(path) && r != [] {
      JoinSplit(r);
      StartsWith(r);
      if r[0] != ".." { AllDown(r); }
      SplitWhole(".");
      SplitWhole("..");
    }
  }

  /** How the text of joined segments begins. */
  lemma StartsWith(r: seq<string>)
    requires r != [] && Resolvable(r, false)
    ensures "../" <= Join(r) || Join(r) == ".." <==> r[0] == ".."
    ensures !("/" <= Join(r)) && Join(r) != "" && Join(r) != "."
  {
    JoinSplit(r);
    SplitWhole(".");
    SplitWhole("..");
    SplitWhole("");
    if "../" <= Join(r) {
      assert Join(r) == ".." + "/" + Join(r)[3..];
      SplitConcat("..", Join(r)[3..]);
    }
    assert r[0] != "" && r[0] <= Join(r) && r[0][0] != '/';
  }

  lemma {:induction false} AllDown(r: seq<string>)
    requires r != [] && Resolvable(r, false) && r[0] != ".."
    ensures AllProper(r)
  {
    if |r| > 1 {
      AllDown(r[..|r| - 1]);
      assert r[..|r| - 1][|r| - 2] == r[|r| - 2];
    }
  }

  /** Where a file of the listing is written: filepath.Join of the target and the clean path. */
  function Destination(target: string, relative: string): string { Clean(target + "/" + relative) }

  /** Every download lands strictly inside its target directory, at the segments of its own clean path. */
  lemma DownloadsLandInside(target: string, path: string)
    requires IsAbs(target) && CleanRelativePath(path) != ""
    ensures
      var d := Destination(target, CleanRelativePath(path));
      d == "/" + Join(Resolved(target) + Resolved(path)) && Inside(d, Clean(target)) && d != Clean(target)
  {
    hide Join, Resolved, Resolve;
    RelativePathGoesDown(path);
    RootedProper(target);
    LandsAt(target, Resolved(path));
    InsideBySegments(Resolved(target), Resolved(target) + Resolved(path));
  }

  lemma RootedProper(p: string)
    requires IsAbs(p)
    ensures AllProper(Resolved(p))
  {
    ResolvedShape(p);
  }

  lemma LandsAt(target: string, rel: seq<string>)
    requires IsAbs(target) && rel != [] && AllProper(rel)
    ensures Destination(target, Join(rel)) == "/" + Join(Resolved(target) + rel)
  {
    hide Split, Join, Resolve;
    SplitConcat(target, Join(rel));
    JoinSplit(rel);
    ResolveConcat(Split(target), rel, true, []);
    ResolvePlain(rel, true, Resolved(target));
    KeptProper(rel);
    assert IsAbs(target + "/" + Join(rel));
  }

  /** Two files of the listing land on the same file exactly when their clean paths are equal. */
  lemma DestinationsAgree(target: string, a: string, b: string)
    requires IsAbs(target) && CleanRelativePath(a) != "" && CleanRelativePath(b) != ""
    ensures
      Destination(target, CleanRelativePath(a)) == Destination(target, CleanRelativePath(b))
      <==> CleanRelativePath(a) == CleanRelativePath(b)
  {
    hide Join, Resolved, Resolve;
    DownloadsLandInside(target, a);
    DownloadsLandInside(target, b);
    RelativePathGoesDown(a);
    RelativePathGoesDown(b);
    RootedProper(target);
    var t, r, q := Resolved(target), Resolved(a), Resolved(b);
    InsideBySegments(t + r, t + q);
    if r != q {
      assert (t + r)[|t|..] == r && (t + q)[|t|..] == q;
      JoinSplit(r);
      JoinSplit(q);
    }
  }

  // ------------------------------------------------------ the directory of a cache

  const DEFAULT_CACHE_ROOT := "/var/praesto"

  function TrimSlashes(s: string): string {
    if s != "" && s[|s| - 1] == '/' then TrimSlashes(s[..|s| - 1]) else s
  }

  function OrDefault(base: string): string { if base == "" then DEFAULT_CACHE_ROOT else base }

  /** The agent's path: LocalPathForModelCacheNode. */
  function AgentPath(base: string, namespace: string, name: string): string {
    TrimSlashes(OrDefault(base)) + "/" + namespace + "/" + name
  }

  /** The driver's path: filepath.Join of the cache root, the namespace and the name. */
  function CsiPath(base: string, namespace: string, name: string): string {
    Clean(OrDefault(base) + "/" + namespace + "/" + name)
  }

  lemma {:induction false} TrimmedSegments(s: string)
    ensures Resolve(Split(s), true, []) == Resolve(Split(TrimSlashes(s)), true, [])
  {
    if s != "" && s[|s| - 1] == '/' {
      var t := s[..|s| - 1];
      TrimmedSegments(t);
      assert s == t + "/" + "";
      SplitConcat(t, "");
      ResolveConcat(Split(t), [""], true, []);
    }
  }

  /** What comes before the namespace and the name. */
  function RootSegments(base: string): seq<string> { Resolve(Split(OrDefault(base)), true, []) }

  lemma RootProper(base: string)
    ensures AllProper(RootSegments(base))
  {
    SplitJoin(OrDefault(base));
    ResolveShape(Split(OrDefault(base)), true, []);
  }

  lemma PathBelowBase(b: string, namespace: string, name: string)
    requires (b == "" || IsAbs(b)) && Proper(namespace) && Proper(name)
    ensures
      Clean(b + "/" + namespace + "/" + name) == "/" + Join(Resolve(Split(b), true, []) + [namespace, name])
  {
    var p := b + "/" + namespace + "/" + name;
    assert IsAbs(p);
    SplitConcat(b + "/" + namespace, name);
    SplitConcat(b, namespace);
    SplitWhole(namespace);
    SplitWhole(name);
    assert Split(p) == Split(b) + [namespace, name];
    ResolveConcat(Split(b), [namespace, name], true, []);
    ResolvePlain([namespace, name], true, Resolve(Split(b), true, []));
    KeptProper([namespace, name]);
  }

  lemma TrimKeepsRoot(s: string)
    requires IsAbs(s)
    ensures TrimSlashes(s) == "" || IsAbs(TrimSlashes(s))
    decreases |s|
  {
    if s[|s| - 1] == '/' && |s| > 1 {
      TrimKeepsRoot(s[..|s| - 1]);
    }
  }

  /** Agent and driver name the same directory: the agent's path, cleaned, is the driver's. */
  lemma AgentAndDriverAgree(base: string, namespace: string, name: string)
    requires (base == "" || IsAbs(base)) && Proper(namespace) && Proper(name)
    ensures Clean(AgentPath(base, namespace, name)) == CsiPath(base, namespace, name)
    ensures CsiPath(base, namespace, name) == "/" + Join(RootSegments(base) + [namespace, name])
  {
    var b := OrDefault(base);
    TrimKeepsRoot(b);
    PathBelowBase(TrimSlashes(b), namespace, name);
    PathBelowBase(b, namespace, name);
    TrimmedSegments(b);
  }

  /** Directories of different caches are different, and neither lies inside the other. */
  lemma DirectoriesApart(base: string, ns: string, name: string, ns': string, name': string)
    requires (base == "" || IsAbs(base)) && Proper(ns) && Proper(name) && Proper(ns') && Proper(name')
    requires ns != ns' || name != name'
    ensures !Inside(CsiPath(base, ns, name), CsiPath(base, ns', name'))
  {
    AgentAndDriverAgree(base, ns, name);
    AgentAndDriverAgree(base, ns', name');
    RootProper(base);
    var a, b := RootSegments(base) + [ns', name'], RootSegments(base) + [ns, name];
    InsideBySegments(a, b);
    assert a[|a| - 1] == name' && b[|b| - 1] == name && a[|a| - 2] == ns' && b[|b| - 2] == ns;
  }

  // ------------------------------------------------- where a source path leads

  /** Which cache's directory a path lies in, and where in it; or elsewhere, out of every one of them. */
  datatype Place = Within(cache: CacheKey, rest: seq<string>) | Elsewhere

  function PlaceOf(base: string, path: string): Place {
    var segs, r := Resolved(path), RootSegments(base);
    if r <= segs && |segs| >= |r| + 2 then Within(CacheKey(segs[|r|], segs[|r| + 1]), segs[|r| + 2..]) else Elsewhere
  }

  lemma PlaceExactly(base: string, path: string, c: CacheKey, rest: seq<string>)
    ensures PlaceOf(base, path) == Within(c, rest)
      <==> Resolved(path) == RootSegments(base) + [c.namespace, c.name] + rest
  {
    hide Resolved, RootSegments;
    var segs, r := Resolved(path), RootSegments(base);
    if r <= segs && |segs| >= |r| + 2 {
      assert segs == r + [segs[|r|], segs[|r| + 1]] + segs[|r| + 2..];
    }
    if segs == r + [c.namespace, c.name] + rest {
      assert segs == r + ([c.namespace, c.name] + rest);
      assert segs[|r| + 2..] == rest;
    }
  }

  /** What two volume attributes come to below the root, whatever they contain. */
  function SourceSegments(base: string, namespace: string, name: string): seq<string> {
    Resolve(Split(namespace) + Split(name), true, RootSegments(base))
  }

  lemma SourcePathResolves(base: string, namespace: string, name: string)
    requires base == "" || IsAbs(base)
    ensures CsiPath(base, namespace, name) == "/" + Join(SourceSegments(base, namespace, name))
    ensures Resolved(CsiPath(base, namespace, name)) == SourceSegments(base, namespace, name)
    ensures AllProper(SourceSegments(base, namespace, name))
  {
    hide Join, Split, Resolve;
    var b := OrDefault(base);
    var p := b + "/" + namespace + "/" + name;
    SplitConcat(b + "/" + namespace, name);
    SplitConcat(b, namespace);
    assert Split(p) == Split(b) + (Split(namespace) + Split(name));
    ResolveConcat(Split(b), Split(namespace) + Split(name), true, []);
    assert IsAbs(p);
    RootedProper(p);
    ReadsBack(Resolved(p));
  }

  /** Two pairs of attributes have one source path exactly when they come to the same segments. */
  lemma SourcePathIsExact(base: string, ns: string, name: string, ns': string, name': string)
    requires base == "" || IsAbs(base)
    ensures CsiPath(base, ns, name) == CsiPath(base, ns', name')
      <==> SourceSegments(base, ns, name) == SourceSegments(base, ns', name')
  {
    hide Join, Split, Resolve, SourceSegments, CsiPath;
    SourcePathResolves(base, ns, name);
    SourcePathResolves(base, ns', name');
  }

  /** Attributes that are single segments lead to the directory of the cache they name. */
  lemma ProperAttributes(base: string, namespace: string, name: string)
    requires (base == "" || IsAbs(base)) && Proper(namespace) && Proper(name)
    ensures SourceSegments(base, namespace, name) == RootSegments(base) + [namespace, name]
    ensures PlaceOf(base, CsiPath(base, namespace, name)) == Within(CacheKey(namespace, name), [])
  {
    SplitWhole(namespace);
    SplitWhole(name);
    ResolvePlain([namespace, name], true, RootSegments(base));
    KeptProper([namespace, name]);
    assert Split(namespace) + Split(name) == [namespace, name];
    SourcePathResolves(base, namespace, name);
    PlaceExactly(base, CsiPath(base, namespace, name), CacheKey(namespace, name), []);
    assert RootSegments(base) + [namespace, name] + [] == RootSegments(base) + [namespace, name];
  }

  ghost predicate IsDirectoryOfACache(base: string, path: string) {
    exists c: CacheKey :: Proper(c.namespace) && Proper(c.name) && path == CsiPath(base, c.namespace, c.name)
  }

  /**
   Any two attributes lead to the directory of some cache if and only if they come to the root's
   segments and exactly two more.
   */
  lemma SourcePathIsADirectoryOfACacheExactly(base: string, namespace: string, name: string)
    requires base == "" || IsAbs(base)
    ensures
      var segs, r := SourceSegments(base, namespace, name), RootSegments(base);
      IsDirectoryOfACache(base, CsiPath(base, namespace, name)) <==> r <= segs && |segs| == |r| + 2
  {
    hide Join, Split, Resolve, CsiPath, SourceSegments, RootSegments, Proper;
    var segs, r := SourceSegments(base, namespace, name), RootSegments(base);
    SourcePathResolves(base, namespace, name);
    var path := CsiPath(base, namespace, name);
    if c: CacheKey :| Proper(c.namespace) && Proper(c.name) && path == CsiPath(base, c.namespace, c.name) {
      ProperAttributes(base, c.namespace, c.name);
      SourcePathResolves(base, c.namespace, c.name);
    }
    if r <= segs && |segs| == |r| + 2 {
      var c := CacheKey(segs[|r|], segs[|r| + 1]);
      assert Proper(c.namespace) && Proper(c.name);
      ProperAttributes(base, c.namespace, c.name);
      SourcePathResolves(base, c.namespace, c.name);
      assert segs == r + [c.namespace, c.name];
    }
  }

  /** The marker a reader looks for at a path lies one segment below it. */
  lemma OneSegmentBelow(path: string, seg: string)
    requires IsAbs(path) && Proper(seg)
    ensures Resolved(path + "/" + seg) == Resolved(path) + [seg]
  {
    hide Split, Resolve;
    SplitConcat(path, seg);
    SplitWhole(seg);
    ResolveConcat(Split(path), [seg], true, []);
    ResolvePlain([seg], true, Resolved(path));
    KeptProper([seg]);
    assert IsAbs(path + "/" + seg);
  }

  /** A slash in an attribute leads to a directory below that of a cache... */
  lemma ASlashLeadsBelow(base: string, ns: string, name: string, sub: string)
    requires (base == "" || IsAbs(base)) && Proper(ns) && Proper(name) && Proper(sub)
    ensures PlaceOf(base, CsiPath(base, ns + "/" + name, sub)) == Within(CacheKey(ns, name), [sub])
  {
    hide CsiPath, Resolved, RootSegments, PlaceOf, Join;
    SplitConcat(ns, name);
    SplitWhole(ns);
    SplitWhole(name);
    SplitWhole(sub);
    assert Split(ns + "/" + name) + Split(sub) == [ns, name, sub];
    ResolvePlain([ns, name, sub], true, RootSegments(base));
    KeptProper([ns, name, sub]);
    SourcePathResolves(base, ns + "/" + name, sub);
    PlaceExactly(base, CsiPath(base, ns + "/" + name, sub), CacheKey(ns, name), [sub]);
    assert RootSegments(base) + [ns, name, sub] == RootSegments(base) + [ns, name] + [sub];
  }

  /** ...and `..` leads out of the root, unless that is `/` itself. */
  lemma ParentLeadsOut(base: string, name: string)
    requires (base == "" || IsAbs(base)) && RootSegments(base) != [] && Proper(name)
    ensures PlaceOf(base, CsiPath(base, "..", name)) == Elsewhere
  {
    var r := RootSegments(base);
    RootProper(base);
    SplitWhole("..");
    SplitWhole(name);
    assert Split("..") + Split(name) == [".."] + [name];
    ResolveConcat([".."], [name], true, r);
    ResolvePlain([name], true, r[..|r| - 1]);
    KeptProper([name]);
    SourcePathResolves(base, "..", name);
    assert SourceSegments(base, "..", name) == r[..|r| - 1] + [name];
  }

  // ---------------------------------------------------------- removing a tree

  /** The files of a disk by their clean paths. */
  type Files<T> = map<string, T>

  /** os.RemoveAll: the path and everything below it. */
  function RemoveAll<T>(files: Files<T>, p: string): Files<T> {
    map q | q in files && !Inside(q, p) :: files[q]
  }

  lemma InsideTransitive(q: string, p: string, r: string)
    requires Inside(q, p) && Inside(q, r) && |r| <= |p|
    ensures Inside(p, r)
  {
    if q != p && q != r && p != "/" && r != "/" {
      assert r + "/" == q[..|r| + 1] && p + "/" == q[..|p| + 1];
      if |r| < |p| {
        assert p[..|r| + 1] == q[..|r| + 1];
      } else {
        assert r == q[..|r|] && p == q[..|p|];
      }
    }
  }

  /** Removing one cache's directory leaves every file of every other cache as it was. */
  lemma RemovalSparesOthers<T>(files: Files<T>, base: string, ns: string, name: string, ns': string, name': string,
                               q: string)
    requires (base == "" || IsAbs(base)) && Proper(ns) && Proper(name) && Proper(ns') && Proper(name')
    requires ns != ns' || name != name'
    requires q in files && Inside(q, CsiPath(base, ns', name'))
    ensures
      var after := RemoveAll(files, CsiPath(base, ns, name));
      q in after && after[q] == files[q]
  {
    var p, r := CsiPath(base, ns, name), CsiPath(base, ns', name');
    DirectoriesApart(base, ns, name, ns', name');
    DirectoriesApart(base, ns', name', ns, name);
    if Inside(q, p) {
      if |r| <= |p| { InsideTransitive(q, p, r); } else { InsideTransitive(q, r, p); }
    }
  }
}
