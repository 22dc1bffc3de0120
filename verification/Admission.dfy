/**
 Pod admission as a transformation: resolve the requested mounts, then add what is missing
 to the Pod's volumes, init containers, target container and labels.

 `Mutate` is the specification; the methods of `PodMutator` edit a `Pod` object in place and
 are proved against it.
 */
module Admission {
  import opened Common
  import opened KubeIdent
  import opened Paths
  import opened Overlap
  import opened Usage

  const VOLUME_NAME := "praesto-model-cache"
  const VOLUME_NAME_PREFIX := "praesto-model-cache-"
  const WAIT_NAME_PREFIX := "praesto-wait-model-cache-"
  const WAIT_IMAGE := "busybox:1.36"

  /** A ModelCache as the webhook reads it; `csi` tells that it is in local mode. */
  datatype CacheInfo = CacheInfo(key: CacheKey, csi: bool, phase: Phase, pvcName: string)

  type CacheStore = s: map<CacheKey, CacheInfo>
    | forall c :: c in s ==> s[c].key == c && c.namespace != "" && c.name != ""

  datatype Refusal =
    | AnnotationBlank
    | AnnotationMalformed
    | NoMounts
    | EmptyModelCache(index: nat)
    | InvalidMountPath(index: nat, error: MountPathError)
    | DuplicateMountPath(path: string)
    | CacheNotFound(name: string)
    | CacheFailed(name: string)
    | CacheNotReady(name: string)
    | OverlappingMountPaths
    | NoContainers
    | VolumeConflict(name: string)
    | InitContainerConflict(name: string)
    | TargetEmpty
    | TargetNotFound
    | MountConflict(name: string, path: string)

  datatype ResolvedMount = ResolvedMount(cache: CacheInfo, mountPath: string, volumeName: string)

  // ---------------------------------------------------------------- resolving

  function Digit(n: nat): char
    requires n < 10
  {
    "0123456789"[n]
  }

  function Decimal(n: nat): (r: string)
    ensures |r| >= 1 && (|r| == 1 <==> n < 10)
  {
    if n < 10 then [Digit(n)] else Decimal(n / 10) + [Digit(n % 10)]
  }

  function VolumeName(i: nat, n: nat): string { if n > 1 then VOLUME_NAME_PREFIX + Decimal(i) else VOLUME_NAME }

  /** A local-mode cache unless it is Failed, a PVC-mode cache only when Ready or Evicted. */
  function FetchInjectable(store: CacheStore, c: CacheKey): Result<CacheInfo, Refusal> {
    if c !in store then Err(CacheNotFound(c.name))
    else if store[c].csi then (if store[c].phase == Failed then Err(CacheFailed(c.name)) else Ok(store[c]))
    else if store[c].phase != Ready && store[c].phase != Evicted then Err(CacheNotReady(c.name))
    else Ok(store[c])
  }

  function PathsOf(ms: seq<ResolvedMount>): (r: seq<string>)
    ensures |r| == |ms| && forall i :: 0 <= i < |ms| ==> r[i] == ms[i].mountPath
  {
    seq(|ms|, i requires 0 <= i < |ms| => ms[i].mountPath)
  }

  function ResolveOne(store: CacheStore, namespace: string, requests: seq<MountRequest>, i: nat,
                      before: seq<ResolvedMount>)
    : Result<ResolvedMount, Refusal>
    requires i < |requests|
  {
    var name := TrimSpace(requests[i].modelCache);
    if name == "" then Err(EmptyModelCache(i)) else
    match CleanedMountPath(TrimSpace(requests[i].mountPath))
    case Err(e) => Err(InvalidMountPath(i, e))
    case Ok(path) =>
      if path in PathsOf(before) then Err(DuplicateMountPath(path)) else
      var cache :- FetchInjectable(store, CacheKey(namespace, name));
      Ok(ResolvedMount(cache, path, VolumeName(i, |requests|)))
  }

  /** The first `n` entries, in order; the first that is refused decides. */
  function ResolveFirst(store: CacheStore, namespace: string, requests: seq<MountRequest>, n: nat)
    : Result<seq<ResolvedMount>, Refusal>
    requires n <= |requests|
  {
    if n == 0 then Ok([]) else
    var before :- ResolveFirst(store, namespace, requests, n - 1);
    var m :- ResolveOne(store, namespace, requests, n - 1, before);
    Ok(before + [m])
  }

  function ResolveModelMounts(store: CacheStore, namespace: string,
                              mounts: MountsAnnotation): Result<seq<ResolvedMount>, Refusal> {
    match mounts
    case Absent => Ok([])
    case Blank => Err(AnnotationBlank)
    case Malformed => Err(AnnotationMalformed)
    case Mounts(requests) =>
      if requests == [] then Err(NoMounts) else
      var ms :- ResolveFirst(store, namespace, requests, |requests|);
      if AdjacentNested(SortStrings(PathsOf(ms))) then Err(OverlappingMountPaths) else Ok(ms)
  }

  /** Each entry's resolved mount: the cache it names, its clean path, a volume name of its own. */
  predicate ResolvedAs(store: CacheStore, namespace: string, requests: seq<MountRequest>, i: nat, m: ResolvedMount)
    requires i < |requests|
  {
    var c := CacheKey(namespace, TrimSpace(requests[i].modelCache));
    && c.name != "" && c in store && m.cache == store[c]
    && (if m.cache.csi then m.cache.phase != Failed else m.cache.phase in {Ready, Evicted})
    && CleanedMountPath(TrimSpace(requests[i].mountPath)) == Ok(m.mountPath)
    && m.volumeName == VolumeName(i, |requests|)
  }

  lemma ResolveOneMeans(store: CacheStore, namespace: string, requests: seq<MountRequest>, i: nat,
                        before: seq<ResolvedMount>)
    requires i < |requests| && ResolveOne(store, namespace, requests, i, before).Ok?
    ensures
      var m := ResolveOne(store, namespace, requests, i, before).value;
      ResolvedAs(store, namespace, requests, i, m) && m.mountPath !in PathsOf(before)
  {
    hide CleanedMountPath, TrimSpace, VolumeName;
  }

  lemma DistinctOneMore(paths: seq<string>, path: string)
    ensures Distinct(paths + [path]) <==> Distinct(paths) && path !in paths
  {
    var all := paths + [path];
    if Distinct(all) {
      forall i, j | 0 <= i < j < |paths| ensures paths[i] != paths[j] { assert all[i] != all[j]; }
      forall i | 0 <= i < |paths| ensures paths[i] != path { assert all[i] != all[|paths|]; }
    }
  }

  lemma {:induction false} ResolvedMeans(store: CacheStore, namespace: string, requests: seq<MountRequest>, n: nat)
    requires n <= |requests| && ResolveFirst(store, namespace, requests, n).Ok?
    ensures
      var ms := ResolveFirst(store, namespace, requests, n).value;
      && |ms| == n && Distinct(PathsOf(ms))
      && forall i :: 0 <= i < n ==> ResolvedAs(store, namespace, requests, i, ms[i])
  {
    if n > 0 {
      hide ResolveOne, ResolvedAs, Distinct, PathsOf;
      ResolvedMeans(store, namespace, requests, n - 1);
      var before := ResolveFirst(store, namespace, requests, n - 1).value;
      var m := ResolveOne(store, namespace, requests, n - 1, before).value;
      ResolveOneMeans(store, namespace, requests, n - 1, before);
      assert PathsOf(before + [m]) == PathsOf(before) + [m.mountPath];
      DistinctOneMore(PathsOf(before), m.mountPath);
    }
  }

  /** What an entry needs: the name of a cache that is there and may be mounted, and a usable mount path. */
  predicate EntryFits(store: CacheStore, namespace: string, r: MountRequest) {
    var c := CacheKey(namespace, TrimSpace(r.modelCache));
    && c.name != "" && CleanedMountPath(TrimSpace(r.mountPath)).Ok? && c in store
    && (if store[c].csi then store[c].phase != Failed else store[c].phase == Ready || store[c].phase == Evicted)
  }

  /** The mount paths as they will be used; one that is not usable counts as empty. */
  function CleanPaths(requests: seq<MountRequest>): (r: seq<string>)
    ensures |r| == |requests|
  {
    seq(|requests|, i requires 0 <= i < |requests| =>
      match CleanedMountPath(TrimSpace(requests[i].mountPath)) case Ok(path) => path case Err(_) => "")
  }

  lemma OneResolvesExactly(store: CacheStore, namespace: string, requests: seq<MountRequest>, i: nat,
                           before: seq<ResolvedMount>)
    requires i < |requests|
    ensures ResolveOne(store, namespace, requests, i, before).Ok?
      <==> EntryFits(store, namespace, requests[i]) && CleanPaths(requests)[i] !in PathsOf(before)
    ensures ResolveOne(store, namespace, requests, i, before).Ok? ==>
      ResolveOne(store, namespace, requests, i, before).value.mountPath == CleanPaths(requests)[i]
  {
    hide CleanedMountPath, TrimSpace, VolumeName;
  }

  lemma {:induction false} FirstResolveExactly(store: CacheStore, namespace: string, requests: seq<MountRequest>,
                                               n: nat)
    requires n <= |requests|
    ensures ResolveFirst(store, namespace, requests, n).Ok?
      <==> (forall i :: 0 <= i < n ==> EntryFits(store, namespace, requests[i])) && Distinct(CleanPaths(requests)[..n])
    ensures ResolveFirst(store, namespace, requests, n).Ok? ==>
      PathsOf(ResolveFirst(store, namespace, requests, n).value) == CleanPaths(requests)[..n]
  {
    hide ResolveOne, EntryFits, CleanPaths;
    if n > 0 {
      var paths := CleanPaths(requests);
      FirstResolveExactly(store, namespace, requests, n - 1);
      assert paths[..n] == paths[..n - 1] + [paths[n - 1]];
      DistinctOneMore(paths[..n - 1], paths[n - 1]);
      if ResolveFirst(store, namespace, requests, n - 1).Ok? {
        var before := ResolveFirst(store, namespace, requests, n - 1).value;
        OneResolvesExactly(store, namespace, requests, n - 1, before);
        if ResolveOne(store, namespace, requests, n - 1, before).Ok? {
          var m := ResolveOne(store, namespace, requests, n - 1, before).value;
          assert PathsOf(before + [m]) == PathsOf(before) + [m.mountPath];
        }
      }
    }
  }

  /**
   An annotation resolves if and only if it has entries, each of them fits, and no two of their
   paths are equal or found to be nested. So nothing else can keep a cache from being mounted.
   */
  lemma ResolvesExactly(store: CacheStore, namespace: string, requests: seq<MountRequest>)
    ensures ResolveModelMounts(store, namespace, Mounts(requests)).Ok?
      <==> && requests != [] && (forall i :: 0 <= i < |requests| ==> EntryFits(store, namespace, requests[i]))
           && Distinct(CleanPaths(requests)) && !AdjacentNested(SortStrings(CleanPaths(requests)))
  {
    hide ResolveFirst, EntryFits, CleanPaths, AdjacentNested, SortStrings;
    FirstResolveExactly(store, namespace, requests, |requests|);
    assert CleanPaths(requests)[..|requests|] == CleanPaths(requests);
  }

  lemma {:induction false} DecimalInjective(a: nat, b: nat)
    requires Decimal(a) == Decimal(b)
    ensures a == b
  {
    var x, y := Decimal(a), Decimal(b);
    assert x[|x| - 1] == Digit(a % 10) && y[|y| - 1] == Digit(b % 10);
    DigitInjective(a % 10, b % 10);
    if a >= 10 && b >= 10 {
      assert x[..|x| - 1] == Decimal(a / 10) && y[..|y| - 1] == Decimal(b / 10);
      DecimalInjective(a / 10, b / 10);
    }
  }

  lemma DigitInjective(a: nat, b: nat)
    requires a < 10 && b < 10 && Digit(a) == Digit(b)
    ensures a == b
  {
    assert Digit(a) as int == '0' as int + a && Digit(b) as int == '0' as int + b;
  }

  /** The generated volume names of one Pod are pairwise different. */
  lemma VolumeNamesDistinct(i: nat, j: nat, n: nat)
    requires i < n && j < n && i != j
    ensures VolumeName(i, n) != VolumeName(j, n)
  {
    if VolumeName(i, n) == VolumeName(j, n) {
      var p := VOLUME_NAME_PREFIX;
      assert (p + Decimal(i))[|p|..] == Decimal(i) && (p + Decimal(j))[|p|..] == Decimal(j);
      DecimalInjective(i, j);
    }
  }

  // ------------------------------------------------ adding what is missing to a list

  /** The first element of the list that has to do with `x`. */
  function First<T>(xs: seq<T>, x: T, concerns: (T, T) -> bool): Option<T> {
    if xs == [] then None
    else if concerns(xs[0], x) then Some(xs[0])
    else First(xs[1..], x, concerns)
  }

  /** Leaves the list alone if its first element concerned will do, appends if there is none, and fails otherwise. */
  function Ensure<T>(xs: seq<T>, x: T, concerns: (T, T) -> bool, accepts: (T, T) -> bool): Result<seq<T>, T> {
    match First(xs, x, concerns)
    case None => Ok(xs + [x])
    case Some(y) => if accepts(y, x) then Ok(xs) else Err(x)
  }

  function EnsureAll<T>(xs: seq<T>, needed: seq<T>, concerns: (T, T) -> bool,
                        accepts: (T, T) -> bool): Result<seq<T>, T> {
    if needed == [] then Ok(xs) else
    var ys :- EnsureAll(xs, needed[..|needed| - 1], concerns, accepts);
    Ensure(ys, needed[|needed| - 1], concerns, accepts)
  }

  predicate Has<T(==)>(xs: seq<T>, x: T, concerns: (T, T) -> bool, accepts: (T, T) -> bool) {
    First(xs, x, concerns).Some? && accepts(First(xs, x, concerns).value, x)
  }

  lemma {:induction false} FirstOfLonger<T>(xs: seq<T>, ys: seq<T>, x: T, concerns: (T, T) -> bool)
    requires xs <= ys
    ensures First(xs, x, concerns).Some? ==> First(ys, x, concerns) == First(xs, x, concerns)
  {
    if xs != [] {
      FirstOfLonger(xs[1..], ys[1..], x, concerns);
    }
  }

  lemma {:induction false} FirstOfAppended<T>(xs: seq<T>, x: T, concerns: (T, T) -> bool)
    requires First(xs, x, concerns).None? && concerns(x, x)
    ensures First(xs + [x], x, concerns) == Some(x)
  {
    if xs != [] {
      FirstOfAppended(xs[1..], x, concerns);
      assert (xs + [x])[1..] == xs[1..] + [x];
    }
  }

  /** It is indeed the first one. */
  lemma {:induction false} FirstExactly<T>(xs: seq<T>, x: T, concerns: (T, T) -> bool)
    ensures
      match First(xs, x, concerns)
      case Some(y) =>
        exists i :: 0 <= i < |xs| && xs[i] == y && concerns(y, x) && forall j :: 0 <= j < i ==> !concerns(xs[j], x)
      case None => forall j :: 0 <= j < |xs| ==> !concerns(xs[j], x)
  {
    if xs != [] && !concerns(xs[0], x) {
      FirstExactly(xs[1..], x, concerns);
      if First(xs, x, concerns).Some? {
        var y := First(xs, x, concerns).value;
        var i :| 0 <= i < |xs| - 1 && xs[1..][i] == y && concerns(y, x)
          && forall j :: 0 <= j < i ==> !concerns(xs[1..][j], x);
        assert xs[i + 1] == y && forall j :: 0 < j < i + 1 ==> xs[j] == xs[1..][j - 1];
      } else {
        assert forall j :: 0 < j < |xs| ==> xs[j] == xs[1..][j - 1];
      }
    }
  }

  lemma {:induction false} FirstIsMember<T>(xs: seq<T>, x: T, concerns: (T, T) -> bool)
    ensures First(xs, x, concerns).Some? ==>
      First(xs, x, concerns).value in xs && concerns(First(xs, x, concerns).value, x)
  {
    if xs != [] {
      FirstIsMember(xs[1..], x, concerns);
    }
  }

  predicate Reflexive<T>(needed: seq<T>, concerns: (T, T) -> bool, accepts: (T, T) -> bool) {
    forall i :: 0 <= i < |needed| ==> concerns(needed[i], needed[i]) && accepts(needed[i], needed[i])
  }

  /** What was there stays in front; what is added is needed; and everything needed is there. */
  lemma {:induction false} EnsureAllAdds<T>(xs: seq<T>, needed: seq<T>, concerns: (T, T) -> bool,
                                            accepts: (T, T) -> bool)
    requires Reflexive(needed, concerns, accepts) && EnsureAll(xs, needed, concerns, accepts).Ok?
    ensures
      var ys := EnsureAll(xs, needed, concerns, accepts).value;
      && xs <= ys
      && (forall j :: |xs| <= j < |ys| ==> ys[j] in needed)
      && (forall i :: 0 <= i < |needed| ==> Has(ys, needed[i], concerns, accepts))
  {
    if needed != [] {
      var n := |needed| - 1;
      EnsureAllAdds(xs, needed[..n], concerns, accepts);
      var before := EnsureAll(xs, needed[..n], concerns, accepts).value;
      var ys := EnsureAll(xs, needed, concerns, accepts).value;
      if First(before, needed[n], concerns).None? {
        FirstOfAppended(before, needed[n], concerns);
      }
      forall i | 0 <= i < n ensures Has(ys, needed[i], concerns, accepts) {
        assert Has(before, needed[..n][i], concerns, accepts);
        FirstOfLonger(before, ys, needed[i], concerns);
      }
      forall j | |xs| <= j < |ys| ensures ys[j] in needed {
        if j < |before| { assert ys[j] in needed[..n]; }
      }
    }
  }

  lemma {:induction false} EnsureAllKeeps<T>(ys: seq<T>, needed: seq<T>, concerns: (T, T) -> bool,
                                             accepts: (T, T) -> bool)
    requires forall i :: 0 <= i < |needed| ==> Has(ys, needed[i], concerns, accepts)
    ensures EnsureAll(ys, needed, concerns, accepts) == Ok(ys)
  {
    if needed != [] {
      assert Has(ys, needed[|needed| - 1], concerns, accepts);
      EnsureAllKeeps(ys, needed[..|needed| - 1], concerns, accepts);
    }
  }

  // ------------------------------------------------------ what a mount needs

  predicate SameVolume(v: Volume, w: Volume) { v.name == w.name }

  /** Whether an existing volume will do for the one needed. */
  predicate VolumeServes(v: Volume, needed: Volume) {
    match needed.source
    case Csi(driver, _, attributes) =>
      && v.source.Csi? && v.source.driver == driver && v.source.readOnly == Some(true)
      && Get(v.source.attributes, CSI_NAMESPACE) == Get(attributes, CSI_NAMESPACE)
      && Get(v.source.attributes, CSI_NAME) == Get(attributes, CSI_NAME)
    case Claim(claimName, _) => v.source.Claim? && v.source.claimName == claimName && v.source.claimReadOnly
    case OtherSource(_) => false
  }

  predicate SameContainer(a: Container, b: Container) { a.name == b.name }

  predicate SameMount(m: VolumeMount, n: VolumeMount) {
    m.name == n.name && m.mountPath == n.mountPath && m.readOnly == n.readOnly
  }

  predicate ContainsMount(mounts: seq<VolumeMount>, m: VolumeMount) {
    exists i :: 0 <= i < |mounts| && SameMount(mounts[i], m)
  }

  /** Whether an existing init container will do for the one needed. */
  predicate InitServes(c: Container, needed: Container) {
    && c.image == needed.image && c.command == needed.command
    && needed.mounts != [] && ContainsMount(c.mounts, needed.mounts[0])
  }

  predicate MountConcerns(m: VolumeMount, needed: VolumeMount) {
    m.name == needed.name || m.mountPath == needed.mountPath
  }

  predicate MountServes(m: VolumeMount, needed: VolumeMount) {
    m.name == needed.name && m.mountPath == needed.mountPath && m.readOnly
  }

  function TrimSuffix(s: string, suffix: string): string {
    if |suffix| <= |s| && s[|s| - |suffix|..] == suffix then s[..|s| - |suffix|] else s
  }

  function WaitName(volumeName: string): string { TrimSuffix(WAIT_NAME_PREFIX + volumeName, "-") }

  function WaitCommand(m: ResolvedMount): seq<string> {
    ["sh", "-c",
     "until [ -f " + m.mountPath + "/.praesto-complete ]; do echo waiting for Praesto model cache "
     + m.cache.key.name + "; sleep 2; done"]
  }

  datatype Naming = Naming(lower: Lower, hash: Hash)

  function NeededVolume(naming: Naming, m: ResolvedMount): Volume {
    if m.cache.csi then
      Volume(
        m.volumeName,
        Csi(CSI_DRIVER, Some(true), map[CSI_NAMESPACE := m.cache.key.namespace, CSI_NAME := m.cache.key.name]))
    else
      Volume(m.volumeName,
             Claim(if m.cache.pvcName == "" then PvcNameForModelCache(naming.lower, naming.hash, m.cache.key.name)
                   else m.cache.pvcName, true))
  }

  function NeededMount(m: ResolvedMount): VolumeMount { VolumeMount(m.volumeName, m.mountPath, true, "") }

  function NeededWait(m: ResolvedMount): Container {
    Container(WaitName(m.volumeName), WAIT_IMAGE, WaitCommand(m), [NeededMount(m)], "")
  }

  function NeededVolumes(naming: Naming, ms: seq<ResolvedMount>): (r: seq<Volume>)
    ensures |r| == |ms| && forall i :: 0 <= i < |ms| ==> r[i] == NeededVolume(naming, ms[i])
  {
    seq(|ms|, i requires 0 <= i < |ms| => NeededVolume(naming, ms[i]))
  }

  function NeededMounts(ms: seq<ResolvedMount>): (r: seq<VolumeMount>)
    ensures |r| == |ms| && forall i :: 0 <= i < |ms| ==> r[i] == NeededMount(ms[i])
  {
    seq(|ms|, i requires 0 <= i < |ms| => NeededMount(ms[i]))
  }

  /** One wait container per PVC-mode mount. */
  function NeededWaits(ms: seq<ResolvedMount>): seq<Container> {
    if ms == [] then []
    else
      var m := ms[|ms| - 1];
      NeededWaits(ms[..|ms| - 1]) + if m.cache.csi then [] else [NeededWait(m)]
  }

  lemma {:induction false} WaitsMeans(ms: seq<ResolvedMount>)
    ensures forall c :: c in NeededWaits(ms) <==> exists m :: m in ms && !m.cache.csi && c == NeededWait(m)
  {
    if ms != [] {
      var n := |ms| - 1;
      WaitsMeans(ms[..n]);
      assert forall m :: m in ms <==> m in ms[..n] || m == ms[n];
    }
  }

  // ------------------------------------------------------------- the mutation

  /** The container to mount into: the one named, or the first. */
  function TargetOf(p: PodValue): (r: Result<nat, Refusal>)
    ensures r.Ok? ==> r.value < |p.containers|
  {
    match p.target
    case None => if p.containers == [] then Err(NoContainers) else Ok(0)
    case Some(t) =>
      if TrimSpace(t) == "" then Err(TargetEmpty)
      else match IndexNamed(p.containers, TrimSpace(t))
           case None => Err(TargetNotFound)
           case Some(i) => Ok(i)
  }

  function IndexNamed(cs: seq<Container>, name: string): (r: Option<nat>)
    ensures r.Some? ==> r.value < |cs|
  {
    if cs == [] then None
    else if cs[0].name == name then Some(0)
    else match IndexNamed(cs[1..], name)
         case None => None
         case Some(i) => Some(i + 1)
  }

  /** It is the position of the first container of that name, if there is one. */
  lemma {:induction false} IndexNamedExactly(cs: seq<Container>, name: string)
    ensures
      match IndexNamed(cs, name)
      case Some(i) => cs[i].name == name && forall j :: 0 <= j < i ==> cs[j].name != name
      case None => forall j :: 0 <= j < |cs| ==> cs[j].name != name
  {
    if cs != [] && cs[0].name != name {
      IndexNamedExactly(cs[1..], name);
      assert forall j :: 0 < j < |cs| ==> cs[j] == cs[1..][j - 1];
    }
  }

  datatype Verdict = Skipped | Refused(why: Refusal) | Patched(pod: PodValue)

  function Mutate(naming: Naming, store: CacheStore, p: PodValue): Verdict {
    match ResolveModelMounts(store, p.namespace, p.mounts)
    case Err(why) => Refused(why)
    case Ok(ms) =>
      if ms == [] then Skipped
      else if p.containers == [] then Refused(NoContainers)
      else Edited(naming, p, ms)
  }

  function Edited(naming: Naming, p: PodValue, ms: seq<ResolvedMount>): Verdict
    requires p.containers != []
  {
    match EnsureAll(p.volumes, NeededVolumes(naming, ms), SameVolume, VolumeServes)
    case Err(v) => Refused(VolumeConflict(v.name))
    case Ok(volumes) =>
      match EnsureAll(p.initContainers, NeededWaits(ms), SameContainer, InitServes)
      case Err(c) => Refused(InitContainerConflict(c.name))
      case Ok(inits) =>
        match TargetOf(p)
        case Err(why) => Refused(why)
        case Ok(t) =>
          match EnsureAll(p.containers[t].mounts, NeededMounts(ms), MountConcerns, MountServes)
          case Err(m) => Refused(MountConflict(m.name, m.mountPath))
          case Ok(mounts) =>
            Patched(p.(volumes := volumes, initContainers := inits,
                       containers := p.containers[t := p.containers[t].(mounts := mounts)],
                       labels := p.labels[USES_LABEL := "true"]))
  }
}
