/** What admission promises about the Pods it lets through. */
module AdmissionTheorems {
  import opened Common
  import opened Paths
  import opened Overlap
  import opened Usage
  import opened Admission
  import LocalProtocol
  import LocalTheorems
  import PvcProtocol
  import PvcTheorems

  /** The mounts that an admitted Pod requests. */
  function MountsOf(store: CacheStore, p: PodValue): seq<ResolvedMount>
    requires ResolveModelMounts(store, p.namespace, p.mounts).Ok?
  {
    ResolveModelMounts(store, p.namespace, p.mounts).value
  }

  /** Nothing that was there is changed: lists only grow at the end, and only where they should. */
  predicate Framed(p: PodValue, q: PodValue, t: nat)
    requires t < |p.containers|
  {
    && q == p.(volumes := q.volumes, initContainers := q.initContainers, containers := q.containers,
               labels := p.labels[USES_LABEL := "true"])
    && p.volumes <= q.volumes && p.initContainers <= q.initContainers
    && |q.containers| == |p.containers|
    && (forall i :: 0 <= i < |p.containers| && i != t ==> q.containers[i] == p.containers[i])
    && q.containers[t] == p.containers[t].(mounts := q.containers[t].mounts)
    && p.containers[t].mounts <= q.containers[t].mounts
  }

  /**
   A mount has its read-only volume and its read-only mount at the clean path, and, in PVC mode, its
   wait container.
   */
  predicate Mounted(naming: Naming, q: PodValue, t: nat, m: ResolvedMount)
    requires t < |q.containers|
  {
    && Has(q.volumes, NeededVolume(naming, m), SameVolume, VolumeServes)
    && Has(q.containers[t].mounts, NeededMount(m), MountConcerns, MountServes)
    && (!m.cache.csi ==> Has(q.initContainers, NeededWait(m), SameContainer, InitServes))
  }

  /** The new volumes: the old ones, then needed ones, and every mount served. */
  predicate VolumesEdited(naming: Naming, ms: seq<ResolvedMount>, old': seq<Volume>, new': seq<Volume>) {
    && old' <= new' && (forall j :: |old'| <= j < |new'| ==> new'[j] in NeededVolumes(naming, ms))
    && (forall i :: 0 <= i < |ms| ==> Has(new', NeededVolume(naming, ms[i]), SameVolume, VolumeServes))
  }

  predicate InitsEdited(ms: seq<ResolvedMount>, old': seq<Container>, new': seq<Container>) {
    && old' <= new' && (forall j :: |old'| <= j < |new'| ==> new'[j] in NeededWaits(ms))
    && (forall i :: 0 <= i < |ms| && !ms[i].cache.csi ==> Has(new', NeededWait(ms[i]), SameContainer, InitServes))
  }

  predicate MountsEdited(ms: seq<ResolvedMount>, old': seq<VolumeMount>, new': seq<VolumeMount>) {
    && old' <= new' && (forall j :: |old'| <= j < |new'| ==> new'[j] in NeededMounts(ms))
    && (forall i :: 0 <= i < |ms| ==> Has(new', NeededMount(ms[i]), MountConcerns, MountServes))
  }

  lemma VolumesAdded(naming: Naming, ms: seq<ResolvedMount>, xs: seq<Volume>, ys: seq<Volume>)
    requires EnsureAll(xs, NeededVolumes(naming, ms), SameVolume, VolumeServes) == Ok(ys)
    ensures VolumesEdited(naming, ms, xs, ys)
    ensures EnsureAll(ys, NeededVolumes(naming, ms), SameVolume, VolumeServes) == Ok(ys)
  {
    var needed := NeededVolumes(naming, ms);
    forall i | 0 <= i < |needed| ensures VolumeServes(needed[i], needed[i]) { VolumeServesItself(naming, ms[i]); }
    hide NeededVolume, VolumeServes, EnsureAll;
    EnsureAllAdds(xs, needed, SameVolume, VolumeServes);
    EnsureAllKeeps(ys, needed, SameVolume, VolumeServes);
    forall i | 0 <= i < |ms| ensures Has(ys, NeededVolume(naming, ms[i]), SameVolume, VolumeServes) {
      assert Has(ys, needed[i], SameVolume, VolumeServes);
    }
  }

  lemma VolumeServesItself(naming: Naming, m: ResolvedMount)
    ensures VolumeServes(NeededVolume(naming, m), NeededVolume(naming, m))
  {
  }

  lemma InitsAdded(ms: seq<ResolvedMount>, xs: seq<Container>, ys: seq<Container>)
    requires EnsureAll(xs, NeededWaits(ms), SameContainer, InitServes) == Ok(ys)
    ensures InitsEdited(ms, xs, ys)
    ensures EnsureAll(ys, NeededWaits(ms), SameContainer, InitServes) == Ok(ys)
  {
    var needed := NeededWaits(ms);
    WaitsMeans(ms);
    forall i | 0 <= i < |needed| ensures InitServes(needed[i], needed[i]) {
      assert needed[i] in needed;
      var m :| m in ms && needed[i] == NeededWait(m);
      WaitServesItself(m);
    }
    hide NeededWait, InitServes, EnsureAll, NeededWaits;
    EnsureAllAdds(xs, needed, SameContainer, InitServes);
    EnsureAllKeeps(ys, needed, SameContainer, InitServes);
    forall i | 0 <= i < |ms| && !ms[i].cache.csi ensures Has(ys, NeededWait(ms[i]), SameContainer, InitServes) {
      assert NeededWait(ms[i]) in needed;
      var j :| 0 <= j < |needed| && needed[j] == NeededWait(ms[i]);
      assert Has(ys, needed[j], SameContainer, InitServes);
    }
  }

  lemma WaitServesItself(m: ResolvedMount)
    ensures InitServes(NeededWait(m), NeededWait(m))
  {
    assert SameMount(NeededWait(m).mounts[0], NeededMount(m));
  }

  lemma MountsAdded(ms: seq<ResolvedMount>, xs: seq<VolumeMount>, ys: seq<VolumeMount>)
    requires EnsureAll(xs, NeededMounts(ms), MountConcerns, MountServes) == Ok(ys)
    ensures MountsEdited(ms, xs, ys)
    ensures EnsureAll(ys, NeededMounts(ms), MountConcerns, MountServes) == Ok(ys)
  {
    hide EnsureAll;
    var needed := NeededMounts(ms);
    EnsureAllAdds(xs, needed, MountConcerns, MountServes);
    EnsureAllKeeps(ys, needed, MountConcerns, MountServes);
    forall i | 0 <= i < |ms| ensures Has(ys, NeededMount(ms[i]), MountConcerns, MountServes) {
      assert Has(ys, needed[i], MountConcerns, MountServes);
    }
  }

  /** The edit of an accepted Pod, list by list. */
  predicate EditedBy(naming: Naming, p: PodValue, q: PodValue, ms: seq<ResolvedMount>, t: nat)
    requires t < |p.containers| && t < |q.containers|
  {
    && TargetOf(p) == Ok(t)
    && EnsureAll(p.volumes, NeededVolumes(naming, ms), SameVolume, VolumeServes) == Ok(q.volumes)
    && EnsureAll(p.initContainers, NeededWaits(ms), SameContainer, InitServes) == Ok(q.initContainers)
    && EnsureAll(p.containers[t].mounts, NeededMounts(ms), MountConcerns, MountServes) == Ok(q.containers[t].mounts)
    && q == p.(volumes := q.volumes, initContainers := q.initContainers,
               containers := p.containers[t := p.containers[t].(mounts := q.containers[t].mounts)],
               labels := p.labels[USES_LABEL := "true"])
  }

  lemma EditOf(naming: Naming, store: CacheStore, p: PodValue) returns (ms: seq<ResolvedMount>, q: PodValue, t: nat)
    requires Mutate(naming, store, p).Patched?
    ensures ResolveModelMounts(store, p.namespace, p.mounts) == Ok(ms) && ms != []
    ensures Mutate(naming, store, p) == Patched(q) && t < |p.containers| && t < |q.containers|
    ensures EditedBy(naming, p, q, ms, t)
  {
    hide ResolveModelMounts, EnsureAll, NeededVolumes, NeededWaits, NeededMounts, TargetOf;
    ms, q, t := MountsOf(store, p), Mutate(naming, store, p).pod, TargetOf(p).value;
  }

  /** On acceptance the Pod keeps all it had, every requested mount is in place, and nothing else is added. */
  lemma MutationIsFramedAndComplete(naming: Naming, store: CacheStore, p: PodValue)
    ensures
      match Mutate(naming, store, p)
      case Patched(q) =>
        && ResolveModelMounts(store, p.namespace, p.mounts).Ok? && TargetOf(p).Ok?
        && var t, ms := TargetOf(p).value, MountsOf(store, p);
           && Framed(p, q, t)
           && (forall i :: 0 <= i < |ms| ==> Mounted(naming, q, t, ms[i]))
           && VolumesEdited(naming, ms, p.volumes, q.volumes) && InitsEdited(ms, p.initContainers, q.initContainers)
           && MountsEdited(ms, p.containers[t].mounts, q.containers[t].mounts)
      case _ => true
  {
    hide Mutate, ResolveModelMounts, EnsureAll, NeededVolumes, NeededWaits, NeededMounts, TargetOf, Has;
    if Mutate(naming, store, p).Patched? {
      var ms, q, t := EditOf(naming, store, p);
      VolumesAdded(naming, ms, p.volumes, q.volumes);
      InitsAdded(ms, p.initContainers, q.initContainers);
      MountsAdded(ms, p.containers[t].mounts, q.containers[t].mounts);
    }
  }

  /** The target is found by name or position, which the edit leaves alone. */
  lemma {:induction false} IndexKept(cs: seq<Container>, ds: seq<Container>, name: string)
    requires |cs| == |ds| && forall i :: 0 <= i < |cs| ==> ds[i].name == cs[i].name
    ensures IndexNamed(ds, name) == IndexNamed(cs, name)
  {
    if cs != [] && cs[0].name != name {
      IndexKept(cs[1..], ds[1..], name);
    }
  }

  /** A Pod that has all it needs is edited to itself. */
  lemma EditedAgain(naming: Naming, q: PodValue, ms: seq<ResolvedMount>, t: nat)
    requires t < |q.containers| && TargetOf(q) == Ok(t) && Get(q.labels, USES_LABEL) == "true"
    requires EnsureAll(q.volumes, NeededVolumes(naming, ms), SameVolume, VolumeServes) == Ok(q.volumes)
    requires EnsureAll(q.initContainers, NeededWaits(ms), SameContainer, InitServes) == Ok(q.initContainers)
    requires EnsureAll(q.containers[t].mounts, NeededMounts(ms), MountConcerns, MountServes)
      == Ok(q.containers[t].mounts)
    ensures Edited(naming, q, ms) == Patched(q)
  {
    hide EnsureAll, NeededVolumes, NeededWaits, NeededMounts, TargetOf;
    assert q.containers[t := q.containers[t].(mounts := q.containers[t].mounts)] == q.containers;
    assert q.labels[USES_LABEL := "true"] == q.labels;
  }

  /** Feeding an accepted Pod back is accepted and changes nothing. */
  lemma MutationIsIdempotent(naming: Naming, store: CacheStore, p: PodValue)
    ensures
      match Mutate(naming, store, p)
      case Patched(q) => Mutate(naming, store, q) == Patched(q)
      case _ => true
  {
    if Mutate(naming, store, p).Patched? {
      hide Edited, ResolveModelMounts, EnsureAll, NeededVolumes, NeededWaits, NeededMounts, TargetOf, Has;
      var ms, q, t := EditOf(naming, store, p);
      AddedAll(naming, p, q, ms, t);
      EditedAgain(naming, q, ms, t);
    }
  }

  lemma AddedAll(naming: Naming, p: PodValue, q: PodValue, ms: seq<ResolvedMount>, t: nat)
    requires t < |p.containers| && t < |q.containers| && EditedBy(naming, p, q, ms, t)
    ensures TargetOf(q) == Ok(t) && Get(q.labels, USES_LABEL) == "true"
    ensures EnsureAll(q.volumes, NeededVolumes(naming, ms), SameVolume, VolumeServes) == Ok(q.volumes)
    ensures EnsureAll(q.initContainers, NeededWaits(ms), SameContainer, InitServes) == Ok(q.initContainers)
    ensures EnsureAll(q.containers[t].mounts, NeededMounts(ms), MountConcerns, MountServes)
      == Ok(q.containers[t].mounts)
  {
    hide EnsureAll, NeededVolumes, NeededWaits, NeededMounts, TargetOf, Has;
    VolumesAdded(naming, ms, p.volumes, q.volumes);
    InitsAdded(ms, p.initContainers, q.initContainers);
    MountsAdded(ms, p.containers[t].mounts, q.containers[t].mounts);
    TargetKept(p, q);
  }

  lemma TargetKept(p: PodValue, q: PodValue)
    requires q.target == p.target && |q.containers| == |p.containers|
    requires forall i :: 0 <= i < |p.containers| ==> q.containers[i].name == p.containers[i].name
    ensures TargetOf(q) == TargetOf(p)
  {
    if p.target.Some? {
      IndexKept(p.containers, q.containers, TrimSpace(p.target.value));
    }
  }

  // ---------------------------------------------------------- being accepted

  lemma {:induction false} NoneConcerned<T>(xs: seq<T>, x: T, concerns: (T, T) -> bool)
    requires forall j :: 0 <= j < |xs| ==> !concerns(xs[j], x)
    ensures First(xs, x, concerns) == None
  {
    if xs != [] {
      NoneConcerned(xs[1..], x, concerns);
    }
  }

  /** Where nothing is in the way, all that is needed is appended. */
  lemma {:induction false} EnsureAllAppends<T>(xs: seq<T>, needed: seq<T>, concerns: (T, T) -> bool,
                                               accepts: (T, T) -> bool)
    requires forall i, j :: 0 <= i < |needed| && 0 <= j < |xs| ==> !concerns(xs[j], needed[i])
    requires forall i, j :: 0 <= i < j < |needed| ==> !concerns(needed[i], needed[j])
    ensures EnsureAll(xs, needed, concerns, accepts) == Ok(xs + needed)
  {
    if needed == [] {
      assert xs + needed == xs;
    } else {
      var n := |needed| - 1;
      EnsureAllAppends(xs, needed[..n], concerns, accepts);
      NoneConcerned(xs + needed[..n], needed[n], concerns);
      assert xs + needed == xs + needed[..n] + [needed[n]];
    }
  }

  predicate NamesDistinct(ms: seq<ResolvedMount>) {
    forall i, j :: 0 <= i < j < |ms| ==>
      ms[i].volumeName != ms[j].volumeName && WaitName(ms[i].volumeName) != WaitName(ms[j].volumeName)
  }

  lemma WaitNameKeeps(i: nat, n: nat)
    ensures WaitName(VolumeName(i, n)) == WAIT_NAME_PREFIX + VolumeName(i, n)
  {
    var v := VolumeName(i, n);
    var s := WAIT_NAME_PREFIX + v;
    if n > 1 {
      var d := Decimal(i);
      assert s[|s| - 1] == d[|d| - 1] == Digit(i % 10);
      assert Digit(i % 10) != '-' by { assert Digit(i % 10) as int == '0' as int + i % 10; }
    } else {
      assert v[|v| - 1] == 'e' && s[|s| - 1] == 'e';
    }
    assert s[|s| - 1..] == [s[|s| - 1]];
  }

  lemma ResolvedNamesDistinct(store: CacheStore, namespace: string, requests: seq<MountRequest>, ms: seq<ResolvedMount>)
    requires |ms| == |requests|
    requires forall i :: 0 <= i < |ms| ==> ResolvedAs(store, namespace, requests, i, ms[i])
    ensures NamesDistinct(ms)
  {
    forall i, j | 0 <= i < j < |ms|
      ensures WaitName(ms[i].volumeName) != WaitName(ms[j].volumeName) && ms[i].volumeName != ms[j].volumeName
    {
      assert ResolvedAs(store, namespace, requests, i, ms[i]) && ResolvedAs(store, namespace, requests, j, ms[j]);
      SuffixesDiffer(i, j, |requests|);
    }
  }

  lemma SuffixesDiffer(i: nat, j: nat, n: nat)
    requires i < n && j < n && i != j
    ensures VolumeName(i, n) != VolumeName(j, n) && WaitName(VolumeName(i, n)) != WaitName(VolumeName(j, n))
  {
    VolumeNamesDistinct(i, j, n);
    WaitNameKeeps(i, n);
    WaitNameKeeps(j, n);
    var a, b := WAIT_NAME_PREFIX + VolumeName(i, n), WAIT_NAME_PREFIX + VolumeName(j, n);
    assert a[|WAIT_NAME_PREFIX|..] == VolumeName(i, n) && b[|WAIT_NAME_PREFIX|..] == VolumeName(j, n);
  }

  lemma {:induction false} WaitsDistinct(ms: seq<ResolvedMount>)
    requires NamesDistinct(ms)
    ensures forall i, j :: 0 <= i < j < |NeededWaits(ms)| ==> NeededWaits(ms)[i].name != NeededWaits(ms)[j].name
  {
    hide WaitName, WaitCommand;
    if ms != [] {
      var n := |ms| - 1;
      WaitsDistinct(ms[..n]);
      WaitsMeans(ms[..n]);
      var before := NeededWaits(ms[..n]);
      forall i | 0 <= i < |before| ensures before[i].name != WaitName(ms[n].volumeName) {
        assert before[i] in before;
        var m :| m in ms[..n] && before[i] == NeededWait(m);
        var k :| 0 <= k < n && ms[k] == m;
      }
    }
  }

  /** Nothing in the Pod bears a generated name, and nothing is mounted at a requested path. */
  predicate Clear(p: PodValue, t: nat, ms: seq<ResolvedMount>)
    requires t < |p.containers|
  {
    && (forall m, v :: m in ms && v in p.volumes ==> v.name != m.volumeName)
    && (forall m, c :: m in ms && c in p.initContainers ==> c.name != WaitName(m.volumeName))
    && (forall m, w :: m in ms && w in p.containers[t].mounts ==> w.name != m.volumeName && w.mountPath != m.mountPath)
  }

  /** A Pod whose annotation resolves and that has nothing in the way is accepted. */
  lemma ClearPodsAreAccepted(naming: Naming, store: CacheStore, p: PodValue, ms: seq<ResolvedMount>)
    requires ResolveModelMounts(store, p.namespace, p.mounts) == Ok(ms) && p.mounts.Mounts?
    requires p.containers != [] && TargetOf(p).Ok? && Clear(p, TargetOf(p).value, ms)
    ensures Mutate(naming, store, p).Patched?
  {
    ResolvedApart(store, p.namespace, p.mounts.requests, ms);
    hide Edited, ResolveModelMounts, TargetOf;
    ClearPodsAreEdited(naming, p, ms, TargetOf(p).value);
  }

  lemma ResolvedApart(store: CacheStore, namespace: string, requests: seq<MountRequest>, ms: seq<ResolvedMount>)
    requires ResolveModelMounts(store, namespace, Mounts(requests)) == Ok(ms)
    ensures ms != [] && Distinct(PathsOf(ms)) && NamesDistinct(ms)
  {
    hide ResolveFirst, ResolvedAs, AdjacentNested, SortStrings;
    ResolvedMeans(store, namespace, requests, |requests|);
    ResolvedNamesDistinct(store, namespace, requests, ms);
  }

  lemma ClearPodsAreEdited(naming: Naming, p: PodValue, ms: seq<ResolvedMount>, t: nat)
    requires t < |p.containers| && TargetOf(p) == Ok(t) && Clear(p, t, ms)
    requires NamesDistinct(ms) && Distinct(PathsOf(ms))
    ensures Edited(naming, p, ms).Patched?
  {
    hide TargetOf, NeededVolumes, NeededWaits, NeededMounts, EnsureAll, WaitName;
    VolumesFit(naming, p.volumes, ms);
    WaitsFit(p.initContainers, ms);
    MountsFit(p.containers[t].mounts, ms);
  }

  lemma VolumesFit(naming: Naming, volumes: seq<Volume>, ms: seq<ResolvedMount>)
    requires NamesDistinct(ms) && forall m, v :: m in ms && v in volumes ==> v.name != m.volumeName
    ensures EnsureAll(volumes, NeededVolumes(naming, ms), SameVolume, VolumeServes).Ok?
  {
    EnsureAllAppends(volumes, NeededVolumes(naming, ms), SameVolume, VolumeServes);
  }

  lemma WaitsFit(inits: seq<Container>, ms: seq<ResolvedMount>)
    requires NamesDistinct(ms) && forall m, c :: m in ms && c in inits ==> c.name != WaitName(m.volumeName)
    ensures EnsureAll(inits, NeededWaits(ms), SameContainer, InitServes).Ok?
  {
    hide WaitName, WaitCommand;
    var needed := NeededWaits(ms);
    WaitsDistinct(ms);
    WaitsMeans(ms);
    forall i, j | 0 <= i < |needed| && 0 <= j < |inits| ensures !SameContainer(inits[j], needed[i]) {
      assert needed[i] in needed && inits[j] in inits;
    }
    EnsureAllAppends(inits, needed, SameContainer, InitServes);
  }

  lemma MountsFit(mounts: seq<VolumeMount>, ms: seq<ResolvedMount>)
    requires NamesDistinct(ms) && Distinct(PathsOf(ms))
    requires forall m, w :: m in ms && w in mounts ==> w.name != m.volumeName && w.mountPath != m.mountPath
    ensures EnsureAll(mounts, NeededMounts(ms), MountConcerns, MountServes).Ok?
  {
    forall i, j | 0 <= i < j < |ms| ensures !MountConcerns(NeededMounts(ms)[i], NeededMounts(ms)[j]) {
      assert PathsOf(ms)[i] != PathsOf(ms)[j];
    }
    EnsureAllAppends(mounts, NeededMounts(ms), MountConcerns, MountServes);
  }

  // ------------------------------------------------------------ being counted

  /** Every requested mount of an accepted Pod names a cache of the Pod's namespace that exists and may be used. */
  lemma RequestsAreResolved(naming: Naming, store: CacheStore, p: PodValue)
    ensures Mutate(naming, store, p).Patched? ==>
      && p.mounts.Mounts? && ResolveModelMounts(store, p.namespace, p.mounts).Ok?
      && var ms := MountsOf(store, p);
         && |ms| == |p.mounts.requests| && Distinct(PathsOf(ms)) && !AdjacentNested(SortStrings(PathsOf(ms)))
         && forall i :: 0 <= i < |ms| ==> ResolvedAs(store, p.namespace, p.mounts.requests, i, ms[i])
  {
    hide Edited, ResolvedAs, AdjacentNested, SortStrings;
    if Mutate(naming, store, p).Patched? {
      ResolvedMeans(store, p.namespace, p.mounts.requests, |p.mounts.requests|);
    }
  }

  /** The controller counts every accepted Pod for each cache it requests. */
  lemma AdmittedIsCountedByController(naming: Naming, store: CacheStore, p: PodValue, i: nat)
    requires p.mounts.Mounts? && i < |p.mounts.requests|
    ensures
      match Mutate(naming, store, p)
      case Patched(q) => Requests(q, CacheKey(p.namespace, TrimSpace(p.mounts.requests[i].modelCache)))
      case _ => true
  {
    RequestsAreResolved(naming, store, p);
    hide Mutate, ResolveModelMounts, EnsureAll, NeededVolumes, NeededWaits, NeededMounts, TargetOf, Requests, TrimSpace;
    if Mutate(naming, store, p).Patched? {
      var ms, q, t := EditOf(naming, store, p);
      assert ResolvedAs(store, p.namespace, p.mounts.requests, i, ms[i]);
      CountedByController(store, p, q, i);
    }
  }

  lemma CountedByController(store: CacheStore, p: PodValue, q: PodValue, i: nat)
    requires p.mounts.Mounts? && i < |p.mounts.requests| && TrimSpace(p.mounts.requests[i].modelCache) != ""
    requires q.namespace == p.namespace && q.mounts == p.mounts && q.labels == p.labels[USES_LABEL := "true"]
    ensures Requests(q, CacheKey(p.namespace, TrimSpace(p.mounts.requests[i].modelCache)))
  {
    NamesExactly(p.mounts.requests);
    assert p.mounts.requests[i] in p.mounts.requests;
  }

  /** Once bound, the node's agent counts it for each local-mode cache it requests. */
  lemma AdmittedIsCountedByAgent(naming: Naming, store: CacheStore, p: PodValue, i: nat, node: string)
    ensures
      match Mutate(naming, store, p)
      case Patched(q) =>
        && ResolveModelMounts(store, p.namespace, p.mounts).Ok?
        && var ms := MountsOf(store, p);
           i < |ms| && ms[i].cache.csi ==> UsesOn(q.(nodeName := node), node, ms[i].cache.key)
      case _ => true
  {
    hide Mutate, ResolveModelMounts, TargetOf, Caches;
    MutationIsFramedAndComplete(naming, store, p);
    RequestsAreResolved(naming, store, p);
    if Mutate(naming, store, p).Patched? && i < |MountsOf(store, p)| && MountsOf(store, p)[i].cache.csi {
      var q, m := Mutate(naming, store, p).pod, MountsOf(store, p)[i];
      assert ResolvedAs(store, p.namespace, p.mounts.requests, i, m);
      CountedByAgent(naming, q.volumes, m);
    }
  }

  lemma CountedByAgent(naming: Naming, volumes: seq<Volume>, m: ResolvedMount)
    requires Has(volumes, NeededVolume(naming, m), SameVolume, VolumeServes) && m.cache.csi
    requires m.cache.key.namespace != "" && m.cache.key.name != ""
    ensures m.cache.key in Caches(volumes)
  {
    var needed := NeededVolume(naming, m);
    FirstIsMember(volumes, needed, SameVolume);
    var v := First(volumes, needed, SameVolume).value;
    assert Get(needed.source.attributes, CSI_NAMESPACE) == m.cache.key.namespace;
    assert Get(needed.source.attributes, CSI_NAME) == m.cache.key.name;
    assert RefOf(v) == Some(m.cache.key);
  }

  /** The volume leads the driver, for any cache root, to the directory of the cache and not to anything below. */
  predicate LeadsTo(v: Volume, root: string, c: CacheKey) {
    && v.source.Csi?
    && var namespace, name := Get(v.source.attributes, CSI_NAMESPACE), Get(v.source.attributes, CSI_NAME);
       PlaceOf(root, CsiPath(root, namespace, name)) == Within(c, [])
  }

  /** An accepted Pod has such a volume for each local-mode cache it requests. */
  lemma AdmittedVolumesLeadToTheirCaches(naming: Naming, store: CacheStore, p: PodValue, i: nat, root: string)
    requires root == "" || IsAbs(root)
    ensures
      match Mutate(naming, store, p)
      case Patched(q) =>
        && ResolveModelMounts(store, p.namespace, p.mounts).Ok?
        && (i < |MountsOf(store, p)| ==>
              var m := MountsOf(store, p)[i];
              m.cache.csi && Proper(m.cache.key.namespace) && Proper(m.cache.key.name) ==>
                exists v :: v in q.volumes && v.name == m.volumeName && LeadsTo(v, root, m.cache.key))
      case _ => true
  {
    hide Mutate, ResolveModelMounts, TargetOf, LeadsTo;
    MutationIsFramedAndComplete(naming, store, p);
    RequestsAreResolved(naming, store, p);
    if Mutate(naming, store, p).Patched? && i < |MountsOf(store, p)| {
      var q, m := Mutate(naming, store, p).pod, MountsOf(store, p)[i];
      if m.cache.csi && Proper(m.cache.key.namespace) && Proper(m.cache.key.name) {
        ServingVolumeLeads(naming, q.volumes, m, root);
      }
    }
  }

  lemma ServingVolumeLeads(naming: Naming, volumes: seq<Volume>, m: ResolvedMount, root: string)
    requires Has(volumes, NeededVolume(naming, m), SameVolume, VolumeServes) && m.cache.csi
    requires (root == "" || IsAbs(root)) && Proper(m.cache.key.namespace) && Proper(m.cache.key.name)
    ensures exists v :: v in volumes && v.name == m.volumeName && LeadsTo(v, root, m.cache.key)
  {
    hide PlaceOf, CsiPath, Proper;
    var needed := NeededVolume(naming, m);
    FirstIsMember(volumes, needed, SameVolume);
    var v := First(volumes, needed, SameVolume).value;
    assert Get(needed.source.attributes, CSI_NAMESPACE) == m.cache.key.namespace;
    assert Get(needed.source.attributes, CSI_NAME) == m.cache.key.name;
    ProperAttributes(root, m.cache.key.namespace, m.cache.key.name);
    assert LeadsTo(v, root, m.cache.key);
  }

  /**
   Admission protects from eviction. In any run, a Pod that came through admission as `q` and was
   bound to a node before an eviction counted the Pods there never loses a directory it uses.
   */
  lemma AdmissionProtects(naming: Naming, store: CacheStore, p: PodValue, q: PodValue, m: nat,
                          states: seq<LocalProtocol.State>, events: seq<LocalProtocol.Event>, i: nat,
                          k: LocalProtocol.NodeKey, id: string)
    requires LocalProtocol.IsRun(states, events) && i < |events| && events[i] == LocalProtocol.AgentSteps(k)
    requires LocalProtocol.AgentAt(states[i], k).EvictRemove?
    requires id in states[i].pods && states[i].pods[id].caches == Caches(q.volumes)
    requires states[i].pods[id].bound.Some? && states[i].pods[id].bound.value.node == k.node
    requires states[i].pods[id].bound.value.at < LocalProtocol.AgentAt(states[i], k).countedAt
    ensures Mutate(naming, store, p) == Patched(q) ==>
      && ResolveModelMounts(store, p.namespace, p.mounts).Ok?
      && (m < |MountsOf(store, p)| && MountsOf(store, p)[m].cache.csi ==> k.cache != MountsOf(store, p)[m].cache.key)
  {
    hide Mutate, ResolveModelMounts, Caches;
    AdmittedIsCountedByAgent(naming, store, p, m, k.node);
    if LocalProtocol.PodUses(states[i].pods[id], k) {
      LocalTheorems.EvictionSparesCountedPods(states, events, i, k, id);
    }
  }

  /** The Pod `id` runs on the node, with the volumes of `q`, at every moment of the stretch. */
  ghost predicate RunsOn(states: seq<LocalProtocol.State>, i: nat, j: nat, id: string, q: PodValue, node: string)
    requires i <= j < |states|
  {
    forall n :: i <= n < j ==>
      && id in states[n].pods && states[n].pods[id].caches == Caches(q.volumes)
      && states[n].pods[id].bound.Some? && states[n].pods[id].bound.value.node == node
  }

  /**
   ...and while it runs, a marker seen in a directory it uses (as the driver does before it mounts)
   is lost only to a deletion, or to an eviction that counted the Pods before this one was bound.
   */
  lemma AdmissionProtectsMounts(naming: Naming, store: CacheStore, p: PodValue, q: PodValue, m: nat,
                                states: seq<LocalProtocol.State>, events: seq<LocalProtocol.Event>, i: nat, j: nat,
                                k: LocalProtocol.NodeKey, id: string)
    requires LocalProtocol.IsRun(states, events) && i <= j < |states| && RunsOn(states, i, j, id, q, k.node)
    requires LocalTheorems.HasMarker(states[i], k) && !LocalTheorems.HasMarker(states[j], k)
    ensures Mutate(naming, store, p) == Patched(q) ==>
      && ResolveModelMounts(store, p.namespace, p.mounts).Ok?
      && (m < |MountsOf(store, p)| && MountsOf(store, p)[m].cache.csi && MountsOf(store, p)[m].cache.key == k.cache ==>
            exists n :: i <= n < j && id in states[n].pods && LocalProtocol.PodUses(states[n].pods[id], k)
              && LocalTheorems.TakesAway(states[n], events[n], k, id))
  {
    hide Mutate, ResolveModelMounts, Caches;
    AdmittedIsCountedByAgent(naming, store, p, m, k.node);
    if k.cache in Caches(q.volumes) {
      LocalTheorems.MarkerStaysForBoundPods(states, events, i, j, k, id);
    }
  }

  /**
   The same in PVC mode. In any run of the cache `c`, a Pod that came through admission as `q` and
   was created before an eviction counted the Pods does not request `c`, if the Pods of that run
   are those the controller counts: no eviction takes the PVC from a Pod that was there to be counted.
   */
  lemma AdmissionProtectsPvcs(naming: Naming, store: CacheStore, p: PodValue, q: PodValue, m: nat, c: CacheKey,
                              states: seq<PvcProtocol.State>, events: seq<PvcProtocol.Event>, i: nat,
                              id: string, created: nat)
    requires PvcProtocol.IsRun(states, events) && i < |events| && events[i] == PvcProtocol.ControllerSteps
    requires PvcTheorems.Evicting(states[i].pc) && created <= states[i].pc.countedAt
    requires Requests(q, c) ==> id in states[i].pods && states[i].pods[id] == created
    requires p.mounts.Mounts? && m < |p.mounts.requests|
    ensures Mutate(naming, store, p) == Patched(q) ==>
      c != CacheKey(p.namespace, TrimSpace(p.mounts.requests[m].modelCache))
  {
    hide Mutate, Requests, TrimSpace;
    AdmittedIsCountedByController(naming, store, p, m);
    if Requests(q, c) {
      PvcTheorems.EvictionSparesCountedPods(states, events, i, id);
    }
  }
}
