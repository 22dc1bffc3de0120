/** What admission makes of a Pod, said of the Pod before and after, and when it accepts one. */
module AdmittedPods {
  import opened Common
  import opened KubeIdent
  import opened Paths
  import opened Overlap
  import opened Usage
  import opened Admission
  import opened AdmissionTheorems
  import PvcProtocol
  import PvcTheorems

  // --------------------------------------------------------- the target container

  /** The first container of the name asked for, or the first of all if none is asked for. */
  predicate IsTarget(p: PodValue, t: nat) {
    && t < |p.containers|
    && match p.target
       case None => t == 0
       case Some(name) =>
         && TrimSpace(name) != "" && p.containers[t].name == TrimSpace(name)
         && forall j :: 0 <= j < t ==> p.containers[j].name != TrimSpace(name)
  }

  /** There is no such container: none at all, or none of the name asked for. */
  predicate IsMissing(p: PodValue, name: string) { forall c :: c in p.containers ==> c.name != name }

  lemma TargetExactly(p: PodValue)
    ensures forall t: nat :: IsTarget(p, t) <==> TargetOf(p) == Ok(t)
    ensures TargetOf(p) == Err(TargetEmpty) <==> p.target.Some? && TrimSpace(p.target.value) == ""
    ensures TargetOf(p) == Err(TargetNotFound)
      <==> p.target.Some? && TrimSpace(p.target.value) != "" && IsMissing(p, TrimSpace(p.target.value))
  {
    hide TrimSpace;
    if p.target.Some? {
      var name := TrimSpace(p.target.value);
      IndexNamedExactly(p.containers, name);
      if IndexNamed(p.containers, name).Some? {
        var i := IndexNamed(p.containers, name).value;
        assert p.containers[i] in p.containers;
        forall t: nat | IsTarget(p, t) ensures t == i {
          if i < t { assert false; }
        }
      }
    }
  }

  // -------------------------------------------------- a mount, in the Pod's terms

  /** The volume of the one mount, or of each of several. */
  function VolumeOf(i: nat, n: nat): string {
    if n <= 1 then "praesto-model-cache" else "praesto-model-cache-" + Decimal(i)
  }

  /** Read-only, the volume is the CSI volume of the cache, or its PVC: the one in its status, or by its name. */
  predicate Gives(naming: Naming, v: Volume, cache: CacheInfo) {
    if cache.csi then
      NamesCache(v, cache.key) && v.source.readOnly == Some(true)
    else
      && v.source.Claim? && v.source.claimReadOnly
      && (if cache.pvcName != "" then v.source.claimName == cache.pvcName
          else v.source.claimName == PvcNameForModelCache(naming.lower, naming.hash, cache.key.name))
  }

  predicate MountsAt(w: VolumeMount, volume: string, path: string) {
    w.name == volume && w.mountPath == path && w.readOnly
  }

  /** The container sees the volume at the path and loops until the marker is there. */
  predicate WaitsFor(c: Container, volume: string, path: string, cache: string) {
    && c.image == "busybox:1.36"
    && c.command == ["sh", "-c", "until [ -f " + path + "/.praesto-complete ]; do echo waiting for Praesto model cache "
                                 + cache + "; sleep 2; done"]
    && exists w :: w in c.mounts && MountsAt(w, volume, path)
  }

  predicate Served(naming: Naming, q: PodValue, t: nat, volume: string, path: string, cache: CacheInfo)
    requires t < |q.containers|
  {
    && (exists v :: v in q.volumes && v.name == volume && Gives(naming, v, cache))
    && (exists w :: w in q.containers[t].mounts && MountsAt(w, volume, path))
    && (!cache.csi ==> exists c :: c in q.initContainers && WaitsFor(c, volume, path, cache.key.name))
  }

  /** The entry of the annotation is served: with the cache it names, at its clean path, in the container `t`. */
  predicate EntryServed(naming: Naming, store: CacheStore, q: PodValue, t: nat, requests: seq<MountRequest>, i: nat)
    requires t < |q.containers| && i < |requests|
  {
    && EntryFits(store, q.namespace, requests[i])
    && Served(naming, q, t, VolumeOf(i, |requests|), CleanPaths(requests)[i],
              store[CacheKey(q.namespace, TrimSpace(requests[i].modelCache))])
  }

  predicate AllServed(naming: Naming, store: CacheStore, q: PodValue, t: nat, requests: seq<MountRequest>)
    requires t < |q.containers|
  {
    forall i :: 0 <= i < |requests| ==> EntryServed(naming, store, q, t, requests, i)
  }

  lemma VolumeServed(naming: Naming, volumes: seq<Volume>, m: ResolvedMount)
    requires Has(volumes, NeededVolume(naming, m), SameVolume, VolumeServes)
    requires m.cache.key.namespace != "" && m.cache.key.name != ""
    ensures exists v :: v in volumes && v.name == m.volumeName && Gives(naming, v, m.cache)
  {
    FirstIsMember(volumes, NeededVolume(naming, m), SameVolume);
    VolumeServesExactly(naming, First(volumes, NeededVolume(naming, m), SameVolume).value, m);
  }

  lemma MountServed(mounts: seq<VolumeMount>, m: ResolvedMount)
    requires Has(mounts, NeededMount(m), MountConcerns, MountServes)
    ensures exists w :: w in mounts && MountsAt(w, m.volumeName, m.mountPath)
  {
    FirstIsMember(mounts, NeededMount(m), MountConcerns);
    var w := First(mounts, NeededMount(m), MountConcerns).value;
    assert w in mounts && MountsAt(w, m.volumeName, m.mountPath);
  }

  lemma WaitServed(inits: seq<Container>, m: ResolvedMount)
    requires Has(inits, NeededWait(m), SameContainer, InitServes)
    ensures exists c :: c in inits && WaitsFor(c, m.volumeName, m.mountPath, m.cache.key.name)
  {
    hide WaitName;
    FirstIsMember(inits, NeededWait(m), SameContainer);
    InitServesExactly(First(inits, NeededWait(m), SameContainer).value, m);
  }

  lemma InitServesExactly(c: Container, m: ResolvedMount)
    ensures InitServes(c, NeededWait(m)) <==> WaitsFor(c, m.volumeName, m.mountPath, m.cache.key.name)
  {
    hide WaitName;
    if i :| 0 <= i < |c.mounts| && SameMount(c.mounts[i], NeededMount(m)) { assert c.mounts[i] in c.mounts; }
    if w :| w in c.mounts && MountsAt(w, m.volumeName, m.mountPath) { assert SameMount(w, NeededMount(m)); }
  }

  lemma VolumeServesExactly(naming: Naming, v: Volume, m: ResolvedMount)
    requires m.cache.key.namespace != "" && m.cache.key.name != ""
    ensures VolumeServes(v, NeededVolume(naming, m)) <==> Gives(naming, v, m.cache)
  {
    if m.cache.csi {
      var needed := NeededVolume(naming, m);
      assert Get(needed.source.attributes, CSI_NAMESPACE) == m.cache.key.namespace;
      assert Get(needed.source.attributes, CSI_NAME) == m.cache.key.name;
    }
  }

  lemma MountedIsServed(naming: Naming, store: CacheStore, q: PodValue, t: nat, requests: seq<MountRequest>, i: nat,
                        m: ResolvedMount)
    requires t < |q.containers| && i < |requests| && ResolvedAs(store, q.namespace, requests, i, m)
    requires Mounted(naming, q, t, m)
    ensures EntryServed(naming, store, q, t, requests, i)
  {
    hide TrimSpace, CleanedMountPath, Has, Gives, MountsAt, WaitsFor, Decimal;
    VolumeServed(naming, q.volumes, m);
    MountServed(q.containers[t].mounts, m);
    if !m.cache.csi { WaitServed(q.initContainers, m); }
  }

  /**
   An accepted Pod has, for each entry of its annotation, a read-only volume of the cache it names,
   mounted read-only at its clean path into the target container, and in PVC mode an init container
   that waits there for the marker; and the Pod is otherwise as it was.
   */
  lemma AdmittedPodsAreServed(naming: Naming, store: CacheStore, p: PodValue)
    ensures
      match Mutate(naming, store, p)
      case Patched(q) =>
        p.mounts.Mounts? && exists t :: IsTarget(p, t) && Framed(p, q, t)
                                        && AllServed(naming, store, q, t, p.mounts.requests)
      case _ => true
  {
    hide Mutate, ResolveModelMounts, TargetOf, ResolvedAs, Mounted, EntryServed;
    hide VolumesEdited, InitsEdited, MountsEdited;
    if Mutate(naming, store, p).Patched? {
      MutationIsFramedAndComplete(naming, store, p);
      RequestsAreResolved(naming, store, p);
      TargetExactly(p);
      var q, t, ms, requests := Mutate(naming, store, p).pod, TargetOf(p).value, MountsOf(store, p), p.mounts.requests;
      forall i | 0 <= i < |requests| ensures EntryServed(naming, store, q, t, requests, i) {
        MountedIsServed(naming, store, q, t, requests, i, ms[i]);
      }
      assert IsTarget(p, t) && Framed(p, q, t) && AllServed(naming, store, q, t, requests);
    }
  }

  /** Without a target annotation, the first container gets the mounts and all others stay as they were. */
  lemma TheFirstContainerIsTheDefault(naming: Naming, store: CacheStore, p: PodValue)
    ensures
      match Mutate(naming, store, p)
      case Patched(q) =>
        p.target.None? ==>
          && p.containers != [] && |q.containers| == |p.containers| && q.containers[1..] == p.containers[1..]
          && p.mounts.Mounts? && AllServed(naming, store, q, 0, p.mounts.requests)
      case _ => true
  {
    hide Mutate, AllServed;
    AdmittedPodsAreServed(naming, store, p);
  }

  // ------------------------------------------------------ when a Pod is accepted

  /** There is nothing that has to do with `x`, or the first such thing will do. */
  predicate Free<T(==)>(xs: seq<T>, x: T, concerns: (T, T) -> bool, accepts: (T, T) -> bool) {
    First(xs, x, concerns).Some? ==> accepts(First(xs, x, concerns).value, x)
  }

  predicate Unrelated<T>(needed: seq<T>, concerns: (T, T) -> bool) {
    forall i, j :: 0 <= i < j < |needed| ==> !concerns(needed[i], needed[j])
  }

  lemma {:induction false} FirstInBoth<T>(xs: seq<T>, ys: seq<T>, x: T, concerns: (T, T) -> bool)
    requires xs <= ys && forall j :: |xs| <= j < |ys| ==> !concerns(ys[j], x)
    ensures First(ys, x, concerns) == First(xs, x, concerns)
  {
    if xs == [] {
      NoneConcerned(ys, x, concerns);
    } else {
      FirstInBoth(xs[1..], ys[1..], x, concerns);
    }
  }

  /** Elements that have nothing to do with each other can all be ensured if and only if each of them can. */
  lemma {:induction false} EnsureAllExactly<T>(xs: seq<T>, needed: seq<T>, concerns: (T, T) -> bool,
                                               accepts: (T, T) -> bool)
    requires Reflexive(needed, concerns, accepts) && Unrelated(needed, concerns)
    ensures EnsureAll(xs, needed, concerns, accepts).Ok?
      <==> forall i :: 0 <= i < |needed| ==> Free(xs, needed[i], concerns, accepts)
    ensures
      var r := EnsureAll(xs, needed, concerns, accepts);
      r.Err? ==> exists i :: 0 <= i < |needed| && needed[i] == r.error && !Free(xs, needed[i], concerns, accepts)
  {
    if needed != [] {
      var n := |needed| - 1;
      EnsureAllExactly(xs, needed[..n], concerns, accepts);
      assert forall i :: 0 <= i < n ==> needed[..n][i] == needed[i];
      if EnsureAll(xs, needed[..n], concerns, accepts).Ok? {
        EnsureAllAdds(xs, needed[..n], concerns, accepts);
        FirstInBoth(xs, EnsureAll(xs, needed[..n], concerns, accepts).value, needed[n], concerns);
      }
    }
  }

  lemma VolumesFitExactly(naming: Naming, p: PodValue, ms: seq<ResolvedMount>)
    requires NamesDistinct(ms)
    ensures EnsureAll(p.volumes, NeededVolumes(naming, ms), SameVolume, VolumeServes).Ok?
      <==> forall i :: 0 <= i < |ms| ==> Free(p.volumes, NeededVolume(naming, ms[i]), SameVolume, VolumeServes)
    ensures
      var r := EnsureAll(p.volumes, NeededVolumes(naming, ms), SameVolume, VolumeServes);
      r.Err? ==> exists i :: 0 <= i < |ms| && r.error == NeededVolume(naming, ms[i])
                             && !Free(p.volumes, NeededVolume(naming, ms[i]), SameVolume, VolumeServes)
  {
    var needed := NeededVolumes(naming, ms);
    forall i | 0 <= i < |needed| ensures VolumeServes(needed[i], needed[i]) { VolumeServesItself(naming, ms[i]); }
    EnsureAllExactly(p.volumes, needed, SameVolume, VolumeServes);
    hide *;
    assert forall i :: 0 <= i < |ms| ==> needed[i] == NeededVolume(naming, ms[i]);
  }

  lemma WaitsFitExactly(p: PodValue, ms: seq<ResolvedMount>)
    requires NamesDistinct(ms)
    ensures EnsureAll(p.initContainers, NeededWaits(ms), SameContainer, InitServes).Ok?
      <==> forall i :: 0 <= i < |ms| ==>
             ms[i].cache.csi || Free(p.initContainers, NeededWait(ms[i]), SameContainer, InitServes)
    ensures
      var r := EnsureAll(p.initContainers, NeededWaits(ms), SameContainer, InitServes);
      r.Err? ==> exists i :: 0 <= i < |ms| && !ms[i].cache.csi && r.error == NeededWait(ms[i])
                             && !Free(p.initContainers, NeededWait(ms[i]), SameContainer, InitServes)
  {
    hide WaitName, WaitCommand;
    var needed := NeededWaits(ms);
    WaitsDistinct(ms);
    WaitsMeans(ms);
    forall i | 0 <= i < |needed| ensures InitServes(needed[i], needed[i]) {
      assert needed[i] in needed;
      var m :| m in ms && needed[i] == NeededWait(m);
      WaitServesItself(m);
    }
    EnsureAllExactly(p.initContainers, needed, SameContainer, InitServes);
    hide NeededWait, NeededWaits, InitServes, EnsureAll;
    forall i | 0 <= i < |needed|
      ensures exists k :: 0 <= k < |ms| && !ms[k].cache.csi && needed[i] == NeededWait(ms[k])
    {
      assert needed[i] in needed;
      var m :| m in ms && !m.cache.csi && needed[i] == NeededWait(m);
    }
    forall k | 0 <= k < |ms| && !ms[k].cache.csi ensures NeededWait(ms[k]) in needed { assert ms[k] in ms; }
  }

  lemma MountsFitExactly(p: PodValue, t: nat, ms: seq<ResolvedMount>)
    requires NamesDistinct(ms) && Distinct(PathsOf(ms)) && t < |p.containers|
    ensures EnsureAll(p.containers[t].mounts, NeededMounts(ms), MountConcerns, MountServes).Ok?
      <==> forall i :: 0 <= i < |ms| ==> Free(p.containers[t].mounts, NeededMount(ms[i]), MountConcerns, MountServes)
    ensures
      var r := EnsureAll(p.containers[t].mounts, NeededMounts(ms), MountConcerns, MountServes);
      r.Err? ==> exists i :: 0 <= i < |ms| && r.error == NeededMount(ms[i])
                             && !Free(p.containers[t].mounts, NeededMount(ms[i]), MountConcerns, MountServes)
  {
    var needed := NeededMounts(ms);
    forall i, j | 0 <= i < j < |ms| ensures !MountConcerns(needed[i], needed[j]) {
      assert PathsOf(ms)[i] != PathsOf(ms)[j];
    }
    EnsureAllExactly(p.containers[t].mounts, needed, MountConcerns, MountServes);
    hide *;
    assert forall i :: 0 <= i < |ms| ==> needed[i] == NeededMount(ms[i]);
  }

  // ------------------------------------------------- the same in the Pod's terms

  /** The first element concerned, if there is one, will do. */
  predicate FirstWill<T>(xs: seq<T>, concerned: T -> bool, will: T -> bool) {
    forall i :: 0 <= i < |xs| && concerned(xs[i]) && (forall j :: 0 <= j < i ==> !concerned(xs[j])) ==> will(xs[i])
  }

  lemma FreeExactly<T>(xs: seq<T>, x: T, concerns: (T, T) -> bool, accepts: (T, T) -> bool, concerned: T -> bool,
                       will: T -> bool)
    requires forall y :: y in xs ==> (concerns(y, x) <==> concerned(y)) && (accepts(y, x) <==> will(y))
    ensures Free(xs, x, concerns, accepts) <==> FirstWill(xs, concerned, will)
  {
    FirstExactly(xs, x, concerns);
  }

  /** The volume of that name, if there is one, is as needed. */
  predicate VolumeFree(naming: Naming, volumes: seq<Volume>, volume: string, cache: CacheInfo) {
    FirstWill(volumes, (v: Volume) => v.name == volume, (v: Volume) => Gives(naming, v, cache))
  }

  predicate WaitFree(inits: seq<Container>, volume: string, path: string, cache: string) {
    FirstWill(inits, (c: Container) => c.name == "praesto-wait-model-cache-" + volume,
              (c: Container) => WaitsFor(c, volume, path, cache))
  }

  /** The first mount of that name or at that path, if there is one, is as needed. */
  predicate MountFree(mounts: seq<VolumeMount>, volume: string, path: string) {
    FirstWill(mounts, (w: VolumeMount) => w.name == volume || w.mountPath == path,
              (w: VolumeMount) => MountsAt(w, volume, path))
  }

  lemma VolumeFreeExactly(naming: Naming, volumes: seq<Volume>, m: ResolvedMount)
    requires m.cache.key.namespace != "" && m.cache.key.name != ""
    ensures Free(volumes, NeededVolume(naming, m), SameVolume, VolumeServes)
      <==> VolumeFree(naming, volumes, m.volumeName, m.cache)
  {
    forall v | v in volumes ensures VolumeServes(v, NeededVolume(naming, m)) <==> Gives(naming, v, m.cache) {
      VolumeServesExactly(naming, v, m);
    }
    hide Gives, VolumeServes, Free, FirstWill;
    FreeExactly(volumes, NeededVolume(naming, m), SameVolume, VolumeServes, (v: Volume) => v.name == m.volumeName,
                (v: Volume) => Gives(naming, v, m.cache));
  }

  lemma WaitFreeExactly(inits: seq<Container>, m: ResolvedMount, i: nat, n: nat)
    requires m.volumeName == VolumeName(i, n)
    ensures Free(inits, NeededWait(m), SameContainer, InitServes)
      <==> WaitFree(inits, m.volumeName, m.mountPath, m.cache.key.name)
  {
    WaitNameKeeps(i, n);
    forall c | c in inits
      ensures InitServes(c, NeededWait(m)) <==> WaitsFor(c, m.volumeName, m.mountPath, m.cache.key.name)
    {
      InitServesExactly(c, m);
    }
    hide WaitName, VolumeName, WaitsFor, InitServes, Free, FirstWill;
    FreeExactly(inits, NeededWait(m), SameContainer, InitServes,
                (c: Container) => c.name == "praesto-wait-model-cache-" + m.volumeName,
                (c: Container) => WaitsFor(c, m.volumeName, m.mountPath, m.cache.key.name));
  }

  lemma MountFreeExactly(mounts: seq<VolumeMount>, m: ResolvedMount)
    ensures Free(mounts, NeededMount(m), MountConcerns, MountServes) <==> MountFree(mounts, m.volumeName, m.mountPath)
  {
    hide Free, FirstWill;
    FreeExactly(mounts, NeededMount(m), MountConcerns, MountServes,
                (w: VolumeMount) => w.name == m.volumeName || w.mountPath == m.mountPath,
                (w: VolumeMount) => MountsAt(w, m.volumeName, m.mountPath));
  }

  /** The annotation resolves: `Admission.ResolvesExactly` says that this is so. */
  predicate Resolves(store: CacheStore, namespace: string, requests: seq<MountRequest>) {
    && requests != [] && (forall i :: 0 <= i < |requests| ==> EntryFits(store, namespace, requests[i]))
    && Distinct(CleanPaths(requests)) && !AdjacentNested(SortStrings(CleanPaths(requests)))
  }

  /** Nothing is in the way of the volume of the entry and of its wait container. */
  predicate EntryFree(naming: Naming, store: CacheStore, p: PodValue, requests: seq<MountRequest>, i: nat)
    requires i < |requests| && EntryFits(store, p.namespace, requests[i])
  {
    var volume, cache := VolumeOf(i, |requests|), store[CacheKey(p.namespace, TrimSpace(requests[i].modelCache))];
    && VolumeFree(naming, p.volumes, volume, cache)
    && (cache.csi || WaitFree(p.initContainers, volume, CleanPaths(requests)[i], cache.key.name))
  }

  /**
   The annotation resolves, there are containers, and nothing is in the way of the volumes and the wait
   containers.
   */
  predicate Unhindered(naming: Naming, store: CacheStore, p: PodValue) {
    && p.mounts.Mounts? && p.containers != [] && Resolves(store, p.namespace, p.mounts.requests)
    && forall i :: 0 <= i < |p.mounts.requests| ==> EntryFree(naming, store, p, p.mounts.requests, i)
  }

  /** Nothing is in the way of the mounts in the container `t`. */
  predicate MountsFree(p: PodValue, t: nat, requests: seq<MountRequest>)
    requires t < |p.containers|
  {
    forall i :: 0 <= i < |requests| ==>
      MountFree(p.containers[t].mounts, VolumeOf(i, |requests|), CleanPaths(requests)[i])
  }

  lemma EntryFreeExactly(naming: Naming, store: CacheStore, p: PodValue, requests: seq<MountRequest>, i: nat,
                         m: ResolvedMount)
    requires i < |requests| && ResolvedAs(store, p.namespace, requests, i, m)
    ensures EntryFits(store, p.namespace, requests[i])
    ensures EntryFree(naming, store, p, requests, i)
      <==> Free(p.volumes, NeededVolume(naming, m), SameVolume, VolumeServes)
           && (m.cache.csi || Free(p.initContainers, NeededWait(m), SameContainer, InitServes))
  {
    hide Free, TrimSpace, CleanedMountPath, VolumeFree, WaitFree, Decimal;
    VolumeFreeExactly(naming, p.volumes, m);
    WaitFreeExactly(p.initContainers, m, i, |requests|);
  }

  predicate AreResolved(store: CacheStore, namespace: string, requests: seq<MountRequest>, ms: seq<ResolvedMount>) {
    && |ms| == |requests| && NamesDistinct(ms) && Distinct(PathsOf(ms))
    && forall i :: 0 <= i < |ms| ==> ResolvedAs(store, namespace, requests, i, ms[i])
  }

  lemma EntriesFreeExactly(naming: Naming, store: CacheStore, p: PodValue, requests: seq<MountRequest>,
                           ms: seq<ResolvedMount>)
    requires AreResolved(store, p.namespace, requests, ms)
    ensures forall i :: 0 <= i < |requests| ==> EntryFits(store, p.namespace, requests[i])
    ensures (forall i :: 0 <= i < |requests| ==> EntryFree(naming, store, p, requests, i))
      <==> && EnsureAll(p.volumes, NeededVolumes(naming, ms), SameVolume, VolumeServes).Ok?
           && EnsureAll(p.initContainers, NeededWaits(ms), SameContainer, InitServes).Ok?
  {
    hide ResolvedAs, EntryFits, EntryFree, EnsureAll, Free, NamesDistinct, NeededVolume, NeededWait, NeededVolumes;
    hide NeededWaits;
    VolumesFitExactly(naming, p, ms);
    WaitsFitExactly(p, ms);
    forall i | 0 <= i < |requests|
      ensures EntryFits(store, p.namespace, requests[i])
      ensures EntryFree(naming, store, p, requests, i)
        <==> Free(p.volumes, NeededVolume(naming, ms[i]), SameVolume, VolumeServes)
             && (ms[i].cache.csi || Free(p.initContainers, NeededWait(ms[i]), SameContainer, InitServes))
    {
      EntryFreeExactly(naming, store, p, requests, i, ms[i]);
    }
  }

  lemma MountsFreeExactly(store: CacheStore, p: PodValue, t: nat, requests: seq<MountRequest>, ms: seq<ResolvedMount>)
    requires AreResolved(store, p.namespace, requests, ms) && t < |p.containers|
    ensures MountsFree(p, t, requests)
      <==> EnsureAll(p.containers[t].mounts, NeededMounts(ms), MountConcerns, MountServes).Ok?
  {
    hide EnsureAll, Free, MountFree, NamesDistinct, NeededMount, NeededMounts, CleanedMountPath, TrimSpace, Decimal;
    MountsFitExactly(p, t, ms);
    forall i | 0 <= i < |requests|
      ensures MountFree(p.containers[t].mounts, VolumeOf(i, |requests|), CleanPaths(requests)[i])
        <==> Free(p.containers[t].mounts, NeededMount(ms[i]), MountConcerns, MountServes)
    {
      assert ResolvedAs(store, p.namespace, requests, i, ms[i]);
      MountFreeExactly(p.containers[t].mounts, ms[i]);
    }
  }

  lemma AllResolved(store: CacheStore, namespace: string, requests: seq<MountRequest>, ms: seq<ResolvedMount>)
    requires ResolveModelMounts(store, namespace, Mounts(requests)) == Ok(ms)
    ensures ms != [] && AreResolved(store, namespace, requests, ms)
  {
    ResolvedApart(store, namespace, requests, ms);
    hide ResolvedAs, AdjacentNested, SortStrings, NamesDistinct;
    ResolvedMeans(store, namespace, requests, |requests|);
  }

  predicate BlamesTarget(why: Refusal) { why == TargetEmpty || why == TargetNotFound }

  lemma {:induction false} EntriesBlameNoTarget(store: CacheStore, namespace: string, requests: seq<MountRequest>,
                                                n: nat)
    requires n <= |requests|
    ensures ResolveFirst(store, namespace, requests, n).Err? ==>
      !BlamesTarget(ResolveFirst(store, namespace, requests, n).error)
  {
    hide CleanedMountPath, TrimSpace, VolumeName;
    if n > 0 { EntriesBlameNoTarget(store, namespace, requests, n - 1); }
  }

  lemma ResolvingBlamesNoTarget(store: CacheStore, namespace: string, mounts: MountsAnnotation)
    ensures
      match ResolveModelMounts(store, namespace, mounts)
      case Err(why) => !BlamesTarget(why)
      case Ok(ms) => !mounts.Mounts? ==> ms == []
  {
    hide ResolveFirst, AdjacentNested, SortStrings;
    if mounts.Mounts? { EntriesBlameNoTarget(store, namespace, mounts.requests, |mounts.requests|); }
  }

  /** The edit gets past the volumes and the wait containers exactly if they fit, and then looks for its target. */
  lemma EditedExactly(naming: Naming, p: PodValue, ms: seq<ResolvedMount>)
    requires p.containers != []
    ensures
      if && EnsureAll(p.volumes, NeededVolumes(naming, ms), SameVolume, VolumeServes).Ok?
         && EnsureAll(p.initContainers, NeededWaits(ms), SameContainer, InitServes).Ok?
      then
        match TargetOf(p)
        case Err(why) => Edited(naming, p, ms) == Refused(why)
        case Ok(t) => NotForTarget(
          Edited(naming, p, ms), EnsureAll(p.containers[t].mounts, NeededMounts(ms), MountConcerns, MountServes).Ok?)
      else NotForTarget(Edited(naming, p, ms), false)
  {
    hide EnsureAll, NeededVolumes, NeededWaits, NeededMounts, TargetOf;
  }

  /** The Pod is accepted or not, and the target is not the reason. */
  predicate NotForTarget(v: Verdict, accepted: bool) {
    v != Refused(TargetEmpty) && v != Refused(TargetNotFound) && (v.Patched? <==> accepted)
  }

  lemma HinderedOrTargeted(naming: Naming, store: CacheStore, p: PodValue)
    ensures
      if Unhindered(naming, store, p) then
        match TargetOf(p)
        case Err(why) => Mutate(naming, store, p) == Refused(why)
        case Ok(t) => NotForTarget(Mutate(naming, store, p), MountsFree(p, t, p.mounts.requests))
      else NotForTarget(Mutate(naming, store, p), false)
  {
    hide ResolveModelMounts, Resolves, EntryFree, MountsFree, EnsureAll, NeededVolumes, NeededWaits, NeededMounts;
    hide TargetOf, Edited, AreResolved;
    ResolvingBlamesNoTarget(store, p.namespace, p.mounts);
    if p.mounts.Mounts? {
      ResolvesOrNot(store, p.namespace, p.mounts.requests);
      if ResolveModelMounts(store, p.namespace, p.mounts).Ok? && p.containers != [] {
        var requests, ms := p.mounts.requests, MountsOf(store, p);
        AllResolved(store, p.namespace, requests, ms);
        EntriesFreeExactly(naming, store, p, requests, ms);
        if TargetOf(p).Ok? { MountsFreeExactly(store, p, TargetOf(p).value, requests, ms); }
        EditedExactly(naming, p, ms);
      }
    }
  }

  lemma ResolvesOrNot(store: CacheStore, namespace: string, requests: seq<MountRequest>)
    ensures ResolveModelMounts(store, namespace, Mounts(requests)).Ok? <==> Resolves(store, namespace, requests)
    ensures ResolveModelMounts(store, namespace, Mounts(requests)).Ok? ==>
      ResolveModelMounts(store, namespace, Mounts(requests)).value != []
  {
    hide ResolveFirst, EntryFits, CleanPaths, AdjacentNested, SortStrings;
    ResolvesExactly(store, namespace, requests);
    if ResolveModelMounts(store, namespace, Mounts(requests)).Ok? {
      AllResolved(store, namespace, requests, ResolveModelMounts(store, namespace, Mounts(requests)).value);
    }
  }

  /**
   A Pod is accepted if and only if its annotation resolves, it has the target container, and nothing it
   has already is in the way of what it needs.
   */
  lemma AcceptedExactly(naming: Naming, store: CacheStore, p: PodValue)
    ensures Mutate(naming, store, p).Patched?
      <==> Unhindered(naming, store, p) && exists t :: IsTarget(p, t) && MountsFree(p, t, p.mounts.requests)
  {
    hide Mutate, Resolves, EntryFree, MountsFree, TargetOf;
    HinderedOrTargeted(naming, store, p);
    TargetExactly(p);
  }

  /** And where nothing else is in the way, it is refused for its target if and only if there is no such container. */
  lemma TargetRefusedExactly(naming: Naming, store: CacheStore, p: PodValue)
    ensures Mutate(naming, store, p) == Refused(TargetEmpty)
      <==> Unhindered(naming, store, p) && p.target.Some? && TrimSpace(p.target.value) == ""
    ensures Mutate(naming, store, p) == Refused(TargetNotFound)
      <==> Unhindered(naming, store, p) && p.target.Some? && TrimSpace(p.target.value) != ""
           && IsMissing(p, TrimSpace(p.target.value))
  {
    hide Mutate, Unhindered, TargetOf;
    HinderedOrTargeted(naming, store, p);
    TargetExactly(p);
  }

  /** Only a Pod without the annotation passes unchanged. */
  lemma SkippedExactly(naming: Naming, store: CacheStore, p: PodValue)
    ensures Mutate(naming, store, p).Skipped? <==> p.mounts.Absent?
  {
    hide ResolveFirst, Edited, AdjacentNested, SortStrings;
    EditedIsNotSkipped(naming, p);
    if p.mounts.Mounts? { ResolvesOrNot(store, p.namespace, p.mounts.requests); }
  }

  lemma EditedIsNotSkipped(naming: Naming, p: PodValue)
    ensures p.containers != [] ==> forall ms :: !Edited(naming, p, ms).Skipped?
  {
    hide EnsureAll, NeededVolumes, NeededWaits, NeededMounts, TargetOf;
  }

  // ------------------------------------------------------- when a Pod is refused

  /** Some entry names the cache. */
  predicate Asks(requests: seq<MountRequest>, name: string) {
    name != "" && exists r :: r in requests && TrimSpace(r.modelCache) == name
  }

  /** What is wrong with the annotation. */
  predicate BadAnnotation(store: CacheStore, namespace: string, mounts: MountsAnnotation, why: Refusal) {
    match mounts
    case Absent => false
    case Blank => why == AnnotationBlank
    case Malformed => why == AnnotationMalformed
    case Mounts(requests) =>
      match why
      case NoMounts => requests == []
      case EmptyModelCache(i) => i < |requests| && TrimSpace(requests[i].modelCache) == ""
      case InvalidMountPath(i, e) => i < |requests| && CleanedMountPath(TrimSpace(requests[i].mountPath)) == Err(e)
      case DuplicateMountPath(path) =>
        exists i, j :: 0 <= i < j < |requests| && CleanPaths(requests)[i] == CleanPaths(requests)[j] == path
      case CacheNotFound(name) => Asks(requests, name) && CacheKey(namespace, name) !in store
      case CacheFailed(name) =>
        var c := CacheKey(namespace, name);
        Asks(requests, name) && c in store && store[c].csi && store[c].phase == Failed
      case CacheNotReady(name) =>
        var c := CacheKey(namespace, name);
        && Asks(requests, name) && c in store && !store[c].csi
        && store[c].phase != Ready && store[c].phase != Evicted
      case OverlappingMountPaths => AdjacentNested(SortStrings(CleanPaths(requests)))
      case _ => false
  }

  /** The Pod has something else of the name of the volume. */
  predicate VolumeInTheWay(naming: Naming, store: CacheStore, p: PodValue, requests: seq<MountRequest>, name: string)
    requires Resolves(store, p.namespace, requests)
  {
    exists i :: 0 <= i < |requests| && name == VolumeOf(i, |requests|)
                && !VolumeFree(naming, p.volumes, name, CacheOf(store, p.namespace, requests, i))
  }

  predicate WaitInTheWay(store: CacheStore, p: PodValue, requests: seq<MountRequest>, name: string)
    requires Resolves(store, p.namespace, requests)
  {
    exists i :: 0 <= i < |requests| && name == "praesto-wait-model-cache-" + VolumeOf(i, |requests|)
                && !CacheOf(store, p.namespace, requests, i).csi
                && !WaitFree(p.initContainers, VolumeOf(i, |requests|), CleanPaths(requests)[i],
                             CacheOf(store, p.namespace, requests, i).key.name)
  }

  predicate MountInTheWay(p: PodValue, t: nat, requests: seq<MountRequest>, name: string, path: string)
    requires t < |p.containers|
  {
    exists i :: 0 <= i < |requests| && name == VolumeOf(i, |requests|) && path == CleanPaths(requests)[i]
                && !MountFree(p.containers[t].mounts, name, path)
  }

  /** What is wrong with the Pod, its annotation resolving. */
  ghost predicate BadPod(naming: Naming, store: CacheStore, p: PodValue, requests: seq<MountRequest>, why: Refusal)
    requires Resolves(store, p.namespace, requests)
  {
    match why
    case NoContainers => p.containers == []
    case VolumeConflict(name) => VolumeInTheWay(naming, store, p, requests, name)
    case InitContainerConflict(name) => WaitInTheWay(store, p, requests, name)
    case TargetEmpty => p.target.Some? && TrimSpace(p.target.value) == ""
    case TargetNotFound => p.target.Some? && IsMissing(p, TrimSpace(p.target.value))
    case MountConflict(name, path) => exists t :: IsTarget(p, t) && MountInTheWay(p, t, requests, name, path)
    case _ => false
  }

  function CacheOf(store: CacheStore, namespace: string, requests: seq<MountRequest>, i: nat): CacheInfo
    requires i < |requests| && EntryFits(store, namespace, requests[i])
  {
    store[CacheKey(namespace, TrimSpace(requests[i].modelCache))]
  }

  lemma OneRefused(store: CacheStore, namespace: string, requests: seq<MountRequest>, i: nat,
                   before: seq<ResolvedMount>)
    requires i < |requests| && PathsOf(before) == CleanPaths(requests)[..i]
    ensures ResolveOne(store, namespace, requests, i, before).Err? ==>
      BadAnnotation(store, namespace, Mounts(requests), ResolveOne(store, namespace, requests, i, before).error)
  {
    hide CleanedMountPath, TrimSpace, VolumeName, AdjacentNested, SortStrings;
    var r := ResolveOne(store, namespace, requests, i, before);
    if r.Err? {
      assert requests[i] in requests;
      if r.error.DuplicateMountPath? {
        var j :| 0 <= j < i && CleanPaths(requests)[..i][j] == r.error.path;
        assert CleanPaths(requests)[j] == CleanPaths(requests)[i] == r.error.path;
      }
    }
  }

  lemma {:induction false} SomeRefused(store: CacheStore, namespace: string, requests: seq<MountRequest>, n: nat)
    requires n <= |requests| && ResolveFirst(store, namespace, requests, n).Err?
    ensures BadAnnotation(store, namespace, Mounts(requests), ResolveFirst(store, namespace, requests, n).error)
  {
    hide BadAnnotation, ResolveOne, CleanPaths;
    if ResolveFirst(store, namespace, requests, n - 1).Err? {
      SomeRefused(store, namespace, requests, n - 1);
    } else {
      FirstResolveExactly(store, namespace, requests, n - 1);
      OneRefused(store, namespace, requests, n - 1, ResolveFirst(store, namespace, requests, n - 1).value);
    }
  }

  lemma AnnotationRefused(store: CacheStore, namespace: string, mounts: MountsAnnotation)
    ensures
      match ResolveModelMounts(store, namespace, mounts)
      case Err(why) => BadAnnotation(store, namespace, mounts, why)
      case Ok(ms) =>
        if mounts.Mounts? then Resolves(store, namespace, mounts.requests) && ms != [] else mounts.Absent? && ms == []
  {
    hide ResolveFirst, CleanPaths, EntryFits, AdjacentNested, SortStrings;
    if mounts.Mounts? {
      var requests := mounts.requests;
      ResolvesOrNot(store, namespace, requests);
      if requests != [] {
        if ResolveFirst(store, namespace, requests, |requests|).Err? {
          SomeRefused(store, namespace, requests, |requests|);
        } else {
          FirstResolveExactly(store, namespace, requests, |requests|);
          assert CleanPaths(requests)[..|requests|] == CleanPaths(requests);
        }
      }
    }
  }

  lemma EntryResolved(store: CacheStore, namespace: string, requests: seq<MountRequest>, i: nat, m: ResolvedMount)
    requires i < |requests| && ResolvedAs(store, namespace, requests, i, m)
    ensures EntryFits(store, namespace, requests[i]) && m.cache == CacheOf(store, namespace, requests, i)
    ensures m.volumeName == VolumeOf(i, |requests|) && m.mountPath == CleanPaths(requests)[i]
    ensures m.cache.key.namespace != "" && m.cache.key.name != ""
  {
    hide CleanedMountPath, TrimSpace;
  }

  lemma VolumeRefused(naming: Naming, store: CacheStore, p: PodValue, requests: seq<MountRequest>,
                      ms: seq<ResolvedMount>, v: Volume)
    requires Resolves(store, p.namespace, requests) && AreResolved(store, p.namespace, requests, ms)
    requires EnsureAll(p.volumes, NeededVolumes(naming, ms), SameVolume, VolumeServes) == Err(v)
    ensures VolumeInTheWay(naming, store, p, requests, v.name)
  {
    hide EnsureAll, Free, ResolvedAs, VolumeServes, EntryFits, VolumeFree, VolumeOf, CleanPaths, NeededVolumes;
    hide NamesDistinct, Distinct, PathsOf, AdjacentNested, SortStrings;
    VolumesFitExactly(naming, p, ms);
    var i :| 0 <= i < |ms| && v == NeededVolume(naming, ms[i])
             && !Free(p.volumes, NeededVolume(naming, ms[i]), SameVolume, VolumeServes);
    EntryResolved(store, p.namespace, requests, i, ms[i]);
    VolumeFreeExactly(naming, p.volumes, ms[i]);
  }

  lemma WaitRefused(store: CacheStore, p: PodValue, requests: seq<MountRequest>, ms: seq<ResolvedMount>, c: Container)
    requires Resolves(store, p.namespace, requests) && AreResolved(store, p.namespace, requests, ms)
    requires EnsureAll(p.initContainers, NeededWaits(ms), SameContainer, InitServes) == Err(c)
    ensures WaitInTheWay(store, p, requests, c.name)
  {
    hide EnsureAll, Free, ResolvedAs, InitServes, EntryFits, WaitFree, VolumeOf, CleanPaths, WaitCommand, NeededWaits;
    hide WaitName, VolumeName, NamesDistinct, Distinct, PathsOf, AdjacentNested, SortStrings;
    WaitsFitExactly(p, ms);
    var i :| 0 <= i < |ms| && !ms[i].cache.csi && c == NeededWait(ms[i])
             && !Free(p.initContainers, NeededWait(ms[i]), SameContainer, InitServes);
    WaitNameOf(i, |requests|);
    EntryResolved(store, p.namespace, requests, i, ms[i]);
    WaitFreeExactly(p.initContainers, ms[i], i, |requests|);
  }

  lemma WaitNameOf(i: nat, n: nat)
    ensures VolumeName(i, n) == VolumeOf(i, n)
      && WaitName(VolumeOf(i, n)) == "praesto-wait-model-cache-" + VolumeOf(i, n)
  {
    WaitNameKeeps(i, n);
  }

  lemma MountRefused(store: CacheStore, p: PodValue, t: nat, requests: seq<MountRequest>, ms: seq<ResolvedMount>,
                     w: VolumeMount)
    requires AreResolved(store, p.namespace, requests, ms) && t < |p.containers|
    requires EnsureAll(p.containers[t].mounts, NeededMounts(ms), MountConcerns, MountServes) == Err(w)
    ensures MountInTheWay(p, t, requests, w.name, w.mountPath)
  {
    hide EnsureAll, Free, ResolvedAs, EntryFits, MountFree, VolumeOf, CleanPaths, NeededMounts;
    hide NamesDistinct, Distinct, PathsOf, AdjacentNested, SortStrings;
    MountsFitExactly(p, t, ms);
    var i :| 0 <= i < |ms| && w == NeededMount(ms[i])
             && !Free(p.containers[t].mounts, NeededMount(ms[i]), MountConcerns, MountServes);
    EntryResolved(store, p.namespace, requests, i, ms[i]);
    MountFreeExactly(p.containers[t].mounts, ms[i]);
  }

  /** What is wrong, with the annotation or, if that resolves, with the Pod. */
  ghost predicate IsRight(naming: Naming, store: CacheStore, p: PodValue, why: Refusal) {
    || BadAnnotation(store, p.namespace, p.mounts, why)
    || (&& p.mounts.Mounts? && Resolves(store, p.namespace, p.mounts.requests)
        && BadPod(naming, store, p, p.mounts.requests, why))
  }

  /** Every refusal is right: what it says is wrong with the annotation or with the Pod is so. */
  lemma RefusalsAreRight(naming: Naming, store: CacheStore, p: PodValue)
    ensures
      match Mutate(naming, store, p)
      case Refused(why) => IsRight(naming, store, p, why)
      case _ => true
  {
    hide ResolveModelMounts, Resolves, BadAnnotation, BadPod, Edited, AreResolved;
    AnnotationRefused(store, p.namespace, p.mounts);
    if p.mounts.Mounts? && ResolveModelMounts(store, p.namespace, p.mounts).Ok? {
      var requests, ms := p.mounts.requests, MountsOf(store, p);
      AllResolved(store, p.namespace, requests, ms);
      if p.containers == [] {
        NoContainersRefused(naming, store, p, requests);
      } else {
        EditRefused(naming, store, p, requests, ms);
      }
    }
  }

  lemma NoContainersRefused(naming: Naming, store: CacheStore, p: PodValue, requests: seq<MountRequest>)
    requires Resolves(store, p.namespace, requests) && p.containers == []
    ensures BadPod(naming, store, p, requests, NoContainers)
  {
  }

  lemma EditRefused(naming: Naming, store: CacheStore, p: PodValue, requests: seq<MountRequest>,
                    ms: seq<ResolvedMount>)
    requires Resolves(store, p.namespace, requests) && AreResolved(store, p.namespace, requests, ms)
    requires p.containers != []
    ensures Edited(naming, p, ms).Refused? ==> BadPod(naming, store, p, requests, Edited(naming, p, ms).why)
  {
    hide VolumeInTheWay, WaitInTheWay, MountInTheWay, Resolves, AreResolved, EnsureAll, NeededVolumes, NeededWaits;
    hide NeededMounts, TargetOf, IsTarget;
    var volumes := EnsureAll(p.volumes, NeededVolumes(naming, ms), SameVolume, VolumeServes);
    var inits := EnsureAll(p.initContainers, NeededWaits(ms), SameContainer, InitServes);
    if volumes.Err? {
      VolumeRefused(naming, store, p, requests, ms, volumes.error);
    } else if inits.Err? {
      WaitRefused(store, p, requests, ms, inits.error);
    } else if TargetOf(p).Err? {
      TargetRefused(naming, store, p, requests);
    } else {
      var t := TargetOf(p).value;
      TargetExactly(p);
      var mounts := EnsureAll(p.containers[t].mounts, NeededMounts(ms), MountConcerns, MountServes);
      if mounts.Err? { MountRefused(store, p, t, requests, ms, mounts.error); }
    }
  }

  lemma TargetRefused(naming: Naming, store: CacheStore, p: PodValue, requests: seq<MountRequest>)
    requires Resolves(store, p.namespace, requests) && TargetOf(p).Err?
    ensures BadPod(naming, store, p, requests, TargetOf(p).error)
  {
    hide TrimSpace, IndexNamed;
    TargetExactly(p);
  }

  // --------------------------------------------------------------- whose PVC it is

  /**
   The claim is the cache's own PVC: in whatever state of its lifecycle the webhook read the status, an
   accepted Pod mounts read-only the PVC that this lifecycle creates, fills and evicts.
   */
  lemma AdmittedClaimsAreTheirCaches(naming: Naming, store: CacheStore, p: PodValue, i: nat,
                                     states: seq<PvcProtocol.State>, events: seq<PvcProtocol.Event>, n: nat)
    requires p.mounts.Mounts? && i < |p.mounts.requests| && PvcProtocol.IsRun(states, events) && n < |states|
    requires
      var c := CacheKey(p.namespace, TrimSpace(p.mounts.requests[i].modelCache));
      && c in store && !store[c].csi && store[c].pvcName == states[n].status.pvcName
      && states[n].spec.pvcName == PvcNameForModelCache(naming.lower, naming.hash, c.name)
    ensures
      match Mutate(naming, store, p)
      case Patched(q) =>
        exists v :: v in q.volumes && v.name == VolumeOf(i, |p.mounts.requests|)
                    && v.source == Claim(states[n].spec.pvcName, true)
      case _ => true
  {
    hide Mutate, TrimSpace, PvcNameForModelCache, PvcProtocol.Initial, PvcProtocol.Next, CleanPaths, EntryFits;
    AdmittedPodsAreServed(naming, store, p);
    PvcTheorems.WhatAStatusTells(states, events, n);
    if Mutate(naming, store, p).Patched? {
      var q, requests := Mutate(naming, store, p).pod, p.mounts.requests;
      var t :| IsTarget(p, t) && Framed(p, q, t) && AllServed(naming, store, q, t, requests);
      assert EntryServed(naming, store, q, t, requests, i);
    }
  }
}
