/** The webhook's handler: it edits the Pod object in place and does what `Admission.Mutate` says. */
module PodMutators {
  import opened Common
  import opened Paths
  import opened Overlap
  import opened Usage
  import opened Admission

  /** The Pod object that admission decodes and edits. */
  class Pod {
    const namespace: string
    const nodeName: string
    const mounts: MountsAnnotation
    const target: Option<string>
    var labels: map<string, string>
    var volumes: seq<Volume>
    var initContainers: seq<Container>
    var containers: seq<Container>

    constructor (p: PodValue)
      ensures Value() == p
    {
      namespace, nodeName, mounts, target := p.namespace, p.nodeName, p.mounts, p.target;
      labels, volumes, initContainers, containers := p.labels, p.volumes, p.initContainers, p.containers;
    }

    function Value(): PodValue
      reads this
    {
      PodValue(namespace, nodeName, mounts, target, labels, volumes, initContainers, containers)
    }
  }

  /** The admission response. */
  datatype Response = Allowed | Errored(why: Refusal) | PatchResponse

  lemma {:induction false} RefusalStays(store: CacheStore, namespace: string, requests: seq<MountRequest>, n: nat,
                                        k: nat)
    requires n <= k <= |requests| && ResolveFirst(store, namespace, requests, n).Err?
    ensures ResolveFirst(store, namespace, requests, k) == ResolveFirst(store, namespace, requests, n)
  {
    if n < k {
      RefusalStays(store, namespace, requests, n, k - 1);
    }
  }

  lemma {:induction false} ConflictStays<T>(xs: seq<T>, needed: seq<T>, n: nat, concerns: (T, T) -> bool,
                                            accepts: (T, T) -> bool)
    requires n <= |needed| && EnsureAll(xs, needed[..n], concerns, accepts).Err?
    ensures EnsureAll(xs, needed, concerns, accepts) == EnsureAll(xs, needed[..n], concerns, accepts)
  {
    if n < |needed| {
      var k := |needed| - 1;
      assert needed[..k][..n] == needed[..n];
      ConflictStays(xs, needed[..k], n, concerns, accepts);
    } else {
      assert needed[..n] == needed;
    }
  }

  lemma OneMore<T>(xs: seq<T>, needed: seq<T>, n: nat, concerns: (T, T) -> bool, accepts: (T, T) -> bool)
    requires n < |needed| && EnsureAll(xs, needed[..n], concerns, accepts).Ok?
    ensures
      EnsureAll(xs, needed[..n + 1], concerns, accepts)
      == Ensure(EnsureAll(xs, needed[..n], concerns, accepts).value, needed[n], concerns, accepts)
  {
    assert needed[..n + 1][..n] == needed[..n];
  }

  class PodMutator {
    const store: CacheStore
    const naming: Naming

    constructor (store: CacheStore, naming: Naming)
      ensures this.store == store && this.naming == naming
    {
      this.store, this.naming := store, naming;
    }

    /** Resolves the annotation, entry by entry, with a map of the mount paths seen so far. */
    method ResolveMultiModelMounts(namespace: string, requests: seq<MountRequest>)
      returns (r: Result<seq<ResolvedMount>, Refusal>)
      ensures r == ResolveModelMounts(store, namespace, Mounts(requests))
    {
      hide ResolveOne;
      if requests == [] { return Err(NoMounts); }
      var ms: seq<ResolvedMount> := [];
      var seen: set<string> := {};
      for i := 0 to |requests|
        invariant ResolveFirst(store, namespace, requests, i) == Ok(ms)
        invariant forall p :: p in seen <==> p in PathsOf(ms)
      {
        var m := ResolveMount(namespace, requests, i, ms, seen);
        match m
        case Err(why) =>
          RefusalStays(store, namespace, requests, i + 1, |requests|);
          return Err(why);
        case Ok(mount) =>
          assert PathsOf(ms + [mount]) == PathsOf(ms) + [mount.mountPath];
          seen := seen + {mount.mountPath};
          ms := ms + [mount];
      }
      var overlapping := RejectOverlappingMountPaths(PathsOf(ms));
      r := if overlapping then Err(OverlappingMountPaths) else Ok(ms);
    }

    method ResolveMount(namespace: string, requests: seq<MountRequest>, i: nat, ghost before: seq<ResolvedMount>,
                        seen: set<string>)
      returns (r: Result<ResolvedMount, Refusal>)
      requires i < |requests| && forall p :: p in seen <==> p in PathsOf(before)
      ensures r == ResolveOne(store, namespace, requests, i, before)
    {
      hide CleanedMountPath, TrimSpace, VolumeName;
      var name := TrimSpace(requests[i].modelCache);
      if name == "" { return Err(EmptyModelCache(i)); }
      var path := CleanMountPath(TrimSpace(requests[i].mountPath));
      match path
      case Err(e) => return Err(InvalidMountPath(i, e));
      case Ok(mountPath) =>
        if mountPath in seen { return Err(DuplicateMountPath(mountPath)); }
        var cache := FetchInjectable(store, CacheKey(namespace, name));
        match cache
        case Err(why) => return Err(why);
        case Ok(info) => return Ok(ResolvedMount(info, mountPath, VolumeName(i, |requests|)));
    }

    /** Finds the volume of that name or appends it. */
    method EnsureModelCacheVolume(pod: Pod, needed: Volume) returns (conflict: bool)
      modifies pod`volumes
      ensures conflict <==> Ensure(old(pod.volumes), needed, SameVolume, VolumeServes).Err?
      ensures !conflict ==> Ensure(old(pod.volumes), needed, SameVolume, VolumeServes) == Ok(pod.volumes)
    {
      for i := 0 to |pod.volumes|
        invariant First(pod.volumes[i..], needed, SameVolume) == First(pod.volumes, needed, SameVolume)
      {
        if pod.volumes[i].name == needed.name {
          return !VolumeServes(pod.volumes[i], needed);
        }
      }
      pod.volumes := pod.volumes + [needed];
      return false;
    }

    method EnsureModelCacheVolumes(pod: Pod, ms: seq<ResolvedMount>) returns (conflict: Option<Refusal>)
      modifies pod`volumes
      ensures
        match EnsureAll(old(pod.volumes), NeededVolumes(naming, ms), SameVolume, VolumeServes)
        case Err(v) => conflict == Some(VolumeConflict(v.name))
        case Ok(volumes) => conflict.None? && pod.volumes == volumes
    {
      hide NeededVolume, VolumeServes, Ensure;
      ghost var needed := NeededVolumes(naming, ms);
      for i := 0 to |ms|
        invariant EnsureAll(old(pod.volumes), needed[..i], SameVolume, VolumeServes) == Ok(pod.volumes)
      {
        OneMore(old(pod.volumes), needed, i, SameVolume, VolumeServes);
        var failed := EnsureModelCacheVolume(pod, NeededVolume(naming, ms[i]));
        if failed {
          FailsWith(old(pod.volumes), needed, i, SameVolume, VolumeServes);
          return Some(VolumeConflict(NeededVolume(naming, ms[i]).name));
        }
      }
      assert needed[..|ms|] == needed;
      return None;
    }

    /** Finds the init container of that name or appends it. */
    method EnsureWaitInitContainer(pod: Pod, m: ResolvedMount) returns (conflict: bool)
      modifies pod`initContainers
      ensures conflict <==> Ensure(old(pod.initContainers), NeededWait(m), SameContainer, InitServes).Err?
      ensures !conflict ==>
        Ensure(old(pod.initContainers), NeededWait(m), SameContainer, InitServes) == Ok(pod.initContainers)
    {
      hide WaitCommand, WaitName;
      var needed := NeededWait(m);
      for i := 0 to |pod.initContainers|
        invariant First(pod.initContainers[i..], needed, SameContainer)
          == First(pod.initContainers, needed, SameContainer)
      {
        if pod.initContainers[i].name == needed.name {
          var contains := VolumeMountsContain(pod.initContainers[i].mounts, NeededMount(m));
          var serves := pod.initContainers[i].image == WAIT_IMAGE && pod.initContainers[i].command == WaitCommand(m);
          return !(serves && contains);
        }
      }
      pod.initContainers := pod.initContainers + [needed];
      return false;
    }

    method VolumeMountsContain(mounts: seq<VolumeMount>, expected: VolumeMount) returns (found: bool)
      ensures found <==> ContainsMount(mounts, expected)
    {
      for i := 0 to |mounts|
        invariant forall j :: 0 <= j < i ==> !SameMount(mounts[j], expected)
      {
        if SameMount(mounts[i], expected) { return true; }
      }
      return false;
    }

    /** One wait container per PVC-mode mount. */
    method EnsureWaitInitContainers(pod: Pod, ms: seq<ResolvedMount>) returns (conflict: Option<Refusal>)
      modifies pod`initContainers
      ensures
        match EnsureAll(old(pod.initContainers), NeededWaits(ms), SameContainer, InitServes)
        case Err(c) => conflict == Some(InitContainerConflict(c.name))
        case Ok(inits) => conflict.None? && pod.initContainers == inits
    {
      hide NeededWait, InitServes, Ensure, EnsureAll, NeededWaits;
      assert EnsureAll(pod.initContainers, NeededWaits(ms[..0]), SameContainer, InitServes)
        == Ok(pod.initContainers) by {
        NoWaits(pod.initContainers, ms);
      }
      for i := 0 to |ms|
        invariant EnsureAll(old(pod.initContainers), NeededWaits(ms[..i]), SameContainer, InitServes)
          == Ok(pod.initContainers)
      {
        WaitsOneMore(ms, i);
        if !ms[i].cache.csi {
          ghost var waits, more := NeededWaits(ms[..i]), NeededWaits(ms[..i + 1]);
          assert more[..|waits| + 1] == more && more[|waits|] == NeededWait(ms[i]);
          OneMore(old(pod.initContainers), NeededWaits(ms[..i + 1]), |waits|, SameContainer, InitServes);
          var failed := EnsureWaitInitContainer(pod, ms[i]);
          if failed {
            WaitsArePrefix(ms, i + 1);
            assert NeededWaits(ms)[..|waits|] == more[..|waits|] && NeededWaits(ms)[|waits|] == more[|waits|];
            FailsWith(old(pod.initContainers), NeededWaits(ms), |waits|, SameContainer, InitServes);
            return Some(InitContainerConflict(NeededWait(ms[i]).name));
          }
        }
      }
      assert ms[..|ms|] == ms;
      return None;
    }

    lemma NoWaits(xs: seq<Container>, ms: seq<ResolvedMount>)
      ensures EnsureAll(xs, NeededWaits(ms[..0]), SameContainer, InitServes) == Ok(xs)
    {
    }

    lemma WaitsOneMore(ms: seq<ResolvedMount>, i: nat)
      requires i < |ms|
      ensures
        var waits, more := NeededWaits(ms[..i]), NeededWaits(ms[..i + 1]);
        && more == (if ms[i].cache.csi then waits else waits + [NeededWait(ms[i])])
        && more[..|waits|] == waits
    {
      assert ms[..i + 1][..i] == ms[..i];
    }

    lemma {:induction false} WaitsArePrefix(ms: seq<ResolvedMount>, n: nat)
      requires n <= |ms|
      ensures NeededWaits(ms[..n]) <= NeededWaits(ms)
    {
      if n < |ms| {
        assert ms[..|ms| - 1][..n] == ms[..n];
        WaitsArePrefix(ms[..|ms| - 1], n);
      } else {
        assert ms[..n] == ms;
      }
    }

    lemma FailsWith<T>(xs: seq<T>, needed: seq<T>, n: nat, concerns: (T, T) -> bool, accepts: (T, T) -> bool)
      requires n < |needed| && EnsureAll(xs, needed[..n], concerns, accepts).Ok?
      requires Ensure(EnsureAll(xs, needed[..n], concerns, accepts).value, needed[n], concerns, accepts).Err?
      ensures EnsureAll(xs, needed, concerns, accepts) == Err(needed[n])
    {
      OneMore(xs, needed, n, concerns, accepts);
      ConflictStays(xs, needed, n + 1, concerns, accepts);
    }

    /** Finds the mount of that name or path, or appends it. */
    method EnsureModelCacheVolumeMount(pod: Pod, t: nat, needed: VolumeMount) returns (conflict: bool)
      requires t < |pod.containers| && needed.readOnly
      modifies pod`containers
      ensures conflict <==> Ensure(old(pod.containers[t].mounts), needed, MountConcerns, MountServes).Err?
      ensures !conflict ==>
        && |pod.containers| == |old(pod.containers)|
        && Ensure(old(pod.containers[t].mounts), needed, MountConcerns, MountServes) == Ok(pod.containers[t].mounts)
        && pod.containers == old(pod.containers)[t := old(pod.containers[t]).(mounts := pod.containers[t].mounts)]
    {
      var mounts := pod.containers[t].mounts;
      for i := 0 to |mounts|
        invariant First(mounts[i..], needed, MountConcerns) == First(mounts, needed, MountConcerns)
      {
        if mounts[i].name == needed.name {
          return !(mounts[i].mountPath == needed.mountPath && mounts[i].readOnly);
        }
        if mounts[i].mountPath == needed.mountPath { return true; }
      }
      pod.containers := pod.containers[t := pod.containers[t].(mounts := mounts + [needed])];
      return false;
    }

    method EnsureModelCacheVolumeMounts(pod: Pod, t: nat, ms: seq<ResolvedMount>) returns (conflict: Option<Refusal>)
      requires t < |pod.containers|
      modifies pod`containers
      ensures
        match EnsureAll(old(pod.containers[t].mounts), NeededMounts(ms), MountConcerns, MountServes)
        case Err(m) => conflict == Some(MountConflict(m.name, m.mountPath))
        case Ok(mounts) =>
          conflict.None? && pod.containers == old(pod.containers)[t := old(pod.containers[t]).(mounts := mounts)]
    {
      hide Ensure;
      ghost var needed := NeededMounts(ms);
      ghost var xs := pod.containers[t].mounts;
      for i := 0 to |ms|
        invariant |pod.containers| == |old(pod.containers)|
        invariant EnsureAll(xs, needed[..i], MountConcerns, MountServes) == Ok(pod.containers[t].mounts)
        invariant pod.containers
          == old(pod.containers)[t := old(pod.containers[t]).(mounts := pod.containers[t].mounts)]
      {
        OneMore(xs, needed, i, MountConcerns, MountServes);
        var failed := EnsureModelCacheVolumeMount(pod, t, NeededMount(ms[i]));
        if failed {
          FailsWith(xs, needed, i, MountConcerns, MountServes);
          return Some(MountConflict(ms[i].volumeName, ms[i].mountPath));
        }
      }
      assert needed[..|ms|] == needed;
      return None;
    }

    method EnsureUsesModelCacheLabel(pod: Pod)
      modifies pod`labels
      ensures pod.labels == old(pod.labels)[USES_LABEL := "true"]
    {
      pod.labels := pod.labels[USES_LABEL := "true"];
    }

    /** The container named by the annotation, or the first. */
    method FindTarget(pod: Pod) returns (r: Result<nat, Refusal>)
      ensures r == TargetOf(pod.Value())
    {
      match pod.target
      case None => return if pod.containers == [] then Err(NoContainers) else Ok(0);
      case Some(name) =>
        var wanted := TrimSpace(name);
        if wanted == "" { return Err(TargetEmpty); }
        for i := 0 to |pod.containers|
          invariant IndexNamed(pod.containers, wanted) ==
            match IndexNamed(pod.containers[i..], wanted) case None => None case Some(j) => Some(j + i)
        {
          if pod.containers[i].name == wanted { return Ok(i); }
        }
        return Err(TargetNotFound);
    }

    /** Edits the Pod for its resolved mounts. */
    method Edit(pod: Pod, ms: seq<ResolvedMount>) returns (r: Response)
      requires pod.containers != []
      modifies pod
      ensures
        match Edited(naming, old(pod.Value()), ms)
        case Skipped => false
        case Refused(why) => r == Errored(why)
        case Patched(p) => r == PatchResponse && pod.Value() == p
    {
      hide EnsureAll, NeededVolumes, NeededWaits, NeededMounts, TargetOf;
      var conflict := EnsureModelCacheVolumes(pod, ms);
      if conflict.Some? { return Errored(conflict.value); }
      conflict := EnsureWaitInitContainers(pod, ms);
      if conflict.Some? { return Errored(conflict.value); }
      var t := FindTarget(pod);
      SameTarget(old(pod.Value()), pod.Value());
      if t.Err? { return Errored(t.error); }
      conflict := EnsureModelCacheVolumeMounts(pod, t.value, ms);
      if conflict.Some? { return Errored(conflict.value); }
      EnsureUsesModelCacheLabel(pod);
      r := PatchResponse;
    }

    lemma SameTarget(p: PodValue, q: PodValue)
      requires p.target == q.target && p.containers == q.containers
      ensures TargetOf(p) == TargetOf(q)
    {
    }

    /** The handler of one admission request. */
    method Handle(pod: Pod) returns (r: Response)
      modifies pod
      ensures
        match Mutate(naming, store, old(pod.Value()))
        case Skipped => r == Allowed && pod.Value() == old(pod.Value())
        case Refused(why) => r == Errored(why)
        case Patched(p) => r == PatchResponse && pod.Value() == p
    {
      hide Edited;
      match pod.mounts
      case Absent => return Allowed;
      case Blank => return Errored(AnnotationBlank);
      case Malformed => return Errored(AnnotationMalformed);
      case Mounts(requests) =>
        var resolved := ResolveMultiModelMounts(pod.namespace, requests);
        match resolved
        case Err(why) => return Errored(why);
        case Ok(ms) =>
          if ms == [] { return Allowed; }
          if pod.containers == [] { return Errored(NoContainers); }
          r := Edit(pod, ms);
    }
  }
}
