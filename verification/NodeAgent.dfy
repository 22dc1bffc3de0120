/** The node agent's reconcile, effect by effect on a shared cluster. */
module NodeAgents {
  import opened Common
  import opened LocalProtocol
  import opened LocalSafety
  import opened LocalReconciles
  import opened Clusters

  /** What the repository serves: the files it lists and the chunks each file's reader delivers. */
  datatype Repository = Repository(files: seq<Entry>, chunks: seq<seq<Bytes>>) {
    predicate Valid() { Listable(files) && |chunks| == |files| }
  }

  function Joined(chunks: seq<Bytes>): Bytes {
    if chunks == [] then [] else Joined(chunks[..|chunks| - 1]) + chunks[|chunks| - 1]
  }

  /** Joining keeps every chunk, in order: it takes one chunk to itself and goes on where it left off. */
  lemma {:induction false} JoinedConcat(c: Bytes, a: seq<Bytes>, b: seq<Bytes>)
    ensures Joined([c]) == c && Joined(a + b) == Joined(a) + Joined(b)
  {
    if b == [] {
      assert a + b == a;
    } else {
      var n := |b| - 1;
      JoinedConcat(c, a, b[..n]);
      assert (a + b)[..|a + b| - 1] == a + b[..n];
    }
  }

  /** How the reconcile of a Ready cache ended. */
  datatype UsageOutcome =
    | UsageFailed
    | InvalidTtl
    | NeverEvicted
    | RecordedUse(now: Time)
    | Waiting(now: Time, requeueAfter: nat)
    | EvictedCache(now: Time)

  /** How a reconcile ended. */
  datatype Outcome =
    | NotFound
    | OtherNode
    | NothingToRemove
    | CallFailed
    | NotRequested
    | Usage(outcome: UsageOutcome)
    | RemovedCache
    | NotPrepared
    | CacheReady(downloaded: bool)

  /** The reconcile could not do what it was to do. */
  predicate GaveUp(r: Outcome) { r == CallFailed || r == NotPrepared || r == Usage(UsageFailed) }

  /** Where a reconcile stands when its last step gives the outcome, and whether that is a step or its end. */
  predicate EndsFrom(r: Outcome, steps: bool, pc: AgentPc) {
    match r
    case Usage(u) => (
      match u
      case UsageFailed => true
      case RecordedUse(now) => steps && pc.InUse? && pc.now == now
      case EvictedCache(_) => steps && pc.EvictMark?
      case _ => !steps && pc.Unused?)
    case NotRequested => !steps && pc.Decide?
    case RemovedCache => steps && pc.DeletePatch?
    case NotPrepared => steps && pc.PrepareFailed?
    case CacheReady(_) => steps && pc.MarkReady?
    case _ => true
  }

  /** The outcomes that come without a step, or at any step by a failure. */
  predicate ComesAnywhere(r: Outcome) {
    r == NotFound || r == OtherNode || r == NothingToRemove || r == CallFailed || r == Usage(UsageFailed)
  }

  ghost predicate LeftAs(r: Outcome, run: LocalRun, k: NodeKey) {
    ComesAnywhere(r) || exists steps, pc :: LeftBy(run, k, steps, pc) && EndsFrom(r, steps, pc)
  }

  /** It left by the Ready mark, whether or not it downloaded. */
  ghost predicate LeftReady(run: LocalRun, k: NodeKey) {
    LeftAs(CacheReady(true), run, k) && LeftAs(CacheReady(false), run, k)
  }

  /** What the reconcile has seen between `i` and `j` when it ends so. */
  ghost predicate Follows(r: Outcome, states: seq<State>, i: nat, j: nat, k: NodeKey) {
    match r
    case Usage(u) => (
      match u
      case UsageFailed => true
      case RecordedUse(_) => Saw(states, i, j, k, Ready, true)
      case _ => Saw(states, i, j, k, Ready, false))
    case NotPrepared => SawNeed(states, i, j, k)
    case CacheReady(_) => SawNeed(states, i, j, k)
    case _ => true
  }

  /** Where it left from tells what a reconcile that began with `r0` has seen. */
  lemma OutcomeFollows(r: Outcome, r0: LocalRun, run: LocalRun, s0: State, s: State, k: NodeKey)
    requires RunTo(r0, s0) && RunTo(run, s) && Grew(r0, run) && AgentAt(s0, k).Idle? && LeftAs(r, run, k)
    requires !ComesAnywhere(r) ==> |r0.events| < |run.events|
    ensures Follows(r, run.states, |r0.events|, |run.events|, k)
  {
    hide Saw, SawNeed, Initial, Next;
    if !ComesAnywhere(r) {
      var steps, pc :| LeftBy(run, k, steps, pc) && EndsFrom(r, steps, pc);
      var i, j := |r0.events|, |run.events| - 1;
      assert run.states[i] == r0.states[i];
      WhatAReconcileSaw(run.states, run.events, i, j, k);
      SawLater(run.states, i, j, k);
    }
  }

  lemma SawLater(states: seq<State>, i: nat, j: nat, k: NodeKey)
    ensures forall phase, used :: Saw(states, i, j, k, phase, used) ==> Saw(states, i, j + 1, k, phase, used)
    ensures SawNeed(states, i, j, k) ==> SawNeed(states, i, j + 1, k)
  {
    hide Was;
  }

  /** Which outcomes a reconcile can have that read `read` as the object of `k`. */
  predicate Possible(read: Option<NodeObj>, here: bool, r: Outcome) {
    || r == CallFailed
    || (if read.None? then r == NotFound
        else if !here then r == OtherNode
        else if read.value.deleting then r == NothingToRemove || r == RemovedCache
        else OfPhase(read.value.status.phase, r))
  }

  /** The outcomes for a live object, by its phase. */
  predicate OfPhase(phase: Phase, r: Outcome) {
    if phase == Ready then r.Usage? || r == CallFailed
    else if phase == Evicted then r == NotRequested || Populates(r)
    else Populates(r)
  }

  predicate Populates(r: Outcome) { r == CallFailed || r == NotPrepared || r.CacheReady? }

  class Agent {
    const cluster: Cluster
    const node: NodeId

    constructor (cluster: Cluster, node: NodeId)
      ensures this.cluster == cluster && this.node == node
    {
      this.cluster, this.node := cluster, node;
    }

    ghost predicate IsReady(k: NodeKey)
      reads cluster
    {
      k in cluster.nodes && cluster.nodes[k].status.phase == Ready
    }

    ghost predicate HasRecorded(k: NodeKey, now: Time)
      reads cluster
    {
      IsReady(k) && now <= cluster.clock && cluster.nodes[k].status.lastUsed == Some(Stored(now))
    }

    /** Whether at `now` the TTL has passed since the last recorded use. */
    ghost predicate Due(k: NodeKey, now: Time, due: bool)
      reads cluster
    {
      && k in cluster.nodes && now <= cluster.clock
      && cluster.nodes[k].ttl.Ttl? && cluster.nodes[k].status.lastUsed.Some?
      && (now >= cluster.nodes[k].status.lastUsed.value + cluster.nodes[k].ttl.duration <==> due)
    }

    ghost predicate HasEvicted(k: NodeKey, now: Time)
      reads cluster
    {
      Due(k, now, true) && cluster.nodes[k].status.phase == Evicted && k !in cluster.disks
    }

    ghost predicate IsUnprepared(k: NodeKey)
      reads cluster
    {
      && k in cluster.nodes && cluster.nodes[k].status.phase in {Pending, Evicted}
      && DirectoryReady in cluster.nodes[k].status.conditions && !cluster.nodes[k].status.conditions[DirectoryReady]
    }

    ghost predicate ExplainsUsage(u: UsageOutcome, k: NodeKey)
      reads cluster
    {
      LeftAs(Usage(u), cluster.run, k) &&
      match u
      case UsageFailed => true
      case InvalidTtl => k in cluster.nodes && cluster.nodes[k].ttl == BadTtl
      case NeverEvicted => k in cluster.nodes && cluster.nodes[k].ttl == NoTtl
      case RecordedUse(now) => HasRecorded(k, now)
      case Waiting(now, after) =>
        && Due(k, now, false) && IsReady(k) && now == cluster.clock
        && now + after == cluster.nodes[k].status.lastUsed.value + cluster.nodes[k].ttl.duration
      case EvictedCache(now) => HasEvicted(k, now)
    }

    /** What each outcome says about the store, the disk and the clock at the end, and where the reconcile left from. */
    ghost predicate Explains(r: Outcome, k: NodeKey, repo: Repository)
      reads cluster
    {
      LeftAs(r, cluster.run, k) &&
      match r
      case NotFound => k !in cluster.nodes
      case OtherNode => k.node != node
      case NothingToRemove => k in cluster.nodes && cluster.nodes[k].deleting && !cluster.nodes[k].finalizer
      case CallFailed => true
      case NotRequested =>
        k in cluster.nodes && cluster.nodes[k].status.phase == Evicted && !Used(cluster.Now(), k)
      case Usage(u) => ExplainsUsage(u, k)
      case RemovedCache => k !in cluster.nodes && k !in cluster.disks
      case NotPrepared => IsUnprepared(k)
      case CacheReady(downloaded) =>
        && IsReady(k) && k in cluster.disks && MarkerFile in cluster.disks[k]
        && (downloaded ==>
              var h := HistoryOf(cluster.Now(), k);
              h.files == repo.files && DeliversAll(h.log, repo, |repo.files|))
    }

    method AddFinalizer(k: NodeKey) returns (ok: bool, obj: NodeObj)
      requires cluster.For(k) && cluster.Here(k).pc.AddFinalizer?
      modifies cluster
      ensures cluster.failed == (old(cluster.failed) || !ok)
      ensures cluster.Valid() && cluster.GoesOn(old(cluster.run), old(cluster.start))
      ensures cluster.Here(k).pc == if ok then Decide(obj) else Idle
      ensures ok ==> obj.status == FRESH_STATUS
    {
      hide Grew, RunTo, StatusesValid, Explained, LeftBy;
      Growth<State, Event>();
      cluster.Others(k);
      obj := NodeObj("", NoTtl, false, false, FRESH_STATUS);
      if k !in cluster.nodes || cluster.nodes[k].deleting {
        cluster.Fail(k);
        return false, obj;
      }
      cluster.UnclaimedKnown(k);
      obj := cluster.nodes[k].(finalizer := true);
      assert FinalizerStep(cluster.Here(k), cluster.Here(k).(node := Some(obj), pc := Decide(obj)));
      ok := cluster.PatchNode(k, Some(obj), Decide(obj));
    }

    /** Reads the clock for a use that was counted. */
    method ReadUse(k: NodeKey, obj: NodeObj) returns (now: Time)
      requires cluster.For(k) && cluster.Here(k).pc == Counted(obj)
      modifies cluster
      ensures cluster.failed == old(cluster.failed)
      ensures cluster.Valid() && cluster.GoesOn(old(cluster.run), old(cluster.start))
      ensures cluster.Here(k).pc == InUse(obj, now)
    {
      hide Grew, RunTo, StatusesValid, Explained, LeftBy, FinalizersHeld, MemoryCurrent;
      Growth<State, Event>();
      cluster.Others(k);
      now := cluster.clock;
      cluster.Note(k, InUse(obj, now));
    }

    method RecordUse(k: NodeKey, obj: NodeObj, now: Time) returns (ok: bool)
      requires cluster.For(k) && cluster.Here(k).pc == InUse(obj, now)
      modifies cluster
      ensures cluster.failed == (old(cluster.failed) || !ok)
      ensures cluster.Valid() && cluster.GoesOn(old(cluster.run), old(cluster.start))
      ensures cluster.Here(k).pc.Idle? && (ok ==> HasRecorded(k, now) && LeftBy(cluster.run, k, true, InUse(obj, now)))
    {
      hide Grew, RunTo, StatusesValid, Explained, LeftBy;
      Growth<State, Event>();
      cluster.Others(k);
      cluster.UsageKnown(k);
      assert now <= cluster.clock && obj.status.phase == Ready;
      ok := cluster.PatchStatus(k, obj.status, UsedAt(obj.status, now), Idle,
          Recorded(HistoryOf(cluster.Now(), k), now));
    }

    method ReconcileReadyCacheUsage(k: NodeKey, obj: NodeObj) returns (r: UsageOutcome)
      requires cluster.For(k) && cluster.Here(k).pc == Decide(obj) && obj.status.phase == Ready
      modifies cluster
      ensures cluster.failed == (old(cluster.failed) || r == UsageFailed)
      ensures cluster.Valid() && cluster.GoesOn(old(cluster.run), old(cluster.start))
      ensures cluster.Here(k).pc.Idle? && ExplainsUsage(r, k)
    {
      hide Grew, RunTo, StatusesValid, Explained, LeftBy;
      Growth<State, Event>();
      var ok, active, countedAt := CountReady(k, obj);
      if !ok { return UsageFailed; }
      if active == 0 {
        r := ReconcileUnusedReadyCache(k, obj, countedAt);
      } else {
        var now := ReadUse(k, obj);
        ok := RecordUse(k, obj, now);
        r := if ok then RecordedUse(now) else UsageFailed;
      }
    }

    /** Counts the Pods using a Ready cache. */
    method CountReady(k: NodeKey, obj: NodeObj) returns (ok: bool, active: nat, ghost countedAt: nat)
      requires cluster.For(k) && cluster.Here(k).pc == Decide(obj) && obj.status.phase == Ready
      modifies cluster
      ensures cluster.failed == (old(cluster.failed) || !ok)
      ensures cluster.Valid() && cluster.GoesOn(old(cluster.run), old(cluster.start))
      ensures cluster.Here(k).pc == if !ok then Idle else if active == 0 then Unused(obj, countedAt) else Counted(obj)
    {
      hide Grew, RunTo, StatusesValid, Explained, LeftBy, FinalizersHeld, MemoryCurrent;
      Growth<State, Event>();
      active, countedAt := 0, 0;
      cluster.Others(k);
      ok := cluster.Attempt(k);
      if !ok { return; }
      active := cluster.CountPods(k);
      countedAt := cluster.tick;
      cluster.Note(k, if active == 0 then Unused(obj, countedAt) else Counted(obj));
    }

    /**
     Waits out the TTL, then evicts. A Ready object always has a last use (the Ready mark
     sets it), so the source's branch for a zero lastUsedTime is never taken here.
     */
    method ReconcileUnusedReadyCache(k: NodeKey, obj: NodeObj, ghost countedAt: nat) returns (r: UsageOutcome)
      requires cluster.For(k) && cluster.Here(k).pc == Unused(obj, countedAt)
      modifies cluster
      ensures cluster.failed == (old(cluster.failed) || r == UsageFailed)
      ensures cluster.Valid() && cluster.GoesOn(old(cluster.run), old(cluster.start))
      ensures cluster.Here(k).pc.Idle? && ExplainsUsage(r, k)
    {
      hide Grew, RunTo, StatusesValid, Explained, LeftBy;
      Growth<State, Event>();
      cluster.Others(k);
      if obj.ttl.NoTtl? || obj.ttl.BadTtl? {
        cluster.Stop(k);
        return if obj.ttl.NoTtl? then NeverEvicted else InvalidTtl;
      }
      r := WaitOrEvict(k, obj, countedAt);
    }

    method WaitOrEvict(k: NodeKey, obj: NodeObj, ghost countedAt: nat) returns (r: UsageOutcome)
      requires cluster.For(k) && cluster.Here(k).pc == Unused(obj, countedAt) && obj.ttl.Ttl?
      modifies cluster
      ensures cluster.failed == (old(cluster.failed) || r == UsageFailed)
      ensures cluster.Valid() && cluster.GoesOn(old(cluster.run), old(cluster.start))
      ensures cluster.Here(k).pc.Idle? && ExplainsUsage(r, k)
    {
      hide Grew, RunTo, StatusesValid, Explained, LeftBy;
      Growth<State, Event>();
      cluster.Others(k);
      cluster.UsageKnown(k);
      assert obj.status.lastUsed.Some? && obj.status.phase == Ready;
      var now, evictAfter := cluster.clock, obj.status.lastUsed.value + obj.ttl.duration;
      if now < evictAfter {
        cluster.Stop(k);
        r := Waiting(now, evictAfter - now);
      } else {
        r := DecideToEvict(k, obj, countedAt, now);
      }
    }

    method DecideToEvict(k: NodeKey, obj: NodeObj, ghost countedAt: nat, now: Time) returns (r: UsageOutcome)
      requires cluster.For(k) && cluster.Here(k).pc == Unused(obj, countedAt) && now == cluster.clock
      requires obj.ttl.Ttl? && obj.status.lastUsed.Some? && now >= obj.status.lastUsed.value + obj.ttl.duration
      modifies cluster
      ensures cluster.failed == (old(cluster.failed) || r == UsageFailed)
      ensures cluster.Valid() && cluster.GoesOn(old(cluster.run), old(cluster.start))
      ensures cluster.Here(k).pc.Idle? && ExplainsUsage(r, k) && (r == UsageFailed || r == EvictedCache(now))
    {
      hide Grew, RunTo, StatusesValid, Explained, LeftBy;
      Growth<State, Event>();
      assert UsageStep(cluster.Here(k), cluster.Here(k).(pc := EvictRemove(obj, countedAt, now)), now);
      cluster.Note(k, EvictRemove(obj, countedAt, now));
      r := Evict(k, obj, countedAt, now);
    }

    method Evict(k: NodeKey, obj: NodeObj, ghost countedAt: nat, now: Time) returns (r: UsageOutcome)
      requires cluster.For(k) && cluster.Here(k).pc == EvictRemove(obj, countedAt, now) && now <= cluster.clock
      requires obj.ttl.Ttl? && obj.status.lastUsed.Some? && now >= obj.status.lastUsed.value + obj.ttl.duration
      modifies cluster
      ensures cluster.failed == (old(cluster.failed) || r == UsageFailed)
      ensures cluster.Valid() && cluster.GoesOn(old(cluster.run), old(cluster.start))
      ensures cluster.Here(k).pc.Idle? && ExplainsUsage(r, k) && (r == UsageFailed || r == EvictedCache(now))
    {
      hide Grew, RunTo, StatusesValid, Explained, LeftBy;
      Growth<State, Event>();
      cluster.Others(k);
      assert UsageStep(cluster.Here(k), cluster.Here(k).(dir := None, pc := EvictMark(obj)), cluster.clock);
      var ok := cluster.ChangeDisk(k, None, EvictMark(obj), HistoryOf(cluster.Now(), k));
      if !ok { return UsageFailed; }
      r := MarkEvicted(k, obj, now);
    }

    /** The status patch of an eviction is a step of the protocol, and what it leaves. */
    lemma EvictionIsMarked(v: View, used: bool, now: Time, tick: nat)
      requires v.pc.EvictMark? && v.node.Some? && v.node.value.status == v.pc.obj.status
      ensures
        var n := v.node.value.(
          status := MergePatch(v.node.value.status, v.pc.obj.status, MarkedEvicted(v.pc.obj.status)));
        && AgentStep(v, v.(node := Some(n), pc := Idle, history := v.history.(lostPatch := false)), used, now, tick)
        && n.status.phase == Evicted && n.status.lastUsed == v.pc.obj.status.lastUsed && n.ttl == v.node.value.ttl
    {
      hide StartStep, FinalizerStep, DecideStep, PrepareStep, FetchStep, CompleteStep, DeleteStep;
    }

    method MarkEvicted(k: NodeKey, obj: NodeObj, now: Time) returns (r: UsageOutcome)
      requires cluster.For(k) && cluster.Here(k).pc == EvictMark(obj) && now <= cluster.clock
      requires obj.ttl.Ttl? && obj.status.lastUsed.Some? && now >= obj.status.lastUsed.value + obj.ttl.duration
      modifies cluster
      ensures cluster.failed == (old(cluster.failed) || r == UsageFailed)
      ensures cluster.Valid() && cluster.GoesOn(old(cluster.run), old(cluster.start))
      ensures cluster.Here(k).pc.Idle? && ExplainsUsage(r, k) && (r == UsageFailed || r == EvictedCache(now))
    {
      hide Grew, RunTo, StatusesValid, Explained, LeftBy, AgentStep, MergePatch, MarkedEvicted;
      Growth<State, Event>();
      cluster.Others(k);
      cluster.UsageKnown(k);
      assert cluster.Here(k).dir.None? && obj.status.phase == Ready;
      EvictionIsMarked(cluster.Here(k), Used(cluster.Now(), k), cluster.clock, cluster.tick);
      var ok := cluster.PatchStatus(k, obj.status, MarkedEvicted(obj.status), Idle,
                                    HistoryOf(cluster.Now(), k).(lostPatch := false));
      if !ok { return UsageFailed; }
      assert cluster.Here(k).dir.None?;
      return EvictedCache(now);
    }

    // ------------------------------------------------ preparing and downloading

    /** Makes the directory and writes the owner file; a failure on the way is reported in the status. */
    method PrepareDirectory(k: NodeKey, obj: NodeObj, source: string) returns (prepared: bool)
      requires cluster.For(k) && cluster.Here(k).pc == Prepare(obj, source)
      modifies cluster
      ensures cluster.failed == (old(cluster.failed) || !prepared)
      ensures cluster.Valid() && cluster.GoesOn(old(cluster.run), old(cluster.start))
      ensures cluster.Here(k).pc == if prepared then PatchDirectory(obj, source) else PrepareFailed(obj)
    {
      hide Grew, RunTo, StatusesValid, Explained, LeftBy;
      Growth<State, Event>();
      prepared := MakeDirectory(k, obj, source);
      if prepared { prepared := OpenOwner(k, obj, source); }
      if prepared { prepared := FillOwner(k, obj, source); }
    }

    /** Checks the cache root, makes the directory and sets its mode; a failure may leave the directory made. */
    method MakeDirectory(k: NodeKey, obj: NodeObj, source: string) returns (ok: bool)
      requires cluster.For(k) && cluster.Here(k).pc == Prepare(obj, source)
      modifies cluster
      ensures cluster.failed == (old(cluster.failed) || !ok)
      ensures cluster.Valid() && cluster.GoesOn(old(cluster.run), old(cluster.start))
      ensures cluster.Here(k).pc == if ok then OwnerOpen(obj, source) else PrepareFailed(obj)
    {
      hide Grew, RunTo, StatusesValid, Explained, LeftBy, FinalizersHeld, MemoryCurrent;
      Growth<State, Event>();
      cluster.Others(k);
      var dir := if k in cluster.disks then Some(cluster.disks[k]) else None;
      var refused := cluster.Refuses();
      ok := !refused;
      if ok {
        cluster.SetDisk(k, Mkdir(dir), OwnerOpen(obj, source), HistoryOf(cluster.Now(), k));
      } else {
        var made := *;
        cluster.SetDisk(k, if made then Mkdir(dir) else dir, PrepareFailed(obj), HistoryOf(cluster.Now(), k));
      }
    }

    method OpenOwner(k: NodeKey, obj: NodeObj, source: string) returns (ok: bool)
      requires cluster.For(k) && cluster.Here(k).pc == OwnerOpen(obj, source)
      modifies cluster
      ensures cluster.failed == (old(cluster.failed) || !ok)
      ensures cluster.Valid() && cluster.GoesOn(old(cluster.run), old(cluster.start))
      ensures cluster.Here(k).pc == if ok then OwnerFill(obj, source) else PrepareFailed(obj)
    {
      hide Grew, RunTo, StatusesValid, Explained, LeftBy, FinalizersHeld, MemoryCurrent;
      Growth<State, Event>();
      cluster.Others(k);
      cluster.DiskKnown(k);
      var refused := cluster.Refuses();
      ok := !refused;
      if ok {
        cluster.SetDisk(k, Some(cluster.disks[k][OwnerFile := Partial]), OwnerFill(obj, source),
            HistoryOf(cluster.Now(), k));
      } else {
        cluster.Note(k, PrepareFailed(obj));
      }
    }

    method FillOwner(k: NodeKey, obj: NodeObj, source: string) returns (ok: bool)
      requires cluster.For(k) && cluster.Here(k).pc == OwnerFill(obj, source)
      modifies cluster
      ensures cluster.failed == (old(cluster.failed) || !ok)
      ensures cluster.Valid() && cluster.GoesOn(old(cluster.run), old(cluster.start))
      ensures cluster.Here(k).pc == if ok then PatchDirectory(obj, source) else PrepareFailed(obj)
    {
      hide Grew, RunTo, StatusesValid, Explained, LeftBy;
      Growth<State, Event>();
      cluster.Others(k);
      cluster.DiskKnown(k);
      var refused := cluster.Refuses();
      ok := !refused;
      if ok {
        cluster.SetDisk(k, Some(cluster.disks[k][OwnerFile := Owner(obj.uid)]), PatchDirectory(obj, source),
                        HistoryOf(cluster.Now(), k));
      } else {
        cluster.Note(k, PrepareFailed(obj));
      }
    }

    /** And the report that the directory could not be prepared. */
    lemma FailureIsMarked(v: View, used: bool, now: Time, tick: nat)
      requires v.pc.PrepareFailed? && v.node.Some? && v.node.value.status == v.pc.obj.status
      requires v.pc.obj.status.phase in {NoPhase, Pending, Evicted}
      ensures
        var n := v.node.value.(
          status := MergePatch(v.node.value.status, v.pc.obj.status, MarkedUnprepared(v.pc.obj.status)));
        && AgentStep(v, v.(node := Some(n), pc := Idle), used, now, tick)
        && n.status.phase in {Pending, Evicted}
        && DirectoryReady in n.status.conditions && !n.status.conditions[DirectoryReady]
    {
      hide StartStep, FinalizerStep, DecideStep, UsageStep, CompleteStep, FetchStep, DeleteStep;
    }

    method ReportUnprepared(k: NodeKey, obj: NodeObj) returns (ok: bool)
      requires cluster.For(k) && cluster.Here(k).pc == PrepareFailed(obj)
      modifies cluster
      ensures cluster.failed == (old(cluster.failed) || !ok)
      ensures cluster.Valid() && cluster.GoesOn(old(cluster.run), old(cluster.start))
      ensures cluster.Here(k).pc.Idle? && (ok ==> IsUnprepared(k) && LeftBy(cluster.run, k, true, PrepareFailed(obj)))
    {
      hide Grew, RunTo, StatusesValid, Explained, LeftBy, AgentStep, MergePatch, MarkedUnprepared;
      Growth<State, Event>();
      cluster.Others(k);
      cluster.DiskKnown(k);
      FailureIsMarked(cluster.Here(k), Used(cluster.Now(), k), cluster.clock, cluster.tick);
      ok := cluster.PatchStatus(k, obj.status, MarkedUnprepared(obj.status), Idle, HistoryOf(cluster.Now(), k));
    }

    method ReportPrepared(k: NodeKey, obj: NodeObj, source: string) returns (ok: bool, work: Work)
      requires cluster.For(k) && cluster.Here(k).pc == PatchDirectory(obj, source)
      modifies cluster
      ensures cluster.failed == (old(cluster.failed) || !ok)
      ensures cluster.Valid() && cluster.GoesOn(old(cluster.run), old(cluster.start))
      ensures cluster.Here(k).pc == if ok then CheckMarker(work) else Idle
    {
      hide Grew, RunTo, StatusesValid, Explained, LeftBy;
      Growth<State, Event>();
      cluster.Others(k);
      var n := cluster.nodes[k];
      work := Work(n.(status := MergePatch(n.status, obj.status, MarkedPrepared(obj.status))), obj, source);
      ok := cluster.PatchStatus(k, obj.status, MarkedPrepared(obj.status), CheckMarker(work),
          HistoryOf(cluster.Now(), k));
    }

    /** Copies one file, chunk by chunk, to where the listing puts it; fails if a directory would have to be there. */
    method DownloadFile(k: NodeKey, work: Work, repo: Repository, i: nat, ghost log: Log) returns (ok: bool)
      requires cluster.For(k) && repo.Valid() && i < |repo.files|
      requires cluster.Here(k).pc == Fetch(work, repo.files, log) && |log| == i
      modifies cluster
      ensures cluster.failed == (old(cluster.failed) || !ok)
      ensures cluster.Valid() && cluster.GoesOn(old(cluster.run), old(cluster.start))
      ensures cluster.Here(k).pc ==
        if ok then Fetch(work, repo.files, log + [Delivered(repo.files[i], Joined(repo.chunks[i]))]) else Idle
    {
      hide Grew, RunTo, StatusesValid, Explained, LeftBy;
      Growth<State, Event>();
      cluster.Others(k);
      cluster.DiskKnown(k);
      if Clashes(cluster.disks[k], repo.files[i]) {
        cluster.Fail(k);
        return false;
      }
      ok := cluster.WriteFile(k, repo.files[i], Data([]), Copy(work, repo.files, log, []), HistoryOf(cluster.Now(), k));
      if ok {
        ok := CopyChunks(k, work, repo, i, log);
      }
    }

    method CopyChunks(k: NodeKey, work: Work, repo: Repository, i: nat, ghost log: Log) returns (ok: bool)
      requires cluster.For(k) && repo.Valid() && i < |repo.files|
      requires cluster.Here(k).pc == Copy(work, repo.files, log, []) && |log| == i
      modifies cluster
      ensures cluster.failed == (old(cluster.failed) || !ok)
      ensures cluster.Valid() && cluster.GoesOn(old(cluster.run), old(cluster.start))
      ensures cluster.Here(k).pc ==
        if ok then Fetch(work, repo.files, log + [Delivered(repo.files[i], Joined(repo.chunks[i]))]) else Idle
    {
      hide Grew, RunTo, StatusesValid, Explained, LeftBy, Listable;
      Growth<State, Event>();
      var chunks, written := repo.chunks[i], [];
      for j := 0 to |chunks|
        invariant cluster.Valid() && cluster.GoesOn(old(cluster.run), old(cluster.start))
          && cluster.failed == old(cluster.failed)
        invariant written == Joined(chunks[..j]) && cluster.Here(k).pc == Copy(work, repo.files, log, written)
      {
        assert chunks[..j + 1][..j] == chunks[..j];
        ok := WriteChunk(k, work, repo, i, log, written, chunks[j]);
        if !ok { return; }
        written := written + chunks[j];
      }
      assert chunks[..|chunks|] == chunks;
      ok := CloseFile(k, work, repo, i, log, written);
    }

    method CloseFile(k: NodeKey, work: Work, repo: Repository, i: nat, ghost log: Log, ghost written: Bytes)
      returns (ok: bool)
      requires cluster.For(k) && i < |repo.files|
      requires cluster.Here(k).pc == Copy(work, repo.files, log, written) && |log| == i
      modifies cluster
      ensures cluster.failed == (old(cluster.failed) || !ok)
      ensures cluster.Valid() && cluster.GoesOn(old(cluster.run), old(cluster.start))
      ensures cluster.Here(k).pc ==
        if ok then Fetch(work, repo.files, log + [Delivered(repo.files[i], written)]) else Idle
    {
      hide Grew, RunTo, StatusesValid, Explained, LeftBy;
      Growth<State, Event>();
      ok := cluster.Attempt(k);
      if !ok { return; }
      cluster.Note(k, Fetch(work, repo.files, log + [Delivered(repo.files[i], written)]));
    }

    method WriteChunk(k: NodeKey, work: Work, repo: Repository, i: nat, ghost log: Log, written: Bytes, chunk: Bytes)
      returns (ok: bool)
      requires cluster.For(k) && i < |repo.files|
      requires cluster.Here(k).pc == Copy(work, repo.files, log, written) && |log| == i
      modifies cluster
      ensures cluster.failed == (old(cluster.failed) || !ok)
      ensures cluster.Valid() && cluster.GoesOn(old(cluster.run), old(cluster.start))
      ensures cluster.Here(k).pc == if ok then Copy(work, repo.files, log, written + chunk) else Idle
    {
      hide Grew, RunTo, StatusesValid, Explained, LeftBy;
      Growth<State, Event>();
      cluster.Others(k);
      cluster.DiskKnown(k);
      ok := cluster.WriteFile(k, repo.files[i], Data(written + chunk), Copy(work, repo.files, log, written + chunk),
                              HistoryOf(cluster.Now(), k));
    }

    /** Lists the repository and makes the target directory. */
    method ListFiles(k: NodeKey, work: Work, repo: Repository) returns (ok: bool)
      requires cluster.For(k) && repo.Valid() && cluster.Here(k).pc == Listing(work)
      modifies cluster
      ensures cluster.failed == (old(cluster.failed) || !ok)
      ensures cluster.Valid() && cluster.GoesOn(old(cluster.run), old(cluster.start))
      ensures cluster.Here(k).pc == if ok then Fetch(work, repo.files, []) else Idle
    {
      hide Grew, RunTo, StatusesValid, Explained, LeftBy, FinalizersHeld, MemoryCurrent;
      Growth<State, Event>();
      cluster.Others(k);
      var dir := if k in cluster.disks then Some(cluster.disks[k]) else None;
      ok := cluster.ChangeDisk(k, Mkdir(dir), Fetch(work, repo.files, []), HistoryOf(cluster.Now(), k));
    }

    /** Downloads every listed file. */
    method Download(k: NodeKey, work: Work, repo: Repository) returns (ok: bool, ghost log: Log)
      requires cluster.For(k) && repo.Valid() && cluster.Here(k).pc == Listing(work)
      modifies cluster
      ensures cluster.failed == (old(cluster.failed) || !ok)
      ensures cluster.Valid() && cluster.GoesOn(old(cluster.run), old(cluster.start))
      ensures cluster.Here(k).pc == if ok then Fetch(work, repo.files, log) else Idle
      ensures ok ==> DeliversAll(log, repo, |repo.files|)
    {
      hide Grew, RunTo, StatusesValid, Explained, LeftBy, DeliversAll, Joined, Listable;
      Growth<State, Event>();
      log := [];
      NothingDelivered(repo);
      ok := ListFiles(k, work, repo);
      if !ok { return; }
      for i := 0 to |repo.files|
        invariant cluster.Valid() && cluster.GoesOn(old(cluster.run), old(cluster.start))
          && cluster.failed == old(cluster.failed)
        invariant cluster.Here(k).pc == Fetch(work, repo.files, log) && |log| == i && DeliversAll(log, repo, i) && ok
      {
        ok := DownloadFile(k, work, repo, i, log);
        if !ok { return; }
        OneMoreDelivered(log, repo, i);
        log := log + [Delivered(repo.files[i], Joined(repo.chunks[i]))];
      }
    }

    method WriteManifest(k: NodeKey, work: Work, ghost files: seq<Entry>, ghost log: Log) returns (ok: bool)
      requires cluster.For(k) && cluster.Here(k).pc == Fetch(work, files, log) && |log| == |files|
      modifies cluster
      ensures cluster.failed == (old(cluster.failed) || !ok)
      ensures cluster.Valid() && cluster.GoesOn(old(cluster.run), old(cluster.start))
      ensures cluster.Here(k).pc == if ok then MarkerOpen(work, files, log) else Idle
    {
      hide Grew, RunTo, StatusesValid, Explained, LeftBy, FinalizersHeld, MemoryCurrent;
      Growth<State, Event>();
      cluster.Note(k, ManifestOpen(work, files, log));
      cluster.Others(k);
      cluster.DiskKnown(k);
      ok := cluster.WriteFile(k, ManifestFile, Partial, ManifestFill(work, files, log), HistoryOf(cluster.Now(), k));
      if ok {
        ok := FillManifest(k, work, files, log);
      }
    }

    method FillManifest(k: NodeKey, work: Work, ghost files: seq<Entry>, ghost log: Log) returns (ok: bool)
      requires cluster.For(k) && cluster.Here(k).pc == ManifestFill(work, files, log)
      modifies cluster
      ensures cluster.failed == (old(cluster.failed) || !ok)
      ensures cluster.Valid() && cluster.GoesOn(old(cluster.run), old(cluster.start))
      ensures cluster.Here(k).pc == if ok then MarkerOpen(work, files, log) else Idle
    {
      hide Grew, RunTo, StatusesValid, Explained, LeftBy;
      Growth<State, Event>();
      cluster.Others(k);
      cluster.DiskKnown(k);
      ok := cluster.WriteFile(k, ManifestFile, Manifest(work.obj.uid, work.source), MarkerOpen(work, files, log),
                              HistoryOf(cluster.Now(), k));
    }

    method WriteCompleteMarker(k: NodeKey, work: Work, ghost files: seq<Entry>, ghost log: Log)
      returns (ok: bool)
      requires cluster.For(k) && cluster.Here(k).pc == MarkerOpen(work, files, log)
      modifies cluster
      ensures cluster.failed == (old(cluster.failed) || !ok)
      ensures cluster.Valid() && cluster.GoesOn(old(cluster.run), old(cluster.start))
      ensures cluster.Here(k).pc == if ok then Completed(work) else Idle
      ensures ok ==> cluster.Here(k).history.files == files && cluster.Here(k).history.log == log
    {
      hide Grew, RunTo, StatusesValid, Explained, LeftBy;
      Growth<State, Event>();
      cluster.Others(k);
      cluster.DiskKnown(k);
      ok := cluster.WriteFile(k, MarkerFile, Partial, MarkerFill(work),
                              HistoryOf(cluster.Now(), k).(files := files, log := log));
      if ok {
        ok := FillMarker(k, work);
      }
    }

    method FillMarker(k: NodeKey, work: Work) returns (ok: bool)
      requires cluster.For(k) && cluster.Here(k).pc == MarkerFill(work)
      modifies cluster
      ensures cluster.failed == (old(cluster.failed) || !ok)
      ensures cluster.Valid() && cluster.GoesOn(old(cluster.run), old(cluster.start))
      ensures cluster.Here(k).pc == if ok then Completed(work) else Idle
      ensures ok ==> cluster.Here(k).history == old(cluster.Here(k).history)
    {
      hide Grew, RunTo, StatusesValid, Explained, LeftBy;
      Growth<State, Event>();
      cluster.Others(k);
      cluster.DiskKnown(k);
      ok := cluster.WriteFile(k, MarkerFile, Marker, Completed(work), HistoryOf(cluster.Now(), k));
    }

    ghost predicate IsComplete(k: NodeKey)
      reads cluster
    {
      IsReady(k) && k in cluster.disks && MarkerFile in cluster.disks[k]
    }

    /** Reads the clock, then patches the status. */
    method MarkNodeReady(k: NodeKey, work: Work) returns (ok: bool)
      requires cluster.For(k) && cluster.Here(k).pc == Completed(work)
      modifies cluster
      ensures cluster.failed == (old(cluster.failed) || !ok)
      ensures cluster.Valid() && cluster.GoesOn(old(cluster.run), old(cluster.start))
      ensures cluster.Here(k).pc.Idle? && (ok ==> IsComplete(k) && LeftReady(cluster.run, k))
      ensures ok ==> cluster.Here(k).history.files == old(cluster.Here(k).history.files)
      ensures ok ==> cluster.Here(k).history.log == old(cluster.Here(k).history.log)
    {
      hide Grew, RunTo, StatusesValid, Explained, LeftBy;
      Growth<State, Event>();
      cluster.Others(k);
      var now := cluster.clock;
      cluster.Note(k, MarkReady(work, now));
      ok := PatchReady(k, work, now);
    }

    /** So is the Ready mark. */
    lemma ReadyIsMarked(v: View, used: bool, now: Time, tick: nat)
      requires v.pc.MarkReady? && v.node.Some? && v.node.value.status == v.pc.work.obj.status
      requires v.pc.work.original.status.phase != Ready
      ensures
        var before, after := v.pc.work.original.status, MarkedReady(v.pc.work.obj.status, v.pc.now);
        var n := v.node.value.(status := MergePatch(v.node.value.status, before, after));
        && AgentStep(v, v.(node := Some(n), pc := Idle,
                           history := Recorded(v.history, v.pc.now).(lostPatch := false)), used, now, tick)
        && n.status.phase == Ready
    {
      hide StartStep, FinalizerStep, DecideStep, UsageStep, PrepareStep, FetchStep, DeleteStep;
    }

    method PatchReady(k: NodeKey, work: Work, now: Time) returns (ok: bool)
      requires cluster.For(k) && cluster.Here(k).pc == MarkReady(work, now)
      modifies cluster
      ensures cluster.failed == (old(cluster.failed) || !ok)
      ensures cluster.Valid() && cluster.GoesOn(old(cluster.run), old(cluster.start))
      ensures cluster.Here(k).pc.Idle? && (ok ==> IsComplete(k) && LeftReady(cluster.run, k))
      ensures ok ==> cluster.Here(k).history.files == old(cluster.Here(k).history.files)
      ensures ok ==> cluster.Here(k).history.log == old(cluster.Here(k).history.log)
    {
      hide Grew, RunTo, StatusesValid, Explained, LeftBy, AgentStep, MergePatch, MarkedReady;
      Growth<State, Event>();
      cluster.Others(k);
      cluster.DiskKnown(k);
      ReadyIsMarked(cluster.Here(k), Used(cluster.Now(), k), cluster.clock, cluster.tick);
      ok := cluster.PatchStatus(k, work.original.status, MarkedReady(work.obj.status, now), Idle,
                                Recorded(HistoryOf(cluster.Now(), k), now).(lostPatch := false));
      assert ok ==> cluster.Here(k).dir.Some?;
    }

    /** Looks for the completion marker. */
    method CacheComplete(k: NodeKey, work: Work) returns (ok: bool, complete: bool)
      requires cluster.For(k) && cluster.Here(k).pc == CheckMarker(work)
      modifies cluster
      ensures cluster.failed == (old(cluster.failed) || !ok)
      ensures cluster.Valid() && cluster.GoesOn(old(cluster.run), old(cluster.start))
      ensures cluster.Here(k).pc == if !ok then Idle else if complete then Completed(work) else Listing(work)
    {
      hide Grew, RunTo, StatusesValid, Explained, LeftBy;
      Growth<State, Event>();
      complete := false;
      cluster.Others(k);
      ok := cluster.Attempt(k);
      if !ok { return; }
      complete := k in cluster.disks && MarkerFile in cluster.disks[k];
      cluster.Note(k, if complete then Completed(work) else Listing(work));
    }

    /** With the directory prepared: nothing more to fetch if the marker is there, a download otherwise. */
    method Complete(k: NodeKey, work: Work, repo: Repository) returns (r: Outcome)
      requires cluster.For(k) && repo.Valid() && cluster.Here(k).pc == CheckMarker(work)
      modifies cluster
      ensures cluster.failed == (old(cluster.failed) || GaveUp(r))
      ensures cluster.Valid() && cluster.GoesOn(old(cluster.run), old(cluster.start))
      ensures cluster.Here(k).pc.Idle? && Explains(r, k, repo) && Populates(r)
    {
      hide Grew, RunTo, StatusesValid, Explained, LeftBy, ExplainsUsage;
      Growth<State, Event>();
      var ok, complete := CacheComplete(k, work);
      if !ok { return CallFailed; }
      if complete {
        ok := MarkNodeReady(k, work);
        r := if ok then CacheReady(false) else CallFailed;
      } else {
        r := Fill(k, work, repo);
      }
    }

    method Fill(k: NodeKey, work: Work, repo: Repository) returns (r: Outcome)
      requires cluster.For(k) && repo.Valid() && cluster.Here(k).pc == Listing(work)
      modifies cluster
      ensures cluster.failed == (old(cluster.failed) || GaveUp(r))
      ensures cluster.Valid() && cluster.GoesOn(old(cluster.run), old(cluster.start))
      ensures cluster.Here(k).pc.Idle? && Explains(r, k, repo) && Populates(r)
    {
      hide Grew, RunTo, StatusesValid, Explained, LeftBy;
      Growth<State, Event>();
      var ok, log := Download(k, work, repo);
      r := CallFailed;
      if ok { r := Seal(k, work, repo, log); }
    }

    /** With every file in place: the manifest, the marker, the Ready mark. */
    method Seal(k: NodeKey, work: Work, repo: Repository, ghost log: Log) returns (r: Outcome)
      requires cluster.For(k) && cluster.Here(k).pc == Fetch(work, repo.files, log)
        && DeliversAll(log, repo, |repo.files|)
      modifies cluster
      ensures cluster.failed == (old(cluster.failed) || GaveUp(r))
      ensures cluster.Valid() && cluster.GoesOn(old(cluster.run), old(cluster.start))
      ensures cluster.Here(k).pc.Idle? && Explains(r, k, repo) && Populates(r)
    {
      hide Grew, RunTo, StatusesValid, Explained, LeftBy;
      Growth<State, Event>();
      var ok := WriteManifest(k, work, repo.files, log);
      r := CallFailed;
      if ok { r := SealWithMarker(k, work, repo, log); }
    }

    method SealWithMarker(k: NodeKey, work: Work, repo: Repository, ghost log: Log) returns (r: Outcome)
      requires cluster.For(k) && cluster.Here(k).pc == MarkerOpen(work, repo.files, log)
        && DeliversAll(log, repo, |repo.files|)
      modifies cluster
      ensures cluster.failed == (old(cluster.failed) || GaveUp(r))
      ensures cluster.Valid() && cluster.GoesOn(old(cluster.run), old(cluster.start))
      ensures cluster.Here(k).pc.Idle? && Explains(r, k, repo) && Populates(r)
    {
      hide Grew, RunTo, StatusesValid, Explained, Explains, LeftBy, DeliversAll;
      Growth<State, Event>();
      r := CallFailed;
      var ok := WriteCompleteMarker(k, work, repo.files, log);
      if ok {
        ok := MarkNodeReady(k, work);
        if ok { r := CacheReady(true); }
      }
      if ok { DownloadExplains(k, repo); } else { GivingUpExplains(k, repo); }
    }

    lemma GivingUpExplains(k: NodeKey, repo: Repository)
      ensures Explains(CallFailed, k, repo)
    {
    }

    lemma DownloadExplains(k: NodeKey, repo: Repository)
      requires IsComplete(k) && LeftReady(cluster.run, k) && HistoryOf(cluster.Now(), k).files == repo.files
      requires DeliversAll(HistoryOf(cluster.Now(), k).log, repo, |repo.files|)
      ensures Explains(CacheReady(true), k, repo)
    {
      hide LeftBy, DeliversAll;
    }

    /** From the ModelCache to a Ready copy of it on this node. */
    method Populate(k: NodeKey, obj: NodeObj, repo: Repository) returns (r: Outcome)
      requires cluster.For(k) && repo.Valid() && cluster.Here(k).pc == NeedCache(obj)
      modifies cluster
      ensures cluster.failed == (old(cluster.failed) || GaveUp(r))
      ensures cluster.Valid() && cluster.GoesOn(old(cluster.run), old(cluster.start))
      ensures cluster.Here(k).pc.Idle? && Explains(r, k, repo) && Populates(r)
    {
      hide Grew, RunTo, StatusesValid, Explained, Explains, LeftBy;
      Growth<State, Event>();
      var ok, source := FindCache(k, obj);
      if !ok {
        GivingUpExplains(k, repo);
        return CallFailed;
      }
      var prepared := PrepareDirectory(k, obj, source);
      if prepared {
        r := Publish(k, obj, source, repo);
      } else {
        r := ReportFailure(k, obj, repo);
      }
    }

    method ReportFailure(k: NodeKey, obj: NodeObj, repo: Repository) returns (r: Outcome)
      requires cluster.For(k) && cluster.Here(k).pc == PrepareFailed(obj) && cluster.failed
      modifies cluster
      ensures cluster.failed && GaveUp(r)
      ensures cluster.Valid() && cluster.GoesOn(old(cluster.run), old(cluster.start))
      ensures cluster.Here(k).pc.Idle? && Explains(r, k, repo) && Populates(r)
    {
      hide Grew, RunTo, StatusesValid, Explained, LeftBy;
      Growth<State, Event>();
      var ok := ReportUnprepared(k, obj);
      r := if ok then NotPrepared else CallFailed;
    }

    /** Reads the ModelCache, which is always found: its own finalizer keeps it while a ModelCacheNode is left. */
    method FindCache(k: NodeKey, obj: NodeObj) returns (ok: bool, source: string)
      requires cluster.For(k) && cluster.Here(k).pc == NeedCache(obj)
      modifies cluster
      ensures cluster.failed == (old(cluster.failed) || !ok)
      ensures cluster.Valid() && cluster.GoesOn(old(cluster.run), old(cluster.start))
      ensures cluster.Here(k).pc == if ok then Prepare(obj, source) else Idle
    {
      hide Grew, RunTo, StatusesValid, Explained, LeftBy;
      Growth<State, Event>();
      source := "";
      cluster.Others(k);
      ok := cluster.Attempt(k);
      if !ok { return; }
      source := cluster.caches[k.cache].source;
      cluster.Note(k, Prepare(obj, source));
    }

    method Publish(k: NodeKey, obj: NodeObj, source: string, repo: Repository) returns (r: Outcome)
      requires cluster.For(k) && repo.Valid() && cluster.Here(k).pc == PatchDirectory(obj, source)
      modifies cluster
      ensures cluster.failed == (old(cluster.failed) || GaveUp(r))
      ensures cluster.Valid() && cluster.GoesOn(old(cluster.run), old(cluster.start))
      ensures cluster.Here(k).pc.Idle? && Explains(r, k, repo) && Populates(r)
    {
      hide Grew, RunTo, StatusesValid, Explained, LeftBy;
      Growth<State, Event>();
      var ok, work := ReportPrepared(k, obj, source);
      r := CallFailed;
      if ok { r := Complete(k, work, repo); }
    }

    method ReconcileDelete(k: NodeKey) returns (r: Outcome)
      requires cluster.For(k) && k in cluster.nodes && cluster.nodes[k].deleting && cluster.Here(k).pc.Idle?
      modifies cluster
      ensures cluster.failed == (old(cluster.failed) || GaveUp(r))
      ensures cluster.Valid() && cluster.GoesOn(old(cluster.run), old(cluster.start))
      ensures cluster.Here(k).pc.Idle? && Explains(r, k, Repository([], []))
      ensures r == NothingToRemove || r == CallFailed || r == RemovedCache
      ensures r == RemovedCache ==> |old(cluster.run).events| < |cluster.run.events|
    {
      hide Grew, RunTo, StatusesValid, Explained, LeftBy;
      Growth<State, Event>();
      GrowthIsLonger<State, Event>();
      if !cluster.nodes[k].finalizer { return NothingToRemove; }
      assert StartStep(cluster.Here(k), cluster.Here(k).(pc := DeleteRemove));
      cluster.Note(k, DeleteRemove);
      var ok := RemoveDirectory(k);
      if ok { ok := RemoveFinalizer(k); }
      r := if ok then RemovedCache else CallFailed;
    }

    method RemoveDirectory(k: NodeKey) returns (ok: bool)
      requires cluster.For(k) && cluster.Here(k).pc.DeleteRemove?
      modifies cluster
      ensures cluster.failed == (old(cluster.failed) || !ok)
      ensures cluster.Valid() && cluster.GoesOn(old(cluster.run), old(cluster.start))
      ensures if ok then cluster.Here(k).pc.DeletePatch? else cluster.Here(k).pc.Idle?
    {
      hide Grew, RunTo, StatusesValid, Explained, LeftBy;
      Growth<State, Event>();
      cluster.Others(k);
      assert DeleteStep(cluster.Here(k), cluster.Here(k).(dir := None, pc := DeletePatch));
      ok := cluster.ChangeDisk(k, None, DeletePatch, HistoryOf(cluster.Now(), k));
    }

    method RemoveFinalizer(k: NodeKey) returns (ok: bool)
      requires cluster.For(k) && cluster.Here(k).pc.DeletePatch?
      modifies cluster
      ensures cluster.failed == (old(cluster.failed) || !ok)
      ensures cluster.Valid() && cluster.GoesOn(old(cluster.run), old(cluster.start))
      ensures cluster.Here(k).pc.Idle?
      ensures ok ==> k !in cluster.nodes && k !in cluster.disks && LeftAs(RemovedCache, cluster.run, k)
    {
      hide Grew, RunTo, StatusesValid, Explained, LeftBy;
      Growth<State, Event>();
      cluster.Others(k);
      cluster.UsageKnown(k);
      assert cluster.Here(k).dir.None?;
      assert DeleteStep(cluster.Here(k), cluster.Here(k).(node := None, pc := Idle));
      ok := cluster.PatchNode(k, None, Idle);
      if ok {
        assert cluster.Here(k).dir.None? && cluster.Here(k).node.None?;
      }
    }
  
    /** After the finalizer is in place: usage of a Ready cache, rehydration of an evicted one, or a first download. */
    method Dispatch(k: NodeKey, obj: NodeObj, repo: Repository) returns (r: Outcome)
      requires cluster.For(k) && repo.Valid() && cluster.Here(k).pc == Decide(obj)
      modifies cluster
      ensures cluster.failed == (old(cluster.failed) || GaveUp(r))
      ensures cluster.Valid() && cluster.GoesOn(old(cluster.run), old(cluster.start))
      ensures cluster.Here(k).pc.Idle? && Explains(r, k, repo) && OfPhase(obj.status.phase, r)
    {
      hide Grew, RunTo, StatusesValid, Explained, LeftBy;
      Growth<State, Event>();
      if obj.status.phase == Ready {
        var u := ReconcileReadyCacheUsage(k, obj);
        return Usage(u);
      }
      if obj.status.phase == Evicted {
        r := Rehydrate(k, obj, repo);
        return;
      }
      cluster.Note(k, NeedCache(obj));
      r := Populate(k, obj, repo);
    }

    /** Counts the Pods using an evicted cache; without one, the reconcile is over. */
    method CountEvicted(k: NodeKey, obj: NodeObj) returns (ok: bool, requested: bool)
      requires cluster.For(k) && cluster.Here(k).pc == Decide(obj) && obj.status.phase == Evicted
      modifies cluster
      ensures cluster.failed == (old(cluster.failed) || !ok)
      ensures cluster.Valid() && cluster.GoesOn(old(cluster.run), old(cluster.start))
      ensures cluster.Here(k).pc == if ok && requested then NeedCache(obj) else Idle
      ensures ok && !requested ==> Explains(NotRequested, k, Repository([], []))
    {
      hide Grew, RunTo, StatusesValid, Explained, LeftBy;
      Growth<State, Event>();
      requested := false;
      cluster.Others(k);
      ok := cluster.Attempt(k);
      if !ok { return; }
      var active := cluster.CountPods(k);
      requested := active > 0;
      if requested {
        cluster.Note(k, NeedCache(obj));
      } else {
        cluster.Stop(k);
      }
    }

    /** An evicted cache is populated again only if a Pod on the node uses it. */
    method Rehydrate(k: NodeKey, obj: NodeObj, repo: Repository) returns (r: Outcome)
      requires cluster.For(k) && repo.Valid() && cluster.Here(k).pc == Decide(obj) && obj.status.phase == Evicted
      modifies cluster
      ensures cluster.failed == (old(cluster.failed) || GaveUp(r))
      ensures cluster.Valid() && cluster.GoesOn(old(cluster.run), old(cluster.start))
      ensures cluster.Here(k).pc.Idle? && Explains(r, k, repo) && OfPhase(Evicted, r)
    {
      hide Grew, RunTo, StatusesValid, Explained, LeftBy;
      Growth<State, Event>();
      var ok, requested := CountEvicted(k, obj);
      if !ok { return CallFailed; }
      if !requested { return NotRequested; }
      r := Populate(k, obj, repo);
    }

    /**
     One reconcile of one ModelCacheNode. The object it reads decides which outcomes it can have, and
     each comes only after what it stands for was seen. It gives up exactly on a fault or a conflict.
     */
    method Reconcile(k: NodeKey, repo: Repository) returns (r: Outcome)
      requires cluster.Valid() && repo.Valid() && cluster.Here(k).pc.Idle?
      modifies cluster
      ensures cluster.Valid() && Grew(old(cluster.run), cluster.run)
      ensures cluster.Here(k).pc.Idle? && Explains(r, k, repo)
      ensures Possible(old(cluster.Here(k).node), k.node == node, r)
      ensures Follows(r, cluster.run.states, |old(cluster.run).events|, |cluster.run.events|, k)
      ensures cluster.failed <==> GaveUp(r)
      ensures cluster.start == Start(old(cluster.calls), |old(cluster.run).events|, OfNode(k))
    {
      hide RunTo, StatusesValid, Explained, LeftBy, LeftAs, Saw, SawNeed;
      cluster.Begin(OfNode(k));
      r := ReconcileNode(k, repo);
      assert RunTo(old(cluster.run), old(cluster.Now())) && RunTo(cluster.run, cluster.Now());
      OutcomeFollows(r, old(cluster.run), cluster.run, old(cluster.Now()), cluster.Now(), k);
    }

    method ReconcileNode(k: NodeKey, repo: Repository) returns (r: Outcome)
      requires cluster.For(k) && repo.Valid() && cluster.Here(k).pc.Idle? && !cluster.failed
      modifies cluster
      ensures cluster.Valid() && cluster.GoesOn(old(cluster.run), old(cluster.start))
      ensures cluster.Here(k).pc.Idle? && Explains(r, k, repo)
      ensures Possible(old(cluster.Here(k).node), k.node == node, r)
      ensures cluster.failed <==> GaveUp(r)
      ensures !ComesAnywhere(r) ==> |old(cluster.run).events| < |cluster.run.events|
    {
      hide Grew, RunTo, StatusesValid, Explained, LeftBy;
      Growth<State, Event>();
      GrowthIsLonger<State, Event>();
      var ok := cluster.Attempt(k);
      if !ok { return CallFailed; }
      if k !in cluster.nodes { return NotFound; }
      if k.node != node { return OtherNode; }
      var obj := cluster.nodes[k];
      if obj.deleting {
        r := ReconcileDelete(k);
        return;
      }
      ok, obj := EnsureFinalizer(k);
      if !ok { return CallFailed; }
      r := Dispatch(k, obj, repo);
    }

    /** Goes on with the object as read, or adds the finalizer first. */
    method EnsureFinalizer(k: NodeKey) returns (ok: bool, obj: NodeObj)
      requires cluster.For(k) && cluster.Here(k).pc.Idle? && k in cluster.nodes && !cluster.nodes[k].deleting
      modifies cluster
      ensures cluster.failed == (old(cluster.failed) || !ok)
      ensures cluster.Valid() && cluster.GoesOn(old(cluster.run), old(cluster.start))
      ensures cluster.Here(k).pc == if ok then Decide(obj) else Idle
      ensures ok ==> obj.status == old(cluster.nodes[k]).status && |old(cluster.run).events| < |cluster.run.events|
    {
      hide Grew, RunTo, StatusesValid, Explained, LeftBy;
      Growth<State, Event>();
      GrowthIsLonger<State, Event>();
      cluster.UnclaimedKnown(k);
      ok, obj := true, cluster.nodes[k];
      if obj.finalizer {
        cluster.Note(k, Decide(obj));
      } else {
        cluster.Note(k, AgentPc.AddFinalizer);
        ok, obj := AddFinalizer(k);
      }
    }
  }

  /** The first `n` files were delivered, each as its reader's chunks joined. */
  ghost predicate DeliversAll(log: Log, repo: Repository, n: nat) {
    && n <= |repo.files| == |repo.chunks| && |log| == n
    && forall i :: 0 <= i < n ==> log[i] == Delivered(repo.files[i], Joined(repo.chunks[i]))
  }

  lemma NothingDelivered(repo: Repository)
    requires repo.Valid()
    ensures DeliversAll([], repo, 0)
  {
  }

  lemma OneMoreDelivered(log: Log, repo: Repository, n: nat)
    requires DeliversAll(log, repo, n) && n < |repo.files| == |repo.chunks|
    ensures DeliversAll(log + [Delivered(repo.files[n], Joined(repo.chunks[n]))], repo, n + 1)
  {
  }
}
