/** What users of local mode get from the protocol, over all its runs. */
module LocalTheorems {
  import opened Common
  import opened LocalProtocol
  import opened LocalSafety

  lemma ReachableKey(states: seq<State>, events: seq<Event>, i: nat, k: NodeKey)
    requires IsRun(states, events) && i < |states|
    ensures KeyInv(ViewOf(states[i], k), states[i].clock)
  {
    Reachable(states, events, i);
  }

  /**
   Deletion safety. Once a ModelCache object has disappeared, no node's disk holds its
   directory, no ModelCacheNode of it is left, and no agent is past its finalizer patch.
   */
  lemma DeletionSafety(states: seq<State>, events: seq<Event>, i: nat, k: NodeKey)
    requires IsRun(states, events) && i < |states| && k.cache !in states[i].caches
    ensures k !in states[i].disks && k !in states[i].nodes && !Holding(AgentAt(states[i], k))
  {
    ReachableKey(states, events, i, k);
    assert ViewOf(states[i], k).dir.None?;
  }

  /**
   The marker invariant. Wherever `.praesto-complete` exists, the directory belongs to the
   ModelCache object that exists now: the manifest names its UID and source, and every file
   of the download's listing is there with the bytes its reader delivered last.
   */
  lemma MarkerInvariant(states: seq<State>, events: seq<Event>, i: nat, k: NodeKey)
    requires IsRun(states, events) && i < |states|
    requires k in states[i].disks && MarkerFile in states[i].disks[k]
    ensures k.cache in states[i].caches && ManifestFile in states[i].disks[k]
    ensures states[i].disks[k][ManifestFile]
      == Manifest(states[i].caches[k.cache].uid, states[i].caches[k.cache].source)
    ensures forall j :: 0 <= j < |HistoryOf(states[i], k).files| ==>
      var f := HistoryOf(states[i], k).files[j];
      && f in states[i].disks[k]
      && LastWrite(HistoryOf(states[i], k).log, f).Some?
      && states[i].disks[k][f] == Data(LastWrite(HistoryOf(states[i], k).log, f).value)
  {
    ReachableKey(states, events, i, k);
    var h, dir := HistoryOf(states[i], k), states[i].disks[k];
    assert Complete(ViewOf(states[i], k).dir) && ViewOf(states[i], k).dir.value == dir;
    assert Delivers(dir, h.files, h.log);
    forall j | 0 <= j < |h.files|
      ensures LastWrite(h.log, h.files[j]).Some?
    {
      Written(h.log, j);
      assert h.log[j].entry == h.files[j];
    }
  }

  lemma {:induction false} Written(log: Log, j: nat)
    requires j < |log|
    ensures LastWrite(log, log[j].entry).Some?
  {
    if j < |log| - 1 {
      Written(log[..|log| - 1], j);
    }
  }

  // -------------------------------------- what a reader of the marker may rely on

  predicate HasMarker(s: State, k: NodeKey) { k in s.disks && MarkerFile in s.disks[k] }

  /** About to remove the directory, to evict or to delete. */
  predicate Removing(pc: AgentPc) { pc.EvictRemove? || pc.DeleteRemove? }

  /** Between two moments of a run the directory was removed. */
  ghost predicate RemovedBetween(states: seq<State>, events: seq<Event>, i: nat, j: nat, k: NodeKey)
    requires i <= j <= |events| < |states|
  {
    exists m :: i <= m < j && events[m] == AgentSteps(k) && Removing(AgentAt(states[m], k))
  }

  lemma AgentKeepsMarker(v: View, w: View, used: bool, now: Time, tick: nat)
    requires AgentStep(v, w, used, now, tick) && Complete(v.dir)
    ensures Complete(w.dir) <==> !Removing(v.pc)
  {
  }

  lemma MarkerStep(s: State, e: Event, s': State, k: NodeKey)
    requires Next(s, e, s') && HasMarker(s, k)
    ensures HasMarker(s', k) <==> !(e == AgentSteps(k) && Removing(AgentAt(s, k)))
  {
    if e == AgentSteps(k) {
      AgentKeepsMarker(ViewOf(s, k), ViewOf(s', k), Used(s, k), s.clock, s.tick);
      assert HasMarker(s', k) <==> Complete(ViewOf(s', k).dir);
    } else if e == AgentEnds(k) {
      assert PutOption(s.disks, k, Ended(ViewOf(s, k)).dir) == s.disks;
    }
  }

  /** From a moment when it is there, the marker stays exactly as long as nobody removes the directory. */
  lemma {:induction false} MarkerStaysExactly(states: seq<State>, events: seq<Event>, i: nat, j: nat, k: NodeKey)
    requires IsRun(states, events) && i <= j < |states| && HasMarker(states[i], k)
    ensures (forall m :: i <= m <= j ==> HasMarker(states[m], k)) <==> !RemovedBetween(states, events, i, j, k)
  {
    hide IsRun, HasMarker, Removing, RemovedBetween, AgentAt;
    RunLength(states, events);
    if i < j {
      MarkerStaysExactly(states, events, i, j - 1, k);
      RemovedOneMore(states, events, i, j, k);
      if HasMarker(states[j - 1], k) {
        MarkerRunStep(states, events, j - 1, k);
      }
    } else {
      RemovedNever(states, events, i, k);
    }
  }

  lemma RunLength(states: seq<State>, events: seq<Event>)
    requires IsRun(states, events)
    ensures |states| == |events| + 1
  {
  }

  lemma RemovedNever(states: seq<State>, events: seq<Event>, i: nat, k: NodeKey)
    requires i <= |events| < |states|
    ensures !RemovedBetween(states, events, i, i, k)
  {
  }

  lemma RemovedOneMore(states: seq<State>, events: seq<Event>, i: nat, j: nat, k: NodeKey)
    requires i < j <= |events| < |states|
    ensures RemovedBetween(states, events, i, j, k) <==>
      || RemovedBetween(states, events, i, j - 1, k)
      || (events[j - 1] == AgentSteps(k) && Removing(AgentAt(states[j - 1], k)))
  {
  }

  lemma MarkerRunStep(states: seq<State>, events: seq<Event>, i: nat, k: NodeKey)
    requires IsRun(states, events) && i < |events| && HasMarker(states[i], k)
    ensures HasMarker(states[i + 1], k) <==> !(events[i] == AgentSteps(k) && Removing(AgentAt(states[i], k)))
  {
    MarkerStep(states[i], events[i], states[i + 1], k);
  }

  /** The step takes a directory away that the Pod uses: a deletion, or an eviction that counted before it was bound. */
  predicate TakesAway(s: State, e: Event, k: NodeKey, id: string)
    requires id in s.pods && PodUses(s.pods[id], k)
  {
    var pc := AgentAt(s, k);
    e == AgentSteps(k) && (pc.DeleteRemove? || (pc.EvictRemove? && pc.countedAt <= s.pods[id].bound.value.at))
  }

  /**
   For a Pod that uses the directory all the while, only a deletion of the ModelCacheNode, or an
   eviction that counted the Pods before this one was bound, can take the marker away.
   */
  lemma MarkerStaysForBoundPods(states: seq<State>, events: seq<Event>, i: nat, j: nat, k: NodeKey, id: string)
    requires IsRun(states, events) && i <= j < |states| && HasMarker(states[i], k) && !HasMarker(states[j], k)
    requires forall m :: i <= m < j ==> id in states[m].pods && PodUses(states[m].pods[id], k)
    ensures exists m :: i <= m < j && TakesAway(states[m], events[m], k, id)
  {
    MarkerStaysExactly(states, events, i, j, k);
    var m :| i <= m < j && events[m] == AgentSteps(k) && Removing(AgentAt(states[m], k));
    if AgentAt(states[m], k).EvictRemove? {
      EvictionSparesCountedPods(states, events, m, k, id);
    }
    assert TakesAway(states[m], events[m], k, id);
  }

  /**
   Admission protects from eviction. When an eviction removes a directory, no Pod bound to
   the node before Pods were counted uses it; a Pod that does was bound after the count.
   */
  lemma EvictionSparesCountedPods(states: seq<State>, events: seq<Event>, i: nat, k: NodeKey, id: string)
    requires IsRun(states, events) && i < |events| && events[i] == AgentSteps(k)
    requires AgentAt(states[i], k).EvictRemove? && id in states[i].pods && PodUses(states[i].pods[id], k)
    ensures AgentAt(states[i], k).countedAt <= states[i].pods[id].bound.value.at < states[i].tick
  {
    Reachable(states, events, i);
    assert CountedAt(AgentAt(states[i], k)).Some?;
  }

  /**
   The eviction time bound. An eviction decided at time t comes at least the TTL after every
   recorded use, up to the fraction of a second that storing the use cut off.
   */
  lemma EvictionRespectsTtl(states: seq<State>, events: seq<Event>, i: nat, k: NodeKey, u: Time)
    requires IsRun(states, events) && i < |events| && events[i] == AgentSteps(k)
    requires AgentAt(states[i], k).EvictRemove? && u in HistoryOf(states[i], k).uses
    ensures k in states[i].nodes && states[i].nodes[k].ttl.Ttl?
    ensures
      var t, ttl := AgentAt(states[i], k).now, states[i].nodes[k].ttl.duration;
      t <= states[i].clock && t >= Stored(u) + ttl && t + SECOND > u + ttl
  {
    ReachableKey(states, events, i, k);
    StoredMonotone(u, HistoryOf(states[i], k).last);
  }

  /** The next step of a reconcile that counted no Pod is the decision to evict. */
  ghost predicate Evicts(s: State, k: NodeKey)
    requires AgentAt(s, k).Unused?
  {
    var pc := AgentAt(s, k);
    AgentMoves(s, k, PutView(s, k, ViewOf(s, k).(pc := EvictRemove(pc.obj, pc.countedAt, s.clock))))
  }

  /**
   The bound is exact: after a count that found no Pod, the reconcile goes on to evict
   if and only if the clock has reached every recorded use, as stored, plus the TTL.
   */
  lemma EvictionExactly(states: seq<State>, events: seq<Event>, i: nat, k: NodeKey)
    requires IsRun(states, events) && i < |states|
    requires AgentAt(states[i], k).Unused? && AgentAt(states[i], k).obj.ttl.Ttl?
    ensures Evicts(states[i], k) <==>
      forall u :: u in HistoryOf(states[i], k).uses ==>
          states[i].clock >= Stored(u) + AgentAt(states[i], k).obj.ttl.duration
  {
    EvictsAt(states, events, i, k);
    var h := HistoryOf(states[i], k);
    ReachableKey(states, events, i, k);
    forall u | u in h.uses ensures Stored(u) <= Stored(h.last) {
      StoredMonotone(u, h.last);
    }
  }

  lemma EvictsAt(states: seq<State>, events: seq<Event>, i: nat, k: NodeKey)
    requires IsRun(states, events) && i < |states|
    requires AgentAt(states[i], k).Unused? && AgentAt(states[i], k).obj.ttl.Ttl?
    ensures
      var s, obj, h := states[i], AgentAt(states[i], k).obj, HistoryOf(states[i], k);
      && h.last in h.uses && obj.status.lastUsed == Some(Stored(h.last))
      && (Evicts(s, k) <==> s.clock >= Stored(h.last) + obj.ttl.duration)
  {
    var s, pc := states[i], AgentAt(states[i], k);
    var v := ViewOf(s, k);
    var w := v.(pc := EvictRemove(pc.obj, pc.countedAt, s.clock));
    ReachableKey(states, events, i, k);
    PutViewHere(s, k, w);
    assert pc.obj.status.lastUsed == Some(Stored(v.history.last)) && v.history.last in v.history.uses;
    assert UsageStep(v, w, s.clock) <==> s.clock >= Stored(v.history.last) + pc.obj.ttl.duration;
    assert AgentStep(v, w, Used(s, k), s.clock, s.tick) <==> UsageStep(v, w, s.clock);
  }

  /**
   Waiting as long as a reconcile asks for is enough and necessary: if no use is recorded in
   between, a later reconcile that counts no Pod evicts exactly when that time has passed.
   */
  lemma RequeueIsExact(states: seq<State>, events: seq<Event>, i: nat, j: nat, k: NodeKey)
    requires IsRun(states, events) && i <= j < |states|
    requires AgentAt(states[i], k).Unused? && AgentAt(states[i], k).obj.ttl.Ttl? && !Evicts(states[i], k)
    requires AgentAt(states[j], k).Unused? && AgentAt(states[j], k).obj.ttl == AgentAt(states[i], k).obj.ttl
    requires HistoryOf(states[j], k).uses == HistoryOf(states[i], k).uses
    requires HistoryOf(states[j], k).last == HistoryOf(states[i], k).last
    ensures AgentAt(states[i], k).obj.status.lastUsed.Some?
    ensures
      var obj, now := AgentAt(states[i], k).obj, states[i].clock;
      var requeueAfter := obj.status.lastUsed.value + obj.ttl.duration - now;
      requeueAfter > 0 && (Evicts(states[j], k) <==> states[j].clock >= now + requeueAfter)
  {
    EvictsAt(states, events, i, k);
    EvictsAt(states, events, j, k);
  }

  /** The only phases an agent ever gives, and the conditions that go with them. */
  lemma ReachablePhases(states: seq<State>, events: seq<Event>, i: nat, k: NodeKey)
    requires IsRun(states, events) && i < |states| && k in states[i].nodes
    ensures
      var st := states[i].nodes[k].status;
      && st.phase in {NoPhase, Pending, Ready, Evicted}
      && (InPhase(st, ReadyCondition) <==> st.phase == Ready)
      && (InPhase(st, DownloadComplete) <==> st.phase == Ready)
      && (st.phase == Ready ==> st.lastUsed.Some?)
  {
    ReachableKey(states, events, i, k);
  }

  /**
   A live Ready ModelCacheNode can be mounted if and only if no eviction lost its status patch.
   README.md promises it without the proviso; `ALostPatchLeavesReadyWithoutFiles` shows the proviso is needed.
   */
  lemma ReadyIsMountable(states: seq<State>, events: seq<Event>, i: nat, k: NodeKey)
    requires IsRun(states, events) && i < |states|
    requires k in states[i].nodes && states[i].nodes[k].status.phase == Ready && !states[i].nodes[k].deleting
    requires !AgentAt(states[i], k).EvictMark?
    ensures k in states[i].disks && MarkerFile in states[i].disks[k] <==> !HistoryOf(states[i], k).lostPatch
  {
    ReachableKey(states, events, i, k);
    assert ViewOf(states[i], k).dir.Some? <==> k in states[i].disks;
  }

  /** Ready without a directory, its agent not past the dispatch on the phase. */
  predicate Stranded(v: View) {
    && v.node.Some? && v.node.value.status.phase == Ready && v.dir.None?
    && (v.pc.Idle? || v.pc.AddFinalizer? || v.pc.Decide? || v.pc.Counted? || v.pc.InUse?)
  }

  lemma StrandedAgent(v: View, w: View, clock: Time, tick: nat)
    requires KeyInv(v, clock) && Stranded(v) && !v.node.value.deleting
    requires AgentStep(v, w, true, clock, tick)
    ensures Stranded(w)
  {
  }

  lemma StrandedElsewhere(s: State, j: NodeKey, v: View, k: NodeKey)
    requires Stranded(ViewOf(s, k)) && (j == k ==> v == Ended(ViewOf(s, k)))
    ensures Stranded(ViewOf(PutView(s, j, v), k))
  {
    if j == k { PutViewHere(s, k, v); } else { PutViewElsewhere(s, j, v, k); }
  }

  lemma StrandedController(s: State, c: CacheKey, d: Desk, k: NodeKey)
    requires MarkedInv(s) && Stranded(ViewOf(s, k)) && k in d.nodes && DeskStep(DeskOf(s, c), d, c)
    ensures Stranded(ViewOf(PutDesk(s, c, d), k))
  {
    var v := ViewOf(s, k);
    DeskStaysInFrame(DeskOf(s, c), d, c);
    ViewAfterDesk(s, c, d, k);
    if c == k.cache && k in s.nodes {
      assert d.nodes[k].status == s.nodes[k].status;
    }
  }

  lemma StrandedStep(s: State, e: Event, s': State, k: NodeKey)
    requires Inv(s) && Next(s, e, s') && Stranded(ViewOf(s, k)) && !s.nodes[k].deleting
    requires Used(s, k) && k in s'.nodes
    ensures Stranded(ViewOf(s', k))
  {
    match e
    case AgentSteps(j) =>
      if j == k {
        StrandedAgent(ViewOf(s, k), ViewOf(s', k), s.clock, s.tick);
      } else {
        StrandedElsewhere(s, j, ViewOf(s', j), k);
      }
    case AgentEnds(j) => StrandedElsewhere(s, j, Ended(ViewOf(s, j)), k);
    case ControllerSteps(c) => StrandedController(s, c, DeskOf(s', c), k);
    case ControllerEnds(_) =>
    case _ => StrandedOutside(s, e, s', k);
  }

  lemma StrandedOutside(s: State, e: Event, s': State, k: NodeKey)
    requires OutsideStep(s, e, s') && Stranded(ViewOf(s, k)) && k in s'.nodes
    ensures Stranded(ViewOf(s', k))
  {
    OutsideMoves(s, e, s', k);
  }

  /**
   ...and after such a loss the files do not come back: for as long as Pods on the node use
   the cache and the ModelCacheNode is not deleted, no agent ever prepares its directory again.
   */
  lemma {:induction false} LostFilesStayLost(states: seq<State>, events: seq<Event>, i: nat, j: nat, k: NodeKey)
    requires IsRun(states, events) && i <= j < |states| && Stranded(ViewOf(states[i], k))
    requires forall m :: i <= m < j ==> Used(states[m], k)
    requires forall m :: i <= m <= j ==> k in states[m].nodes && !states[m].nodes[k].deleting
    ensures Stranded(ViewOf(states[j], k))
  {
    if i < j {
      LostFilesStayLost(states, events, i, j - 1, k);
      StrandedNext(states, events, j - 1, k);
    }
  }

  lemma StrandedNext(states: seq<State>, events: seq<Event>, i: nat, k: NodeKey)
    requires IsRun(states, events) && i < |events| && Stranded(ViewOf(states[i], k))
    requires Used(states[i], k) && !states[i].nodes[k].deleting && k in states[i + 1].nodes
    ensures Stranded(ViewOf(states[i + 1], k))
  {
    Reachable(states, events, i);
    StrandedStep(states[i], events[i], states[i + 1], k);
  }

  /** A ModelCacheNode always agrees with the ModelCache its controller works on, so it is never rewritten. */
  lemma NeverRewritten(states: seq<State>, events: seq<Event>, i: nat, k: NodeKey)
    requires IsRun(states, events) && i < |states| && k in states[i].nodes
    requires ControllerObj(ControllerAt(states[i], k.cache)).Some?
    ensures
      var o := ControllerObj(ControllerAt(states[i], k.cache)).value;
      states[i].nodes[k].uid == o.uid && states[i].nodes[k].ttl == o.ttl
  {
    ReachableKey(states, events, i, k);
  }
}
