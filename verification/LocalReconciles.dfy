/** What a reconcile of the agent has seen on its way, over all runs. */
module LocalReconciles {
  import opened Common
  import opened LocalProtocol
  import opened LocalSafety
  import opened LocalTheorems

  /** At the moment, the ModelCacheNode was in the phase, and Pods on the node used it or none did. */
  ghost predicate Was(s: State, k: NodeKey, phase: Phase, used: bool) {
    k in s.nodes && s.nodes[k].status.phase == phase && (Used(s, k) <==> used)
  }

  /** There was such a moment from `i` to `j`. */
  ghost predicate Saw(states: seq<State>, i: nat, j: nat, k: NodeKey, phase: Phase, used: bool) {
    exists m :: i <= m <= j && m < |states| && Was(states[m], k, phase, used)
  }

  /** There was a moment from `i` to `j` at which the cache was to be populated: new or pending, or evicted and used. */
  ghost predicate SawNeed(states: seq<State>, i: nat, j: nat, k: NodeKey) {
    || Saw(states, i, j, k, NoPhase, true) || Saw(states, i, j, k, NoPhase, false)
    || Saw(states, i, j, k, Pending, true) || Saw(states, i, j, k, Pending, false)
    || Saw(states, i, j, k, Evicted, true)
  }

  /** Why a reconcile is where it stands. */
  datatype Cause = NoneYet | ReadyAndUsed | ReadyAndUnused | ToPopulate

  function CauseOf(pc: AgentPc): Cause {
    match pc
    case Idle => NoneYet
    case AddFinalizer => NoneYet
    case Decide(_) => NoneYet
    case DeleteRemove => NoneYet
    case DeletePatch => NoneYet
    case Counted(_) => ReadyAndUsed
    case InUse(_, _) => ReadyAndUsed
    case Unused(_, _) => ReadyAndUnused
    case Stamp(_, _) => ReadyAndUnused
    case EvictRemove(_, _, _) => ReadyAndUnused
    case EvictMark(_) => ReadyAndUnused
    case _ => ToPopulate
  }

  /** The moment justifies the cause. */
  ghost predicate Justifies(s: State, k: NodeKey, cause: Cause) {
    match cause
    case NoneYet => true
    case ReadyAndUsed => Was(s, k, Ready, true)
    case ReadyAndUnused => Was(s, k, Ready, false)
    case ToPopulate =>
      || Was(s, k, NoPhase, true) || Was(s, k, NoPhase, false)
      || Was(s, k, Pending, true) || Was(s, k, Pending, false)
      || Was(s, k, Evicted, true)
  }

  ghost predicate Justified(states: seq<State>, i: nat, j: nat, k: NodeKey, cause: Cause) {
    exists m :: i <= m <= j && m < |states| && Justifies(states[m], k, cause)
  }

  lemma CauseOfStep(v: View, w: View, used: bool, now: Time, tick: nat)
    requires AgentStep(v, w, used, now, tick) && !DecideStep(v, w, used, tick)
    ensures CauseOf(w.pc) == CauseOf(v.pc) || CauseOf(w.pc).NoneYet?
  {
  }

  lemma CauseStep(s: State, e: Event, s': State, k: NodeKey)
    requires KeyInv(ViewOf(s, k), s.clock) && Next(s, e, s')
    ensures CauseOf(AgentAt(s', k)) == CauseOf(AgentAt(s, k)) || Justifies(s, k, CauseOf(AgentAt(s', k)))
  {
    if e == AgentSteps(k) {
      var v, w := ViewOf(s, k), ViewOf(s', k);
      if DecideStep(v, w, Used(s, k), s.tick) { DecisionIsJustified(s, k, w); }
      else { CauseOfStep(v, w, Used(s, k), s.clock, s.tick); }
    } else {
      CauseStays(s, e, s', k);
    }
  }

  lemma DecisionIsJustified(s: State, k: NodeKey, w: View)
    requires KeyInv(ViewOf(s, k), s.clock) && DecideStep(ViewOf(s, k), w, Used(s, k), s.tick)
    ensures Justifies(s, k, CauseOf(w.pc))
  {
  }

  lemma CauseStays(s: State, e: Event, s': State, k: NodeKey)
    requires Next(s, e, s') && e != AgentSteps(k)
    ensures AgentAt(s', k) == AgentAt(s, k) || AgentAt(s', k).Idle?
  {
  }

  /** A reconcile that began between `i` and `j` stands where it does because of something it saw. */
  lemma {:induction false} EveryCauseIsJustified(states: seq<State>, events: seq<Event>, i: nat, j: nat, k: NodeKey)
    requires IsRun(states, events) && i <= j < |states| && AgentAt(states[i], k).Idle?
    ensures Justified(states, i, j, k, CauseOf(AgentAt(states[j], k)))
  {
    hide Justifies, CauseOf, KeyInv, Initial;
    if i == j {
      NothingToJustify(states[i], k);
    } else {
      EveryCauseIsJustified(states, events, i, j - 1, k);
      ReachableKey(states, events, j - 1, k);
      CauseStep(states[j - 1], events[j - 1], states[j], k);
    }
  }

  lemma NothingToJustify(s: State, k: NodeKey)
    requires AgentAt(s, k).Idle?
    ensures Justifies(s, k, CauseOf(AgentAt(s, k)))
  {
  }

  /** The same, said of what was seen. */
  lemma WhatAReconcileSaw(states: seq<State>, events: seq<Event>, i: nat, j: nat, k: NodeKey)
    requires IsRun(states, events) && i <= j < |states| && AgentAt(states[i], k).Idle?
    ensures
      match CauseOf(AgentAt(states[j], k))
      case NoneYet => true
      case ReadyAndUsed => Saw(states, i, j, k, Ready, true)
      case ReadyAndUnused => Saw(states, i, j, k, Ready, false)
      case ToPopulate => SawNeed(states, i, j, k)
  {
    hide Was, CauseOf, Initial, Next;
    EveryCauseIsJustified(states, events, i, j, k);
    var cause := CauseOf(AgentAt(states[j], k));
    var m :| i <= m <= j && m < |states| && Justifies(states[m], k, cause);
  }

  // --------------------------------------------------- before the finalizer

  /** Without its finalizer, a ModelCacheNode has no status yet; and that is how adding it finds the object. */
  predicate Unclaimed(v: View) {
    && (v.node.Some? && !v.node.value.finalizer ==> v.node.value.status == FRESH_STATUS)
    && (v.node.Some? && v.pc.AddFinalizer? ==> !v.node.value.finalizer)
  }

  lemma UnclaimedAgentStep(v: View, w: View, used: bool, now: Time, tick: nat)
    requires Unclaimed(v) && FinalizersHeld(v) && AgentStep(v, w, used, now, tick)
    ensures Unclaimed(w)
  {
  }

  /** Others leave status and finalizer of a ModelCacheNode alone; a new one has neither. */
  predicate NodeKept(n: map<NodeKey, NodeObj>, n': map<NodeKey, NodeObj>, k: NodeKey) {
    k in n' ==>
      if k in n then n'[k].status == n[k].status && n'[k].finalizer == n[k].finalizer
      else n'[k].status == FRESH_STATUS && !n'[k].finalizer
  }

  lemma ControllerKeepsNode(d: Desk, d': Desk, c: CacheKey, k: NodeKey)
    requires DeskStep(d, d', c)
    ensures NodeKept(d.nodes, d'.nodes, k)
  {
  }

  lemma NodeElsewhere(s: State, e: Event, s': State, k: NodeKey)
    requires Next(s, e, s') && e != AgentSteps(k)
    ensures NodeKept(s.nodes, s'.nodes, k)
  {
    hide DeskStep, AgentStep;
    if e.ControllerSteps? { ControllerKeepsNode(DeskOf(s, e.c), DeskOf(s', e.c), e.c, k); }
  }

  lemma UnclaimedElsewhere(s: State, e: Event, s': State, k: NodeKey)
    requires Unclaimed(ViewOf(s, k)) && Next(s, e, s') && e != AgentSteps(k)
    ensures Unclaimed(ViewOf(s', k))
  {
    hide Next;
    NodeElsewhere(s, e, s', k);
    CauseStays(s, e, s', k);
  }

  lemma {:induction false} NoStatusBeforeTheFinalizer(states: seq<State>, events: seq<Event>, i: nat, k: NodeKey)
    requires IsRun(states, events) && i < |states|
    ensures Unclaimed(ViewOf(states[i], k))
  {
    hide Unclaimed, Next, KeyInv;
    if i == 0 {
      NothingClaimed(states[0], k);
    } else {
      NoStatusBeforeTheFinalizer(states, events, i - 1, k);
      ReachableKey(states, events, i - 1, k);
      UnclaimedStep(states[i - 1], events[i - 1], states[i], k);
    }
  }

  lemma NothingClaimed(s: State, k: NodeKey)
    requires Initial(s)
    ensures Unclaimed(ViewOf(s, k))
  {
  }

  lemma UnclaimedStep(s: State, e: Event, s': State, k: NodeKey)
    requires KeyInv(ViewOf(s, k), s.clock) && Unclaimed(ViewOf(s, k)) && Next(s, e, s')
    ensures Unclaimed(ViewOf(s', k))
  {
    hide Unclaimed, AgentStep;
    if e == AgentSteps(k) {
      UnclaimedAgentStep(ViewOf(s, k), ViewOf(s', k), Used(s, k), s.clock, s.tick);
    } else {
      UnclaimedElsewhere(s, e, s', k);
    }
  }

  // ------------------------------------------- an evicted cache nobody uses

  /** Evicted, and no reconcile past the count of Pods; it may be on its way out. */
  predicate Resting(s: State, k: NodeKey) {
    && k in s.nodes && s.nodes[k].status.phase == Evicted
    && CauseOf(AgentAt(s, k)).NoneYet?
  }

  lemma RestingAgentStep(v: View, w: View, now: Time, tick: nat)
    requires v.node.Some? && v.node.value.status.phase == Evicted && CauseOf(v.pc).NoneYet? && MemoryCurrent(v)
    requires AgentStep(v, w, false, now, tick) && w.node.Some?
    ensures w.node.value.status.phase == Evicted && CauseOf(w.pc).NoneYet? && (v.dir.None? ==> w.dir.None?)
  {
  }

  /** Only the steps of its agent touch the directory of `k`. */
  lemma DiskElsewhere(s: State, e: Event, s': State, k: NodeKey)
    requires Next(s, e, s') && e != AgentSteps(k)
    ensures k in s.disks <==> k in s'.disks
  {
    hide DeskStep, AgentStep, OutsideStep, Used;
    match e
    case AgentSteps(_) =>
    case AgentEnds(_) =>
    case ControllerSteps(_) =>
    case ControllerEnds(_) =>
    case _ => OutsideKeepsDisks(s, e, s');
  }

  lemma OutsideKeepsDisks(s: State, e: Event, s': State)
    requires OutsideStep(s, e, s')
    ensures s'.disks == s.disks
  {
  }

  lemma RestingStep(s: State, e: Event, s': State, k: NodeKey)
    requires KeyInv(ViewOf(s, k), s.clock) && Resting(s, k) && !Used(s, k) && Next(s, e, s') && k in s'.nodes
    ensures Resting(s', k) && (k !in s.disks ==> k !in s'.disks)
  {
    hide AgentStep, DeskStep, CauseOf;
    if e == AgentSteps(k) {
      RestingAgentStep(ViewOf(s, k), ViewOf(s', k), s.clock, s.tick);
      assert k !in s.disks ==> ViewOf(s', k).dir.None?;
    } else {
      NodeElsewhere(s, e, s', k);
      DiskElsewhere(s, e, s', k);
      CauseStays(s, e, s', k);
      NothingHolds();
    }
  }

  lemma NothingHolds()
    ensures CauseOf(Idle).NoneYet?
  {
  }

  /**
   As long as no Pod on the node uses it, an evicted ModelCacheNode stays evicted while it exists,
   and nobody makes a directory for it.
   */
  lemma {:induction false} EvictedStaysEvicted(states: seq<State>, events: seq<Event>, i: nat, j: nat, k: NodeKey)
    requires IsRun(states, events) && i <= j < |states| && Resting(states[i], k)
    requires forall m :: i <= m < j ==> !Used(states[m], k)
    requires forall m :: i <= m <= j ==> k in states[m].nodes
    ensures Resting(states[j], k) && (k !in states[i].disks ==> k !in states[j].disks)
  {
    hide Resting, KeyInv, Initial, Used;
    if i < j {
      EvictedStaysEvicted(states, events, i, j - 1, k);
      ReachableKey(states, events, j - 1, k);
      RestingStep(states[j - 1], events[j - 1], states[j], k);
    }
  }
}
