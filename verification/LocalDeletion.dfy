/** Deleting a local ModelCache terminates: a rank that never rises and can always be lowered. */
module LocalDeletion {
  import opened Common
  import opened LocalProtocol
  import opened LocalSafety

  /** The ModelCacheNodes of `c` without, and with, a deletion timestamp. */
  function UndeletedNodes(s: State, c: CacheKey): set<NodeKey> {
    set k | k in s.nodes && k.cache == c && !s.nodes[k].deleting
  }

  function TerminatingNodes(s: State, c: CacheKey): set<NodeKey> {
    set k | k in s.nodes && k.cache == c && s.nodes[k].deleting
  }

  function Rank(s: State, c: CacheKey): nat {
    2 * |UndeletedNodes(s, c)| + |TerminatingNodes(s, c)| + (if c in s.caches then 1 else 0)
  }

  /** The ModelCache has its deletion timestamp, and no reconcile from before is in flight. */
  predicate BeingDeleted(s: State, c: CacheKey) {
    && c in s.caches && s.caches[c].deleting
    && (ControllerAt(s, c).CIdle? || Deleting(ControllerAt(s, c)))
  }

  // ---------------------------------------------------------- the rank never rises

  predicate OnlyDeletes(s: State, s': State, c: CacheKey) {
    (c in s'.caches ==> c in s.caches) && OnlyGo(s.nodes, s'.nodes, c)
  }

  lemma SubsetSizes<T>(a: set<T>, b: set<T>)
    requires a <= b
    ensures |a| <= |b|
    ensures a != b ==> |a| < |b|
  {
    assert b == a + (b - a);
  }

  lemma RankOfDeletes(s: State, s': State, c: CacheKey)
    requires OnlyDeletes(s, s', c)
    ensures Rank(s', c) <= Rank(s, c)
    ensures c !in s'.caches && c in s.caches ==> Rank(s', c) < Rank(s, c)
    ensures UndeletedNodes(s', c) != UndeletedNodes(s, c) ==> Rank(s', c) < Rank(s, c)
    ensures (exists k: NodeKey :: k.cache == c && k in s.nodes && k !in s'.nodes) ==> Rank(s', c) < Rank(s, c)
  {
    var u, t, u', t' := UndeletedNodes(s, c), TerminatingNodes(s, c), UndeletedNodes(s', c), TerminatingNodes(s', c);
    assert |u + t| == |u| + |t| by { assert u !! t; }
    assert |u' + t'| == |u'| + |t'| by { assert u' !! t'; }
    SubsetSizes(u', u);
    SubsetSizes(u' + t', u + t);
    if k: NodeKey :| k.cache == c && k in s.nodes && k !in s'.nodes {
      assert k in u + t && k !in u' + t';
    }
  }

  lemma DeskOnlyDeletes(d: Desk, d': Desk, c: CacheKey)
    requires DeskStep(d, d', c) && c in d.caches && d.caches[c].deleting
    requires d.pc.CIdle? || Deleting(d.pc)
    ensures c in d'.caches ==> d'.caches == d.caches && (d'.pc.CIdle? || Deleting(d'.pc))
    ensures forall k :: k in d'.nodes ==> k in d.nodes && (d.nodes[k].deleting ==> d'.nodes[k].deleting)
  {
  }

  lemma ControllerOnlyDeletes(s: State, d: CacheKey, desk: Desk, c: CacheKey)
    requires MarkedInv(s) && BeingDeleted(s, c) && DeskStep(DeskOf(s, d), desk, d)
    ensures OnlyDeletes(s, PutDesk(s, d, desk), c)
    ensures c in desk.caches ==> BeingDeleted(PutDesk(s, d, desk), c)
  {
    if d == c {
      DeskOnlyDeletes(DeskOf(s, c), desk, c);
    } else {
      DeskStaysInFrame(DeskOf(s, d), desk, d);
    }
  }

  lemma OutsideOnlyDeletes(s: State, e: Event, s': State, c: CacheKey)
    requires OutsideStep(s, e, s') && BeingDeleted(s, c) && s.caches[c].finalizer
    ensures OnlyDeletes(s, s', c) && BeingDeleted(s', c)
  {
  }

  lemma NextOnlyDeletes(s: State, e: Event, s': State, c: CacheKey)
    requires Inv(s) && Next(s, e, s') && BeingDeleted(s, c)
    ensures OnlyDeletes(s, s', c)
    ensures c in s'.caches ==> BeingDeleted(s', c)
  {
    match e
    case AgentSteps(k) => AgentEventOnlyGoes(s, k, s', c);
    case AgentEnds(k) => AgentEventOnlyGoes(s, k, s', c);
    case ControllerSteps(d) => ControllerOnlyDeletes(s, d, DeskOf(s', d), c);
    case ControllerEnds(_) =>
    case _ =>
      assert KeyInv(ViewOf(s, NodeKey(c, "")), s.clock);
      OutsideOnlyDeletes(s, e, s', c);
  }

  /** Under any step at all the rank never rises, and the deletion stays under way until the object is gone. */
  lemma RankNeverRises(s: State, e: Event, s': State, c: CacheKey)
    requires Inv(s) && Next(s, e, s') && BeingDeleted(s, c)
    ensures Rank(s', c) <= Rank(s, c)
    ensures c in s'.caches ==> BeingDeleted(s', c)
  {
    hide Inv, Next;
    NextOnlyDeletes(s, e, s', c);
    RankOfDeletes(s, s', c);
  }

  // ------------------------------------------------------- ...and can be lowered

  /** The system's own events: no user, no scheduler. */
  predicate Working(e: Event) {
    e.AgentSteps? || e.AgentEnds? || e.ControllerSteps? || e.ControllerEnds?
  }

  /** Agents and controllers alone can bring the system from `s` to `t`. */
  ghost predicate Leads(s: State, t: State) {
    exists states, events :: LeadsVia(s, t, states, events)
  }

  ghost predicate LeadsVia(s: State, t: State, states: seq<State>, events: seq<Event>) {
    && IsPath(states, events) && states[0] == s && states[|events|] == t
    && (forall i :: 0 <= i < |events| ==> Working(events[i]))
  }

  lemma LeadsNowhere(s: State)
    ensures Leads(s, s)
  {
    assert LeadsVia(s, s, [s], []);
  }

  lemma LeadsOneMore(s: State, t: State, e: Event, t': State)
    requires Leads(s, t) && Working(e) && Next(t, e, t')
    ensures Leads(s, t')
  {
    var states, events :| LeadsVia(s, t, states, events);
    var states', events' := states + [t'], events + [e];
    forall i | 0 <= i < |events'| ensures Next(states'[i], events'[i], states'[i + 1]) {
      if i < |events| { assert events'[i] == events[i]; }
    }
    assert LeadsVia(s, t', states', events');
  }

  lemma {:induction false} LeadsOn(s: State, t: State, u: State, states: seq<State>, events: seq<Event>)
    requires Leads(s, t) && LeadsVia(t, u, states, events)
    ensures Leads(s, u)
    decreases |events|
  {
    if |events| > 0 {
      var n := |events| - 1;
      assert forall i :: 0 <= i < n ==> events[..n][i] == events[i];
      LeadsOn(s, t, states[n], states[..n + 1], events[..n]);
      assert Working(events[n]);
      LeadsOneMore(s, states[n], events[n], u);
    }
  }

  lemma AgentLeads(s: State, t: State, k: NodeKey, w: View) returns (t': State)
    requires Leads(s, t) && Inv(t)
    requires AgentStep(ViewOf(t, k), w, Used(t, k), t.clock, t.tick)
    requires w.cache == ViewOf(t, k).cache && w.controller == ViewOf(t, k).controller
    ensures t' == PutView(t, k, w) && ViewOf(t', k) == w && Leads(s, t') && Inv(t')
  {
    t' := PutView(t, k, w);
    PutViewHere(t, k, w);
    assert AgentMoves(t, k, t');
    LeadsOneMore(s, t, AgentSteps(k), t');
    AgentEventKeeps(t, k, t');
  }

  lemma ControllerLeads(s: State, t: State, c: CacheKey, d: Desk) returns (t': State)
    requires Leads(s, t) && Inv(t) && DeskStep(DeskOf(t, c), d, c)
    ensures t' == PutDesk(t, c, d) && DeskOf(t', c) == d && Leads(s, t') && Inv(t')
  {
    t' := PutDesk(t, c, d);
    assert DeskOf(t', c) == d;
    LeadsOneMore(s, t, ControllerSteps(c), t');
    ControllerEventKeeps(t, c, t');
  }

  /** Lets the reconcile of `c` that is under way return. */
  lemma ControllerReturns(s: State, c: CacheKey) returns (t: State)
    requires Inv(s) && BeingDeleted(s, c)
    ensures Leads(s, t) && Inv(t) && BeingDeleted(t, c) && ControllerAt(t, c).CIdle?
    ensures t.nodes == s.nodes && t.caches == s.caches && Rank(t, c) == Rank(s, c)
  {
    t := PutController(s, c, CIdle, s.caches, s.nodes);
    LeadsNowhere(s);
    LeadsOneMore(s, s, ControllerEnds(c), t);
    ControllerEventKeeps(s, c, t);
    assert UndeletedNodes(t, c) == UndeletedNodes(s, c) && TerminatingNodes(t, c) == TerminatingNodes(s, c);
  }

  /** Every ModelCacheNode of the cache carries the labels that the deletion selects by. */
  lemma AllListed(s: State, c: CacheKey)
    requires Inv(s) && c in s.caches
    ensures Listed(s.nodes, c, s.caches[c]) == UndeletedNodes(s, c) + TerminatingNodes(s, c)
    ensures Undeleted(s.nodes, Listed(s.nodes, c, s.caches[c])) == UndeletedNodes(s, c)
  {
    forall k | k in s.nodes && k.cache == c ensures s.nodes[k].uid == s.caches[c].uid {
      assert KeyInv(ViewOf(s, k), s.clock);
    }
  }

  lemma Enumerate(ks: set<NodeKey>) returns (list: seq<NodeKey>)
    ensures Members(list) == ks
  {
    if ks == {} {
      list := [];
    } else {
      var k :| k in ks;
      var rest := Enumerate(ks - {k});
      list := [k] + rest;
      forall j ensures j in Members(list) <==> j in ks {
        assert j in Members(list) <==> j == k || j in Members(rest);
      }
    }
  }

  lemma DeletingOneLowers(t: State, t': State, c: CacheKey, k: NodeKey)
    requires k in UndeletedNodes(t, c) && t'.nodes == NodeDeleted(t.nodes, k) && t'.caches == t.caches
    ensures Rank(t', c) < Rank(t, c)
  {
    assert k in UndeletedNodes(t, c) && k !in UndeletedNodes(t', c);
    RankOfDeletes(t, t', c);
  }

  /** Marking: with a ModelCacheNode not yet deleted, one controller reconcile deletes one. */
  lemma MarkingLowers(s: State, t: State, c: CacheKey) returns (t': State)
    requires Leads(s, t) && Inv(t) && BeingDeleted(t, c) && ControllerAt(t, c).CIdle?
    requires UndeletedNodes(t, c) != {}
    ensures Leads(s, t') && Inv(t') && Rank(t', c) < Rank(t, c) && (c in t'.caches ==> BeingDeleted(t', c))
  {
    var o := t.caches[c];
    var marked := Enumerate(UndeletedNodes(t, c));
    var t2 := Marks(s, t, c, marked);
    assert marked[0] in Members(marked);
    var k := marked[0];
    t' := ControllerLeads(s, t2, c, Desk(CDelete(o, marked[1..]), t.caches, NodeDeleted(t.nodes, k)));
    DeletingOneLowers(t, t', c, k);
  }

  lemma Marks(s: State, t: State, c: CacheKey, marked: seq<NodeKey>) returns (t': State)
    requires Leads(s, t) && Inv(t) && BeingDeleted(t, c) && ControllerAt(t, c).CIdle?
    requires UndeletedNodes(t, c) != {} && Members(marked) == UndeletedNodes(t, c)
    ensures Leads(s, t') && Inv(t') && DeskOf(t', c) == DeskOf(t, c).(pc := CDelete(t.caches[c], marked))
      && marked != []
  {
    var o := t.caches[c];
    assert KeyInv(ViewOf(t, NodeKey(c, "")), t.clock);
    assert marked == [] ==> Members(marked) == {};
    AllListed(t, c);
    var t1 := ControllerLeads(s, t, c, DeskOf(t, c).(pc := CList(o)));
    t' := ControllerLeads(s, t1, c, DeskOf(t1, c).(pc := CDelete(o, marked)));
  }

  /** Cleaning: a terminating ModelCacheNode goes in one agent reconcile. */
  lemma CleaningLowers(s: State, t: State, c: CacheKey, k: NodeKey) returns (t': State)
    requires Leads(s, t) && Inv(t) && BeingDeleted(t, c) && k in TerminatingNodes(t, c)
    ensures Leads(s, t') && Inv(t') && Rank(t', c) < Rank(t, c) && (c in t'.caches ==> BeingDeleted(t', c))
  {
    var v := Ended(ViewOf(t, k));
    var t1 := PutView(t, k, v);
    PutViewHere(t, k, v);
    LeadsOneMore(s, t, AgentEnds(k), t1);
    AgentEventKeeps(t, k, t1);
    t' := Cleans(s, t1, k, v);
    assert AgentFrame(t, t', k) && k in t.nodes && k !in t'.nodes;
    RankOfDeletes(t, t', c);
  }

  /** An agent's reconcile of `k` leaves the rest of the store alone. */
  ghost predicate AgentFrame(t: State, t': State, k: NodeKey) {
    && t'.caches == t.caches && t'.controllers == t.controllers
    && (forall j :: j != k ==> (j in t'.nodes <==> j in t.nodes) && (j in t.nodes ==> t'.nodes[j] == t.nodes[j]))
  }

  lemma Cleans(s: State, t: State, k: NodeKey, v: View) returns (t': State)
    requires Leads(s, t) && Inv(t) && v == ViewOf(t, k) && v.pc.Idle? && v.node.Some? && v.node.value.deleting
    ensures Leads(s, t') && Inv(t') && AgentFrame(t, t', k) && k !in t'.nodes
  {
    var t1 := StartsCleaning(s, t, k, v);
    var t2 := RemovesDirectory(s, t1, k, v.(pc := DeleteRemove));
    t' := CleansAway(s, t2, k, v.(pc := DeletePatch, dir := None));
  }

  lemma StartsCleaning(s: State, t: State, k: NodeKey, v: View) returns (t': State)
    requires Leads(s, t) && Inv(t) && v == ViewOf(t, k) && v.pc.Idle? && v.node.Some? && v.node.value.deleting
    ensures ViewOf(t', k) == v.(pc := DeleteRemove) && Leads(s, t') && Inv(t') && AgentFrame(t, t', k)
  {
    assert KeyInv(v, t.clock);
    assert StartStep(v, v.(pc := DeleteRemove));
    t' := AgentLeads(s, t, k, v.(pc := DeleteRemove));
  }

  lemma RemovesDirectory(s: State, t: State, k: NodeKey, v: View) returns (t': State)
    requires Leads(s, t) && Inv(t) && v == ViewOf(t, k) && v.pc.DeleteRemove?
    ensures ViewOf(t', k) == v.(pc := DeletePatch, dir := None) && Leads(s, t') && Inv(t') && AgentFrame(t, t', k)
  {
    assert DeleteStep(v, v.(pc := DeletePatch, dir := None));
    t' := AgentLeads(s, t, k, v.(pc := DeletePatch, dir := None));
  }

  lemma CleansAway(s: State, t: State, k: NodeKey, v: View) returns (t': State)
    requires Leads(s, t) && Inv(t) && v == ViewOf(t, k) && v.pc.DeletePatch? && v.node.Some? && v.node.value.deleting
    ensures k !in t'.nodes && Leads(s, t') && Inv(t') && AgentFrame(t, t', k)
  {
    assert DeleteStep(v, v.(pc := Idle, node := None));
    t' := AgentLeads(s, t, k, v.(pc := Idle, node := None));
  }

  /** Finishing: with no ModelCacheNode left, one controller reconcile lets the object go. */
  lemma FinishingLowers(s: State, t: State, c: CacheKey) returns (t': State)
    requires Leads(s, t) && Inv(t) && BeingDeleted(t, c) && ControllerAt(t, c).CIdle?
    requires UndeletedNodes(t, c) == {} && TerminatingNodes(t, c) == {}
    ensures Leads(s, t') && Inv(t') && Rank(t', c) < Rank(t, c) && c !in t'.caches
  {
    var o := t.caches[c];
    assert KeyInv(ViewOf(t, NodeKey(c, "")), t.clock);
    var t1 := ControllerLeads(s, t, c, DeskOf(t, c).(pc := CList(o)));
    AllListed(t, c);
    var t2 := ControllerLeads(s, t1, c, DeskOf(t1, c).(pc := CRemoveFinalizer(o)));
    t' := ControllerLeads(s, t2, c, Desk(CIdle, t.caches - {c}, t.nodes));
    RankOfDeletes(t, t', c);
  }

  /** While the deletion is under way, agents and the controller alone can lower the rank. */
  lemma RankCanBeLowered(s: State, c: CacheKey) returns (s': State)
    requires Inv(s) && BeingDeleted(s, c)
    ensures Leads(s, s') && Inv(s') && Rank(s', c) < Rank(s, c) && (c in s'.caches ==> BeingDeleted(s', c))
  {
    var t := ControllerReturns(s, c);
    if UndeletedNodes(t, c) != {} {
      s' := MarkingLowers(s, t, c);
    } else if k :| k in TerminatingNodes(t, c) {
      s' := CleaningLowers(s, t, c, k);
    } else {
      s' := FinishingLowers(s, t, c);
    }
  }

  /** Deletion completes: from any reachable state, agents and the controller alone can make the object go. */
  lemma {:induction false} DeletionCompletes(s: State, c: CacheKey) returns (s': State)
    requires Inv(s) && BeingDeleted(s, c)
    ensures Leads(s, s') && Inv(s') && c !in s'.caches
    ensures forall k: NodeKey :: k.cache == c ==> k !in s'.nodes && k !in s'.disks
    decreases Rank(s, c)
  {
    var t := RankCanBeLowered(s, c);
    if c in t.caches {
      s' := DeletionCompletes(t, c);
      var states, events :| LeadsVia(t, s', states, events);
      LeadsOn(s, t, s', states, events);
    } else {
      s' := t;
    }
    forall k: NodeKey | k.cache == c ensures k !in s'.nodes && k !in s'.disks {
      assert KeyInv(ViewOf(s', k), s'.clock);
      assert ViewOf(s', k).dir.None?;
    }
  }
}
