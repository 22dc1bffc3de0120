/**
 Concrete runs of the local-mode protocol: a cache does become Ready, and two things that
 a reader might expect of every run fail in some.
 */
module LocalWitnesses {
  import opened Common
  import opened LocalProtocol
  import opened LocalSafety
  import opened LocalTheorems

  ghost predicate RunTo(t: State, states: seq<State>, events: seq<Event>) {
    IsRun(states, events) && states[|events|] == t
  }

  ghost predicate Reached(t: State) {
    exists states, events :: RunTo(t, states, events)
  }

  const EMPTY := State(map[], map[], map[], map[], map[], map[], map[], 0, 0)

  lemma EmptyReached()
    ensures Reached(EMPTY)
  {
    assert RunTo(EMPTY, [EMPTY], []);
  }

  lemma NextReached(t: State, e: Event, t': State)
    requires Reached(t) && Next(t, e, t')
    ensures Reached(t')
  {
    var states, events :| RunTo(t, states, events);
    var states', events' := states + [t'], events + [e];
    forall i | 0 <= i < |events'| ensures Next(states'[i], events'[i], states'[i + 1]) {
      if i < |events| { assert events'[i] == events[i]; }
    }
    assert RunTo(t', states', events');
  }

  lemma AgentReaches(t: State, k: NodeKey, w: View) returns (t': State)
    requires Reached(t) && AgentStep(ViewOf(t, k), w, Used(t, k), t.clock, t.tick)
    requires w.cache == ViewOf(t, k).cache && w.controller == ViewOf(t, k).controller
    ensures Reached(t') && ViewOf(t', k) == w && t'.clock == t.clock && t'.pods == t.pods
  {
    t' := PutView(t, k, w);
    PutViewHere(t, k, w);
    NextReached(t, AgentSteps(k), t');
  }

  lemma ControllerReaches(t: State, c: CacheKey, d: Desk) returns (t': State)
    requires Reached(t) && DeskStep(DeskOf(t, c), d, c)
    ensures Reached(t') && t' == PutDesk(t, c, d) && DeskOf(t', c) == d
  {
    t' := PutDesk(t, c, d);
    NextReached(t, ControllerSteps(c), t');
  }

  /** The view of a cache whose controller reconcile is over, with the Pods and the clock beside it. */
  ghost predicate Stands(t: State, k: NodeKey, v: View, pods: map<string, Pod>) {
    Reached(t) && ViewOf(t, k) == v && t.pods == pods && t.clock == 0
  }

  function Fresh(o: CacheObj, n: NodeId): View {
    View(Some(o), CEnsure(o, []), Some(NodeObj(o.uid, o.ttl, false, false, FRESH_STATUS)), None, Idle, NO_HISTORY)
  }

  /** A user creates the cache and a Pod that names it; the controller makes one ModelCacheNode. */
  lemma NodeCreated(k: NodeKey, o: CacheObj, id: string) returns (t: State)
    requires o.finalizer && !o.deleting
    ensures Stands(t, k, Fresh(o, k.node), map[id := Pod({k.cache}, None)])
  {
    var c, bare := k.cache, o.(finalizer := false);
    EmptyReached();
    var t0 := EMPTY.(pods := map[id := Pod({c}, None)], tick := 1);
    NextReached(EMPTY, CreatePod(id, {c}), t0);
    var t1 := t0.(caches := map[c := bare], tick := 2);
    NextReached(t0, CreateCache(c, o.uid, o.source, o.ttl), t1);
    var t2 := ControllerReaches(t1, c, Desk(CAddFinalizer, map[c := bare], map[]));
    var t3 := ControllerReaches(t2, c, Desk(CListNodes(o), map[c := o], map[]));
    t := NodeEnsured(t3, k, o);
  }

  lemma NodeEnsured(t: State, k: NodeKey, o: CacheObj) returns (t': State)
    requires Reached(t) && DeskOf(t, k.cache) == Desk(CListNodes(o), map[k.cache := o], map[])
    requires t.disks == map[] && t.agents == map[] && t.history == map[] && t.clock == 0
    ensures Stands(t', k, Fresh(o, k.node), t.pods)
  {
    var c, caches := k.cache, map[k.cache := o];
    var t1 := ControllerReaches(t, c, Desk(CEnsure(o, [k.node]), caches, map[]));
    assert [k.node][1..] == [];
    var t2 := ControllerReaches(t1, c, Desk(CCreate(o, k.node, []), caches, map[]));
    t' := ControllerReaches(t2, c,
      Desk(CEnsure(o, []), caches, map[k := NodeObj(o.uid, o.ttl, false, false, FRESH_STATUS)]));
  }

  /** The agent takes the object over and prepares its directory. */
  lemma AgentPrepares(t: State, k: NodeKey, o: CacheObj) returns (t': State)
    requires Stands(t, k, Fresh(o, k.node), t.pods)
    ensures
      var n0 := NodeObj(o.uid, o.ttl, true, false, FRESH_STATUS);
      var n := n0.(status := MarkedPrepared(FRESH_STATUS));
      Stands(t', k, View(Some(o), CEnsure(o, []), Some(n), Some(map[OwnerFile := Owner(o.uid)]),
                         CheckMarker(Work(n, n0, o.source)), NO_HISTORY), t.pods)
  {
    var v := Fresh(o, k.node);
    var n := NodeObj(o.uid, o.ttl, true, false, FRESH_STATUS);
    var t1 := AgentReaches(t, k, v.(pc := AddFinalizer));
    var t2 := AgentReaches(t1, k, v.(node := Some(n), pc := Decide(n)));
    var t3 := AgentReaches(t2, k, v.(node := Some(n), pc := NeedCache(n)));
    var t4 := AgentReaches(t3, k, v.(node := Some(n), pc := Prepare(n, o.source)));
    t' := AgentWritesOwner(t4, k, o, n);
  }

  lemma AgentWritesOwner(t: State, k: NodeKey, o: CacheObj, n: NodeObj) returns (t': State)
    requires n == NodeObj(o.uid, o.ttl, true, false, FRESH_STATUS)
    requires Stands(t, k, Fresh(o, k.node).(node := Some(n), pc := Prepare(n, o.source)), t.pods)
    ensures
      var n' := n.(status := MarkedPrepared(FRESH_STATUS));
      Stands(t', k, View(Some(o), CEnsure(o, []), Some(n'), Some(map[OwnerFile := Owner(o.uid)]),
                         CheckMarker(Work(n', n, o.source)), NO_HISTORY), t.pods)
  {
    var v := ViewOf(t, k);
    var v1 := v.(dir := Some(map[]), pc := OwnerOpen(n, o.source));
    assert PrepareStep(v, v1);
    var t1 := AgentReaches(t, k, v1);
    var v2 := v.(dir := Some(map[OwnerFile := Partial]), pc := OwnerFill(n, o.source));
    assert PrepareStep(v1, v2);
    var t2 := AgentReaches(t1, k, v2);
    t' := AgentFillsOwner(t2, k, v2);
  }

  lemma AgentFillsOwner(t: State, k: NodeKey, v: View) returns (t': State)
    requires Stands(t, k, v, t.pods) && v.pc.OwnerFill? && v.pc.obj.status == FRESH_STATUS
    requires v.dir == Some(map[OwnerFile := Partial]) && v.node == Some(v.pc.obj)
    ensures
      var n, n' := v.pc.obj, v.pc.obj.(status := MarkedPrepared(FRESH_STATUS));
      Stands(t', k, v.(node := Some(n'), dir := Some(map[OwnerFile := Owner(n.uid)]),
                       pc := CheckMarker(Work(n', n, v.pc.source))), t.pods)
  {
    var n, n' := v.pc.obj, v.pc.obj.(status := MarkedPrepared(FRESH_STATUS));
    var dir := Some(map[OwnerFile := Owner(n.uid)]);
    assert map[OwnerFile := Partial][OwnerFile := Owner(n.uid)] == dir.value;
    var v1 := v.(dir := dir, pc := PatchDirectory(n, v.pc.source));
    assert PrepareStep(v, v1);
    var t1 := AgentReaches(t, k, v1);
    var v2 := v.(node := Some(n'), dir := dir, pc := CheckMarker(Work(n', n, v.pc.source)));
    assert PrepareStep(v1, v2);
    t' := AgentReaches(t1, k, v2);
  }

  /** The agent downloads an empty listing and marks the cache Ready at time 0. */
  lemma AgentCompletes(t: State, k: NodeKey, v: View) returns (t': State, v': View)
    requires Stands(t, k, v, t.pods) && v.pc.CheckMarker? && Prepared(v, v.pc.work) && MarkerFile !in v.dir.value
    ensures MadeReady(t, k, v, t', v')
  {
    var v1 := v.(pc := Listing(v.pc.work));
    assert CompleteStep(v, v1, 0);
    var t1 := AgentReaches(t, k, v1);
    t', v' := AgentFetches(t1, k, v1);
  }

  lemma AgentFetches(t: State, k: NodeKey, v: View) returns (t': State, v': View)
    requires Stands(t, k, v, t.pods) && v.pc.Listing? && Prepared(v, v.pc.work)
    ensures MadeReady(t, k, v, t', v')
  {
    var v1 := v.(pc := Fetch(v.pc.work, [], []));
    assert FetchStep(v, v1);
    var t1 := AgentReaches(t, k, v1);
    var v2 := v.(pc := ManifestOpen(v.pc.work, [], []));
    assert FetchStep(v1, v2);
    var t2 := AgentReaches(t1, k, v2);
    t', v' := AgentWritesManifest(t2, k, v2);
  }

  /** The agent's object once it is prepared, as first read and as patched. */
  predicate Prepared(v: View, work: Work) {
    && v.dir.Some? && v.node == Some(work.obj)
    && work.obj.status == MarkedPrepared(FRESH_STATUS) && work.original.status == FRESH_STATUS
  }

  ghost predicate MadeReady(t: State, k: NodeKey, v: View, t': State, v': View) {
    && Stands(t', k, v', t.pods) && Complete(v'.dir) && v'.pc.Idle? && v.node.Some?
    && v'.node == Some(v.node.value.(status := MarkedReady(MarkedPrepared(FRESH_STATUS), 0)))
    && v'.cache == v.cache && v'.controller == v.controller
  }

  lemma AgentWritesManifest(t: State, k: NodeKey, v: View) returns (t': State, v': View)
    requires Stands(t, k, v, t.pods) && v.pc.ManifestOpen? && v.pc == ManifestOpen(v.pc.work, [], [])
    requires Prepared(v, v.pc.work)
    ensures MadeReady(t, k, v, t', v')
  {
    var work := v.pc.work;
    var d1 := v.dir.value[ManifestFile := Partial];
    var v1 := v.(dir := Some(d1), pc := ManifestFill(work, [], []));
    assert CompleteStep(v, v1, 0);
    var t1 := AgentReaches(t, k, v1);
    var v2 := v.(dir := Some(d1[ManifestFile := Manifest(work.obj.uid, work.source)]), pc := MarkerOpen(work, [], []));
    assert CompleteStep(v1, v2, 0);
    var t2 := AgentReaches(t1, k, v2);
    t', v' := AgentWritesMarker(t2, k, v2);
  }

  lemma AgentWritesMarker(t: State, k: NodeKey, v: View) returns (t': State, v': View)
    requires Stands(t, k, v, t.pods) && v.pc.MarkerOpen? && v.pc == MarkerOpen(v.pc.work, [], [])
    requires Prepared(v, v.pc.work)
    ensures MadeReady(t, k, v, t', v')
  {
    var work, h := v.pc.work, v.history.(files := [], log := []);
    var d := v.dir.value[MarkerFile := Partial];
    var v1 := v.(dir := Some(d), pc := MarkerFill(work), history := h);
    assert CompleteStep(v, v1, 0);
    var t1 := AgentReaches(t, k, v1);
    var v2 := v.(dir := Some(d[MarkerFile := Marker]), pc := Completed(work), history := h);
    assert CompleteStep(v1, v2, 0);
    var t2 := AgentReaches(t1, k, v2);
    t', v' := AgentReadsTheClock(t2, k, v2);
  }

  lemma AgentReadsTheClock(t: State, k: NodeKey, v: View) returns (t': State, v': View)
    requires Stands(t, k, v, t.pods) && v.pc.Completed? && Complete(v.dir) && Prepared(v, v.pc.work)
    ensures MadeReady(t, k, v, t', v')
  {
    var v1 := v.(pc := MarkReady(v.pc.work, 0));
    assert CompleteStep(v, v1, 0);
    var t1 := AgentReaches(t, k, v1);
    t', v' := AgentMarksReady(t1, k, v1);
  }

  lemma AgentMarksReady(t: State, k: NodeKey, v: View) returns (t': State, v': View)
    requires Stands(t, k, v, t.pods) && v.pc.MarkReady? && v.pc.now == 0 && Complete(v.dir)
    requires Prepared(v, v.pc.work)
    ensures MadeReady(t, k, v, t', v')
  {
    var st := MarkedReady(MarkedPrepared(FRESH_STATUS), 0);
    assert MergePatch(MarkedPrepared(FRESH_STATUS), FRESH_STATUS, st) == st;
    v' := v.(node := Some(v.node.value.(status := st)), pc := Idle,
             history := Recorded(v.history, 0).(lostPatch := false));
    assert CompleteStep(v, v', 0);
    t' := AgentReaches(t, k, v');
  }

  /** A cache can become Ready with its files in place. */
  lemma ACacheBecomesReady(k: NodeKey, o: CacheObj, id: string) returns (t: State, v: View)
    requires o.finalizer && !o.deleting
    ensures Stands(t, k, v, map[id := Pod({k.cache}, None)]) && Complete(v.dir) && v.pc.Idle?
    ensures v.node == Some(NodeObj(o.uid, o.ttl, true, false, MarkedReady(MarkedPrepared(FRESH_STATUS), 0)))
  {
    var t1 := NodeCreated(k, o, id);
    var t2 := AgentPrepares(t1, k, o);
    t, v := AgentCompletes(t2, k, ViewOf(t2, k));
  }

  /** A download can be under way with a listed file opened and no marker yet. */
  lemma ADownloadOpens(k: NodeKey, o: CacheObj, id: string, e: Entry) returns (t: State)
    requires o.finalizer && !o.deleting && Listable([e])
    ensures Reached(t) && k in t.disks && e in t.disks[k] && MarkerFile !in t.disks[k]
    ensures forall x :: x in t.disks[k] && x.ModelFile? ==> x == e
  {
    var t0 := NodeCreated(k, o, id);
    var t1 := AgentPrepares(t0, k, o);
    var v := ViewOf(t1, k);
    var v1 := v.(pc := Listing(v.pc.work));
    assert CompleteStep(v, v1, 0);
    var t2 := AgentReaches(t1, k, v1);
    t := AgentOpens(t2, k, v1, e);
  }

  lemma AgentOpens(t: State, k: NodeKey, v: View, e: Entry) returns (t': State)
    requires Stands(t, k, v, t.pods) && v.pc.Listing? && v.dir.Some? && Listable([e])
    requires MarkerFile !in v.dir.value && forall x :: x in v.dir.value ==> !x.ModelFile?
    ensures Reached(t') && k in t'.disks && e in t'.disks[k] && MarkerFile !in t'.disks[k]
    ensures forall x :: x in t'.disks[k] && x.ModelFile? ==> x == e
  {
    var v1 := v.(pc := Fetch(v.pc.work, [e], []));
    assert FetchStep(v, v1);
    var t1 := AgentReaches(t, k, v1);
    var v2 := v.(dir := Some(v.dir.value[e := Data([])]), pc := Copy(v.pc.work, [e], [], []));
    assert FetchStep(v1, v2);
    t' := AgentReaches(t1, k, v2);
    assert ViewOf(t', k).dir == v2.dir;
  }

  /** Once the TTL has passed and no Pod is bound to the node, its agent is about to remove the directory. */
  lemma AnEvictionIsDecided(k: NodeKey, o: CacheObj, id: string) returns (t: State, v: View)
    requires o.finalizer && !o.deleting && o.ttl.Ttl?
    ensures Reached(t) && ViewOf(t, k) == v && v.pc.EvictRemove? && Complete(v.dir) && v.pc.countedAt < t.tick
    ensures v.node.Some? && v.node.value == v.pc.obj && v.node.value.status.phase == Ready && !v.node.value.deleting
    ensures t.pods == map[id := Pod({k.cache}, None)]
  {
    var t0, v0 := ACacheBecomesReady(k, o, id);
    var n, now := v0.node.value, o.ttl.duration;
    var t1 := t0.(clock := now, tick := t0.tick + 1);
    NextReached(t0, TimePasses(now), t1);
    assert ViewOf(t1, k) == v0;
    var t2 := AgentReaches(t1, k, v0.(pc := Decide(n)));
    t, v := AgentDecides(t2, k, v0.(pc := Decide(n)));
  }

  lemma AgentDecides(t: State, k: NodeKey, v: View) returns (t': State, v': View)
    requires Reached(t) && v == ViewOf(t, k) && v.pc.Decide? && !Used(t, k)
    requires v.node == Some(v.pc.obj) && v.pc.obj.status.phase == Ready && v.pc.obj.ttl.Ttl?
    requires v.pc.obj.status.lastUsed == Some(0) && t.clock >= v.pc.obj.ttl.duration
    ensures Reached(t') && ViewOf(t', k) == v' && v'.pc.EvictRemove? && v'.pc.countedAt < t'.tick
    ensures v' == v.(pc := EvictRemove(v.pc.obj, t.tick, t.clock)) && t'.pods == t.pods
  {
    var n := v.pc.obj;
    var v1 := v.(pc := Unused(n, t.tick));
    assert DecideStep(v, v1, false, t.tick);
    var t1 := PutView(t, k, v1);
    PutViewHere(t, k, v1);
    NextReached(t, AgentSteps(k), t1);
    v' := v.(pc := EvictRemove(n, t.tick, t.clock));
    assert UsageStep(v1, v', t.clock);
    t' := PutView(t1, k, v');
    PutViewHere(t1, k, v');
    NextReached(t1, AgentSteps(k), t');
  }

  /**
   The race that counting before removing leaves open: a Pod bound between the two loses its
   directory. Hence `EvictionSparesCountedPods` cannot promise more than it does.
   */
  lemma APodBoundAfterTheCountLosesItsDirectory(k: NodeKey, o: CacheObj, id: string) returns (t: State)
    requires o.finalizer && !o.deleting && o.ttl.Ttl?
    ensures Reached(t) && k !in t.disks && id in t.pods && PodUses(t.pods[id], k)
  {
    var t0, v := AnEvictionIsDecided(k, o, id);
    var t1 := t0.(pods := t0.pods[id := Pod({k.cache}, Some(Binding(k.node, t0.tick)))], tick := t0.tick + 1);
    NextReached(t0, BindPod(id, k.node), t1);
    assert ViewOf(t1, k) == v;
    t := AgentReaches(t1, k, v.(dir := None, pc := EvictMark(v.pc.obj)));
    assert ViewOf(t, k).dir.None?;
  }

  /** A crash between removing the directory and patching the status leaves a Ready object without files. */
  lemma ALostPatchLeavesReadyWithoutFiles(k: NodeKey, o: CacheObj, id: string) returns (t: State)
    requires o.finalizer && !o.deleting && o.ttl.Ttl?
    ensures Reached(t) && Stranded(ViewOf(t, k)) && HistoryOf(t, k).lostPatch
  {
    var t0, v := AnEvictionIsDecided(k, o, id);
    var w := v.(dir := None, pc := EvictMark(v.pc.obj));
    var t1 := AgentReaches(t0, k, w);
    t := PutView(t1, k, Ended(w));
    PutViewHere(t1, k, Ended(w));
    NextReached(t1, AgentEnds(k), t);
  }

  // ------------------------------------- a reader between two steps of the agent

  /** A run passes through `s` and ends in `t`. */
  ghost predicate ReachedVia(s: State, t: State) {
    exists states, events, i :: RunTo(t, states, events) && 0 <= i < |states| && states[i] == s
  }

  lemma AgentGoesOn(s: State, t: State, k: NodeKey, w: View) returns (t': State)
    requires ReachedVia(s, t) && AgentStep(ViewOf(t, k), w, Used(t, k), t.clock, t.tick)
    requires w.cache == ViewOf(t, k).cache && w.controller == ViewOf(t, k).controller
    ensures ReachedVia(s, t') && ViewOf(t', k) == w && t'.clock == t.clock && t'.pods == t.pods
  {
    t' := PutView(t, k, w);
    PutViewHere(t, k, w);
    var states, events, i :| RunTo(t, states, events) && 0 <= i < |states| && states[i] == s;
    var states', events' := states + [t'], events + [AgentSteps(k)];
    assert AgentMoves(t, k, t');
    forall m | 0 <= m < |events'| ensures Next(states'[m], events'[m], states'[m + 1]) {
      if m < |events| { assert events'[m] == events[m]; }
    }
    assert RunTo(t', states', events') && states'[i] == s;
  }

  /**
   Between seeing the marker and mounting, a driver can lose the directory and find another one
   that is not yet filled: the eviction was decided before the Pod came, and its agent has
   begun to populate the cache again.
   */
  lemma AMarkerSeenCanBeGoneAtTheMount(k: NodeKey, o: CacheObj, id: string) returns (s: State, t: State)
    requires o.finalizer && !o.deleting && o.ttl.Ttl?
    ensures ReachedVia(s, t) && HasMarker(s, k) && k in t.disks && !HasMarker(t, k)
    ensures t.pods == s.pods && id in s.pods && PodUses(s.pods[id], k)
  {
    var t0, v := AnEvictionIsDecided(k, o, id);
    s := t0.(pods := t0.pods[id := Pod({k.cache}, Some(Binding(k.node, t0.tick)))], tick := t0.tick + 1);
    NextReached(t0, BindPod(id, k.node), s);
    assert ViewOf(s, k) == v && HasMarker(s, k) && PodUses(s.pods[id], k);
    assert ReachedVia(s, s) by {
      var states, events :| RunTo(s, states, events);
      assert states[|events|] == s;
    }
    t := AgentEvictsAndRestarts(s, s, k, v);
  }

  lemma AgentEvictsAndRestarts(s: State, t: State, k: NodeKey, v: View) returns (t': State)
    requires ReachedVia(s, t) && v == ViewOf(t, k) && v.pc.EvictRemove? && Used(t, k)
    requires v.node == Some(v.pc.obj) && v.pc.obj.status.phase == Ready && !v.pc.obj.deleting
    ensures ReachedVia(s, t') && t'.pods == t.pods && k in t'.disks && !HasMarker(t', k)
  {
    KnownOn(s, t, k);
    var n := v.pc.obj;
    var v1 := v.(dir := None, pc := EvictMark(n));
    assert UsageStep(v, v1, t.clock);
    var t1 := AgentGoesOn(s, t, k, v1);
    var st := MarkedEvicted(n.status);
    assert MergePatch(n.status, n.status, st) == st;
    var n' := n.(status := st);
    var v2 := v1.(node := Some(n'), pc := Idle, history := v.history.(lostPatch := false));
    assert UsageStep(v1, v2, t.clock);
    var t2 := AgentGoesOn(s, t1, k, v2);
    t' := AgentRestarts(s, t2, k, v2);
  }

  lemma KnownOn(s: State, t: State, k: NodeKey)
    requires ReachedVia(s, t)
    ensures KeyInv(ViewOf(t, k), t.clock)
  {
    var states, events, i :| RunTo(t, states, events) && 0 <= i < |states| && states[i] == s;
    ReachableKey(states, events, |events|, k);
  }

  lemma AgentRestarts(s: State, t: State, k: NodeKey, v: View) returns (t': State)
    requires ReachedVia(s, t) && v == ViewOf(t, k) && v.pc.Idle? && v.dir.None? && v.node.Some? && Used(t, k)
    requires v.node.value.status.phase == Evicted && !v.node.value.deleting && v.node.value.finalizer
    ensures ReachedVia(s, t') && t'.pods == t.pods && k in t'.disks && !HasMarker(t', k)
  {
    KnownOn(s, t, k);
    var n, source := v.node.value, v.cache.value.source;
    assert StartStep(v, v.(pc := Decide(n)));
    var t1 := AgentGoesOn(s, t, k, v.(pc := Decide(n)));
    assert DecideStep(v.(pc := Decide(n)), v.(pc := NeedCache(n)), true, t1.tick);
    assert Used(t1, k);
    var t2 := AgentGoesOn(s, t1, k, v.(pc := NeedCache(n)));
    assert PrepareStep(v.(pc := NeedCache(n)), v.(pc := Prepare(n, source)));
    var t3 := AgentGoesOn(s, t2, k, v.(pc := Prepare(n, source)));
    var v4 := v.(dir := Some(map[]), pc := OwnerOpen(n, source));
    assert PrepareStep(v.(pc := Prepare(n, source)), v4);
    t' := AgentGoesOn(s, t3, k, v4);
    assert ViewOf(t', k).dir == Some(map[]);
  }
}
