/** The controller's reconcile of a local-mode ModelCache, effect by effect on a shared cluster. */
module CacheControllers {
  import opened Common
  import opened LocalProtocol
  import opened LocalTheorems
  import opened Clusters
  import opened CacheStatuses

  /** A ModelCacheNode as a list call returned it. */
  datatype Item = Item(key: NodeKey, deleting: bool)

  /** The listed objects that have no deletion timestamp. */
  function ToDelete(items: seq<Item>): seq<NodeKey> {
    if items == [] then []
    else (if items[0].deleting then [] else [items[0].key]) + ToDelete(items[1..])
  }

  lemma {:induction false} ToDeleteMembers(items: seq<Item>)
    ensures forall k :: k in Members(ToDelete(items)) <==> Item(k, false) in items
  {
    if items != [] {
      ToDeleteMembers(items[1..]);
      var first: seq<NodeKey> := if items[0].deleting then [] else [items[0].key];
      forall k ensures k in Members(ToDelete(items)) <==> Item(k, false) in items {
        assert k in ToDelete(items) <==> k in first || k in Members(ToDelete(items[1..]));
        assert Item(k, false) in items <==> Item(k, false) == items[0] || Item(k, false) in items[1..];
      }
    }
  }

  /** How a reconcile ended. */
  datatype Outcome =
    | NotFound
    | CallFailed
    | NothingToRelease
    | Released
    | WaitingForNodes
    | Reported(status: CacheStatus)

  /** At some point after `r0`, `k` existed with the given UID and phase. */
  ghost predicate SeenSince(r0: LocalRun, r: LocalRun, k: NodeKey, uid: string, phase: Phase) {
    exists j :: |r0.events| <= j < |r.states|
      && k in r.states[j].nodes && r.states[j].nodes[k].uid == uid && r.states[j].nodes[k].status.phase == phase
  }

  lemma SeenStays(r0: LocalRun, r1: LocalRun, r: LocalRun, r': LocalRun, k: NodeKey, uid: string, phase: Phase)
    requires SeenSince(r1, r, k, uid, phase) && Grew(r0, r1) && Grew(r, r')
    ensures SeenSince(r0, r', k, uid, phase)
  {
    var j :| |r1.events| <= j < |r.states|
      && k in r.states[j].nodes && r.states[j].nodes[k].uid == uid && r.states[j].nodes[k].status.phase == phase;
    assert r'.states[j] == r.states[j];
  }

  lemma SeenNow(r0: LocalRun, r: LocalRun, s: State, k: NodeKey)
    requires RunTo(r, s) && Grew(r0, r) && k in s.nodes
    ensures SeenSince(r0, r, k, s.nodes[k].uid, s.nodes[k].status.phase)
  {
    assert r.states[|r.events|] == s;
  }

  /** The phases are those that the ModelCacheNodes on the selected nodes had after `r0`. */
  ghost predicate PhasesOf(r0: LocalRun, r: LocalRun, c: CacheKey, uid: string, selected: seq<NodeId>,
                           phases: seq<Phase>) {
    && |phases| == |selected|
    && forall i :: 0 <= i < |phases| ==> SeenSince(r0, r, NodeKey(c, selected[i]), uid, phases[i])
  }

  /** `st` is the aggregate of what was seen on the selected nodes after `r0`. */
  ghost predicate Summarises(st: CacheStatus, before: CacheStatus, r0: LocalRun, r: LocalRun, c: CacheKey,
                             selected: seq<NodeId>) {
    exists uid, phases :: PhasesOf(r0, r, c, uid, selected, phases) && st == Aggregated(before, phases)
  }

  /** At some point after `r0`, the cache had a ModelCacheNode. */
  ghost predicate SawNode(r0: LocalRun, r: LocalRun, c: CacheKey) {
    exists j :: |r0.events| <= j < |r.states| && exists k: NodeKey :: k.cache == c && k in r.states[j].nodes
  }

  lemma NodeSeenStays(r0: LocalRun, r1: LocalRun, r: LocalRun, r': LocalRun, c: CacheKey)
    requires SawNode(r1, r, c) && Grew(r0, r1) && Grew(r, r')
    ensures SawNode(r0, r', c)
  {
    var j :| |r1.events| <= j < |r.states| && exists k: NodeKey :: k.cache == c && k in r.states[j].nodes;
    assert r'.states[j] == r.states[j];
  }

  lemma NodeSeenNow(r0: LocalRun, r: LocalRun, s: State, k: NodeKey)
    requires RunTo(r, s) && Grew(r0, r) && k in s.nodes
    ensures SawNode(r0, r, k.cache)
  {
    assert r.states[|r.events|] == s;
  }

  /** Which outcomes a reconcile can have that read `read` as the ModelCache. */
  predicate Possible(read: Option<CacheObj>, r: Outcome) {
    || r == CallFailed
    || (if read.None? then r == NotFound
        else if !read.value.deleting then r.Reported?
        else if read.value.finalizer then r == Released || r == WaitingForNodes
        else r == NothingToRelease)
  }

  /** What the reported status is made from. */
  ghost predicate Derived(st: CacheStatus, before: CacheStatus, r0: LocalRun, r: LocalRun, c: CacheKey,
                          selected: seq<NodeId>) {
    if selected == [] then st == WithoutNodes(before) else Summarises(st, before, r0, r, c, selected)
  }

  lemma SummaryStays(st: CacheStatus, before: CacheStatus, r0: LocalRun, r1: LocalRun, r: LocalRun, r': LocalRun,
                     c: CacheKey, selected: seq<NodeId>)
    requires Summarises(st, before, r1, r, c, selected) && Grew(r0, r1) && Grew(r, r')
    ensures Summarises(st, before, r0, r', c, selected)
  {
    var uid, phases :| PhasesOf(r1, r, c, uid, selected, phases) && st == Aggregated(before, phases);
    forall i | 0 <= i < |phases| ensures SeenSince(r0, r', NodeKey(c, selected[i]), uid, phases[i]) {
      SeenStays(r0, r1, r, r', NodeKey(c, selected[i]), uid, phases[i]);
    }
    assert PhasesOf(r0, r', c, uid, selected, phases);
  }

  /**
   What a local-mode report means: it is consistent, and since agents only ever give the phases
   Pending, Ready and Evicted, it is Failed exactly when no node is selected.
   */
  lemma SummaryMeans(st: CacheStatus, before: CacheStatus, r0: LocalRun, r: LocalRun, s: State, c: CacheKey,
                     selected: seq<NodeId>)
    requires RunTo(r, s) && Derived(st, before, r0, r, c, selected) && Consistent(before)
    ensures Consistent(st) && (st.phase == Failed <==> selected == [])
  {
    if selected == [] {
      WithoutNodesConsistent(before);
      return;
    }
    var uid, phases :| PhasesOf(r0, r, c, uid, selected, phases) && st == Aggregated(before, phases);
    AggregateMeans(before, phases);
    forall i | 0 <= i < |phases| ensures phases[i] != Failed {
      var k := NodeKey(c, selected[i]);
      assert SeenSince(r0, r, k, uid, phases[i]);
      var j :| |r0.events| <= j < |r.states|
        && k in r.states[j].nodes && r.states[j].nodes[k].uid == uid && r.states[j].nodes[k].status.phase == phases[i];
      ReachablePhases(r.states, r.events, j, k);
    }
  }

  lemma DerivedIsReport(st: CacheStatus, before: CacheStatus, r0: LocalRun, r: LocalRun, c: CacheKey,
                        selected: seq<NodeId>)
    requires Derived(st, before, r0, r, c, selected)
    ensures IsReport(before, st)
  {
  }

  class CacheController {
    const cluster: Cluster

    constructor (cluster: Cluster)
      ensures this.cluster == cluster
    {
      this.cluster := cluster;
    }

    /** Every ModelCacheNode of `c` has its deletion timestamp, except those in `left`. */
    ghost predicate AllGoing(c: CacheKey, left: set<NodeKey>)
      reads cluster
    {
      forall k :: k in cluster.nodes && k.cache == c ==> cluster.nodes[k].deleting || k in left
    }

    ghost predicate IsGone(c: CacheKey)
      reads cluster
    {
      c !in cluster.caches && forall k: NodeKey :: k.cache == c ==> k !in cluster.nodes && k !in cluster.disks
    }

    /** What each outcome says about the store and the run at the end of the reconcile. */
    ghost predicate Explains(r: Outcome, r0: LocalRun, c: CacheKey, selected: seq<NodeId>, before: CacheStatus)
      reads cluster
    {
      match r
      case NotFound => IsGone(c)
      case CallFailed => true
      case NothingToRelease => c in cluster.caches && cluster.caches[c].deleting && !cluster.caches[c].finalizer
      case Released => IsGone(c)
      case WaitingForNodes =>
        && c in cluster.caches && cluster.caches[c].deleting && AllGoing(c, {})
        && SawNode(r0, cluster.run, c)
      case Reported(st) =>
        && cluster.StatusOf(c) == st && Consistent(st) && (st.phase == Failed <==> selected == [])
        && Derived(st, before, r0, cluster.run, c, selected)
    }

    /** Lists the ModelCacheNodes that carry the cache's labels. */
    method ListModelCacheNodes(c: CacheKey, obj: CacheObj) returns (items: seq<Item>)
      ensures forall k :: k in Listed(cluster.nodes, c, obj) <==> exists d :: Item(k, d) in items
      ensures forall item :: item in items ==>
        item.key in cluster.nodes && item.deleting == cluster.nodes[item.key].deleting
    {
      items := [];
      var left := cluster.nodes.Keys;
      while left != {}
        invariant left <= cluster.nodes.Keys
        invariant forall k :: k in Listed(cluster.nodes, c, obj) && k !in left ==>
          Item(k, cluster.nodes[k].deleting) in items
        invariant forall item :: item in items ==> item.key in Listed(cluster.nodes, c, obj)
        invariant forall item :: item in items ==>
          item.key in cluster.nodes && item.deleting == cluster.nodes[item.key].deleting
        decreases left
      {
        var k :| k in left;
        if k.cache == c && cluster.nodes[k].uid == obj.uid {
          items := items + [Item(k, cluster.nodes[k].deleting)];
        }
        left := left - {k};
      }
    }

    /** Lists the ModelCacheNodes of a ModelCache being deleted, and settles what to do about them. */
    method ListForDelete(c: CacheKey, obj: CacheObj) returns (ok: bool, items: seq<Item>)
      requires cluster.ForCache(c) && cluster.At(c).pc == CList(obj)
      modifies cluster
      ensures cluster.failed == (old(cluster.failed) || !ok)
      ensures cluster.Valid() && cluster.GoesOn(old(cluster.run), old(cluster.start))
      ensures cluster.At(c).pc ==
        if !ok then CIdle else if items == [] then CRemoveFinalizer(obj) else CDelete(obj, ToDelete(items))
      ensures ok ==> AllGoing(c, Members(ToDelete(items)))
      ensures ok && items != [] ==> SawNode(old(cluster.run), cluster.run, c)
    {
      hide Grew, RunTo, StatusesValid, Explained;
      Growth<State, Event>();
      items := [];
      cluster.OthersOf(c);
      ok := cluster.AttemptDesk(c);
      if ok {
        items := ListModelCacheNodes(c, obj);
        ListedForDelete(c, obj, items);
        if items != [] { NodeSeenNow(old(cluster.run), cluster.run, cluster.Now(), items[0].key); }
        ghost var seen := cluster.run;
        cluster.NoteDesk(c, if items == [] then CRemoveFinalizer(obj) else CDelete(obj, ToDelete(items)));
        if items != [] { NodeSeenStays(old(cluster.run), old(cluster.run), seen, cluster.run, c); }
      }
    }

    lemma ListedForDelete(c: CacheKey, obj: CacheObj, items: seq<Item>)
      requires DeskFacts(cluster.Now(), c) && cluster.At(c).pc == CList(obj)
      requires forall k :: k in Listed(cluster.nodes, c, obj) <==> exists d :: Item(k, d) in items
      requires forall item :: item in items ==>
        item.key in cluster.nodes && item.deleting == cluster.nodes[item.key].deleting
      ensures items == [] <==> Listed(cluster.nodes, c, obj) == {}
      ensures items != [] ==> items[0].key in cluster.nodes && items[0].key.cache == c
      ensures Members(ToDelete(items)) == Undeleted(cluster.nodes, Listed(cluster.nodes, c, obj))
      ensures AllGoing(c, Members(ToDelete(items)))
    {
      var listed := Listed(cluster.nodes, c, obj);
      ToDeleteMembers(items);
      if items != [] {
        assert Item(items[0].key, items[0].deleting) in items;
        assert items[0].key in listed;
      } else {
        assert forall k, d :: Item(k, d) !in items;
      }
      forall k ensures k in Members(ToDelete(items)) <==> k in Undeleted(cluster.nodes, listed) {
        if k in listed {
          var d :| Item(k, d) in items;
          assert Item(k, d).key in cluster.nodes;
        }
      }
      assert forall k :: k in cluster.nodes && k.cache == c ==> k in listed;
    }

    /** Deletes the listed ModelCacheNodes that are not yet being deleted. */
    method DeleteNodes(c: CacheKey, obj: CacheObj, items: seq<Item>) returns (ok: bool)
      requires cluster.ForCache(c) && cluster.At(c).pc == CDelete(obj, ToDelete(items))
        && AllGoing(c, Members(ToDelete(items)))
      modifies cluster
      ensures cluster.failed == (old(cluster.failed) || !ok)
      ensures cluster.Valid() && cluster.GoesOn(old(cluster.run), old(cluster.start))
      ensures ok ==> cluster.At(c).pc == CDelete(obj, []) && AllGoing(c, {})
      ensures !ok ==> cluster.At(c).pc.CIdle?
    {
      hide Grew, RunTo, StatusesValid, Explained;
      Growth<State, Event>();
      ok := true;
      for i := 0 to |items|
        invariant cluster.Valid() && cluster.GoesOn(old(cluster.run), old(cluster.start))
          && cluster.failed == old(cluster.failed)
        invariant ok && cluster.At(c).pc == CDelete(obj, ToDelete(items[i..]))
          && AllGoing(c, Members(ToDelete(items[i..])))
      {
        assert items[i..][1..] == items[i + 1..];
        if !items[i].deleting {
          ok := DeleteNode(c, obj, items[i].key, ToDelete(items[i + 1..]));
          if !ok { return; }
        }
      }
    }

    method DeleteNode(c: CacheKey, obj: CacheObj, k: NodeKey, ghost rest: seq<NodeKey>) returns (ok: bool)
      requires cluster.ForCache(c) && cluster.At(c).pc == CDelete(obj, [k] + rest) && AllGoing(c, Members([k] + rest))
      modifies cluster
      ensures cluster.failed == (old(cluster.failed) || !ok)
      ensures cluster.Valid() && cluster.GoesOn(old(cluster.run), old(cluster.start))
      ensures cluster.At(c).pc == if ok then CDelete(obj, rest) else CIdle
      ensures ok ==> AllGoing(c, Members(rest))
    {
      hide Grew, RunTo, StatusesValid, Explained;
      Growth<State, Event>();
      cluster.OthersOf(c);
      assert ([k] + rest)[1..] == rest;
      assert Members([k] + rest) == {k} + Members(rest);
      assert RemoveStep(cluster.At(c), Desk(CDelete(obj, rest), cluster.caches, NodeDeleted(cluster.nodes, k)), c);
      ok := cluster.Store(c, cluster.caches, NodeDeleted(cluster.nodes, k), CDelete(obj, rest));
    }

    method RemoveFinalizer(c: CacheKey, obj: CacheObj) returns (ok: bool)
      requires cluster.ForCache(c) && cluster.At(c).pc == CRemoveFinalizer(obj)
      modifies cluster
      ensures cluster.failed == (old(cluster.failed) || !ok)
      ensures cluster.Valid() && cluster.GoesOn(old(cluster.run), old(cluster.start))
      ensures cluster.At(c).pc.CIdle? && (ok ==> IsGone(c))
    {
      hide Grew, RunTo, StatusesValid, Explained;
      Growth<State, Event>();
      cluster.OthersOf(c);
      assert RemoveStep(cluster.At(c), Desk(CIdle, cluster.caches - {c}, cluster.nodes), c);
      ok := cluster.Store(c, cluster.caches - {c}, cluster.nodes, CIdle);
      assert ok ==> c !in cluster.At(c).caches;
    }

    method ReconcileDelete(c: CacheKey, obj: CacheObj) returns (r: Outcome)
      requires cluster.ForCache(c) && cluster.At(c).pc.CIdle? && c in cluster.caches && cluster.caches[c] == obj
        && obj.deleting
      modifies cluster
      ensures cluster.failed == (old(cluster.failed) || r == CallFailed)
      ensures cluster.Valid() && cluster.GoesOn(old(cluster.run), old(cluster.start))
      ensures cluster.At(c).pc.CIdle? && Possible(Some(obj), r)
      ensures Explains(r, old(cluster.run), c, [], FRESH_CACHE_STATUS)
    {
      hide Grew, RunTo, StatusesValid, Explained;
      Growth<State, Event>();
      ghost var before := cluster.run;
      if !obj.finalizer { return NothingToRelease; }
      assert AdmitStep(cluster.At(c), cluster.At(c).(pc := CList(obj)), c);
      cluster.NoteDesk(c, CList(obj));
      ghost var noted := cluster.run;
      r := EmptyOut(c, obj);
      if r == WaitingForNodes { NodeSeenStays(before, noted, cluster.run, cluster.run, c); }
    }

    method EmptyOut(c: CacheKey, obj: CacheObj) returns (r: Outcome)
      requires cluster.ForCache(c) && cluster.At(c).pc == CList(obj)
      modifies cluster
      ensures cluster.failed == (old(cluster.failed) || r == CallFailed)
      ensures cluster.Valid() && cluster.GoesOn(old(cluster.run), old(cluster.start))
      ensures cluster.At(c).pc.CIdle?
      ensures r == CallFailed || (r == Released && IsGone(c))
        || (r == WaitingForNodes && Explains(r, old(cluster.run), c, [], FRESH_CACHE_STATUS))
    {
      hide Grew, RunTo, StatusesValid, Explained;
      Growth<State, Event>();
      r := CallFailed;
      var ok, items := ListForDelete(c, obj);
      if !ok { return; }
      if items == [] {
        ok := RemoveFinalizer(c, obj);
        if ok { r := Released; }
      } else {
        ghost var seen := cluster.run;
        ok := DeleteNodes(c, obj, items);
        if ok {
          cluster.FactsKnown(c);
          cluster.StopDesk(c);
          NodeSeenStays(old(cluster.run), old(cluster.run), seen, cluster.run, c);
          r := WaitingForNodes;
        }
      }
    }

    // ---------------------------------------------------- one object per node

    method AddFinalizer(c: CacheKey) returns (ok: bool, obj: CacheObj)
      requires cluster.ForCache(c) && cluster.At(c).pc.CAddFinalizer?
      modifies cluster
      ensures cluster.failed == (old(cluster.failed) || !ok)
      ensures cluster.Valid() && cluster.GoesOn(old(cluster.run), old(cluster.start))
      ensures cluster.At(c).pc == if ok then CListNodes(obj) else CIdle
      ensures ok ==> cluster.StatusOf(c) == old(cluster.StatusOf(c)) || cluster.StatusOf(c) == FRESH_CACHE_STATUS
    {
      hide Grew, RunTo, StatusesValid, Explained;
      Growth<State, Event>();
      obj := CacheObj("", "", NoTtl, false, false);
      cluster.OthersOf(c);
      if c !in cluster.caches || cluster.caches[c].deleting {
        cluster.FailDesk(c);
        return false, obj;
      }
      obj := cluster.caches[c].(finalizer := true);
      assert AdmitStep(cluster.At(c), Desk(CListNodes(obj), cluster.caches[c := obj], cluster.nodes), c);
      ok := cluster.Store(c, cluster.caches[c := obj], cluster.nodes, CListNodes(obj));
    }

    /**
     Makes sure that the node has its ModelCacheNode. One that exists always agrees with the
     ModelCache, so the source's branch that rewrites it is never taken.
     */
    method EnsureModelCacheNode(c: CacheKey, obj: CacheObj, node: NodeId, ghost rest: seq<NodeId>)
      returns (ok: bool, phase: Phase)
      requires cluster.ForCache(c) && cluster.At(c).pc == CEnsure(obj, [node] + rest)
      modifies cluster
      ensures cluster.failed == (old(cluster.failed) || !ok)
      ensures cluster.Valid() && cluster.GoesOn(old(cluster.run), old(cluster.start))
      ensures cluster.At(c).pc == if ok then CEnsure(obj, rest) else CIdle
      ensures ok ==> SeenSince(old(cluster.run), cluster.run, NodeKey(c, node), obj.uid, phase)
      ensures ok ==> cluster.StatusOf(c) == old(cluster.StatusOf(c))
    {
      hide Grew, RunTo, StatusesValid, Explained;
      Growth<State, Event>();
      phase := NoPhase;
      cluster.OthersOf(c);
      ok := cluster.AttemptDesk(c);
      if !ok { return; }
      var k := NodeKey(c, node);
      assert ([node] + rest)[1..] == rest;
      if k in cluster.nodes {
        assert cluster.nodes[k].uid == obj.uid;
        assert EnsureStep(cluster.At(c), cluster.At(c).(pc := CEnsure(obj, rest)), c);
        phase := cluster.nodes[k].status.phase;
        cluster.NoteDesk(c, CEnsure(obj, rest));
        SeenNow(old(cluster.run), cluster.run, cluster.Now(), k);
      } else {
        assert EnsureStep(cluster.At(c), cluster.At(c).(pc := CCreate(obj, node, rest)), c);
        cluster.NoteDesk(c, CCreate(obj, node, rest));
        ghost var before := cluster.run;
        ok := Create(c, obj, node, rest);
        if ok { SeenStays(old(cluster.run), before, cluster.run, cluster.run, k, obj.uid, NoPhase); }
      }
    }

    /** Creates the ModelCacheNode; if there is one by now, the call fails. */
    method Create(c: CacheKey, obj: CacheObj, node: NodeId, ghost rest: seq<NodeId>) returns (ok: bool)
      requires cluster.ForCache(c) && cluster.At(c).pc == CCreate(obj, node, rest)
      modifies cluster
      ensures cluster.failed == (old(cluster.failed) || !ok)
      ensures cluster.Valid() && cluster.GoesOn(old(cluster.run), old(cluster.start))
      ensures cluster.At(c).pc == if ok then CEnsure(obj, rest) else CIdle
      ensures ok ==> SeenSince(old(cluster.run), cluster.run, NodeKey(c, node), obj.uid, NoPhase)
      ensures ok ==> cluster.StatusOf(c) == old(cluster.StatusOf(c))
    {
      hide Grew, RunTo, StatusesValid, Explained;
      Growth<State, Event>();
      cluster.OthersOf(c);
      var k := NodeKey(c, node);
      if k in cluster.nodes {
        cluster.FailDesk(c);
        return false;
      }
      var nodes := cluster.nodes[k := NodeObj(obj.uid, obj.ttl, false, false, FRESH_STATUS)];
      assert EnsureStep(cluster.At(c), Desk(CEnsure(obj, rest), cluster.caches, nodes), c);
      ok := cluster.Store(c, cluster.caches, nodes, CEnsure(obj, rest));
      if ok {
        assert k in cluster.At(c).nodes;
        SeenNow(old(cluster.run), cluster.run, cluster.Now(), k);
      }
    }

    /** Makes sure that every selected node has its ModelCacheNode, and collects their phases. */
    method EnsureAll(c: CacheKey, obj: CacheObj, selected: seq<NodeId>) returns (ok: bool, phases: seq<Phase>)
      requires cluster.ForCache(c) && cluster.At(c).pc == CEnsure(obj, selected)
      modifies cluster
      ensures cluster.failed == (old(cluster.failed) || !ok)
      ensures cluster.Valid() && cluster.GoesOn(old(cluster.run), old(cluster.start))
      ensures cluster.At(c).pc == if ok then CEnsure(obj, []) else CIdle
      ensures ok ==> PhasesOf(old(cluster.run), cluster.run, c, obj.uid, selected, phases)
      ensures ok ==> cluster.StatusOf(c) == old(cluster.StatusOf(c))
    {
      hide Grew, RunTo, StatusesValid, Explained;
      Growth<State, Event>();
      ok, phases := true, [];
      for i := 0 to |selected|
        invariant cluster.Valid() && cluster.GoesOn(old(cluster.run), old(cluster.start))
          && cluster.failed == old(cluster.failed)
        invariant ok && cluster.At(c).pc == CEnsure(obj, selected[i..])
        invariant PhasesOf(old(cluster.run), cluster.run, c, obj.uid, selected[..i], phases)
        invariant cluster.StatusOf(c) == old(cluster.StatusOf(c))
      {
        ghost var before := cluster.run;
        assert selected[i..] == [selected[i]] + selected[i + 1..];
        var phase;
        ok, phase := EnsureModelCacheNode(c, obj, selected[i], selected[i + 1..]);
        if !ok { return; }
        OneMore(old(cluster.run), before, c, obj.uid, selected, phases, phase);
        phases := phases + [phase];
      }
      assert selected[..|selected|] == selected;
    }

    lemma OneMore(r0: LocalRun, before: LocalRun, c: CacheKey, uid: string, selected: seq<NodeId>, phases: seq<Phase>,
                  phase: Phase)
      requires Grew(r0, before) && Grew(before, cluster.run) && |phases| < |selected|
      requires forall i :: 0 <= i < |phases| ==> SeenSince(r0, before, NodeKey(c, selected[i]), uid, phases[i])
      requires SeenSince(before, cluster.run, NodeKey(c, selected[|phases|]), uid, phase)
      ensures PhasesOf(r0, cluster.run, c, uid, selected[..|phases| + 1], phases + [phase])
    {
      var n := |phases|;
      forall i | 0 <= i <= n
        ensures SeenSince(r0, cluster.run, NodeKey(c, selected[..n + 1][i]), uid, (phases + [phase])[i])
      {
        if i == n { SeenStays(r0, before, cluster.run, cluster.run, NodeKey(c, selected[n]), uid, phase); }
        else { SeenStays(r0, r0, before, cluster.run, NodeKey(c, selected[i]), uid, phases[i]); }
      }
    }

    /** An outcome explained by a later part of the run is explained by all of it. */
    lemma ExplainsEarlier(r: Outcome, r0: LocalRun, r1: LocalRun, c: CacheKey, selected: seq<NodeId>,
                          before: CacheStatus)
      requires Explains(r, r1, c, selected, before) && Grew(r0, r1)
      ensures Explains(r, r0, c, selected, before)
    {
      Growth<State, Event>();
      if r == WaitingForNodes { NodeSeenStays(r0, r1, cluster.run, cluster.run, c); }
      if r.Reported? && selected != [] {
        SummaryStays(r.status, before, r0, r1, cluster.run, cluster.run, c, selected);
      }
    }

    /** Lists the nodes that the selector matches. */
    method ListNodes(c: CacheKey, obj: CacheObj, selected: seq<NodeId>) returns (ok: bool)
      requires cluster.ForCache(c) && cluster.At(c).pc == CListNodes(obj)
      modifies cluster
      ensures cluster.failed == (old(cluster.failed) || !ok)
      ensures cluster.Valid() && cluster.GoesOn(old(cluster.run), old(cluster.start))
      ensures cluster.At(c).pc == if ok then CEnsure(obj, selected) else CIdle
      ensures ok ==> cluster.StatusOf(c) == old(cluster.StatusOf(c))
    {
      hide Grew, RunTo, StatusesValid, Explained;
      Growth<State, Event>();
      cluster.OthersOf(c);
      ok := cluster.AttemptDesk(c);
      if ok { cluster.NoteDesk(c, CEnsure(obj, selected)); }
    }

    /** One ModelCacheNode per selected node, then the status derived from them. */
    method EnsureNodes(c: CacheKey, obj: CacheObj, selected: seq<NodeId>, status: StatusObject) returns (r: Outcome)
      requires cluster.ForCache(c) && cluster.At(c).pc == CEnsure(obj, selected)
        && status.Value() == cluster.StatusOf(c)
      modifies cluster, status
      ensures cluster.failed == (old(cluster.failed) || r == CallFailed)
      ensures cluster.Valid() && cluster.GoesOn(old(cluster.run), old(cluster.start))
      ensures cluster.At(c).pc.CIdle? && (r == CallFailed || r.Reported?)
      ensures Explains(r, old(cluster.run), c, selected, old(status.Value()))
    {
      hide Grew, RunTo, Explained, Consistent;
      Growth<State, Event>();
      if selected == [] {
        status.ReportNoNodes();
      } else {
        var ok := Aggregate(c, obj, selected, status);
        if !ok { return CallFailed; }
      }
      r := WriteStatus(c, obj, selected, status, old(status.Value()), old(cluster.run));
    }

    /** Writes the status, which may fail, and returns. */
    method WriteStatus(c: CacheKey, obj: CacheObj, selected: seq<NodeId>, status: StatusObject,
                       ghost before: CacheStatus, ghost r0: LocalRun)
      returns (r: Outcome)
      requires cluster.ForCache(c) && Grew(r0, cluster.run) && cluster.At(c).pc == CEnsure(obj, [])
      requires before == cluster.StatusOf(c) && Derived(status.Value(), before, r0, cluster.run, c, selected)
      modifies cluster
      ensures cluster.failed == (old(cluster.failed) || r == CallFailed)
      ensures cluster.Valid() && cluster.GoesOn(old(cluster.run), old(cluster.start))
      ensures cluster.At(c).pc.CIdle? && (r == CallFailed || r == Reported(status.Value()))
      ensures Explains(r, r0, c, selected, before)
    {
      hide Grew, RunTo, Explained, Consistent, IsReport, Summarises, WithoutNodes, Aggregated;
      Growth<State, Event>();
      ghost var st := status.Value();
      cluster.StatusConsistent(c);
      DerivedIsReport(st, before, r0, cluster.run, c, selected);
      SummaryMeans(st, before, r0, cluster.run, cluster.Now(), c, selected);
      cluster.FactsKnown(c);
      var written := cluster.AttemptDesk(c);
      if !written { return CallFailed; }
      cluster.StopDesk(c);
      cluster.WriteStatus(c, status.Value());
      if selected != [] { SummaryStays(st, before, r0, r0, old(cluster.run), cluster.run, c, selected); }
      r := Reported(status.Value());
    }

    method Aggregate(c: CacheKey, obj: CacheObj, selected: seq<NodeId>, status: StatusObject) returns (ok: bool)
      requires cluster.ForCache(c) && cluster.At(c).pc == CEnsure(obj, selected)
      modifies cluster, status
      ensures cluster.failed == (old(cluster.failed) || !ok)
      ensures cluster.Valid() && cluster.GoesOn(old(cluster.run), old(cluster.start))
      ensures cluster.At(c).pc == if ok then CEnsure(obj, []) else CIdle
      ensures ok ==> cluster.StatusOf(c) == old(cluster.StatusOf(c))
      ensures ok ==> Summarises(status.Value(), old(status.Value()), old(cluster.run), cluster.run, c, selected)
    {
      var phases;
      ok, phases := EnsureAll(c, obj, selected);
      if ok {
        assert PhasesOf(old(cluster.run), cluster.run, c, obj.uid, selected, phases);
        status.UpdateFromNodes(phases);
      }
    }

    method PopulateNodes(c: CacheKey, obj: CacheObj, selected: seq<NodeId>, status: StatusObject) returns (r: Outcome)
      requires cluster.ForCache(c) && cluster.At(c).pc == CListNodes(obj) && status.Value() == cluster.StatusOf(c)
      modifies cluster, status
      ensures cluster.failed == (old(cluster.failed) || r == CallFailed)
      ensures cluster.Valid() && cluster.GoesOn(old(cluster.run), old(cluster.start))
      ensures cluster.At(c).pc.CIdle? && Explains(r, old(cluster.run), c, selected, old(status.Value()))
      ensures r == CallFailed || r.Reported?
    {
      hide Grew, RunTo, Explained, Consistent;
      Growth<State, Event>();
      var ok := ListNodes(c, obj, selected);
      if !ok { return CallFailed; }
      ghost var before := cluster.run;
      r := EnsureNodes(c, obj, selected, status);
      ExplainsEarlier(r, old(cluster.run), before, c, selected, old(status.Value()));
    }

    /** The status found: the one stored when the reconcile began, unless the ModelCache was replaced since. */
    ghost predicate Found(found: CacheStatus, stored: CacheStatus, held: bool) {
      found == stored || (found == FRESH_CACHE_STATUS && !held)
    }

    ghost predicate ExplainsFrom(r: Outcome, r0: LocalRun, c: CacheKey, selected: seq<NodeId>, stored: CacheStatus,
                                 held: bool)
      reads cluster
    {
      exists found :: Found(found, stored, held) && Explains(r, r0, c, selected, found)
    }

    /**
     One reconcile of one local-mode ModelCache; `selected` are the nodes its selector matches. The
     object it reads decides which outcomes it can have. It gives up exactly on a fault or a conflict.
     */
    method Reconcile(c: CacheKey, selected: seq<NodeId>) returns (r: Outcome)
      requires cluster.Valid() && cluster.At(c).pc.CIdle?
      modifies cluster
      ensures cluster.failed <==> r == CallFailed
      ensures cluster.start == Start(old(cluster.calls), |old(cluster.run).events|, OfCache(c))
      ensures cluster.Valid() && Grew(old(cluster.run), cluster.run) && cluster.At(c).pc.CIdle?
      ensures Possible(old(cluster.ObjectOf(c)), r)
      ensures ExplainsFrom(r, old(cluster.run), c, selected, old(cluster.StatusOf(c)),
                           old(c in cluster.caches && cluster.caches[c].finalizer))
    {
      hide RunTo, StatusesValid, Explained, Consistent, Derived;
      cluster.Begin(OfCache(c));
      r := ReconcileCache(c, selected);
    }

    method ReconcileCache(c: CacheKey, selected: seq<NodeId>) returns (r: Outcome)
      requires cluster.ForCache(c) && cluster.At(c).pc.CIdle? && !cluster.failed
      modifies cluster
      ensures cluster.failed <==> r == CallFailed
      ensures cluster.Valid() && cluster.GoesOn(old(cluster.run), old(cluster.start)) && cluster.At(c).pc.CIdle?
      ensures Possible(old(cluster.ObjectOf(c)), r)
      ensures ExplainsFrom(r, old(cluster.run), c, selected, old(cluster.StatusOf(c)),
                           old(c in cluster.caches && cluster.caches[c].finalizer))
    {
      hide Grew, RunTo, StatusesValid, Explained, Consistent;
      Growth<State, Event>();
      ghost var stored, held := cluster.StatusOf(c), c in cluster.caches && cluster.caches[c].finalizer;
      var ok := cluster.AttemptDesk(c);
      if !ok {
        r := CallFailed;
        assert Found(stored, stored, held) && Explains(r, old(cluster.run), c, selected, stored);
        return;
      }
      cluster.FactsKnown(c);
      if c !in cluster.caches {
        r := NotFound;
        assert Found(stored, stored, held) && Explains(r, old(cluster.run), c, selected, stored);
        return;
      }
      var obj := cluster.caches[c];
      if obj.deleting {
        r := ReconcileDelete(c, obj);
        assert Found(stored, stored, held) && Explains(r, old(cluster.run), c, selected, stored);
        return;
      }
      r := ReconcileLive(c, obj, selected);
    }

    /** A ModelCache that is not being deleted: the finalizer, then its nodes and its status. */
    method ReconcileLive(c: CacheKey, read: CacheObj, selected: seq<NodeId>) returns (r: Outcome)
      requires cluster.ForCache(c) && cluster.At(c).pc.CIdle?
      requires c in cluster.caches && cluster.caches[c] == read && !read.deleting
      modifies cluster
      ensures cluster.failed == (old(cluster.failed) || r == CallFailed)
      ensures cluster.Valid() && cluster.GoesOn(old(cluster.run), old(cluster.start)) && cluster.At(c).pc.CIdle?
      ensures ExplainsFrom(r, old(cluster.run), c, selected, old(cluster.StatusOf(c)), read.finalizer)
      ensures r == CallFailed || r.Reported?
    {
      hide Grew, RunTo, Explained, Consistent;
      Growth<State, Event>();
      var obj := read;
      if !obj.finalizer {
        cluster.NoteDesk(c, CAddFinalizer);
        var ok;
        ok, obj := AddFinalizer(c);
        if !ok {
          r := CallFailed;
          ghost var stored := old(cluster.StatusOf(c));
          assert Found(stored, stored, read.finalizer) && Explains(r, old(cluster.run), c, selected, stored);
          return;
        }
      } else {
        cluster.NoteDesk(c, CListNodes(obj));
      }
      var status := new StatusObject(cluster.StatusOf(c));
      ghost var before, found := cluster.run, cluster.StatusOf(c);
      r := PopulateNodes(c, obj, selected, status);
      ExplainsEarlier(r, old(cluster.run), before, c, selected, found);
      assert Found(found, old(cluster.StatusOf(c)), read.finalizer);
    }
  }
}
