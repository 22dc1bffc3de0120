/**
 The shared cluster: the API store, the disks, the Pods and the clock, with ghost fields that
 record the run so far.

 Every effect appends one event to that run, and `Valid` says that it is a run of
 LocalProtocol. So code that works through this class can only do what the protocol allows,
 in its order, and everything proved of runs holds at each of its steps. Between two effects
 `Others` and `OthersOf` let the rest of the system move.
 */
module Clusters {
  import opened Common
  import opened LocalProtocol
  import opened LocalSafety
  import opened LocalReconciles
  import CacheStatuses

  type Statuses = map<CacheKey, CacheStatuses.CacheStatus>

  predicate AllConsistent(statuses: Statuses) {
    forall c :: c in statuses ==> CacheStatuses.Consistent(statuses[c])
  }

  /** A status goes with its ModelCache. */
  function OfCaches(statuses: Statuses, caches: map<CacheKey, CacheObj>): (left: Statuses)
    ensures left.Keys == statuses.Keys * caches.Keys && forall c :: c in left ==> left[c] == statuses[c]
    ensures AllConsistent(statuses) ==> AllConsistent(left)
  {
    map c | c in statuses && c in caches :: statuses[c]
  }

  function StatusIn(statuses: Statuses, c: CacheKey): CacheStatuses.CacheStatus {
    if c in statuses then statuses[c] else CacheStatuses.FRESH_CACHE_STATUS
  }

  lemma StatusInConsistent(statuses: Statuses, c: CacheKey)
    requires AllConsistent(statuses)
    ensures CacheStatuses.Consistent(StatusIn(statuses, c))
  {
  }

  /** What a reconcile of a local-mode ModelCache makes of the status it finds. */
  ghost predicate IsReport(before: CacheStatuses.CacheStatus, st: CacheStatuses.CacheStatus) {
    st == CacheStatuses.WithoutNodes(before) || exists phases :: st == CacheStatuses.Aggregated(before, phases)
  }

  lemma ReportConsistent(before: CacheStatuses.CacheStatus, st: CacheStatuses.CacheStatus)
    requires CacheStatuses.Consistent(before) && IsReport(before, st)
    ensures CacheStatuses.Consistent(st)
  {
    if st == CacheStatuses.WithoutNodes(before) {
      CacheStatuses.WithoutNodesConsistent(before);
    } else {
      var phases :| st == CacheStatuses.Aggregated(before, phases);
      CacheStatuses.AggregateMeans(before, phases);
    }
  }

  type LocalRun = Run<State, Event>

  ghost predicate RunTo(r: LocalRun, s: State) {
    IsRun(r.states, r.events) && r.states[|r.events|] == s
  }

  lemma RunGoesOn(r: LocalRun, s: State, e: Event, s': State)
    requires RunTo(r, s) && Next(s, e, s')
    ensures RunTo(Extended(r, e, s'), s') && Grew(r, Extended(r, e, s'))
  {
    var r' := Extended(r, e, s');
    forall i | 0 <= i < |r'.events| ensures Next(r'.states[i], r'.events[i], r'.states[i + 1]) {
      if i < |r.events| { assert r'.events[i] == r.events[i]; }
    }
  }

  lemma AgentRunGoesOn(r: LocalRun, s: State, k: NodeKey, w: View)
    requires RunTo(r, s) && AgentStep(ViewOf(s, k), w, Used(s, k), s.clock, s.tick)
    requires w.cache == ViewOf(s, k).cache && w.controller == ViewOf(s, k).controller
    ensures ViewOf(PutView(s, k, w), k) == w
    ensures var r' := Extended(r, AgentSteps(k), PutView(s, k, w)); RunTo(r', PutView(s, k, w)) && Grew(r, r')
  {
    PutViewHere(s, k, w);
    assert AgentMoves(s, k, PutView(s, k, w));
    RunGoesOn(r, s, AgentSteps(k), PutView(s, k, w));
  }

  lemma EndedState(s: State, k: NodeKey)
    ensures
      var w := Ended(ViewOf(s, k));
      PutView(s, k, w) == s.(agents := s.agents[k := w.pc], history := s.history[k := w.history], tick := s.tick + 1)
      && ViewOf(PutView(s, k, w), k) == w
  {
    var w := Ended(ViewOf(s, k));
    PutViewHere(s, k, w);
    assert PutOption(s.nodes, k, w.node) == s.nodes;
    assert PutOption(s.disks, k, w.dir) == s.disks;
  }

  lemma EndRunGoesOn(r: LocalRun, s: State, k: NodeKey, s': State)
    requires RunTo(r, s) && s' == PutView(s, k, Ended(ViewOf(s, k)))
    ensures RunTo(Extended(r, AgentEnds(k), s'), s') && Grew(r, Extended(r, AgentEnds(k), s'))
  {
    RunGoesOn(r, s, AgentEnds(k), s');
  }

  // ---------------------------------------------- what a reconcile may rely on

  /** What no step outside the reconcile of `k` changes: where it stands, its history, the past. */
  predicate AgentRely(s: State, s': State, k: NodeKey) {
    AgentAt(s', k) == AgentAt(s, k) && HistoryOf(s', k) == HistoryOf(s, k) && s.clock <= s'.clock
  }

  /** What no step outside the controller's reconcile of `c` changes. */
  predicate ControllerRely(s: State, s': State, c: CacheKey) {
    ControllerAt(s', c) == ControllerAt(s, c) && OnlyGo(s.nodes, s'.nodes, c) && s.clock <= s'.clock
  }

  lemma AgentStepRely(s: State, e: Event, s': State, k: NodeKey)
    requires Next(s, e, s') && e != AgentSteps(k) && e != AgentEnds(k)
    ensures AgentRely(s, s', k)
  {
  }

  lemma ControllerStepRely(s: State, e: Event, s': State, c: CacheKey)
    requires Inv(s) && Next(s, e, s') && e != ControllerSteps(c) && e != ControllerEnds(c)
    ensures ControllerRely(s, s', c)
  {
    match e
    case AgentSteps(k) => AgentEventOnlyGoes(s, k, s', c);
    case AgentEnds(k) => AgentEventOnlyGoes(s, k, s', c);
    case ControllerSteps(d) => DeskStaysInFrame(DeskOf(s, d), DeskOf(s', d), d);
    case ControllerEnds(_) =>
    case _ => OutsideStepRely(s, e, s', c);
  }

  lemma OutsideStepRely(s: State, e: Event, s': State, c: CacheKey)
    requires OutsideStep(s, e, s')
    ensures ControllerRely(s, s', c)
  {
  }

  /** Any number of steps by others keep what `Others` promises. */
  lemma {:induction false} AgentMayRely(states: seq<State>, events: seq<Event>, i: nat, j: nat, k: NodeKey)
    requires IsRun(states, events) && i <= j < |states|
    requires forall m :: i <= m < j ==> events[m] != AgentSteps(k) && events[m] != AgentEnds(k)
    ensures AgentRely(states[i], states[j], k)
    ensures FinalizersHeld(ViewOf(states[j], k)) && MemoryCurrent(ViewOf(states[j], k))
  {
    Reachable(states, events, j);
    assert KeyInv(ViewOf(states[j], k), states[j].clock);
    if i < j {
      AgentMayRely(states, events, i, j - 1, k);
      AgentStepRely(states[j - 1], events[j - 1], states[j], k);
    }
  }

  /** Any number of steps by others keep what `OthersOf` promises. */
  lemma {:induction false} ControllerMayRely(states: seq<State>, events: seq<Event>, i: nat, j: nat, c: CacheKey)
    requires IsRun(states, events) && i <= j < |states|
    requires forall m :: i <= m < j ==> events[m] != ControllerSteps(c) && events[m] != ControllerEnds(c)
    ensures ControllerRely(states[i], states[j], c)
    ensures DeskFacts(states[j], c)
  {
    hide DeskFacts, ControllerRely;
    FactsOfRun(states, events, j, c);
    if i == j {
      RelyNow(states[i], c);
    } else {
      ControllerMayRely(states, events, i, j - 1, c);
      ControllerRunRely(states, events, j - 1, c);
      RelyThen(states[i], states[j - 1], states[j], c);
    }
  }

  lemma RelyNow(s: State, c: CacheKey)
    ensures ControllerRely(s, s, c)
  {
  }

  lemma RelyThen(s: State, t: State, u: State, c: CacheKey)
    requires ControllerRely(s, t, c) && ControllerRely(t, u, c)
    ensures ControllerRely(s, u, c)
  {
  }

  lemma FactsOfRun(states: seq<State>, events: seq<Event>, i: nat, c: CacheKey)
    requires IsRun(states, events) && i < |states|
    ensures DeskFacts(states[i], c)
  {
    Reachable(states, events, i);
    FactsOfInv(states[i], c);
  }

  lemma ControllerRunRely(states: seq<State>, events: seq<Event>, i: nat, c: CacheKey)
    requires IsRun(states, events) && i < |events|
    requires events[i] != ControllerSteps(c) && events[i] != ControllerEnds(c)
    ensures ControllerRely(states[i], states[i + 1], c)
  {
    Reachable(states, events, i);
    ControllerStepRely(states[i], events[i], states[i + 1], c);
  }

  /** A step of the protocol, or a reconcile's write of the status of its ModelCache. */
  datatype Move = Step(event: Event) | Report(cache: CacheKey)

  ghost predicate Moves(s: State, st: Statuses, m: Move, s': State, st': Statuses) {
    match m
    case Step(e) => Next(s, e, s') && st' == OfCaches(st, s'.caches)
    case Report(d) =>
      && s' == s && d in s.caches && d in st' && IsReport(StatusIn(st, d), st'[d]) && st' == st[d := st'[d]]
  }

  predicate ByOthers(m: Move, c: CacheKey) {
    m != Step(ControllerSteps(c)) && m != Step(ControllerEnds(c)) && m != Report(c)
  }

  predicate StatusesValid(caches: map<CacheKey, CacheObj>, st: Statuses) { st.Keys <= caches.Keys && AllConsistent(st) }

  /**
   What no move by others changes of the status of `c`: it stays as long as the reconcile of `c`
   holds its object, and otherwise it can only go, with its ModelCache.
   */
  predicate StatusRely(s: State, st: Statuses, st': Statuses, c: CacheKey) {
    && (StatusIn(st', c) == StatusIn(st, c) || StatusIn(st', c) == CacheStatuses.FRESH_CACHE_STATUS)
    && (ControllerObj(ControllerAt(s, c)).Some? ==> StatusIn(st', c) == StatusIn(st, c))
  }

  lemma MoveRely(s: State, st: Statuses, m: Move, s': State, st': Statuses, c: CacheKey)
    requires Inv(s) && StatusesValid(s.caches, st) && Moves(s, st, m, s', st') && ByOthers(m, c)
    ensures Inv(s') && StatusesValid(s'.caches, st') && StatusRely(s, st, st', c)
    ensures ControllerAt(s', c) == ControllerAt(s, c)
  {
    hide Inv, Next, CacheStatuses.Consistent, CacheStatuses.Aggregated, CacheStatuses.WithoutNodes;
    match m
    case Step(e) =>
      StepKeeps(s, e, s');
      ControllerStepRely(s, e, s', c);
      FactsOfInv(s', c);
    case Report(d) =>
      StatusInConsistent(st, d);
      ReportConsistent(StatusIn(st, d), st'[d]);
  }

  /** Any number of moves by others keep what `OthersOf` promises of the statuses. */
  lemma {:induction false} StatusesMayRely(states: seq<State>, statuses: seq<Statuses>, moves: seq<Move>, i: nat,
                                           j: nat, c: CacheKey)
    requires |states| == |statuses| == |moves| + 1 && i <= j < |states|
    requires forall m :: i <= m < j ==> Moves(states[m], statuses[m], moves[m], states[m + 1], statuses[m + 1])
    requires forall m :: i <= m < j ==> ByOthers(moves[m], c)
    requires Inv(states[i]) && StatusesValid(states[i].caches, statuses[i])
    ensures Inv(states[j]) && StatusesValid(states[j].caches, statuses[j])
    ensures StatusRely(states[i], statuses[i], statuses[j], c)
    ensures ControllerAt(states[j], c) == ControllerAt(states[i], c)
  {
    hide Inv, Moves, StatusesValid, ByOthers;
    if i < j {
      StatusesMayRely(states, statuses, moves, i, j - 1, c);
      MoveRely(states[j - 1], statuses[j - 1], moves[j - 1], states[j], statuses[j], c);
    }
  }

  /** What the invariant says to the controller's reconcile of `c`. */
  ghost predicate DeskFacts(s: State, c: CacheKey) {
    var pc := ControllerAt(s, c);
    var o := ControllerObj(pc);
    && (o.Some? ==>
        c in s.caches && s.caches[c].finalizer && s.caches[c].uid == o.value.uid && s.caches[c].ttl == o.value.ttl)
    && (Deleting(pc) ==> c in s.caches && s.caches[c].deleting)
    && (c in s.caches && s.caches[c].deleting ==> s.caches[c].finalizer)
    && (forall k :: k in s.nodes && k.cache == c ==>
          && c in s.caches && s.nodes[k].uid == s.caches[c].uid && s.nodes[k].ttl == s.caches[c].ttl
          && !pc.CRemoveFinalizer?)
    && (forall k :: k in s.disks && k.cache == c ==> k in s.nodes)
  }

  lemma FactsOfInv(s: State, c: CacheKey)
    requires Inv(s)
    ensures DeskFacts(s, c)
  {
    assert KeyInv(ViewOf(s, NodeKey(c, "")), s.clock);
    forall k: NodeKey | k.cache == c && (k in s.nodes || k in s.disks)
      ensures
        k in s.nodes && c in s.caches && s.nodes[k].uid == s.caches[c].uid && s.nodes[k].ttl == s.caches[c].ttl
        && !ControllerAt(s, c).CRemoveFinalizer?
    {
      assert KeyInv(ViewOf(s, k), s.clock);
      assert k in s.disks ==> ViewOf(s, k).dir.Some?;
    }
  }

  lemma ControllerRunGoesOn(r: LocalRun, s: State, c: CacheKey, d: Desk)
    requires RunTo(r, s) && DeskStep(DeskOf(s, c), d, c)
    ensures DeskOf(PutDesk(s, c, d), c) == d
    ensures var r' := Extended(r, ControllerSteps(c), PutDesk(s, c, d)); RunTo(r', PutDesk(s, c, d)) && Grew(r, r')
  {
    RunGoesOn(r, s, ControllerSteps(c), PutDesk(s, c, d));
  }

  lemma ControllerEndRunGoesOn(r: LocalRun, s: State, c: CacheKey)
    requires RunTo(r, s)
    ensures
      var s' := PutController(s, c, CIdle, s.caches, s.nodes);
      var r' := Extended(r, ControllerEnds(c), s');
      RunTo(r', s') && Grew(r, r')
  {
    RunGoesOn(r, s, ControllerEnds(c), PutController(s, c, CIdle, s.caches, s.nodes));
  }

  function Users(pods: map<string, Pod>, k: NodeKey): set<string> {
    set id | id in pods && PodUses(pods[id], k)
  }

  lemma UsersOf(s: State, k: NodeKey)
    ensures |Users(s.pods, k)| > 0 <==> Used(s, k)
  {
    if Used(s, k) {
      var id :| id in s.pods && PodUses(s.pods[id], k);
      assert id in Users(s.pods, k);
    } else {
      assert Users(s.pods, k) == {};
    }
  }

  predicate WritesFile(pc: AgentPc) {
    || pc.OwnerOpen? || pc.OwnerFill? || pc.Fetch? || pc.Copy?
    || pc.ManifestOpen? || pc.ManifestFill? || pc.MarkerOpen? || pc.MarkerFill?
  }

  /** The last thing that happened was a step of the reconcile of `k` from `pc`, or its end there. */
  ghost predicate LeftBy(r: LocalRun, k: NodeKey, steps: bool, pc: AgentPc) {
    && |r.events| > 0 && |r.states| == |r.events| + 1
    && r.events[|r.events| - 1] == (if steps then AgentSteps(k) else AgentEnds(k))
    && AgentAt(r.states[|r.events| - 1], k) == pc
  }

  lemma Leaves(r: LocalRun, s: State, e: Event, s': State, k: NodeKey)
    requires RunTo(r, s) && (e == AgentSteps(k) || e == AgentEnds(k))
    ensures LeftBy(Extended(r, e, s'), k, e == AgentSteps(k), AgentAt(s, k))
  {
    var r' := Extended(r, e, s');
    assert r'.states[|r.events|] == r.states[|r.events|];
  }

  /** Which reconcile is under way. */
  datatype Subject = OfNode(k: NodeKey) | OfCache(c: CacheKey)

  /** Where the reconcile under way began: among the calls, in the run, and what it is about. */
  datatype Start = Start(calls: nat, events: nat, subject: Subject)

  /**
   The store or the disk is not as the reconcile found it, so that its next call must fail: the
   object is gone or being deleted, a directory is where a file is to be, or the new object exists.
   */
  ghost predicate Conflict(s: State, subject: Subject) {
    match subject
    case OfNode(k) =>
      var pc := AgentAt(s, k);
      || k !in s.nodes || s.nodes[k].deleting
      || (pc.Fetch? && |pc.log| < |pc.files| && k in s.disks && Clashes(s.disks[k], pc.files[|pc.log|]))
    case OfCache(c) =>
      var pc := ControllerAt(s, c);
      || c !in s.caches || s.caches[c].deleting
      || (pc.CCreate? && NodeKey(c, pc.node) in s.nodes)
  }

  /** At some moment of the run from `from` on there was a conflict. */
  ghost predicate ConflictIn(r: LocalRun, from: nat, subject: Subject) {
    exists m :: from <= m < |r.states| && Conflict(r.states[m], subject)
  }

  lemma ConflictStays(r: LocalRun, r': LocalRun, from: nat, subject: Subject)
    requires Grew(r, r') && ConflictIn(r, from, subject)
    ensures ConflictIn(r', from, subject)
  {
    hide Conflict;
    var m :| from <= m < |r.states| && Conflict(r.states[m], subject);
    assert r'.states[m] == r.states[m];
  }

  /** A reconcile has failed only by faults and conflicts, and by every fault. */
  ghost predicate Explained(faults: nat -> bool, start: Start, calls: nat, failed: bool, r: LocalRun) {
    && start.calls <= calls && start.events <= |r.events|
    && (Faulty(faults, start.calls, calls) ==> failed)
    && (failed ==> Faulty(faults, start.calls, calls) || ConflictIn(r, start.events, start.subject))
  }

  lemma StillExplained(faults: nat -> bool, start: Start, calls: nat, failed: bool, r: LocalRun, r': LocalRun)
    requires Explained(faults, start, calls, failed, r) && Grew(r, r')
    ensures Explained(faults, start, calls, failed, r')
  {
    hide Conflict, Faulty;
    if ConflictIn(r, start.events, start.subject) { ConflictStays(r, r', start.events, start.subject); }
  }

  class Cluster {
    /** Which calls fail, in the order in which the reconciles of this process make them. */
    const faults: nat -> bool
    var calls: nat
    var caches: map<CacheKey, CacheObj>
    /** The statuses of the local-mode ModelCaches that have had one written. */
    var statuses: Statuses
    var nodes: map<NodeKey, NodeObj>
    var disks: map<NodeKey, Dir>
    var pods: map<string, Pod>
    var clock: Time
    /** Whether a call of the reconcile under way has failed. */
    var failed: bool
    ghost var start: Start
    ghost var agents: map<NodeKey, AgentPc>
    ghost var controllers: map<CacheKey, ControllerPc>
    ghost var history: map<NodeKey, History>
    ghost var tick: nat
    ghost var run: LocalRun

    ghost function Now(): State
      reads this
    {
      State(caches, nodes, disks, agents, controllers, history, pods, clock, tick)
    }

    ghost function Here(k: NodeKey): View
      reads this
    {
      ViewOf(Now(), k)
    }

    /** The record is a run up to now, and every status stored is that of a ModelCache, and consistent. */
    ghost predicate Valid()
      reads this
    {
      RunTo(run, Now()) && StatusesValid(caches, statuses) && FailureExplained()
    }

    ghost predicate FailureExplained()
      reads this
    {
      Explained(faults, start, calls, failed, run)
    }

    /** The run went on from `r`, in the same reconcile. */
    ghost predicate GoesOn(r: LocalRun, begun: Start)
      reads this
    {
      Grew(r, run) && start == begun
    }

    /** A reconcile begins. */
    method Begin(ghost subject: Subject)
      requires Valid()
      modifies this`failed, this`start
      ensures Valid() && !failed && start == Start(calls, |run.events|, subject)
    {
      failed := false;
      start := Start(calls, |run.events|, subject);
    }

    /** The reconcile under way is that of `k`. */
    ghost predicate For(k: NodeKey)
      reads this
    {
      Valid() && start.subject == OfNode(k)
    }

    /** The reconcile under way is that of `c`. */
    ghost predicate ForCache(c: CacheKey)
      reads this
    {
      Valid() && start.subject == OfCache(c)
    }

    function StatusOf(c: CacheKey): CacheStatuses.CacheStatus
      reads this
    {
      StatusIn(statuses, c)
    }

    function ObjectOf(c: CacheKey): Option<CacheObj>
      reads this
    {
      if c in caches then Some(caches[c]) else None
    }

    lemma StatusConsistent(c: CacheKey)
      requires Valid()
      ensures CacheStatuses.Consistent(StatusOf(c))
    {
      StatusInConsistent(statuses, c);
    }

    /** Before its finalizer, a ModelCacheNode has no status. */
    lemma UnclaimedKnown(k: NodeKey)
      requires Valid()
      ensures Unclaimed(Here(k))
    {
      NoStatusBeforeTheFinalizer(run.states, run.events, |run.events|, k);
    }

    /** Writes the whole status of a ModelCache, as a report made from the stored one: they all stay consistent. */
    method WriteStatus(c: CacheKey, st: CacheStatuses.CacheStatus)
      requires Valid() && c in caches && IsReport(StatusOf(c), st)
      modifies this`statuses
      ensures Valid() && StatusOf(c) == st && forall d :: d != c ==> StatusOf(d) == old(StatusOf(d))
      ensures Moves(Now(), old(statuses), Report(c), Now(), statuses)
    {
      StatusInConsistent(statuses, c);
      ReportConsistent(StatusOf(c), st);
      statuses := statuses[c := st];
    }

    /** A cluster without caches, in which nothing has happened yet. */
    constructor (faults: nat -> bool)
      ensures Valid() && Initial(Now()) && this.faults == faults
    {
      this.faults, calls := faults, 0;
      start := Start(0, 0, OfNode(NodeKey(CacheKey("", ""), "")));
      caches, nodes, disks, pods, clock, failed := map[], map[], map[], map[], 0, false;
      agents, controllers, history, tick, statuses := map[], map[], map[], 0, map[];
      run := Run([State(map[], map[], map[], map[], map[], map[], map[], 0, 0)], []);
    }

    /** The invariant holds now. */
    lemma Known(k: NodeKey)
      requires Valid()
      ensures KeyInv(Here(k), clock)
    {
      Reachable(run.states, run.events, |run.events|);
    }

    /** What the invariant says of a reconcile that deals with usage or removal. */
    lemma UsageKnown(k: NodeKey)
      requires Valid()
      ensures var v := Here(k);
        && (v.pc.Unused? ==> v.pc.obj.status.phase == Ready && v.pc.obj.status.lastUsed.Some?)
        && (v.pc.Counted? ==> v.pc.obj.status.phase == Ready)
        && (v.pc.InUse? ==> v.pc.obj.status.phase == Ready && v.pc.now <= clock)
        && (v.pc.EvictMark? ==> v.pc.obj.status.phase == Ready && v.dir.None?)
        && (v.pc.DeletePatch? ==> v.dir.None? && v.node.Some? && v.node.value.deleting)
    {
      Known(k);
    }

    /** What the invariant says of a reconcile that prepares or fills a directory. */
    lemma DiskKnown(k: NodeKey)
      requires Valid()
      ensures var v := Here(k);
        && (WritesFile(v.pc) ==> v.dir.Some?)
        && (v.pc.MarkReady? ==> Complete(v.dir) && v.pc.work.original.status.phase != Ready)
        && (v.pc.PrepareFailed? ==> v.pc.obj.status.phase in {NoPhase, Pending, Evicted})
    {
      Known(k);
    }

    /**
     Any number of steps of the rest of the system. The body takes none; callers may rely on
     no more than the contract, which `AgentMayRely` proves of all that others can do.
     */
    method Others(k: NodeKey)
      requires Valid()
      modifies this
      ensures failed == old(failed)
      ensures Valid() && GoesOn(old(run), old(start))
      ensures Here(k).pc == old(Here(k).pc) && Here(k).history == old(Here(k).history)
      ensures FinalizersHeld(Here(k)) && MemoryCurrent(Here(k)) && old(clock) <= clock
    {
      hide Grew, RunTo;
      Growth<State, Event>();
      Known(k);
    }

    /** Appends what has just happened to the record. */
    ghost method Record(e: Event)
      requires FailureExplained() && StatusesValid(caches, statuses)
      requires RunTo(Extended(run, e, Now()), Now()) && Grew(run, Extended(run, e, Now()))
      modifies this`run
      ensures Valid() && run == Extended(old(run), e, Now()) && GoesOn(old(run), old(start))
    {
      hide Explained, RunTo, Grew, StatusesValid;
      StillExplained(faults, start, calls, failed, run, Extended(run, e, Now()));
      run := Extended(run, e, Now());
    }

    /** Writes one node's object and directory, and moves its agent. */
    method Write(k: NodeKey, node: Option<NodeObj>, dir: Option<Dir>, ghost pc: AgentPc, ghost h: History)
      modifies this`nodes, this`disks, this`agents, this`history, this`tick
      ensures failed == old(failed)
      ensures Now() == PutView(old(Now()), k, old(Here(k)).(node := node, dir := dir, pc := pc, history := h))
      ensures run == old(run) && statuses == old(statuses)
    {
      nodes := PutOption(nodes, k, node);
      disks := PutOption(disks, k, dir);
      agents, history, tick := agents[k := pc], history[k := h], tick + 1;
    }

    /** One step of the reconcile of `k`: what it leaves in the store and on disk, and where it stands then. */
    method Apply(k: NodeKey, node: Option<NodeObj>, dir: Option<Dir>, ghost pc: AgentPc, ghost h: History)
      requires Valid()
      requires AgentStep(Here(k), Here(k).(node := node, dir := dir, pc := pc, history := h), Used(Now(), k),
        clock, tick)
      modifies this
      ensures failed == old(failed) && LeftBy(run, k, true, old(Here(k).pc))
      ensures Valid() && GoesOn(old(run), old(start))
      ensures Now() == PutView(old(Now()), k, old(Here(k)).(node := node, dir := dir, pc := pc, history := h))
      ensures Here(k) == old(Here(k)).(node := node, dir := dir, pc := pc, history := h)
      ensures |run.events| > |old(run).events|
    {
      hide Explained, Grew, LeftBy, RunTo, StatusesValid;
      AgentRunGoesOn(run, Now(), k, Here(k).(node := node, dir := dir, pc := pc, history := h));
      Write(k, node, dir, pc, h);
      Leaves(old(run), old(Now()), AgentSteps(k), Now(), k);
      Record(AgentSteps(k));
    }

    /** The reconcile of `k` stops here. */
    ghost method Stop(k: NodeKey)
      requires Valid()
      modifies this
      ensures failed == old(failed) && LeftBy(run, k, false, old(Here(k).pc))
      ensures Valid() && GoesOn(old(run), old(start))
      ensures Now() == PutView(old(Now()), k, Ended(old(Here(k))))
      ensures Here(k) == Ended(old(Here(k)))
      ensures statuses == old(statuses) && nodes == old(nodes) && disks == old(disks) && caches == old(caches)
        && pods == old(pods) && clock == old(clock)
    {
      hide Explained, Grew, LeftBy, RunTo, StatusesValid;
      ghost var before, w := Now(), Ended(Here(k));
      ghost var after := PutView(before, k, w);
      EndedState(before, k);
      EndRunGoesOn(run, before, k, after);
      agents, history, tick := agents[k := w.pc], history[k := w.history], tick + 1;
      Leaves(run, before, AgentEnds(k), after, k);
      assert Now() == after;
      Record(AgentEnds(k));
    }

    /** A call to the API server, the disk or the repository: it may fail, which ends the reconcile. */
    method Attempt(k: NodeKey) returns (ok: bool)
      requires Valid()
      modifies this
      ensures failed == (old(failed) || !ok)
      ensures Valid() && GoesOn(old(run), old(start))
      ensures ok ==> Now() == old(Now())
      ensures !ok ==> Now() == PutView(old(Now()), k, Ended(old(Here(k)))) && Here(k) == Ended(old(Here(k)))
    {
      hide Grew, RunTo;
      Growth<State, Event>();
      ok := !faults(calls);
      calls, failed := calls + 1, failed || !ok;
      if !ok { Stop(k); }
    }

    /** Work on the directory that may fail; the reconcile goes on to report it. */
    method Refuses() returns (refused: bool)
      requires Valid()
      modifies this`failed, this`calls
      ensures Valid() && failed == (old(failed) || refused)
    {
      refused := faults(calls);
      calls, failed := calls + 1, failed || refused;
    }

    /** The call comes back with an error: the object is not as it was. */
    method Fail(k: NodeKey)
      requires Valid() && Conflict(Now(), start.subject)
      modifies this
      ensures failed
      ensures Valid() && GoesOn(old(run), old(start)) && Here(k) == Ended(old(Here(k)))
    {
      ConflictNow();
      failed := true;
      Stop(k);
    }

    lemma ConflictNow()
      requires Valid() && Conflict(Now(), start.subject)
      ensures ConflictIn(run, start.events, start.subject)
    {
      assert run.states[|run.events|] == Now();
    }

    /** Patches the status of a ModelCacheNode, computed in memory from `original` to `modified`. */
    method PatchStatus(k: NodeKey, original: NodeStatus, modified: NodeStatus, ghost pc: AgentPc, ghost h: History)
      returns (ok: bool)
      requires Valid() && k in nodes
      requires
        var n := nodes[k].(status := MergePatch(nodes[k].status, original, modified));
        AgentStep(Here(k), Here(k).(node := Some(n), pc := pc, history := h), Used(Now(), k), clock, tick)
      modifies this
      ensures failed == (old(failed) || !ok)
      ensures Valid() && GoesOn(old(run), old(start))
      ensures ok ==> LeftBy(run, k, true, old(Here(k).pc))
      ensures ok ==> Here(k) == old(Here(k)).(
        node := Some(old(nodes[k]).(status := MergePatch(old(nodes[k]).status, original, modified))),
        pc := pc, history := h)
      ensures ok ==> pods == old(pods) && clock == old(clock)
      ensures !ok ==> Here(k).pc.Idle?
    {
      hide Grew, RunTo, LeftBy, Explained;
      Growth<State, Event>();
      ok := Attempt(k);
      if ok {
        var n := nodes[k].(status := MergePatch(nodes[k].status, original, modified));
        Apply(k, Some(n), if k in disks then Some(disks[k]) else None, pc, h);
      }
    }

    /** Leaves `dir` on the disk as the directory of `k`. */
    method SetDisk(k: NodeKey, dir: Option<Dir>, ghost pc: AgentPc, ghost h: History)
      requires Valid()
      requires AgentStep(Here(k), Here(k).(dir := dir, pc := pc, history := h), Used(Now(), k), clock, tick)
      modifies this
      ensures failed == old(failed)
      ensures Valid() && GoesOn(old(run), old(start))
      ensures LeftBy(run, k, true, old(Here(k).pc))
      ensures Here(k) == old(Here(k)).(dir := dir, pc := pc, history := h) && clock == old(clock)
    {
      hide Grew, RunTo, LeftBy, Explained;
      Growth<State, Event>();
      Apply(k, if k in nodes then Some(nodes[k]) else None, dir, pc, h);
    }

    /** Changes what the disk holds at the directory of `k`; a failure ends the reconcile. */
    method ChangeDisk(k: NodeKey, dir: Option<Dir>, ghost pc: AgentPc, ghost h: History) returns (ok: bool)
      requires Valid()
      requires AgentStep(Here(k), Here(k).(dir := dir, pc := pc, history := h), Used(Now(), k), clock, tick)
      modifies this
      ensures failed == (old(failed) || !ok)
      ensures Valid() && GoesOn(old(run), old(start))
      ensures ok ==> LeftBy(run, k, true, old(Here(k).pc))
      ensures ok ==> Here(k) == old(Here(k)).(dir := dir, pc := pc, history := h) && clock == old(clock)
      ensures !ok ==> Here(k).pc.Idle?
    {
      hide Grew, RunTo, LeftBy, Explained;
      Growth<State, Event>();
      ok := Attempt(k);
      if ok {
        SetDisk(k, dir, pc, h);
      }
    }

    /** Writes one file of the directory of `k`. */
    method WriteFile(k: NodeKey, e: Entry, content: Content, ghost pc: AgentPc, ghost h: History) returns (ok: bool)
      requires Valid() && k in disks
      requires AgentStep(Here(k), Here(k).(dir := Some(disks[k][e := content]), pc := pc, history := h),
        Used(Now(), k), clock, tick)
      modifies this
      ensures failed == (old(failed) || !ok)
      ensures Valid() && GoesOn(old(run), old(start))
      ensures ok ==> LeftBy(run, k, true, old(Here(k).pc))
      ensures ok ==> Here(k) == old(Here(k)).(dir := Some(old(disks[k])[e := content]), pc := pc, history := h)
      ensures !ok ==> Here(k).pc.Idle?
    {
      hide Grew, RunTo, LeftBy, Explained;
      Growth<State, Event>();
      ok := ChangeDisk(k, Some(disks[k][e := content]), pc, h);
    }

    /** Patches the metadata of a ModelCacheNode; without its last finalizer, a deleted one is gone. */
    method PatchNode(k: NodeKey, node: Option<NodeObj>, ghost pc: AgentPc) returns (ok: bool)
      requires Valid()
      requires AgentStep(Here(k), Here(k).(node := node, pc := pc), Used(Now(), k), clock, tick)
      modifies this
      ensures failed == (old(failed) || !ok)
      ensures Valid() && GoesOn(old(run), old(start))
      ensures ok ==> LeftBy(run, k, true, old(Here(k).pc))
      ensures ok ==> Here(k) == old(Here(k)).(node := node, pc := pc)
      ensures !ok ==> Here(k).pc.Idle?
    {
      hide Grew, RunTo, LeftBy, Explained;
      Growth<State, Event>();
      ok := Attempt(k);
      if ok {
        Apply(k, node, if k in disks then Some(disks[k]) else None, pc, HistoryOf(Now(), k));
      }
    }

    /** A step that only reads. */
    method Note(k: NodeKey, ghost pc: AgentPc)
      requires Valid() && AgentStep(Here(k), Here(k).(pc := pc), Used(Now(), k), clock, tick)
      modifies this
      ensures failed == old(failed)
      ensures Valid() && GoesOn(old(run), old(start))
      ensures LeftBy(run, k, true, old(Here(k).pc))
      ensures Here(k) == old(Here(k)).(pc := pc)
      ensures nodes == old(nodes) && disks == old(disks) && caches == old(caches) && pods == old(pods)
        && clock == old(clock)
      ensures |run.events| > |old(run).events|
    {
      hide Grew, RunTo, LeftBy, Explained;
      Growth<State, Event>();
      Apply(k, if k in nodes then Some(nodes[k]) else None, if k in disks then Some(disks[k]) else None, pc,
          HistoryOf(Now(), k));
    }

    /** How many Pods bound to the node use the cache. */
    method CountPods(k: NodeKey) returns (count: nat)
      ensures count == |Users(pods, k)|
      ensures count > 0 <==> Used(Now(), k)
    {
      count := 0;
      var left := pods.Keys;
      ghost var counted: set<string> := {};
      while left != {}
        invariant left <= pods.Keys
        invariant counted == Users(pods, k) - left && count == |counted|
        decreases left
      {
        var id :| id in left;
        if PodUses(pods[id], k) {
          count := count + 1;
          counted := counted + {id};
        }
        left := left - {id};
      }
      assert counted == Users(pods, k);
      UsersOf(Now(), k);
    }

    // ------------------------------------------------- for the controller

    /** The store as the controller's reconcile of `c` sees it, and where that reconcile stands. */
    ghost function At(c: CacheKey): Desk
      reads this
    {
      DeskOf(Now(), c)
    }

    lemma FactsKnown(c: CacheKey)
      requires Valid()
      ensures DeskFacts(Now(), c)
    {
      Reachable(run.states, run.events, |run.events|);
      FactsOfInv(Now(), c);
    }

    /**
     Any number of steps of the rest of the system, as `Others` (see `ControllerMayRely`, and
     `StatusesMayRely` for the statuses).
     */
    method OthersOf(c: CacheKey)
      requires Valid()
      modifies this
      ensures failed == old(failed)
      ensures Valid() && GoesOn(old(run), old(start))
      ensures At(c).pc == old(At(c).pc) && OnlyGo(old(nodes), nodes, c)
      ensures DeskFacts(Now(), c) && StatusRely(old(Now()), old(statuses), statuses, c)
    {
      hide Grew, RunTo;
      Growth<State, Event>();
      FactsKnown(c);
    }

    /** Writes the ModelCaches and the ModelCacheNodes, and moves the controller. */
    method WriteDesk(c: CacheKey, caches': map<CacheKey, CacheObj>, nodes': map<NodeKey, NodeObj>,
                     ghost pc: ControllerPc)
      modifies this`caches, this`statuses, this`nodes, this`controllers, this`tick
      ensures failed == old(failed)
      ensures Now() == PutDesk(old(Now()), c, Desk(pc, caches', nodes'))
      ensures run == old(run) && statuses == OfCaches(old(statuses), caches')
    {
      caches, nodes := caches', nodes';
      statuses := OfCaches(statuses, caches');
      controllers, tick := controllers[c := pc], tick + 1;
    }

    /** One step of the controller's reconcile of `c`. */
    method ApplyDesk(c: CacheKey, caches': map<CacheKey, CacheObj>, nodes': map<NodeKey, NodeObj>,
                     ghost pc: ControllerPc)
      requires Valid() && DeskStep(At(c), Desk(pc, caches', nodes'), c)
      modifies this
      ensures failed == old(failed)
      ensures Valid() && GoesOn(old(run), old(start))
      ensures Now() == PutDesk(old(Now()), c, Desk(pc, caches', nodes')) && At(c) == Desk(pc, caches', nodes')
      ensures statuses == OfCaches(old(statuses), caches')
    {
      hide AllConsistent, DeskStep, Explained, Grew, RunTo;
      ControllerRunGoesOn(run, Now(), c, Desk(pc, caches', nodes'));
      WriteDesk(c, caches', nodes', pc);
      Record(ControllerSteps(c));
    }

    /** A step that only reads. */
    ghost method NoteDesk(c: CacheKey, pc: ControllerPc)
      requires Valid() && DeskStep(At(c), At(c).(pc := pc), c)
      modifies this
      ensures failed == old(failed)
      ensures Valid() && GoesOn(old(run), old(start))
      ensures statuses == old(statuses)
      ensures At(c) == old(At(c)).(pc := pc) && nodes == old(nodes) && caches == old(caches) && disks == old(disks)
    {
      hide Explained, Grew, RunTo, StatusesValid;
      ControllerRunGoesOn(run, Now(), c, At(c).(pc := pc));
      ghost var after := PutDesk(Now(), c, At(c).(pc := pc));
      controllers, tick := controllers[c := pc], tick + 1;
      assert Now() == after;
      Record(ControllerSteps(c));
    }

    /** The controller's reconcile of `c` stops here. */
    ghost method StopDesk(c: CacheKey)
      requires Valid()
      modifies this
      ensures failed == old(failed)
      ensures Valid() && GoesOn(old(run), old(start))
      ensures statuses == old(statuses)
      ensures At(c) == old(At(c)).(pc := CIdle) && nodes == old(nodes) && caches == old(caches) && disks == old(disks)
    {
      hide Explained, Grew, RunTo, StatusesValid;
      ControllerEndRunGoesOn(run, Now(), c);
      ghost var after := PutController(Now(), c, CIdle, caches, nodes);
      controllers, tick := controllers[c := CIdle], tick + 1;
      assert Now() == after;
      Record(ControllerEnds(c));
    }

    /** A call to the API server: it may fail, which ends the reconcile. */
    method AttemptDesk(c: CacheKey) returns (ok: bool)
      requires Valid()
      modifies this
      ensures failed == (old(failed) || !ok)
      ensures Valid() && GoesOn(old(run), old(start))
      ensures statuses == old(statuses)
      ensures ok ==> Now() == old(Now()) && run == old(run)
      ensures !ok ==> At(c).pc.CIdle?
    {
      hide Grew, RunTo;
      Growth<State, Event>();
      ok := !faults(calls);
      calls, failed := calls + 1, failed || !ok;
      if !ok { StopDesk(c); }
    }

    /** The call comes back with an error: the object is not as it was. */
    method FailDesk(c: CacheKey)
      requires Valid() && Conflict(Now(), start.subject)
      modifies this
      ensures failed
      ensures Valid() && GoesOn(old(run), old(start)) && At(c).pc.CIdle?
    {
      ConflictNow();
      failed := true;
      StopDesk(c);
    }

    /** A write to the store: it may fail, which ends the reconcile. */
    method Store(c: CacheKey, caches': map<CacheKey, CacheObj>, nodes': map<NodeKey, NodeObj>, ghost pc: ControllerPc)
      returns (ok: bool)
      requires Valid() && DeskStep(At(c), Desk(pc, caches', nodes'), c)
      modifies this
      ensures failed == (old(failed) || !ok)
      ensures Valid() && GoesOn(old(run), old(start))
      ensures ok ==> At(c) == Desk(pc, caches', nodes') && disks == old(disks)
      ensures ok ==> statuses == OfCaches(old(statuses), caches')
      ensures !ok ==> At(c).pc.CIdle?
    {
      hide Grew, RunTo;
      Growth<State, Event>();
      ok := AttemptDesk(c);
      if ok {
        ApplyDesk(c, caches', nodes', pc);
      }
    }
  }
}
