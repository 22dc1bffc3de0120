/**
 The controller's reconcile of a PVC-mode ModelCache, effect by effect on the API store.

 As in Clusters, the store records the run so far in ghost fields, and `Valid` says that it is
 a run of PvcProtocol.
 */
module PvcControllers {
  import opened Common
  import opened CacheStatuses
  import opened PvcProtocol
  import opened PvcSafety
  import opened PvcTheorems
  import opened PvcReconciles

  type PvcRun = Run<State, Event>

  ghost predicate RunTo(r: PvcRun, s: State) {
    IsRun(r.states, r.events) && r.states[|r.events|] == s
  }

  lemma RunGoesOn(r: PvcRun, s: State, e: Event, s': State)
    requires RunTo(r, s) && Next(s, e, s')
    ensures RunTo(Extended(r, e, s'), s') && Grew(r, Extended(r, e, s'))
  {
    hide Next;
    var r' := Extended(r, e, s');
    forall i | 0 <= i < |r'.events| ensures Next(r'.states[i], r'.events[i], r'.states[i + 1]) {
      if i < |r.events| { assert r'.events[i] == r.events[i]; }
    }
  }

  /** The first decisive condition of the Job. */
  method IsDownloadJobComplete(conditions: seq<JobCondition>) returns (r: Result<bool, ()>)
    ensures r == Progress(conditions)
  {
    for i := 0 to |conditions|
      invariant Progress(conditions) == Progress(conditions[i..])
    {
      if conditions[i].kind == JobComplete && conditions[i].status {
        return Ok(true);
      }
      if conditions[i].kind == JobFailed && conditions[i].status {
        return Err(());
      }
    }
    return Ok(false);
  }

  /** `s` after a step of the controller. */
  function After(s: State, finalizer: bool, status: CacheStatus, pvc: Option<Pvc>, job: Option<Job>, pc: Pc,
                 h: History): State {
    Goto(s.(finalizer := finalizer, status := status, pvc := pvc, job := job, history := h), pc)
  }

  /** Where the reconcile under way began: among the calls, and in the run. */
  datatype Start = Start(calls: nat, events: nat)

  /** A reconcile has failed exactly by the faults among its calls, and every failure it reports is one. */
  ghost predicate Explained(faults: nat -> bool, start: Start, calls: nat, failed: bool, r: PvcRun) {
    && start.calls <= calls && start.events <= |r.events|
    && (failed <==> Faulty(faults, start.calls, calls))
    && (SomeCallFails(r.events, start.events, |r.events|) ==> failed)
  }

  lemma StillExplained(faults: nat -> bool, start: Start, calls: nat, failed: bool, r: PvcRun, e: Event, s: State)
    requires Explained(faults, start, calls, failed, r) && (e.CallFails? ==> failed)
    ensures Explained(faults, start, calls, failed, Extended(r, e, s))
  {
    var r' := Extended(r, e, s);
    forall m | start.events <= m < |r'.events| && r'.events[m].CallFails? ensures failed {
      if m < |r.events| { assert r.events[m].CallFails?; }
    }
  }

  lemma OneCallMore(faults: nat -> bool, start: Start, calls: nat, failed: bool, r: PvcRun)
    requires Explained(faults, start, calls, failed, r)
    ensures Explained(faults, start, calls + 1, failed || faults(calls), r)
  {
    assert Faulty(faults, start.calls, calls + 1) <==> Faulty(faults, start.calls, calls) || faults(calls);
  }

  /** The last thing that happened was that event, with the reconcile at `pc` and the cache Ready or not. */
  ghost predicate LeftBy(r: PvcRun, e: Event, pc: Pc, ready: bool) {
    && |r.events| > 0 && |r.states| == |r.events| + 1 && r.events[|r.events| - 1] == e
    && r.states[|r.events| - 1].pc == pc && (r.states[|r.events| - 1].status.phase == Ready <==> ready)
  }

  lemma Leaves(r: PvcRun, s: State, e: Event, s': State)
    requires RunTo(r, s)
    ensures LeftBy(Extended(r, e, s'), e, s.pc, s.status.phase == Ready)
  {
    var r' := Extended(r, e, s');
    assert r'.states[|r.events|] == r.states[|r.events|];
  }

  class Store {
    const spec: Spec
    /** Which calls fail, in the order in which the reconciles make them. */
    const faults: nat -> bool
    var calls: nat
    var finalizer: bool
    var status: CacheStatus
    var pvc: Option<Pvc>
    var job: Option<Job>
    var classExists: bool
    var pods: map<string, nat>
    var clock: Time
    /** Whether a call of the reconcile under way has failed. */
    var failed: bool
    ghost var start: Start
    ghost var pc: Pc
    ghost var history: History
    var tick: nat
    ghost var run: PvcRun

    ghost function Now(): State
      reads this
    {
      State(spec, finalizer, status, pvc, job, classExists, pods, pc, history, clock, tick)
    }

    ghost predicate Valid()
      reads this
    {
      RunTo(run, Now()) && FailureExplained()
    }

    ghost predicate FailureExplained()
      reads this
    {
      Explained(faults, start, calls, failed, run)
    }

    /** The run went on from `r`, in the same reconcile. */
    ghost predicate GoesOn(r: PvcRun, begun: Start)
      reads this
    {
      Grew(r, run) && start == begun
    }

    /** A reconcile begins. */
    method Begin()
      requires Valid()
      modifies this`failed, this`start
      ensures Valid() && !failed && start == Start(calls, |run.events|)
    {
      failed := false;
      start := Start(calls, |run.events|);
    }

    constructor (spec: Spec, classExists: bool, faults: nat -> bool)
      ensures Valid() && Initial(Now()) && this.spec == spec && this.faults == faults
    {
      this.spec, this.classExists, this.faults, calls := spec, classExists, faults, 0;
      start := Start(0, 0);
      finalizer, status, pvc, job, pods, clock := false, FRESH_CACHE_STATUS, None, None, map[], 0;
      tick, failed := 0, false;
      pc, history := Idle, History({}, 0, false);
      ghost var none := History({}, 0, false);
      run := Run([State(spec, false, FRESH_CACHE_STATUS, None, None, classExists, map[], Idle, none, 0, 0)], []);
    }

    lemma Known()
      requires Valid()
      ensures Inv(Now())
    {
      Reachable(run.states, run.events, |run.events|);
    }

    /** What the reconcile holds in memory is what is stored. */
    lemma HeldKnown()
      requires Valid()
      ensures MemoryCurrent(Now())
    {
      Known();
    }

    /**
     Any number of steps of the rest of the system. The body takes none; callers may rely on no
     more than the contract, which `MayRely` proves of all that others can do.
     */
    method Others()
      requires Valid()
      modifies this
      ensures failed == old(failed)
      ensures Valid() && GoesOn(old(run), old(start)) && Rely(old(Now()), Now()) && Inv(Now())
    {
      Known();
    }

    /** Appends what has just happened to the record. */
    ghost method Record(e: Event)
      requires FailureExplained() && (e.CallFails? ==> failed)
      requires RunTo(Extended(run, e, Now()), Now()) && Grew(run, Extended(run, e, Now()))
      modifies this`run
      ensures Valid() && run == Extended(old(run), e, Now()) && GoesOn(old(run), old(start))
    {
      hide Explained, RunTo, Grew;
      StillExplained(faults, start, calls, failed, run, e, Now());
      run := Extended(run, e, Now());
    }

    lemma RunStep(s: State)
      requires Valid() && ControllerStep(Now(), s)
      ensures RunTo(Extended(run, ControllerSteps, s), s) && Grew(run, Extended(run, ControllerSteps, s))
      ensures LeftBy(Extended(run, ControllerSteps, s), ControllerSteps, pc, status.phase == Ready)
    {
      hide ControllerStep;
      RunGoesOn(run, Now(), ControllerSteps, s);
      Leaves(run, Now(), ControllerSteps, s);
    }

    /** One step of the reconcile: what it leaves in the store, and where it stands then. */
    method Apply(finalizer': bool, status': CacheStatus, pvc': Option<Pvc>, job': Option<Job>, ghost pc': Pc,
                 ghost h: History)
      requires Valid()
      requires ControllerStep(Now(), After(Now(), finalizer', status', pvc', job', pc', h))
      modifies this
      ensures failed == old(failed) && LeftBy(run, ControllerSteps, old(pc), old(status.phase) == Ready)
      ensures Valid() && GoesOn(old(run), old(start))
      ensures Now() == After(old(Now()), finalizer', status', pvc', job', pc', h)
      ensures |run.events| > |old(run).events|
    {
      hide ControllerStep, RunTo, Grew, Explained, LeftBy;
      ghost var s := After(Now(), finalizer', status', pvc', job', pc', h);
      RunStep(s);
      finalizer, status, pvc, job, tick := finalizer', status', pvc', job', tick + 1;
      pc, history := pc', h;
      assert Now() == s;
      Record(ControllerSteps);
    }

    /** The reconcile stops here. */
    method Stop()
      requires Valid()
      modifies this`pc, this`tick, this`run
      ensures LeftBy(run, ControllerEnds, old(pc), status.phase == Ready)
      ensures Valid() && GoesOn(old(run), old(start)) && Now() == Goto(old(Now()), Idle)
      ensures |run.events| > |old(run).events|
    {
      hide RunTo, Grew, Explained, LeftBy;
      ghost var s := Goto(Now(), Idle);
      RunGoesOn(run, Now(), ControllerEnds, s);
      Leaves(run, Now(), ControllerEnds, s);
      tick := tick + 1;
      pc := Idle;
      assert Now() == s;
      Record(ControllerEnds);
    }

    /** A step that only reads. */
    method Note(ghost pc': Pc)
      requires Valid() && ControllerStep(Now(), Goto(Now(), pc'))
      modifies this`pc, this`tick, this`run
      ensures LeftBy(run, ControllerSteps, old(pc), status.phase == Ready)
      ensures Valid() && GoesOn(old(run), old(start)) && Now() == Goto(old(Now()), pc')
      ensures |run.events| > |old(run).events|
    {
      hide ControllerStep, RunTo, Grew, Explained, LeftBy;
      ghost var s := Goto(Now(), pc');
      RunStep(s);
      tick := tick + 1;
      pc := pc';
      assert Now() == s;
      Record(ControllerSteps);
    }

    /** The next call: whether it fails is settled by `faults`. */
    method Call() returns (ok: bool)
      requires Valid()
      modifies this`failed, this`calls
      ensures ok == !faults(old(calls)) && failed == (old(failed) || !ok) && Valid()
    {
      hide RunTo, Explained;
      OneCallMore(faults, start, calls, failed, run);
      ok := !faults(calls);
      calls, failed := calls + 1, failed || !ok;
    }

    /** A call to the API server: it may fail, which ends the reconcile. */
    method Attempt() returns (ok: bool)
      requires Valid()
      modifies this`pc, this`tick, this`run, this`failed, this`calls
      ensures failed == (old(failed) || !ok)
      ensures Valid() && GoesOn(old(run), old(start))
      ensures ok ==> Now() == old(Now())
      ensures !ok ==> Now() == Goto(old(Now()), Idle)
    {
      hide Grew, RunTo, Explained;
      Growth<State, Event>();
      ok := Call();
      if !ok { Stop(); }
    }

    /** A call that may fail without ending the reconcile, which then stands at `pc'`. */
    method Refuses(ghost pc': Pc) returns (refused: bool)
      requires Valid() && FailStep(Now(), Goto(Now(), pc'))
      modifies this`pc, this`tick, this`run, this`failed, this`calls
      ensures failed == (old(failed) || refused)
      ensures Valid() && GoesOn(old(run), old(start))
      ensures Now() == if refused then Goto(old(Now()), pc') else old(Now())
    {
      hide Grew, RunTo, FailStep, Explained;
      Growth<State, Event>();
      var ok := Call();
      refused := !ok;
      if refused {
        ghost var s := Goto(Now(), pc');
        RunGoesOn(run, Now(), CallFails, s);
        tick := tick + 1;
        pc := pc';
        assert Now() == s;
        Record(CallFails);
      }
    }

    /** Writes to the store; the write may fail, which ends the reconcile. */
    method Put(finalizer': bool, status': CacheStatus, pvc': Option<Pvc>, job': Option<Job>, ghost pc': Pc,
               ghost h: History)
      returns (ok: bool)
      requires Valid()
      requires ControllerStep(Now(), After(Now(), finalizer', status', pvc', job', pc', h))
      modifies this
      ensures failed == (old(failed) || !ok)
      ensures Valid() && GoesOn(old(run), old(start))
      ensures ok ==> LeftBy(run, ControllerSteps, old(pc), old(status.phase) == Ready)
      ensures ok ==> Now() == After(old(Now()), finalizer', status', pvc', job', pc', h)
      ensures !ok ==> pc.Idle?
    {
      hide Grew, RunTo, ControllerStep, Explained, LeftBy;
      Growth<State, Event>();
      ok := Attempt();
      if ok {
        Apply(finalizer', status', pvc', job', pc', h);
      }
    }
  }

  /** How a reconcile ended. */
  datatype Outcome =
    | CallFailed
    | NotRequested
    | InvalidTtl
    | Waiting(now: Time, requeueAfter: nat)
    | EvictedCache(now: Time)
    | ForeignPvc
    | StillReady
    | Wrote(phase: Phase)

  /** Which outcomes a reconcile can have that found the cache in the given phase. */
  predicate Possible(found: Phase, r: Outcome) {
    match r
    case CallFailed => true
    case NotRequested => found == Evicted
    case InvalidTtl => found == Ready
    case Waiting(_, _) => found == Ready
    case EvictedCache(_) => found == Ready
    case StillReady => found == Ready
    case ForeignPvc => found != Ready
    case Wrote(phase) => if found == Ready then phase == Ready || phase == Failed else phase != Evicted
  }

  /** The event that gives the outcome, and where the reconcile stands then. */
  predicate EndsFrom(r: Outcome, e: Event, pc: Pc) {
    match r
    case CallFailed => true
    case NotRequested => e == ControllerEnds && pc.Decide?
    case InvalidTtl => e == ControllerEnds && pc.Unused?
    case Waiting(_, _) => e == ControllerEnds && pc.Unused?
    case EvictedCache(_) => e == ControllerSteps && pc.MarkEvicted?
    case ForeignPvc => e == ControllerEnds && pc.EnsurePvc?
    case StillReady => e == ControllerSteps && pc.CheckPvc?
    case Wrote(phase) => e == ControllerSteps && pc.Report? && pc.report.phase == phase
  }

  /** That event was the last one, and the cache was Ready or not before it. */
  ghost predicate LeftAs(r: Outcome, run: PvcRun, ready: bool) {
    r == Outcome.CallFailed || exists e, pc :: LeftBy(run, e, pc, ready) && EndsFrom(r, e, pc)
  }

  /** What a reconcile of a Ready cache, or of one that was not, has seen when it ends so. */
  predicate Follows(r: Outcome, sp: Spec, ready: bool, seen: iset<Sight>, failed: bool) {
    match r
    case CallFailed => failed
    case NotRequested => true
    case InvalidTtl => ReadyUnrequested in seen
    case Waiting(_, _) => ReadyUnrequested in seen
    case EvictedCache(_) => ReadyUnrequested in seen
    case ForeignPvc => ToBuild in seen && ClassThere in seen
    case StillReady => PastUsage(sp, seen)
    case Wrote(phase) => Grounds(sp, ready, phase, seen, failed)
  }

  lemma SpecStays(s: State, e: Event, s': State)
    requires Next(s, e, s')
    ensures s'.spec == s.spec
  {
    hide Patched, Progress, Reported, JobSeen, Judged, WithReasons;
  }

  lemma MoreFollows(r: Outcome, sp: Spec, ready: bool, seen: iset<Sight>, seen': iset<Sight>, failed: bool,
                    failed': bool)
    requires Follows(r, sp, ready, seen, failed) && seen <= seen' && (failed ==> failed')
    ensures Follows(r, sp, ready, seen', failed')
  {
  }

  lemma EndFollows(r: Outcome, s: State, e: Event, seen: iset<Sight>, failed: bool)
    requires Founded(s, seen, failed) && EndsFrom(r, e, s.pc) && r != Outcome.CallFailed
    ensures Follows(r, s.spec, s.status.phase == Ready, seen, failed)
  {
    hide Grounds, Shows;
  }

  /** Where it left from tells what a reconcile that began with `r0` has seen. */
  lemma OutcomeFollows(r: Outcome, r0: PvcRun, s0: State, run: PvcRun, s: State, ready: bool, failed: bool)
    requires RunTo(r0, s0) && RunTo(run, s) && Grew(r0, run) && s0.pc.Idle? && LeftAs(r, run, ready)
    requires if r == Outcome.CallFailed then failed else |r0.events| < |run.events|
    requires SomeCallFails(run.events, |r0.events|, |run.events|) ==> failed
    ensures Follows(r, s.spec, ready, Seen(run.states, |r0.events|, |run.events|), failed)
  {
    hide EndsFrom, Follows, Founded, Seen, Initial, Next;
    if r == Outcome.CallFailed {
      GaveUpFollows(s.spec, ready, Seen(run.states, |r0.events|, |run.events|));
    } else {
      var e, pc :| LeftBy(run, e, pc, ready) && EndsFrom(r, e, pc);
      var i, n := |r0.events|, |run.events|;
      var t := run.states[n - 1];
      assert run.states[i] == r0.states[i];
      WhatAReconcileSaw(run.states, run.events, i, n - 1);
      SpecStays(t, run.events[n - 1], run.states[n]);
      EndFollows(r, t, e, Seen(run.states, i, n - 1), SomeCallFails(run.events, i, n - 1));
      SeenMore(run.states, i, n);
      MoreFollows(r, s.spec, ready, Seen(run.states, i, n - 1), Seen(run.states, i, n),
                  SomeCallFails(run.events, i, n - 1), failed);
    }
  }

  lemma GaveUpFollows(sp: Spec, ready: bool, seen: iset<Sight>)
    ensures Follows(Outcome.CallFailed, sp, ready, seen, true)
  {
  }

  /** A failed call ends the reconcile, or is reported as the failure of the cache. */
  predicate Blames(before: bool, after: bool, r: Outcome) {
    && (before || r == Outcome.CallFailed ==> after)
    && (after ==> before || r == Outcome.CallFailed || r == Wrote(Failed))
  }

  /** How the path of a cache that is not Ready can end. */
  predicate BuildEnds(r: Outcome) { r == Outcome.CallFailed || r == ForeignPvc || (r.Wrote? && r.phase != Evicted) }

  /** What looking for the PVC came to. */
  datatype FoundPvc = CallFailed | Foreign | Found(bound: bool)

  class PvcController {
    const store: Store

    constructor (store: Store)
      ensures this.store == store
    {
      this.store := store;
    }

    ghost predicate TtlPassed(now: Time)
      reads store
    {
      && store.spec.ttl.Ttl? && store.status.lastUsed.Some? && now <= store.clock
      && now >= store.status.lastUsed.value + store.spec.ttl.duration
    }

    /** What each outcome says about the store at the end of the reconcile. */
    ghost predicate Explains(r: Outcome, ready: bool)
      reads store
    {
      LeftAs(r, store.run, ready) &&
      match r
      case CallFailed => true
      case NotRequested => store.status.phase == Evicted && store.pods == map[]
      case InvalidTtl => store.status.phase == Ready && store.spec.ttl == BadTtl
      case Waiting(now, after) =>
        && store.status.phase == Ready && now == store.clock
        && store.spec.ttl.Ttl? && store.status.lastUsed.Some? && after > 0
        && now + after == store.status.lastUsed.value + store.spec.ttl.duration
      case EvictedCache(now) => store.status.phase == Evicted && store.pvc.None? && store.job.None? && TtlPassed(now)
      case ForeignPvc => store.pvc.Some? && !store.pvc.value.managed
      case StillReady => store.status.phase == Ready && Healthy(store.pvc)
      case Wrote(phase) => store.status.phase == phase && store.status.mode == PVCMode && Consistent(store.status)
    }

    /** The status stored is `st`, and the cache is not Ready. */
    ghost predicate Unready(st: CacheStatus)
      reads store
    {
      store.status == st && st.phase != Ready
    }

    method AddFinalizer() returns (ok: bool, st: CacheStatus)
      requires store.Valid() && store.pc.AddFinalizer?
      modifies store
      ensures store.failed == (old(store.failed) || !ok)
      ensures store.Valid() && store.GoesOn(old(store.run), old(store.start))
      ensures store.pc == if ok then Decide(st) else Idle
      ensures ok ==> st == old(store.status)
    {
      hide Explained, LeftBy, Grew, RunTo, Consistent, WithReasons;
      Growth<State, Event>();
      store.Others();
      st := store.status;
      ok := store.Put(true, store.status, store.pvc, store.job, Decide(store.status), store.history);
    }

    /** Writes a use of a Ready cache. */
    method RecordUse(st: CacheStatus, now: Time) returns (ok: bool)
      requires store.Valid() && store.pc == Use(st, now)
      modifies store
      ensures store.failed == (old(store.failed) || !ok)
      ensures store.Valid() && store.GoesOn(old(store.run), old(store.start))
      ensures store.pc == if ok then CheckPvc(UsedAt(st, now)) else Idle
    {
      hide Inv, Explained, LeftBy, Grew, RunTo, Consistent, WithReasons;
      Growth<State, Event>();
      store.Others();
      ok := store.Put(store.finalizer, Patched(store.status, st, UsedAt(st, now)), store.pvc, store.job,
                      CheckPvc(UsedAt(st, now)), Recorded(store.history, now));
    }

    /**
     With no Pod counted: nothing without a TTL, a wait, or the eviction. A Ready cache always has
     a last use, so the source's branch for a zero lastUsedTime is never taken.
     */
    method ReconcileUnused(st: CacheStatus, ghost countedAt: nat) returns (handled: bool, r: Outcome)
      requires store.Valid() && store.pc == Unused(st, countedAt)
      modifies store
      ensures Blames(old(store.failed), store.failed, r)
      ensures store.Valid() && store.GoesOn(old(store.run), old(store.start))
      ensures if handled then store.pc.Idle? && Explains(r, true) else store.pc == CheckPvc(st)
      ensures if handled then Possible(Ready, r) else store.failed == old(store.failed)
    {
      hide Explained, LeftBy, Grew, RunTo, Consistent, WithReasons;
      Growth<State, Event>();
      store.Others();
      handled, r := true, InvalidTtl;
      match store.spec.ttl
      case NoTtl =>
        store.Note(CheckPvc(st));
        handled := false;
      case BadTtl => store.Stop();
      case Ttl(ttl) =>
        assert st.lastUsed.Some?;
        var now, evictAfter := store.clock, st.lastUsed.value + ttl;
        if now < evictAfter {
          store.Stop();
          r := Waiting(now, evictAfter - now);
        } else {
          store.Note(DeleteJob(st, countedAt, now));
          r := Evict(st, countedAt, now);
        }
    }

    /** Deletes the Job, then the PVC, then marks the cache evicted. */
    method Evict(st: CacheStatus, ghost countedAt: nat, now: Time) returns (r: Outcome)
      requires store.Valid() && store.pc == DeleteJob(st, countedAt, now)
      modifies store
      ensures Blames(old(store.failed), store.failed, r)
      ensures store.Valid() && store.GoesOn(old(store.run), old(store.start))
      ensures store.pc.Idle? && Explains(r, true) && (r == Outcome.CallFailed || r == EvictedCache(now))
    {
      hide Explained, LeftBy, Grew, RunTo, Consistent, WithReasons;
      Growth<State, Event>();
      r := Outcome.CallFailed;
      store.Others();
      var ok := store.Put(store.finalizer, store.status, store.pvc, None, DeletePvc(st, countedAt, now), store.history);
      if !ok { return; }
      store.Others();
      ok := store.Put(store.finalizer, store.status, None, store.job, MarkEvicted(st), store.history);
      if !ok { return; }
      r := MarkPVCModelCacheEvicted(st, now);
    }

    method MarkPVCModelCacheEvicted(st: CacheStatus, now: Time) returns (r: Outcome)
      requires store.Valid() && store.pc == MarkEvicted(st) && now <= store.clock
      requires st.lastUsed.Some? && store.spec.ttl.Ttl? && now >= st.lastUsed.value + store.spec.ttl.duration
      modifies store
      ensures Blames(old(store.failed), store.failed, r)
      ensures store.Valid() && store.GoesOn(old(store.run), old(store.start))
      ensures store.pc.Idle? && Explains(r, true) && (r == Outcome.CallFailed || r == EvictedCache(now))
    {
      hide Explained, LeftBy, Grew, RunTo, Consistent, WithReasons;
      Growth<State, Event>();
      store.Others();
      assert store.pvc.None? && store.job.None? && store.status == st;
      var memory := new StatusObject(st);
      memory.Report(Evicted, store.spec.pvcName, "", CACHE_EVICTED);
      var ok := store.Put(store.finalizer, Patched(store.status, st, memory.Value()), store.pvc, store.job, Idle,
          store.history);
      r := if ok then EvictedCache(now) else Outcome.CallFailed;
    }

    /** Looks at the PVC of a Ready cache; one that is lost, going or unbound makes the cache Failed. */
    method CheckReadyPvc(st: CacheStatus) returns (r: Outcome)
      requires store.Valid() && store.pc == CheckPvc(st)
      modifies store
      ensures Blames(old(store.failed), store.failed, r)
      ensures store.Valid() && store.GoesOn(old(store.run), old(store.start))
      ensures store.pc.Idle? && Explains(r, true)
      ensures r == Outcome.CallFailed || r == StillReady || r == Wrote(Ready) || r == Wrote(Failed)
    {
      hide Explained, LeftBy, Grew, RunTo, Consistent, WithReasons;
      Growth<State, Event>();
      store.Others();
      var memory := new StatusObject(st);
      var changed := JudgePvc(st, memory);
      if changed { r := Update(memory, None); } else { r := StillReady; }
    }

    /** Reads the PVC and judges the cache by it; a PVC that cannot be read counts as lost. */
    method JudgePvc(st: CacheStatus, memory: StatusObject) returns (changed: bool)
      requires store.Valid() && store.pc == CheckPvc(st) && memory.Value() == st && st.phase == Ready
      requires store.status == st
      modifies store, memory
      ensures old(store.failed) ==> store.failed
      ensures store.failed ==> old(store.failed) || memory.phase == Failed
      ensures store.Valid() && store.GoesOn(old(store.run), old(store.start))
      ensures !changed ==> LeftAs(StillReady, store.run, true)
      ensures store.pc == if changed then Report(memory.Value(), None) else Idle
      ensures memory.phase == Ready || memory.phase == Failed
      ensures memory.phase == Ready ==> Healthy(store.pvc)
      ensures memory.phase == Failed ==> changed && (store.failed || !Healthy(store.pvc))
      ensures store.pvc == old(store.pvc) && store.status == old(store.status)
    {
      hide Explained, LeftBy, Grew, RunTo, Consistent, WithReasons, Healthy;
      Growth<State, Event>();
      var unreadable := store.Refuses(Report(Reported(st, Failed, "", "", PVC_LOST), None));
      if unreadable {
        memory.Report(Failed, "", "", PVC_LOST);
        changed := true;
      } else {
        changed := JudgeReadPvc(st, memory);
      }
    }

    /** Sets the status in memory by what the PVC looks like now. */
    method JudgeReadPvc(st: CacheStatus, memory: StatusObject) returns (changed: bool)
      requires store.Valid() && store.pc == CheckPvc(st) && memory.Value() == st && st.phase == Ready
      requires store.status == st
      modifies store, memory
      ensures store.failed == old(store.failed)
      ensures store.Valid() && store.GoesOn(old(store.run), old(store.start))
      ensures !changed ==> LeftAs(StillReady, store.run, true)
      ensures store.pc == if changed then Report(memory.Value(), None) else Idle
      ensures if Healthy(store.pvc) then memory.phase == Ready else memory.phase == Failed && changed
      ensures store.pvc == old(store.pvc) && store.status == old(store.status)
    {
      hide Explained, LeftBy, Grew, RunTo, Consistent, WithReasons;
      changed := true;
      if store.pvc.None? || !store.pvc.value.managed {
        memory.Report(Failed, "", "", PVC_LOST);
      } else if store.pvc.value.terminating {
        memory.Report(Failed, store.spec.pvcName, "", PVC_DELETING);
      } else if !store.pvc.value.bound {
        memory.Report(Failed, store.spec.pvcName, "", PVC_LOST);
      } else {
        changed := memory.SetPVCSummary();
      }
      ghost var pc := if changed then Report(memory.Value(), None) else Idle;
      assert CheckStep(store.Now(), Goto(store.Now(), pc));
      store.Note(pc);
    }

    /** Writes the whole status. */
    method Update(memory: StatusObject, ghost used: Option<Time>) returns (r: Outcome)
      requires store.Valid() && store.pc == Report(memory.Value(), used)
      modifies store
      ensures store.failed == (old(store.failed) || r == Outcome.CallFailed)
      ensures store.Valid() && store.GoesOn(old(store.run), old(store.start))
      ensures store.pc.Idle? && Explains(r, old(store.status.phase) == Ready)
      ensures r == Outcome.CallFailed || r == Wrote(memory.phase)
    {
      hide Explained, LeftBy, Grew, RunTo, Consistent, WithReasons;
      Growth<State, Event>();
      store.Others();
      var ok := store.Put(store.finalizer, memory.Value(), store.pvc, store.job, Idle,
                          if used.Some? then Recorded(store.history, used.value) else store.history);
      if ok { store.Known(); }
      r := if ok then Wrote(memory.phase) else Outcome.CallFailed;
    }

    /** The path of a cache that is not Ready: StorageClass, PVC, Job. */
    method Build(st: CacheStatus) returns (r: Outcome)
      requires store.Valid() && store.pc == CheckClass(st)
      modifies store
      ensures Blames(old(store.failed), store.failed, r)
      ensures store.Valid() && store.GoesOn(old(store.run), old(store.start))
      ensures store.pc.Idle? && Explains(r, false)
      ensures BuildEnds(r)
    {
      hide Inv, Explained, LeftBy, Grew, RunTo, Consistent, WithReasons;
      Growth<State, Event>();
      store.Others();
      var ok := store.Attempt();
      if !ok { return Outcome.CallFailed; }
      store.HeldKnown();
      var memory := new StatusObject(st);
      if !store.classExists {
        r := ReportMissingClass(st, memory);
        return;
      }
      store.Note(EnsurePvc(st));
      r := BuildStorage(st, memory);
    }

    method ReportMissingClass(st: CacheStatus, memory: StatusObject) returns (r: Outcome)
      requires store.Valid() && store.pc == CheckClass(st) && !store.classExists && memory.Value() == st && Unready(st)
      modifies store, memory
      ensures Blames(old(store.failed), store.failed, r)
      ensures store.Valid() && store.GoesOn(old(store.run), old(store.start))
      ensures store.pc.Idle? && Explains(r, false)
      ensures BuildEnds(r)
    {
      hide Inv, Explained, LeftBy, Grew, RunTo, Consistent, WithReasons;
      Growth<State, Event>();
      memory.Report(Failed, "", "", CLASS_MISSING);
      store.Note(Report(memory.Value(), None));
      r := Update(memory, None);
    }

    /** Finds or makes the PVC and goes on with it. */
    method BuildStorage(st: CacheStatus, memory: StatusObject) returns (r: Outcome)
      requires store.Valid() && store.pc == EnsurePvc(st) && memory.Value() == st && Unready(st)
      modifies store, memory
      ensures Blames(old(store.failed), store.failed, r)
      ensures store.Valid() && store.GoesOn(old(store.run), old(store.start))
      ensures store.pc.Idle? && Explains(r, false)
      ensures BuildEnds(r)
    {
      hide Explained, LeftBy, Grew, RunTo, Consistent, WithReasons, Reported;
      Growth<State, Event>();
      var found := EnsureModelCachePVC(st);
      match found
      case CallFailed => return Outcome.CallFailed;
      case Foreign => return ForeignPvc;
      case Found(bound) => r := BuildOn(st, memory, bound);
    }

    /** Waits for the PVC, or goes on to the Job. */
    method BuildOn(st: CacheStatus, memory: StatusObject, bound: bool) returns (r: Outcome)
      requires store.Valid() && store.pc == WithPvc(store.spec, st, bound) && memory.Value() == st && Unready(st)
      modifies store, memory
      ensures Blames(old(store.failed), store.failed, r)
      ensures store.Valid() && store.GoesOn(old(store.run), old(store.start))
      ensures store.pc.Idle? && Explains(r, false)
      ensures BuildEnds(r)
    {
      hide Explained, LeftBy, Grew, RunTo, Consistent, WithReasons;
      Growth<State, Event>();
      if bound {
        r := BuildJob(st, memory);
      } else {
        memory.Report(Pending, store.spec.pvcName, memory.jobName, PVC_PENDING);
        r := Update(memory, None);
      }
    }

    /** Finds the PVC or creates it; a PVC that Praesto does not manage is an error. */
    method EnsureModelCachePVC(st: CacheStatus) returns (found: FoundPvc)
      requires store.Valid() && store.pc == EnsurePvc(st) && Unready(st)
      modifies store
      ensures store.failed == (old(store.failed) || found.CallFailed?) && (found.Found? ==> Unready(st))
      ensures store.Valid() && store.GoesOn(old(store.run), old(store.start))
      ensures store.pc == if found.Found? then WithPvc(store.spec, st, found.bound) else Idle
      ensures found.Foreign? ==> Explains(ForeignPvc, false)
    {
      hide Inv, Explained, LeftBy, Grew, RunTo, Consistent, WithReasons, Reported;
      Growth<State, Event>();
      store.Others();
      var ok := store.Attempt();
      if !ok { return FoundPvc.CallFailed; }
      if store.pvc.Some? {
        if !store.pvc.value.managed {
          store.Stop();
          return Foreign;
        }
        var bound := store.pvc.value.bound;
        store.Note(WithPvc(store.spec, st, bound));
        return Found(bound);
      }
      store.Note(CreatePvc(st));
      ok := CreateModelCachePVC(st);
      found := if ok then Found(false) else FoundPvc.CallFailed;
    }

    method CreateModelCachePVC(st: CacheStatus) returns (ok: bool)
      requires store.Valid() && store.pc == CreatePvc(st) && store.pvc.None? && Unready(st)
      modifies store
      ensures store.failed == (old(store.failed) || !ok) && (ok ==> Unready(st))
      ensures store.Valid() && store.GoesOn(old(store.run), old(store.start))
      ensures store.pc == if ok then WithPvc(store.spec, st, false) else Idle
    {
      hide Inv, Explained, LeftBy, Grew, RunTo, Consistent, WithReasons, Reported;
      Growth<State, Event>();
      store.Others();
      var created := Pvc(true, false, false, store.tick, false);
      ok := store.Put(store.finalizer, store.status, Some(created), store.job, WithPvc(store.spec, st, false),
          store.history);
    }

    /** Finds the Job or creates it, and reports how far it is. */
    method BuildJob(st: CacheStatus, memory: StatusObject) returns (r: Outcome)
      requires store.Valid() && store.pc == EnsureJob(st) && memory.Value() == st && Unready(st)
      modifies store, memory
      ensures Blames(old(store.failed), store.failed, r)
      ensures store.Valid() && store.GoesOn(old(store.run), old(store.start))
      ensures store.pc.Idle? && Explains(r, false)
      ensures BuildEnds(r)
    {
      hide Explained, LeftBy, Grew, RunTo, Consistent, WithReasons;
      Growth<State, Event>();
      var job := EnsureDownloadJob(st);
      match job
      case None =>
        memory.Report(Failed, store.spec.pvcName, memory.jobName, JOB_CREATE_FAILED);
        r := Update(memory, None);
      case Some(j) => r := ReportJob(st, memory, j);
    }

    /** Any error on the way is reported in the status. */
    method EnsureDownloadJob(st: CacheStatus) returns (job: Option<Job>)
      requires store.Valid() && store.pc == EnsureJob(st) && Unready(st)
      modifies store
      ensures store.failed == (old(store.failed) || job.None?) && Unready(st)
      ensures store.Valid() && store.GoesOn(old(store.run), old(store.start))
      ensures store.pc == if job.Some? then CheckJob(st, job.value) else JobNotCreated(store.spec, st)
    {
      hide Inv, Explained, LeftBy, Grew, RunTo, Consistent, WithReasons, Reported;
      Growth<State, Event>();
      store.Others();
      var refused := store.Refuses(JobNotCreated(store.spec, st));
      if refused { return None; }
      if store.job.Some? {
        job := store.job;
        store.Note(CheckJob(st, job.value));
      } else {
        store.Note(CreateJob(st));
        job := CreateDownloadJob(st);
      }
    }

    method CreateDownloadJob(st: CacheStatus) returns (job: Option<Job>)
      requires store.Valid() && store.pc == CreateJob(st) && store.job.None? && Unready(st)
      modifies store
      ensures store.failed == (old(store.failed) || job.None?) && Unready(st)
      ensures store.Valid() && store.GoesOn(old(store.run), old(store.start))
      ensures store.pc == if job.Some? then CheckJob(st, job.value) else JobNotCreated(store.spec, st)
    {
      hide Inv, Explained, LeftBy, Grew, RunTo, Consistent, WithReasons, Reported;
      Growth<State, Event>();
      store.Others();
      var refused := store.Refuses(JobNotCreated(store.spec, st));
      if refused { return None; }
      var created := Job([], 0);
      store.Apply(store.finalizer, store.status, store.pvc, Some(created), CheckJob(st, created), store.history);
      job := Some(created);
    }

    /** Reports what the Job's conditions say. */
    method ReportJob(st: CacheStatus, memory: StatusObject, job: Job) returns (r: Outcome)
      requires store.Valid() && store.pc == CheckJob(st, job) && memory.Value() == st && Unready(st)
      modifies store, memory
      ensures Blames(old(store.failed), store.failed, r)
      ensures store.Valid() && store.GoesOn(old(store.run), old(store.start))
      ensures store.pc.Idle? && Explains(r, false)
      ensures r == Outcome.CallFailed || r == Wrote(PhaseFor(job))
    {
      hide Inv, Explained, LeftBy, Grew, RunTo, Consistent, WithReasons;
      Growth<State, Event>();
      store.Others();
      var now := store.clock;
      JudgeJob(st, memory, job, now);
      ghost var used := if Succeeded(job) then Some(now) else None;
      store.Note(Report(memory.Value(), used));
      r := Update(memory, used);
    }

    function PhaseFor(job: Job): Phase {
      match Progress(job.conditions)
      case Err(_) => Failed
      case Ok(done) => if done then Ready else Downloading
    }

    /** Sets the status in memory by what the Job's conditions say. */
    method JudgeJob(st: CacheStatus, memory: StatusObject, job: Job, now: Time)
      requires memory.Value() == st
      modifies memory
      ensures Report(memory.Value(), if Succeeded(job) then Some(now) else None) == JobSeen(store.spec, st, job, now)
      ensures memory.phase == PhaseFor(job)
    {
      hide WithReasons;
      var progress := IsDownloadJobComplete(job.conditions);
      match progress
      case Err(_) => memory.Report(Failed, store.spec.pvcName, store.spec.jobName, JOB_FAILED);
      case Ok(true) =>
        memory.lastUsed := Some(Stored(now));
        memory.Report(Ready, store.spec.pvcName, store.spec.jobName, JOB_SUCCEEDED);
      case Ok(false) => memory.Report(Downloading, store.spec.pvcName, store.spec.jobName, JOB_RUNNING);
    }

    /** Pods were counted: the use at the time it is now, then the PVC. */
    method ReconcileUsed(st: CacheStatus) returns (r: Outcome)
      requires store.Valid() && store.pc == Counted(st)
      modifies store
      ensures Blames(old(store.failed), store.failed, r)
      ensures store.Valid() && store.GoesOn(old(store.run), old(store.start))
      ensures store.pc.Idle? && Explains(r, true)
      ensures r == Outcome.CallFailed || r == StillReady || r == Wrote(Ready) || r == Wrote(Failed)
    {
      hide Inv, Explained, LeftBy, Grew, RunTo, Consistent, WithReasons;
      Growth<State, Event>();
      store.Others();
      var now := store.clock;
      store.Note(Use(st, now));
      var ok := RecordUse(st, now);
      if !ok { return Outcome.CallFailed; }
      r := CheckReadyPvc(UsedAt(st, now));
    }

    /** The usage of a Ready cache, then its PVC. */
    method ReconcileReady(st: CacheStatus) returns (r: Outcome)
      requires store.Valid() && store.pc == Decide(st) && st.phase == Ready
      modifies store
      ensures Blames(old(store.failed), store.failed, r)
      ensures store.Valid() && store.GoesOn(old(store.run), old(store.start))
      ensures store.pc.Idle? && Explains(r, true)
      ensures Possible(Ready, r)
    {
      hide Inv, Explained, Explains, LeftBy, Grew, RunTo, Consistent, WithReasons;
      Growth<State, Event>();
      store.Others();
      var ok := store.Attempt();
      if !ok {
        GivingUpExplains(true);
        return Outcome.CallFailed;
      }
      var activePods := |store.pods|;
      if activePods > 0 {
        store.Note(Counted(st));
        r := ReconcileUsed(st);
      } else {
        r := ReconcileUncounted(st);
      }
    }

    lemma GivingUpExplains(ready: bool)
      ensures Explains(Outcome.CallFailed, ready)
    {
    }

    method ReconcileUncounted(st: CacheStatus) returns (r: Outcome)
      requires store.Valid() && store.pc == Decide(st) && st.phase == Ready && store.pods == map[]
      modifies store
      ensures Blames(old(store.failed), store.failed, r)
      ensures store.Valid() && store.GoesOn(old(store.run), old(store.start))
      ensures store.pc.Idle? && Explains(r, true)
      ensures Possible(Ready, r)
    {
      hide Inv, Explained, Explains, LeftBy, Grew, RunTo, Consistent, WithReasons;
      Growth<State, Event>();
      ghost var countedAt := store.tick;
      store.Note(Unused(st, countedAt));
      var handled;
      handled, r := ReconcileUnused(st, countedAt);
      if !handled { r := CheckReadyPvc(st); }
    }

    /**
     One reconcile of a PVC-mode ModelCache that is not being deleted. How it ends follows from what it has
     seen since it began, and it fails a call, or reports a failure it met, exactly if `faults` says so.
     */
    method Reconcile() returns (r: Outcome)
      requires store.Valid() && store.pc.Idle?
      modifies store
      ensures store.Valid() && Grew(old(store.run), store.run)
      ensures store.pc.Idle? && Explains(r, old(store.status.phase) == Ready)
      ensures Possible(old(store.status.phase), r)
      ensures Follows(r, store.spec, old(store.status.phase) == Ready,
                      Seen(store.run.states, |old(store.run).events|, |store.run.events|), store.failed)
      ensures store.failed ==> r == Outcome.CallFailed || r == Wrote(Failed)
      ensures store.failed <==> Faulty(store.faults, old(store.calls), store.calls)
    {
      hide Grew, RunTo, LeftBy, LeftAs, Seen, Consistent, WithReasons;
      Growth<State, Event>();
      store.Begin();
      r := ReconcileCache();
      OutcomeFollows(r, old(store.run), old(store.Now()), store.run, store.Now(), old(store.status.phase) == Ready,
                     store.failed);
    }

    method ReconcileCache() returns (r: Outcome)
      requires store.Valid() && store.pc.Idle? && !store.failed
      modifies store
      ensures Blames(false, store.failed, r)
      ensures store.Valid() && store.GoesOn(old(store.run), old(store.start))
      ensures store.pc.Idle? && Explains(r, old(store.status.phase) == Ready)
      ensures Possible(old(store.status.phase), r)
      ensures r != Outcome.CallFailed ==> |old(store.run).events| < |store.run.events|
    {
      hide Explained, LeftBy, Grew, RunTo, Consistent, WithReasons;
      Growth<State, Event>();
      GrowthIsLonger<State, Event>();
      var ok := store.Attempt();
      if !ok { return Outcome.CallFailed; }
      var st := store.status;
      if store.finalizer {
        store.Note(Decide(st));
      } else {
        store.Note(PvcProtocol.AddFinalizer);
        ok, st := AddFinalizer();
        if !ok { return Outcome.CallFailed; }
      }
      if st.phase == Ready {
        r := ReconcileReady(st);
        return;
      }
      r := ReconcileOther(st);
    }

    method ReconcileOther(st: CacheStatus) returns (r: Outcome)
      requires store.Valid() && store.pc == Decide(st) && st.phase != Ready
      modifies store
      ensures Blames(old(store.failed), store.failed, r)
      ensures store.Valid() && store.GoesOn(old(store.run), old(store.start))
      ensures store.pc.Idle? && Explains(r, false)
      ensures Possible(st.phase, r)
    {
      hide Explained, LeftBy, Grew, RunTo, Consistent, WithReasons;
      Growth<State, Event>();
      store.Others();
      if st.phase == Evicted {
        var ok := store.Attempt();
        if !ok { return Outcome.CallFailed; }
        if |store.pods| == 0 {
          store.Stop();
          return NotRequested;
        }
      }
      store.Note(CheckClass(st));
      r := Build(st);
    }
  }
}
