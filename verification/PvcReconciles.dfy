/** What a reconcile of a PVC-mode ModelCache has seen on its way, over all runs. */
module PvcReconciles {
  import opened Common
  import opened CacheStatuses
  import opened PvcProtocol
  import opened PvcSafety
  import opened PvcTheorems

  // ------------------------------------------------- what a Job's conditions say

  predicate Decisive(c: JobCondition) { c.status && (c.kind == JobComplete || c.kind == JobFailed) }

  /** There is a decisive condition, and the first one is of that kind. */
  predicate FirstIs(conditions: seq<JobCondition>, kind: JobKind) {
    exists i :: 0 <= i < |conditions| && conditions[i] == JobCondition(kind, true) && NoneDecides(conditions[..i])
  }

  predicate NoneDecides(conditions: seq<JobCondition>) {
    forall i :: 0 <= i < |conditions| ==> !Decisive(conditions[i])
  }

  /** The progress of a Job is what its first decisive condition says. */
  lemma {:induction false} ProgressExactly(conditions: seq<JobCondition>)
    ensures Progress(conditions) == Ok(true) <==> FirstIs(conditions, JobComplete)
    ensures Progress(conditions).Err? <==> FirstIs(conditions, JobFailed)
    ensures Progress(conditions) == Ok(false) <==> NoneDecides(conditions)
  {
    if conditions != [] {
      FirstIsOf(conditions, JobComplete);
      FirstIsOf(conditions, JobFailed);
      if !Decisive(conditions[0]) { ProgressExactly(conditions[1..]); }
    }
  }

  lemma FirstIsOf(conditions: seq<JobCondition>, kind: JobKind)
    requires conditions != [] && (kind == JobComplete || kind == JobFailed)
    ensures FirstIs(conditions, kind)
      <==> conditions[0] == JobCondition(kind, true) || (!Decisive(conditions[0]) && FirstIs(conditions[1..], kind))
  {
    var rest := conditions[1..];
    if conditions[0] == JobCondition(kind, true) {
      assert NoneDecides(conditions[..0]);
    }
    if FirstIs(conditions, kind) && conditions[0] != JobCondition(kind, true) {
      var i :| 0 <= i < |conditions| && conditions[i] == JobCondition(kind, true) && NoneDecides(conditions[..i]);
      assert conditions[..i][0] == conditions[0];
      assert rest[i - 1] == conditions[i] && rest[..i - 1] == conditions[..i][1..];
    }
    if !Decisive(conditions[0]) && FirstIs(rest, kind) {
      var i :| 0 <= i < |rest| && rest[i] == JobCondition(kind, true) && NoneDecides(rest[..i]);
      assert conditions[i + 1] == rest[i] && conditions[..i + 1] == [conditions[0]] + rest[..i];
    }
  }

  // ------------------------------------------------------------ what can be seen

  datatype Sight =
    | ReadyRequested | ReadyUnrequested | ToBuild
    | ClassThere | ClassMissing
    | PvcBound | PvcUnbound | PvcHealthy | PvcUnhealthy
    | JobUndecided | JobDone | JobBroken

  /** At that moment it could be seen. A cache is to be built unless it is Ready, or evicted and not requested. */
  ghost predicate Was(s: State, x: Sight) {
    match x
    case ReadyRequested => s.status.phase == Ready && Requested(s)
    case ReadyUnrequested => s.status.phase == Ready && !Requested(s)
    case ToBuild => s.status.phase != Ready && (s.status.phase == Evicted ==> Requested(s))
    case ClassThere => s.classExists
    case ClassMissing => !s.classExists
    case PvcBound => s.pvc.Some? && s.pvc.value.managed && s.pvc.value.bound
    case PvcUnbound => s.pvc.Some? && s.pvc.value.managed && !s.pvc.value.bound
    case PvcHealthy => Healthy(s.pvc)
    case PvcUnhealthy => !Healthy(s.pvc)
    case JobUndecided => s.job.Some? && Shows(s.job.value, JobUndecided)
    case JobDone => s.job.Some? && Shows(s.job.value, JobDone)
    case JobBroken => s.job.Some? && Shows(s.job.value, JobBroken)
  }

  /** What the Job shows of itself. */
  predicate Shows(job: Job, x: Sight) {
    match x
    case JobUndecided => NoneDecides(job.conditions)
    case JobDone => FirstIs(job.conditions, JobComplete)
    case JobBroken => FirstIs(job.conditions, JobFailed)
    case _ => false
  }

  /** It could be seen at some moment from `i` to `j`. */
  ghost predicate Saw(states: seq<State>, i: nat, j: nat, x: Sight) {
    exists m :: i <= m <= j && m < |states| && Was(states[m], x)
  }

  ghost function Seen(states: seq<State>, i: nat, j: nat): iset<Sight> { iset x: Sight | Saw(states, i, j, x) }

  // ------------------------------------------------------- what a reconcile saw

  predicate PastUsage(sp: Spec, seen: iset<Sight>) {
    ReadyRequested in seen || (ReadyUnrequested in seen && sp.ttl.NoTtl?)
  }

  /** A Job was seen behind a bound PVC, and it showed this. */
  predicate JobSaw(seen: iset<Sight>, x: Sight) { iset{ToBuild, ClassThere, PvcBound, x} <= seen }

  /** Why a Ready cache is reported in that phase, or one that was not. */
  predicate Grounds(sp: Spec, ready: bool, phase: Phase, seen: iset<Sight>, failed: bool) {
    if ready then
      && PastUsage(sp, seen)
      && (phase == Ready || phase == Failed)
      && (if phase == Ready then PvcHealthy in seen else PvcUnhealthy in seen || failed)
    else
      && ToBuild in seen
      && (match phase
          case Pending => ClassThere in seen && PvcUnbound in seen
          case Downloading => JobSaw(seen, JobUndecided)
          case Ready => JobSaw(seen, JobDone)
          case Failed => ClassMissing in seen || JobSaw(seen, JobBroken) || failed
          case _ => false)
  }

  /** What a reconcile that stands there has seen, and whether one of its calls failed. */
  predicate Founded(s: State, seen: iset<Sight>, failed: bool) {
    match s.pc
    case Idle => true
    case AddFinalizer => true
    case Decide(_) => true
    case Counted(_) => ReadyRequested in seen
    case Use(_, _) => ReadyRequested in seen
    case CheckPvc(_) => PastUsage(s.spec, seen)
    case CheckClass(_) => ToBuild in seen
    case EnsurePvc(_) => ToBuild in seen && ClassThere in seen
    case CreatePvc(_) => ToBuild in seen && ClassThere in seen
    case EnsureJob(_) => ToBuild in seen && ClassThere in seen && PvcBound in seen
    case CreateJob(_) => ToBuild in seen && ClassThere in seen && PvcBound in seen
    case CheckJob(_, job) => forall x :: Shows(job, x) ==> JobSaw(seen, x)
    case Report(report, _) => Grounds(s.spec, s.status.phase == Ready, report.phase, seen, failed)
    case _ => ReadyUnrequested in seen
  }

  ghost function SightsOf(s: State): iset<Sight> { iset x: Sight | Was(s, x) }

  lemma SeenMore(states: seq<State>, i: nat, j: nat)
    requires i <= j < |states|
    ensures Seen(states, i, j) == (if i < j then Seen(states, i, j - 1) else iset{}) + SightsOf(states[j])
  {
    hide Was;
  }

  lemma MoreIsFounded(s: State, seen: iset<Sight>, seen': iset<Sight>, failed: bool, failed': bool)
    requires Founded(s, seen, failed) && seen <= seen' && (failed ==> failed')
    ensures Founded(s, seen', failed')
  {
    hide Shows;
  }

  lemma AdmitFounds(s: State, s': State, seen: iset<Sight>, failed: bool)
    requires Inv(s) && SightsOf(s) <= seen && AdmitStep(s, s')
    ensures Founded(s', seen, failed)
  {
    hide Consistent, StatusesConsistent, UseInv, DataInv, PodsConsistent;
  }

  lemma UsageFounds(s: State, s': State, seen: iset<Sight>, failed: bool)
    requires Inv(s) && Founded(s, seen, failed) && UsageStep(s, s')
    ensures Founded(s', seen, failed)
  {
    hide Consistent, StatusesConsistent, UseInv, DataInv, PodsConsistent, Patched, MarkedEvicted;
  }

  lemma CheckFounds(s: State, s': State, seen: iset<Sight>, failed: bool)
    requires Inv(s) && Founded(s, seen, failed) && SightsOf(s) <= seen && CheckStep(s, s')
    ensures Founded(s', seen, failed)
  {
    hide Consistent, StatusesConsistent, WithReasons, CountsForPhase, UseInv, DataInv, PodsConsistent;
    assert Was(s, if Healthy(s.pvc) then PvcHealthy else PvcUnhealthy);
  }

  lemma ProvisionFounds(s: State, s': State, seen: iset<Sight>, failed: bool)
    requires Inv(s) && Founded(s, seen, failed) && SightsOf(s) + SightsOf(s') <= seen && ProvisionStep(s, s')
    ensures Founded(s', seen, failed)
  {
    hide Consistent, StatusesConsistent, WithReasons, CountsForPhase, UseInv, DataInv, PodsConsistent;
    assert Was(s, if s.classExists then ClassThere else ClassMissing);
    if s'.pvc.Some? && s'.pvc.value.managed { assert Was(s', if s'.pvc.value.bound then PvcBound else PvcUnbound); }
  }

  lemma FindingTheJobFounds(s: State, s': State, seen: iset<Sight>, failed: bool)
    requires Inv(s) && Founded(s, seen, failed) && SightsOf(s) + SightsOf(s') <= seen && JobStep(s, s')
    requires !s.pc.CheckJob?
    ensures Founded(s', seen, failed)
  {
    hide Consistent, StatusesConsistent, UseInv, DataInv, PodsConsistent, FirstIs, NoneDecides, Progress;
    if s'.pc.CheckJob? {
      forall x | Shows(s'.pc.job, x) ensures x in seen { assert Was(s', x); }
    } else {
      assert Was(s, PvcBound) || s.pc.EnsureJob?;
    }
  }

  lemma JobFounds(s: State, s': State, seen: iset<Sight>, failed: bool)
    requires Inv(s) && Founded(s, seen, failed) && SightsOf(s) + SightsOf(s') <= seen && JobStep(s, s')
    ensures Founded(s', seen, failed)
  {
    hide Consistent, StatusesConsistent, WithReasons, CountsForPhase, UseInv, DataInv, PodsConsistent;
    hide SightsOf, Was, FirstIs, NoneDecides, Progress;
    if s.pc.CheckJob? {
      var job := s.pc.job;
      ProgressExactly(job.conditions);
      assert Shows(job, JobDone) || Shows(job, JobBroken) || Shows(job, JobUndecided);
    } else {
      FindingTheJobFounds(s, s', seen, failed);
    }
  }

  lemma FailFounds(s: State, s': State, seen: iset<Sight>, failed: bool)
    requires Inv(s) && Founded(s, seen, failed) && FailStep(s, s')
    ensures Founded(s', seen, true)
  {
    hide Consistent, StatusesConsistent, WithReasons, CountsForPhase, UseInv, DataInv, PodsConsistent;
  }

  lemma ControllerFounds(s: State, s': State, seen: iset<Sight>, failed: bool)
    requires Inv(s) && Founded(s, seen, failed) && SightsOf(s) + SightsOf(s') <= seen && ControllerStep(s, s')
    ensures Founded(s', seen, failed)
  {
    hide Inv, Founded, SightsOf, AdmitStep, UsageStep, CheckStep, ProvisionStep, JobStep, ReportStep;
    if AdmitStep(s, s') { AdmitFounds(s, s', seen, failed); }
    else if UsageStep(s, s') { UsageFounds(s, s', seen, failed); }
    else if CheckStep(s, s') { CheckFounds(s, s', seen, failed); }
    else if ProvisionStep(s, s') { ProvisionFounds(s, s', seen, failed); }
    else if JobStep(s, s') { JobFounds(s, s', seen, failed); }
    else { NothingToFound(s, s', seen, failed); }
  }

  lemma NothingToFound(s: State, s': State, seen: iset<Sight>, failed: bool)
    requires ReportStep(s, s') || s'.pc.Idle?
    ensures Founded(s', seen, failed)
  {
  }

  lemma OthersKeepFounded(s: State, s': State, seen: iset<Sight>, failed: bool)
    requires Founded(s, seen, failed) && Rely(s, s')
    ensures Founded(s', seen, failed)
  {
    hide Shows;
  }

  lemma FoundedStep(s: State, e: Event, s': State, seen: iset<Sight>, failed: bool)
    requires Inv(s) && Founded(s, seen, failed) && SightsOf(s) + SightsOf(s') <= seen && Next(s, e, s')
    ensures Founded(s', seen, failed || e.CallFails?)
  {
    hide Inv, Founded, SightsOf, ControllerStep, FailStep, OutsideStep, Rely;
    match e
    case ControllerSteps => ControllerFounds(s, s', seen, failed);
    case CallFails => FailFounds(s, s', seen, failed);
    case ControllerEnds => NothingToFound(s, s', seen, failed);
    case _ =>
      OutsideRely(s, e, s');
      OthersKeepFounded(s, s', seen, failed);
  }

  /**
   What a reconcile that began between `i` and `j` has seen tells where it stands: each report it is about to
   write has its grounds in some moment of the run since.
   */
  lemma {:induction false} WhatAReconcileSaw(states: seq<State>, events: seq<Event>, i: nat, j: nat)
    requires IsRun(states, events) && i <= j < |states| && states[i].pc.Idle?
    ensures Founded(states[j], Seen(states, i, j), SomeCallFails(events, i, j))
  {
    hide Inv, Founded, Seen, SightsOf, Initial, Next;
    SeenMore(states, i, j);
    if i == j {
      NothingToFound(states[j], states[j], Seen(states, i, j), false);
    } else {
      WhatAReconcileSaw(states, events, i, j - 1);
      Reachable(states, events, j - 1);
      SeenMore(states, i, j - 1);
      MoreIsFounded(states[j - 1], Seen(states, i, j - 1), Seen(states, i, j), SomeCallFails(events, i, j - 1),
                    SomeCallFails(events, i, j - 1));
      FoundedStep(states[j - 1], events[j - 1], states[j], Seen(states, i, j), SomeCallFails(events, i, j - 1));
      assert SomeCallFails(events, i, j) <==> SomeCallFails(events, i, j - 1) || events[j - 1].CallFails?;
    }
  }
}
