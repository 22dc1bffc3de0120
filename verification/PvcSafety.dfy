/** What every run of the PVC-mode protocol keeps. */
module PvcSafety {
  import opened Common
  import opened CacheStatuses
  import opened PvcProtocol

  /** The status a reconcile has read and holds in memory. */
  function Held(pc: Pc): Option<CacheStatus> {
    match pc
    case Decide(st) => Some(st)
    case Counted(st) => Some(st)
    case Use(st, _) => Some(st)
    case Unused(st, _) => Some(st)
    case Stamp(st, _) => Some(st)
    case DeleteJob(st, _, _) => Some(st)
    case DeletePvc(st, _, _) => Some(st)
    case MarkEvicted(st) => Some(st)
    case CheckPvc(st) => Some(st)
    case CheckClass(st) => Some(st)
    case EnsurePvc(st) => Some(st)
    case CreatePvc(st) => Some(st)
    case EnsureJob(st) => Some(st)
    case CreateJob(st) => Some(st)
    case CheckJob(st, _) => Some(st)
    case _ => None
  }

  /** Past the dispatch on the phase, on the way to a PVC and a Job. */
  predicate Building(pc: Pc) {
    pc.CheckClass? || pc.EnsurePvc? || pc.CreatePvc? || pc.EnsureJob? || pc.CreateJob? || pc.CheckJob?
  }

  predicate OnReady(pc: Pc) {
    || pc.Counted? || pc.Use? || pc.Unused? || pc.Stamp?
    || pc.DeleteJob? || pc.DeletePvc? || pc.MarkEvicted? || pc.CheckPvc?
  }

  /** Only the controller writes the status, so what it holds is what is stored. */
  predicate MemoryCurrent(s: State) {
    && (Held(s.pc).Some? ==> s.status == Held(s.pc).value)
    && (Building(s.pc) ==> s.status.phase != Ready)
    && (OnReady(s.pc) ==> s.status.phase == Ready)
  }

  predicate StatusesConsistent(s: State) {
    && Consistent(s.status) && s.status.mode != NodeMode
    && (s.pc.Report? ==> Consistent(s.pc.report) && s.pc.report.mode == PVCMode)
  }

  /** The last use on record is the latest one, and the status holds it to the second. */
  predicate LastUse(st: CacheStatus, h: History) {
    if h.uses == {} then st.lastUsed.None? else h.last in h.uses && st.lastUsed == Some(Stored(h.last))
  }

  predicate TimesConsistent(s: State) {
    && (forall u :: u in s.history.uses ==> u <= s.history.last)
    && s.history.last <= s.clock
    && LastUse(s.status, s.history)
    && (s.status.phase == Ready ==> s.history.uses != {})
    && (s.pc.Report? ==>
        LastUse(s.pc.report, if s.pc.used.Some? then Recorded(s.history, s.pc.used.value) else s.history))
    && (s.pc.Report? && s.pc.report.phase == Ready ==> s.pc.used.Some? || s.history.uses != {})
    && (NowOf(s.pc).Some? ==> s.history.last <= NowOf(s.pc).value <= s.clock)
  }

  /** The clock reading a reconcile has in memory. */
  function NowOf(pc: Pc): Option<Time> {
    match pc
    case Use(_, now) => Some(now)
    case Stamp(_, now) => Some(now)
    case DeleteJob(_, _, now) => Some(now)
    case DeletePvc(_, _, now) => Some(now)
    case Report(_, used) => used
    case _ => None
  }

  /** An eviction deletes the Job, then the PVC, and only then says so. */
  predicate EvictionConsistent(s: State) {
    && (s.pc.DeleteJob? || s.pc.DeletePvc? ==>
          && s.spec.ttl.Ttl? && s.status.lastUsed.Some?
          && s.pc.now >= s.status.lastUsed.value + s.spec.ttl.duration)
    && (s.pc.DeletePvc? || s.pc.MarkEvicted? ==> s.job.None?)
    && (s.pc.MarkEvicted? ==>
          && s.pvc.None? && s.spec.ttl.Ttl? && s.status.lastUsed.Some?
          && s.clock >= s.status.lastUsed.value + s.spec.ttl.duration)
  }

  /** When a reconcile that found no Pod counted them. */
  function CountedAt(pc: Pc): Option<nat> {
    match pc
    case Unused(_, at) => Some(at)
    case DeleteJob(_, at, _) => Some(at)
    case DeletePvc(_, at, _) => Some(at)
    case _ => None
  }

  /** Every Pod there is now was created after the last count that found none. */
  predicate PodsConsistent(s: State) {
    && (forall id :: id in s.pods ==> s.pods[id] < s.tick)
    && (CountedAt(s.pc).Some? ==>
          CountedAt(s.pc).value < s.tick && forall id :: id in s.pods ==> CountedAt(s.pc).value < s.pods[id])
  }

  /** A Job that succeeded filled the PVC exactly if it finished after the PVC was created. */
  predicate Fills(job: Job, s: State) {
    Succeeded(job) ==>
      && job.doneAt < s.tick
      && (s.pvc.Some? ==> (s.pvc.value.filled <==> s.pvc.value.createdAt < job.doneAt))
      && (!s.history.tampered ==> s.pvc.Some? && s.pvc.value.filled)
  }

  predicate JobsConsistent(s: State) {
    && (s.pvc.Some? ==> s.pvc.value.createdAt < s.tick)
    && (s.pvc.Some? && s.pvc.value.terminating ==> s.history.tampered)
    && (s.job.Some? ==> Fills(s.job.value, s))
    && (s.pc.CheckJob? ==> Fills(s.pc.job, s) && (Succeeded(s.pc.job) && s.job.Some? ==> Succeeded(s.job.value)))
  }

  /** Unless a user deleted the PVC, the PVC of a Ready cache is managed and holds the whole download. */
  predicate ReadyIsFilled(s: State) {
    !s.history.tampered ==>
      && (s.status.phase == Ready && s.pvc.Some? ==> s.pvc.value.filled)
      && (s.pc.Report? && s.pc.report.phase == Ready && s.pvc.Some? ==> s.pvc.value.filled)
  }

  predicate StatusInv(s: State) { MemoryCurrent(s) && StatusesConsistent(s) }

  predicate UseInv(s: State) { TimesConsistent(s) && EvictionConsistent(s) }

  predicate DataInv(s: State) { JobsConsistent(s) && ReadyIsFilled(s) }

  predicate Inv(s: State) { StatusInv(s) && UseInv(s) && DataInv(s) && PodsConsistent(s) }

  // -------------------------------------------------------------- preservation

  lemma PatchIsModified(store: CacheStatus, modified: CacheStatus)
    ensures Patched(store, store, modified) == modified
  {
  }

  lemma ReportKeeps(st: CacheStatus, phase: Phase, pvcName: string, jobName: string, r: Reasons)
    requires Consistent(st) && r.Valid() && phase != NoPhase && (r.ready.status <==> phase == Ready)
    ensures Consistent(Reported(st, phase, pvcName, jobName, r))
  {
    ReportConsistent(st, phase, pvcName, jobName, r);
  }

  lemma UseKeeps(st: CacheStatus, now: Time)
    requires Consistent(st)
    ensures Consistent(UsedAt(st, now))
  {
  }

  lemma SummaryKeeps(st: CacheStatus)
    requires Consistent(st) && st.phase == Ready
    ensures Consistent(st.(mode := PVCMode, counts := CountsForPhase(st.phase)))
  {
  }

  lemma UsageKeepsStatus(s: State, s': State)
    requires StatusInv(s) && UsageStep(s, s')
    ensures StatusInv(s')
  {
    hide Consistent, WithReasons;
    if s.pc.Use? || s.pc.Stamp? {
      PatchIsModified(s.status, UsedAt(s.status, s.pc.now));
      UseKeeps(s.status, s.pc.now);
    } else if s.pc.MarkEvicted? {
      PatchIsModified(s.status, MarkedEvicted(s.spec, s.status));
      ReportKeeps(s.status, Evicted, s.spec.pvcName, "", CACHE_EVICTED);
    }
  }

  lemma CheckKeepsStatus(s: State, s': State)
    requires StatusInv(s) && CheckStep(s, s')
    ensures StatusInv(s')
  {
    hide Consistent, WithReasons;
    var st := s.pc.st;
    ReportKeeps(st, Failed, "", "", PVC_LOST);
    ReportKeeps(st, Failed, s.spec.pvcName, "", PVC_LOST);
    ReportKeeps(st, Failed, s.spec.pvcName, "", PVC_DELETING);
    SummaryKeeps(st);
  }

  lemma ProvisionKeepsStatus(s: State, s': State)
    requires StatusInv(s) && ProvisionStep(s, s')
    ensures StatusInv(s')
  {
    hide Consistent, WithReasons;
    var st := s.pc.st;
    ReportKeeps(st, Failed, "", "", CLASS_MISSING);
    ReportKeeps(st, Pending, s.spec.pvcName, st.jobName, PVC_PENDING);
  }

  lemma JobKeepsStatus(s: State, s': State)
    requires StatusInv(s) && JobStep(s, s')
    ensures StatusInv(s')
  {
    hide Consistent, WithReasons;
    var st := s.pc.st;
    ReportKeeps(st, Failed, s.spec.pvcName, st.jobName, JOB_CREATE_FAILED);
    ReportKeeps(st, Failed, s.spec.pvcName, s.spec.jobName, JOB_FAILED);
    UseKeeps(st, s.clock);
    ReportKeeps(UsedAt(st, s.clock), Ready, s.spec.pvcName, s.spec.jobName, JOB_SUCCEEDED);
    ReportKeeps(st, Downloading, s.spec.pvcName, s.spec.jobName, JOB_RUNNING);
  }

  lemma ControllerKeepsStatus(s: State, s': State)
    requires StatusInv(s) && ControllerStep(s, s')
    ensures StatusInv(s')
  {
    hide UsageStep, CheckStep, ProvisionStep, JobStep, Consistent, WithReasons;
    if UsageStep(s, s') { UsageKeepsStatus(s, s'); }
    else if CheckStep(s, s') { CheckKeepsStatus(s, s'); }
    else if ProvisionStep(s, s') { ProvisionKeepsStatus(s, s'); }
    else if JobStep(s, s') { JobKeepsStatus(s, s'); }
  }

  lemma UsageKeepsUse(s: State, s': State)
    requires StatusInv(s) && UseInv(s) && UsageStep(s, s')
    ensures UseInv(s')
  {
    hide Consistent;
    if s.pc.Use? || s.pc.Stamp? {
      PatchIsModified(s.status, UsedAt(s.status, s.pc.now));
    } else if s.pc.MarkEvicted? {
      PatchIsModified(s.status, MarkedEvicted(s.spec, s.status));
    }
  }

  lemma AdmitKeepsUse(s: State, s': State)
    requires UseInv(s) && AdmitStep(s, s')
    ensures UseInv(s')
  {
  }

  lemma CheckKeepsUse(s: State, s': State)
    requires StatusInv(s) && UseInv(s) && CheckStep(s, s')
    ensures UseInv(s')
  {
    hide Consistent, WithReasons, StatusesConsistent, CountsForPhase;
  }

  /** A report leaves the last use alone. */
  lemma ReportKeepsLastUse(st: CacheStatus, phase: Phase, pvcName: string, jobName: string, r: Reasons)
    ensures Reported(st, phase, pvcName, jobName, r).lastUsed == st.lastUsed
    ensures Reported(st, phase, pvcName, jobName, r).phase == phase
  {
  }

  lemma ProvisionKeepsUse(s: State, s': State)
    requires StatusInv(s) && UseInv(s) && ProvisionStep(s, s')
    ensures UseInv(s')
  {
    hide Consistent, Reported, StatusesConsistent;
    var st := s.pc.st;
    ReportKeepsLastUse(st, Failed, "", "", CLASS_MISSING);
    ReportKeepsLastUse(st, Pending, s.spec.pvcName, st.jobName, PVC_PENDING);
  }

  lemma JobSeenKeepsUse(s: State, s': State)
    requires StatusInv(s) && UseInv(s) && s.pc.CheckJob? && JobStep(s, s')
    ensures UseInv(s')
  {
    hide Consistent, WithReasons, Progress;
  }

  lemma JobKeepsUse(s: State, s': State)
    requires StatusInv(s) && UseInv(s) && JobStep(s, s')
    ensures UseInv(s')
  {
    hide Consistent, WithReasons, Progress, JobSeen;
    if s.pc.CheckJob? { JobSeenKeepsUse(s, s'); }
  }

  lemma ReportKeepsUse(s: State, s': State)
    requires UseInv(s) && ReportStep(s, s')
    ensures UseInv(s')
  {
  }

  lemma ControllerKeepsUse(s: State, s': State)
    requires StatusInv(s) && UseInv(s) && ControllerStep(s, s')
    ensures UseInv(s')
  {
    hide StatusInv, UseInv, AdmitStep, UsageStep, CheckStep, ProvisionStep, JobStep, ReportStep;
    if AdmitStep(s, s') { AdmitKeepsUse(s, s'); }
    else if UsageStep(s, s') { UsageKeepsUse(s, s'); }
    else if CheckStep(s, s') { CheckKeepsUse(s, s'); }
    else if ProvisionStep(s, s') { ProvisionKeepsUse(s, s'); }
    else if JobStep(s, s') { JobKeepsUse(s, s'); }
    else { ReportKeepsUse(s, s'); }
  }

  lemma UsageKeepsData(s: State, s': State)
    requires StatusInv(s) && UseInv(s) && DataInv(s) && UsageStep(s, s')
    ensures DataInv(s')
  {
    hide Consistent, WithReasons;
    if s.pc.Use? || s.pc.Stamp? {
      PatchIsModified(s.status, UsedAt(s.status, s.pc.now));
    }
  }

  lemma CheckKeepsData(s: State, s': State)
    requires StatusInv(s) && DataInv(s) && CheckStep(s, s')
    ensures DataInv(s')
  {
    hide Consistent, WithReasons;
  }

  lemma ProvisionKeepsData(s: State, s': State)
    requires StatusInv(s) && DataInv(s) && ProvisionStep(s, s')
    ensures DataInv(s')
  {
    hide Consistent, WithReasons, StatusesConsistent, CountsForPhase, Progress;
  }

  lemma JobKeepsData(s: State, s': State)
    requires StatusInv(s) && DataInv(s) && JobStep(s, s')
    ensures DataInv(s')
  {
    hide Consistent, WithReasons;
  }

  lemma AdmitKeepsData(s: State, s': State)
    requires DataInv(s) && AdmitStep(s, s')
    ensures DataInv(s')
  {
  }

  lemma ReportKeepsData(s: State, s': State)
    requires DataInv(s) && ReportStep(s, s')
    ensures DataInv(s')
  {
  }

  lemma ControllerKeepsData(s: State, s': State)
    requires StatusInv(s) && UseInv(s) && DataInv(s) && ControllerStep(s, s')
    ensures DataInv(s')
  {
    hide AdmitStep, UsageStep, CheckStep, ProvisionStep, JobStep, ReportStep, StatusInv, UseInv, DataInv;
    if UsageStep(s, s') { UsageKeepsData(s, s'); }
    else if CheckStep(s, s') { CheckKeepsData(s, s'); }
    else if ProvisionStep(s, s') { ProvisionKeepsData(s, s'); }
    else if JobStep(s, s') { JobKeepsData(s, s'); }
    else if AdmitStep(s, s') { AdmitKeepsData(s, s'); }
    else { ReportKeepsData(s, s'); }
  }

  /** No step touches the Pods; where a count stands, it is an old one, or one that found none. */
  predicate Counts(s: State, s': State) {
    && s'.pods == s.pods && s'.tick == s.tick + 1
    && (CountedAt(s'.pc).Some? ==>
          CountedAt(s'.pc) == CountedAt(s.pc) || (CountedAt(s'.pc).value == s.tick && s.pods == map[]))
  }

  lemma AdmitCounts(s: State, s': State)
    requires AdmitStep(s, s') || UsageStep(s, s') || ReportStep(s, s')
    ensures Counts(s, s')
  {
    hide Patched;
  }

  lemma BuildCounts(s: State, s': State)
    requires CheckStep(s, s') || ProvisionStep(s, s') || JobStep(s, s')
    ensures Counts(s, s')
  {
    hide Reported, Progress, Consistent;
  }

  lemma ControllerKeepsPods(s: State, s': State)
    requires PodsConsistent(s) && ControllerStep(s, s')
    ensures PodsConsistent(s')
  {
    hide AdmitStep, UsageStep, ReportStep, CheckStep, ProvisionStep, JobStep;
    if AdmitStep(s, s') || UsageStep(s, s') || ReportStep(s, s') { AdmitCounts(s, s'); } else { BuildCounts(s, s'); }
  }

  lemma ControllerKeeps(s: State, s': State)
    requires Inv(s) && ControllerStep(s, s')
    ensures Inv(s')
  {
    hide StatusInv, UseInv, DataInv, PodsConsistent, ControllerStep;
    ControllerKeepsStatus(s, s');
    ControllerKeepsUse(s, s');
    ControllerKeepsData(s, s');
    ControllerKeepsPods(s, s');
  }

  lemma FailKeeps(s: State, s': State)
    requires Inv(s) && FailStep(s, s')
    ensures Inv(s')
  {
    hide Consistent, WithReasons;
    var st := s.pc.st;
    ReportKeeps(st, Failed, "", "", PVC_LOST);
    ReportKeeps(st, Failed, s.spec.pvcName, st.jobName, JOB_CREATE_FAILED);
  }

  lemma PvcEventKeeps(s: State, e: Event, s': State)
    requires Inv(s) && PvcEvent(s, e, s')
    ensures Inv(s')
  {
    hide Consistent;
  }

  lemma JobEventKeepsData(s: State, e: Event, s': State)
    requires DataInv(s) && JobEvent(s, e, s')
    ensures DataInv(s')
  {
  }

  lemma JobEventKeepsRest(s: State, e: Event, s': State)
    requires StatusInv(s) && UseInv(s) && PodsConsistent(s) && JobEvent(s, e, s')
    ensures StatusInv(s') && UseInv(s') && PodsConsistent(s')
  {
    hide Consistent, Progress, Held, NowOf, CountedAt, LastUse, Building, OnReady;
  }

  lemma JobEventKeeps(s: State, e: Event, s': State)
    requires Inv(s) && JobEvent(s, e, s')
    ensures Inv(s')
  {
    hide StatusInv, UseInv, DataInv, PodsConsistent, JobEvent;
    JobEventKeepsData(s, e, s');
    JobEventKeepsRest(s, e, s');
  }

  lemma WorldKeeps(s: State, e: Event, s': State)
    requires Inv(s) && (e.CreatePod? || e.DeletePod? || e.ClassChanges? || e.TimePasses?) && OutsideStep(s, e, s')
    ensures Inv(s')
  {
    hide Consistent, Progress, PvcEvent, JobEvent;
  }

  lemma OutsideKeeps(s: State, e: Event, s': State)
    requires Inv(s) && OutsideStep(s, e, s')
    ensures Inv(s')
  {
    hide Inv, PvcEvent, JobEvent;
    if e.CreatePod? || e.DeletePod? || e.ClassChanges? || e.TimePasses? { WorldKeeps(s, e, s'); }
    else if PvcEvent(s, e, s') { PvcEventKeeps(s, e, s'); }
    else { JobEventKeeps(s, e, s'); }
  }

  lemma StepKeeps(s: State, e: Event, s': State)
    requires Inv(s) && Next(s, e, s')
    ensures Inv(s')
  {
    match e
    case ControllerSteps => ControllerKeeps(s, s');
    case CallFails => FailKeeps(s, s');
    case ControllerEnds =>
    case _ => OutsideKeeps(s, e, s');
  }

  /** The invariant holds in every state of every run. */
  lemma {:induction false} Reachable(states: seq<State>, events: seq<Event>, i: nat)
    requires IsRun(states, events) && i < |states|
    ensures Inv(states[i])
  {
    if i > 0 {
      Reachable(states, events, i - 1);
      StepKeeps(states[i - 1], events[i - 1], states[i]);
    }
  }
}
