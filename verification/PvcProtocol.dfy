/**
 The PVC-mode lifecycle of one ModelCache as a labelled transition system.

 The controller reconciles the cache; Pods that name it in their annotation come and go; the
 provisioner binds its PVC; its download Job runs, finishes and expires; a user may delete the
 PVC. Every API write is a step of its own, every read that a later step depends on is one
 too, and a reconcile may stop anywhere (`ControllerEnds`).
 */
module PvcProtocol {
  import opened Common
  import opened CacheStatuses

  /** The claim. `filled` tells whether a download Job has run to completion on it. */
  datatype Pvc = Pvc(managed: bool, bound: bool, terminating: bool, createdAt: nat, filled: bool)

  datatype JobKind = JobComplete | JobFailed | OtherKind
  datatype JobCondition = JobCondition(kind: JobKind, status: bool)

  /** The download Job, and when it completed if it did. */
  datatype Job = Job(conditions: seq<JobCondition>, doneAt: nat)

  /** The first decisive condition of a Job: complete, failed (`Err`), or neither. */
  function Progress(conditions: seq<JobCondition>): Result<bool, ()> {
    if conditions == [] then Ok(false)
    else if conditions[0] == JobCondition(JobComplete, true) then Ok(true)
    else if conditions[0] == JobCondition(JobFailed, true) then Err(())
    else Progress(conditions[1..])
  }

  predicate Succeeded(job: Job) { Progress(job.conditions) == Ok(true) }

  predicate Running(job: Job) { Progress(job.conditions) == Ok(false) }

  datatype Spec = Spec(ttl: Ttl, pvcName: string, jobName: string)

  /** Where a reconcile stands, with the status it has in memory. */
  datatype Pc =
    | Idle
    | AddFinalizer
    | Decide(st: CacheStatus)
    | Counted(st: CacheStatus)
    | Use(st: CacheStatus, now: Time)
    | Unused(st: CacheStatus, countedAt: nat)
    | Stamp(st: CacheStatus, now: Time)
    | DeleteJob(st: CacheStatus, countedAt: nat, now: Time)
    | DeletePvc(st: CacheStatus, countedAt: nat, now: Time)
    | MarkEvicted(st: CacheStatus)
    | CheckPvc(st: CacheStatus)
    | CheckClass(st: CacheStatus)
    | EnsurePvc(st: CacheStatus)
    | CreatePvc(st: CacheStatus)
    | EnsureJob(st: CacheStatus)
    | CreateJob(st: CacheStatus)
    | CheckJob(st: CacheStatus, job: Job)
    | Report(report: CacheStatus, used: Option<Time>)

  /** History, read by no step: the clock readings recorded as uses, and whether a user deleted the PVC. */
  datatype History = History(uses: set<Time>, last: Time, tampered: bool)

  function Recorded(h: History, t: Time): History { h.(uses := h.uses + {t}, last := t) }

  /** `pods` are the Pods that request the cache, each with the moment it was created. */
  datatype State = State(
    spec: Spec,
    finalizer: bool, status: CacheStatus,
    pvc: Option<Pvc>, job: Option<Job>, classExists: bool,
    pods: map<string, nat>,
    pc: Pc, history: History, clock: Time, tick: nat)

  predicate Requested(s: State) { s.pods != map[] }

  // ---------------------------------------------------------- status reports

  const PVC_LOST := Reasons(
    Condition(ConditionPVCReady, false, "PVCLost"),
    Condition(ConditionDownloadComplete, false, "DownloadJobUnknown"),
    Condition(ConditionReady, false, "ModelNotReady"))
  const PVC_DELETING := PVC_LOST.(pvc := Condition(ConditionPVCReady, false, "PVCDeleting"))
  const CLASS_MISSING := Reasons(
    Condition(ConditionPVCReady, false, "StorageClassNotFound"),
    Condition(ConditionDownloadComplete, false, "DownloadPending"),
    Condition(ConditionReady, false, "StorageUnavailable"))
  const PVC_PENDING := Reasons(
    Condition(ConditionPVCReady, false, "PVCPending"),
    Condition(ConditionDownloadComplete, false, "DownloadPending"),
    Condition(ConditionReady, false, "WaitingForPVC"))
  const JOB_CREATE_FAILED := Reasons(
    Condition(ConditionPVCReady, true, "PVCBound"),
    Condition(ConditionDownloadComplete, false, "JobCreateFailed"),
    Condition(ConditionReady, false, "DownloadFailed"))
  const JOB_FAILED := JOB_CREATE_FAILED.(download := Condition(ConditionDownloadComplete, false, "JobFailed"))
  const JOB_RUNNING := Reasons(
    Condition(ConditionPVCReady, true, "PVCBound"),
    Condition(ConditionDownloadComplete, false, "JobRunning"),
    Condition(ConditionReady, false, "Downloading"))
  const JOB_SUCCEEDED := Reasons(
    Condition(ConditionPVCReady, true, "PVCBound"),
    Condition(ConditionDownloadComplete, true, "JobSucceeded"),
    Condition(ConditionReady, true, "ModelReady"))
  const CACHE_EVICTED := Reasons(
    Condition(ConditionPVCReady, false, "CacheEvicted"),
    Condition(ConditionDownloadComplete, false, "CacheEvicted"),
    Condition(ConditionReady, false, "CacheEvicted"))

  function UsedAt(st: CacheStatus, now: Time): CacheStatus { st.(lastUsed := Some(Stored(now))) }

  function MarkedEvicted(sp: Spec, st: CacheStatus): CacheStatus {
    Reported(st, Evicted, sp.pvcName, "", CACHE_EVICTED)
  }

  function MarkedReady(sp: Spec, st: CacheStatus, now: Time): CacheStatus {
    Reported(UsedAt(st, now), Ready, sp.pvcName, sp.jobName, JOB_SUCCEEDED)
  }

  /** A JSON merge patch from `original` to `modified`, applied to what the store holds. */
  function Patched(store: CacheStatus, original: CacheStatus, modified: CacheStatus): CacheStatus {
    CacheStatus(
      if original.phase != modified.phase then modified.phase else store.phase,
      if original.mode != modified.mode then modified.mode else store.mode,
      if original.counts != modified.counts then modified.counts else store.counts,
      if original.pvcName != modified.pvcName then modified.pvcName else store.pvcName,
      if original.jobName != modified.jobName then modified.jobName else store.jobName,
      if original.lastUsed != modified.lastUsed then modified.lastUsed else store.lastUsed,
      if original.conditions != modified.conditions then modified.conditions else store.conditions)
  }

  // ------------------------------------------------------------ the controller

  function Goto(s: State, pc: Pc): State { s.(pc := pc, tick := s.tick + 1) }

  /** A patch of the status, computed in memory from `original` to `modified`. */
  function StatusPatched(s: State, original: CacheStatus, modified: CacheStatus): State {
    s.(status := Patched(s.status, original, modified))
  }

  function WithUse(s: State, now: Time): State { s.(history := Recorded(s.history, now)) }

  predicate AdmitStep(s: State, s': State) {
    match s.pc
    case Idle => s' == Goto(s, if s.finalizer then Decide(s.status) else AddFinalizer)
    case AddFinalizer => s' == Goto(s.(finalizer := true), Decide(s.status))
    case Decide(st) =>
      if st.phase == Evicted then Requested(s) && s' == Goto(s, CheckClass(st))
      else if st.phase == Ready then s' == Goto(s, if Requested(s) then Counted(st) else Unused(st, s.tick))
      else s' == Goto(s, CheckClass(st))
    case _ => false
  }

  predicate UsageStep(s: State, s': State) {
    match s.pc
    case Counted(st) => s' == Goto(s, Use(st, s.clock))
    case Use(st, now) => s' == Goto(WithUse(StatusPatched(s, st, UsedAt(st, now)), now), CheckPvc(UsedAt(st, now)))
    case Unused(st, at) =>
      (match s.spec.ttl
       case NoTtl => s' == Goto(s, CheckPvc(st))
       case BadTtl => false
       case Ttl(ttl) =>
         match st.lastUsed
         case None => s' == Goto(s, Stamp(st, s.clock))
         case Some(last) => s.clock >= last + ttl && s' == Goto(s, DeleteJob(st, at, s.clock)))
    case Stamp(st, now) => s' == Goto(WithUse(StatusPatched(s, st, UsedAt(st, now)), now), Idle)
    case DeleteJob(st, at, now) => s' == Goto(s.(job := None), DeletePvc(st, at, now))
    case DeletePvc(st, _, _) => s' == Goto(s.(pvc := None), MarkEvicted(st))
    case MarkEvicted(st) => s' == Goto(StatusPatched(s, st, MarkedEvicted(s.spec, st)), Idle)
    case _ => false
  }

  /** What a Ready cache's reconcile makes of the PVC it read. */
  function Judged(sp: Spec, st: CacheStatus, pvc: Option<Pvc>): Pc {
    if pvc.None? || !pvc.value.managed then Report(Reported(st, Failed, "", "", PVC_LOST), None)
    else if pvc.value.terminating then Report(Reported(st, Failed, sp.pvcName, "", PVC_DELETING), None)
    else if !pvc.value.bound then Report(Reported(st, Failed, sp.pvcName, "", PVC_LOST), None)
    else AfterCheck(st)
  }

  predicate CheckStep(s: State, s': State) {
    match s.pc
    case CheckPvc(st) => s' == Goto(s, Judged(s.spec, st, s.pvc))
    case _ => false
  }

  function AfterCheck(st: CacheStatus): Pc {
    var st' := st.(mode := PVCMode, counts := CountsForPhase(st.phase));
    if st' == st then Idle else Report(st', None)
  }

  /** With the PVC of the cache in hand. */
  function WithPvc(sp: Spec, st: CacheStatus, bound: bool): Pc {
    if bound then EnsureJob(st) else Report(Reported(st, Pending, sp.pvcName, st.jobName, PVC_PENDING), None)
  }

  predicate ProvisionStep(s: State, s': State) {
    match s.pc
    case CheckClass(st) =>
      s' == Goto(s, if s.classExists then EnsurePvc(st) else Report(Reported(st, Failed, "", "", CLASS_MISSING), None))
    case EnsurePvc(st) =>
      if s.pvc.None? then s' == Goto(s, CreatePvc(st))
      else s.pvc.value.managed && s' == Goto(s, WithPvc(s.spec, st, s.pvc.value.bound))
    case CreatePvc(st) =>
      s.pvc.None? && s' == Goto(s.(pvc := Some(Pvc(true, false, false, s.tick, false))), WithPvc(s.spec, st, false))
    case _ => false
  }

  predicate JobStep(s: State, s': State) {
    match s.pc
    case EnsureJob(st) => s' == Goto(s, if s.job.Some? then CheckJob(st, s.job.value) else CreateJob(st))
    case CreateJob(st) => s.job.None? && s' == Goto(s.(job := Some(Job([], 0))), CheckJob(st, Job([], 0)))
    case CheckJob(st, job) => s' == Goto(s, JobSeen(s.spec, st, job, s.clock))
    case _ => false
  }

  function JobNotCreated(sp: Spec, st: CacheStatus): Pc {
    Report(Reported(st, Failed, sp.pvcName, st.jobName, JOB_CREATE_FAILED), None)
  }

  function JobSeen(sp: Spec, st: CacheStatus, job: Job, now: Time): Pc {
    match Progress(job.conditions)
    case Err(_) => Report(Reported(st, Failed, sp.pvcName, sp.jobName, JOB_FAILED), None)
    case Ok(true) => Report(MarkedReady(sp, st, now), Some(now))
    case Ok(false) => Report(Reported(st, Downloading, sp.pvcName, sp.jobName, JOB_RUNNING), None)
  }

  /** A full status update. */
  predicate ReportStep(s: State, s': State) {
    match s.pc
    case Report(st, used) =>
      var t := s.(status := st);
      s' == Goto(if used.Some? then WithUse(t, used.value) else t, Idle)
    case _ => false
  }

  /** A call fails and the reconcile goes on to report it; a PVC that cannot be read counts as lost. */
  predicate FailStep(s: State, s': State) {
    match s.pc
    case CheckPvc(st) => s' == Goto(s, Report(Reported(st, Failed, "", "", PVC_LOST), None))
    case EnsureJob(st) => s' == Goto(s, JobNotCreated(s.spec, st))
    case CreateJob(st) => s' == Goto(s, JobNotCreated(s.spec, st))
    case _ => false
  }

  predicate ControllerStep(s: State, s': State) {
    || AdmitStep(s, s') || UsageStep(s, s') || CheckStep(s, s')
    || ProvisionStep(s, s') || JobStep(s, s') || ReportStep(s, s')
  }

  // ------------------------------------------------------------------ events

  datatype Event =
    | ControllerSteps
    | CallFails
    | ControllerEnds
    | CreatePod(id: string)
    | DeletePod(id: string)
    | BindPvc
    | UnbindPvc
    | UserDeletesPvc
    | PvcGone
    | JobReports(conditions: seq<JobCondition>)
    | JobExpires
    | ClassChanges(exists': bool)
    | TimePasses(to: Time)

  predicate PvcEvent(s: State, e: Event, s': State) {
    && s.pvc.Some?
    && var p := s.pvc.value;
       match e
       case BindPvc => s' == s.(pvc := Some(p.(bound := true)), tick := s.tick + 1)
       case UnbindPvc => s' == s.(pvc := Some(p.(bound := false)), tick := s.tick + 1)
       case UserDeletesPvc =>
         s' == s.(pvc := Some(p.(terminating := true)), history := s.history.(tampered := true), tick := s.tick + 1)
       case PvcGone => p.terminating && s' == s.(pvc := None, tick := s.tick + 1)
       case _ => false
  }

  /** The Job runs on the PVC that exists until a condition decides; only then it expires. */
  predicate JobEvent(s: State, e: Event, s': State) {
    && s.job.Some?
    && match e
       case JobReports(conditions) =>
         && Running(s.job.value)
         && (if Progress(conditions) == Ok(true) then
               && s.pvc.Some?
               && s' == s.(job := Some(Job(conditions, s.tick)),
                           pvc := Some(s.pvc.value.(filled := true)), tick := s.tick + 1)
             else s' == s.(job := Some(Job(conditions, 0)), tick := s.tick + 1))
       case JobExpires => !Running(s.job.value) && s' == s.(job := None, tick := s.tick + 1)
       case _ => false
  }

  predicate OutsideStep(s: State, e: Event, s': State) {
    match e
    case CreatePod(id) => id !in s.pods && s' == s.(pods := s.pods[id := s.tick], tick := s.tick + 1)
    case DeletePod(id) => s' == s.(pods := s.pods - {id}, tick := s.tick + 1)
    case ClassChanges(b) => s' == s.(classExists := b, tick := s.tick + 1)
    case TimePasses(to) => s.clock <= to && s' == s.(clock := to, tick := s.tick + 1)
    case _ => PvcEvent(s, e, s') || JobEvent(s, e, s')
  }

  predicate Next(s: State, e: Event, s': State) {
    match e
    case ControllerSteps => ControllerStep(s, s')
    case CallFails => FailStep(s, s')
    case ControllerEnds => s' == Goto(s, Idle)
    case _ => OutsideStep(s, e, s')
  }

  /** A new ModelCache: no status, no Job, and no PVC of its own. */
  predicate Initial(s: State) {
    && s.status == FRESH_CACHE_STATUS && s.pc.Idle? && s.job.None? && s.history == History({}, 0, false)
    && (forall id :: id in s.pods ==> s.pods[id] < s.tick)
    && (s.pvc.Some? ==>
          !s.pvc.value.managed && !s.pvc.value.terminating && !s.pvc.value.filled && s.pvc.value.createdAt < s.tick)
  }

  ghost predicate IsPath(states: seq<State>, events: seq<Event>) {
    && |states| == |events| + 1
    && (forall i {:trigger events[i]} :: 0 <= i < |events| ==> Next(states[i], events[i], states[i + 1]))
  }

  ghost predicate IsRun(states: seq<State>, events: seq<Event>) {
    IsPath(states, events) && Initial(states[0])
  }
}
