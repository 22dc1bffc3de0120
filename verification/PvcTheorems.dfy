/** What PVC mode promises, over all runs of its protocol. */
module PvcTheorems {
  import opened Common
  import opened CacheStatuses
  import opened PvcProtocol
  import opened PvcSafety

  /** Every status ever stored is consistent: condition and phase agree, and the counters add up. */
  lemma StatusAlwaysConsistent(states: seq<State>, events: seq<Event>, i: nat)
    requires IsRun(states, events) && i < |states|
    ensures Consistent(states[i].status) && states[i].status.mode != NodeMode
  {
    Reachable(states, events, i);
  }

  /** What the phase says of the two other conditions, of the names and of the counters. */
  predicate Tells(sp: Spec, st: CacheStatus) {
    && (IsTrue(st.conditions, ConditionDownloadComplete) <==> st.phase == Ready)
    && (st.pvcName == "" || st.pvcName == sp.pvcName)
    && (st.phase in {Downloading, Ready} ==>
          IsTrue(st.conditions, ConditionPVCReady) && st.pvcName == sp.pvcName && st.jobName == sp.jobName)
    && (st.phase in {Pending, Evicted} ==> !IsTrue(st.conditions, ConditionPVCReady) && st.pvcName == sp.pvcName)
    && (st.phase == Evicted ==> st.jobName == "")
    && (st.mode == PVCMode ==>
          && (st.counts.downloading == 1 <==> st.phase == Downloading)
          && (st.counts.failed == 1 <==> st.phase == Failed)
          && (st.counts.pending == 1 <==> st.phase == Pending))
  }

  predicate Telling(s: State) { Tells(s.spec, s.status) && (s.pc.Report? ==> Tells(s.spec, s.pc.report)) }

  lemma ReportTells(sp: Spec, st: CacheStatus, phase: Phase, pvcName: string, jobName: string, r: Reasons)
    requires Consistent(st) && r.Valid() && (r.download.status <==> phase == Ready)
    requires phase in {Downloading, Ready} ==> r.pvc.status && pvcName == sp.pvcName && jobName == sp.jobName
    requires phase in {Pending, Evicted} ==> !r.pvc.status && pvcName == sp.pvcName
    requires (phase == Evicted ==> jobName == "") && (pvcName == "" || pvcName == sp.pvcName)
    ensures Tells(sp, Reported(st, phase, pvcName, jobName, r))
  {
    ReasonsSet(st.conditions, r);
  }

  lemma UsageTells(s: State, s': State)
    requires Inv(s) && Telling(s) && UsageStep(s, s')
    ensures Telling(s')
  {
    hide Consistent, WithReasons, UseInv, DataInv, PodsConsistent;
    if s.pc.Use? || s.pc.Stamp? { PatchIsModified(s.status, UsedAt(s.status, s.pc.now)); }
    if s.pc.MarkEvicted? {
      PatchIsModified(s.status, MarkedEvicted(s.spec, s.status));
      ReportTells(s.spec, s.status, Evicted, s.spec.pvcName, "", CACHE_EVICTED);
    }
  }

  lemma CheckTells(s: State, s': State)
    requires Inv(s) && Telling(s) && CheckStep(s, s')
    ensures Telling(s')
  {
    hide Consistent, Reported, UseInv, DataInv, PodsConsistent;
    var st := s.pc.st;
    ReportTells(s.spec, st, Failed, "", "", PVC_LOST);
    ReportTells(s.spec, st, Failed, s.spec.pvcName, "", PVC_LOST);
    ReportTells(s.spec, st, Failed, s.spec.pvcName, "", PVC_DELETING);
  }

  lemma ProvisionTells(s: State, s': State)
    requires Inv(s) && Telling(s) && ProvisionStep(s, s')
    ensures Telling(s')
  {
    hide Consistent, Tells, Reported, UseInv, DataInv, PodsConsistent;
    var st := s.pc.st;
    ReportTells(s.spec, st, Failed, "", "", CLASS_MISSING);
    ReportTells(s.spec, st, Pending, s.spec.pvcName, st.jobName, PVC_PENDING);
  }

  lemma JobTells(s: State, s': State)
    requires Inv(s) && Telling(s) && JobStep(s, s')
    ensures Telling(s')
  {
    hide Consistent, Tells, Reported, Progress, UseInv, DataInv, PodsConsistent;
    var st := s.pc.st;
    UseKeeps(st, s.clock);
    ReportTells(s.spec, st, Failed, s.spec.pvcName, s.spec.jobName, JOB_FAILED);
    ReportTells(s.spec, UsedAt(st, s.clock), Ready, s.spec.pvcName, s.spec.jobName, JOB_SUCCEEDED);
    ReportTells(s.spec, st, Downloading, s.spec.pvcName, s.spec.jobName, JOB_RUNNING);
  }

  lemma FailTells(s: State, s': State)
    requires Inv(s) && Telling(s) && FailStep(s, s')
    ensures Telling(s')
  {
    hide Consistent, Tells, Reported, UseInv, DataInv, PodsConsistent;
    var st := s.pc.st;
    ReportTells(s.spec, st, Failed, "", "", PVC_LOST);
    ReportTells(s.spec, st, Failed, s.spec.pvcName, st.jobName, JOB_CREATE_FAILED);
  }

  lemma RestTells(s: State, e: Event, s': State)
    requires Telling(s) && (AdmitStep(s, s') || ReportStep(s, s') || e.ControllerEnds? || OutsideStep(s, e, s'))
    requires Next(s, e, s')
    ensures Telling(s')
  {
    hide Tells, UsageStep, CheckStep, ProvisionStep, JobStep, FailStep;
  }

  lemma TellingStep(s: State, e: Event, s': State)
    requires Inv(s) && Telling(s) && Next(s, e, s')
    ensures Telling(s')
  {
    hide Inv, Telling, UsageStep, CheckStep, ProvisionStep, JobStep, FailStep, AdmitStep, ReportStep, OutsideStep;
    if e.ControllerSteps? && UsageStep(s, s') { UsageTells(s, s'); }
    else if e.ControllerSteps? && CheckStep(s, s') { CheckTells(s, s'); }
    else if e.ControllerSteps? && ProvisionStep(s, s') { ProvisionTells(s, s'); }
    else if e.ControllerSteps? && JobStep(s, s') { JobTells(s, s'); }
    else if e.CallFails? { FailTells(s, s'); }
    else { RestTells(s, e, s'); }
  }

  /** Every status ever stored names what it should, and its other conditions and counters go with its phase. */
  lemma {:induction false} WhatAStatusTells(states: seq<State>, events: seq<Event>, i: nat)
    requires IsRun(states, events) && i < |states|
    ensures Telling(states[i])
  {
    if i > 0 {
      hide Inv, Telling, Next;
      WhatAStatusTells(states, events, i - 1);
      Reachable(states, events, i - 1);
      TellingStep(states[i - 1], events[i - 1], states[i]);
    }
  }

  // ----------------------------------------------------------- when it evicts

  predicate Evicting(pc: Pc) { pc.DeleteJob? || pc.DeletePvc? }

  /**
   The eviction time bound. An eviction decided at time t comes at least the TTL after every
   recorded use or Ready mark, up to the fraction of a second that storing it cut off.
   */
  lemma EvictionRespectsTtl(states: seq<State>, events: seq<Event>, i: nat, u: Time)
    requires IsRun(states, events) && i < |events| && events[i] == ControllerSteps
    requires Evicting(states[i].pc) && u in states[i].history.uses
    ensures states[i].spec.ttl.Ttl?
    ensures
      var t, ttl := states[i].pc.now, states[i].spec.ttl.duration;
      t <= states[i].clock && t >= Stored(u) + ttl && t + SECOND > u + ttl
  {
    Reachable(states, events, i);
    StoredMonotone(u, states[i].history.last);
  }

  /**
   An eviction takes a PVC only from Pods that came too late: a Pod that requests the cache while
   its Job and PVC are being deleted was created after the Pods had been counted.
   */
  lemma EvictionSparesCountedPods(states: seq<State>, events: seq<Event>, i: nat, id: string)
    requires IsRun(states, events) && i < |events| && events[i] == ControllerSteps
    requires Evicting(states[i].pc) && id in states[i].pods
    ensures states[i].pc.countedAt < states[i].pods[id] < states[i].tick
  {
    Reachable(states, events, i);
    assert CountedAt(states[i].pc).Some?;
  }

  /** The next step of a reconcile that found no Pod is the eviction. */
  predicate Evicts(s: State) { s.pc.Unused? && ControllerStep(s, Goto(s, DeleteJob(s.pc.st, s.pc.countedAt, s.clock))) }

  /**
   The bound is exact: with no Pod counted, the reconcile evicts if and only if the TTL has passed since
   every use.
   */
  lemma EvictionExactly(states: seq<State>, events: seq<Event>, i: nat)
    requires IsRun(states, events) && i < |states| && states[i].pc.Unused? && states[i].spec.ttl.Ttl?
    ensures Evicts(states[i]) <==>
      forall u :: u in states[i].history.uses ==> states[i].clock >= Stored(u) + states[i].spec.ttl.duration
  {
    Reachable(states, events, i);
    EvictsAt(states[i]);
  }

  lemma EvictsAt(s: State)
    requires Inv(s) && s.pc.Unused? && s.spec.ttl.Ttl?
    ensures s.history.uses != {} && s.pc.st.lastUsed == Some(Stored(s.history.last))
    ensures Evicts(s) <==> s.clock >= Stored(s.history.last) + s.spec.ttl.duration
    ensures Evicts(s) <==> forall u :: u in s.history.uses ==> s.clock >= Stored(u) + s.spec.ttl.duration
  {
    hide Consistent, WithReasons;
    forall u | u in s.history.uses ensures Stored(u) <= Stored(s.history.last) {
      StoredMonotone(u, s.history.last);
    }
  }

  /** How long a reconcile that found no Pod asks to be left alone. */
  function RequeueAfter(s: State): nat
    requires s.pc.Unused? && s.spec.ttl.Ttl? && s.pc.st.lastUsed.Some?
    requires s.clock < s.pc.st.lastUsed.value + s.spec.ttl.duration
  {
    s.pc.st.lastUsed.value + s.spec.ttl.duration - s.clock
  }

  /**
   Waiting that long is enough and necessary: if no use is recorded in between, a later
   reconcile that finds no Pod evicts exactly when the time asked for has passed.
   */
  lemma RequeueIsExact(states: seq<State>, events: seq<Event>, i: nat, j: nat)
    requires IsRun(states, events) && i <= j < |states|
    requires states[i].pc.Unused? && states[i].spec.ttl.Ttl? && !Evicts(states[i])
    requires states[j].pc.Unused? && states[j].spec == states[i].spec
    requires states[j].history.uses == states[i].history.uses && states[j].history.last == states[i].history.last
    ensures states[i].pc.st.lastUsed.Some?
    ensures states[i].clock < states[i].pc.st.lastUsed.value + states[i].spec.ttl.duration
    ensures Evicts(states[j]) <==> states[j].clock >= states[i].clock + RequeueAfter(states[i])
  {
    Reachable(states, events, i);
    Reachable(states, events, j);
    EvictsAt(states[i]);
    EvictsAt(states[j]);
  }

  // ------------------------------------------- an evicted cache nobody asks for

  /** Evicted, and no reconcile past the count of Pods. A rebuild given up may have left a PVC or a Job. */
  predicate Resting(s: State) {
    s.status.phase == Evicted && (s.pc.Idle? || s.pc.AddFinalizer? || s.pc.Decide?)
  }

  /** No PVC and no Job but those that were there, and the same PVC if there is one. */
  predicate NothingNew(s: State, s': State) {
    && (s'.job.Some? ==> s.job.Some?)
    && (s'.pvc.Some? ==> s.pvc.Some? && SameClaim(s.pvc.value, s'.pvc.value))
  }

  predicate SameClaim(p: Pvc, p': Pvc) { p'.createdAt == p.createdAt && p'.managed == p.managed }

  predicate Standing(s: State) { s.pvc.Some? && !s.pvc.value.terminating }

  lemma RestingStep(s: State, e: Event, s': State)
    requires Inv(s) && Resting(s) && !Requested(s) && Next(s, e, s')
    ensures Resting(s') && NothingNew(s, s')
    ensures Standing(s) && !e.UserDeletesPvc? ==> Standing(s')
  {
    hide Consistent;
  }

  /** As long as no Pod requests it, an evicted cache rests, and no PVC and no Job is created for it. */
  lemma {:induction false} EvictedCreatesNothing(states: seq<State>, events: seq<Event>, i: nat, j: nat)
    requires IsRun(states, events) && i <= j < |states| && Resting(states[i])
    requires forall m :: i <= m < j ==> !Requested(states[m])
    ensures Resting(states[j]) && NothingNew(states[i], states[j])
  {
    hide Inv, Next, Initial, Resting;
    if i < j {
      EvictedCreatesNothing(states, events, i, j - 1);
      Reachable(states, events, j - 1);
      RestingStep(states[j - 1], events[j - 1], states[j]);
    }
  }

  /** But a PVC that a rebuild left behind stays as well, until a user deletes it. */
  lemma {:induction false} EvictedKeepsALeftoverPvc(states: seq<State>, events: seq<Event>, i: nat, j: nat)
    requires IsRun(states, events) && i <= j < |states| && Resting(states[i]) && Standing(states[i])
    requires forall m :: i <= m < j ==> !Requested(states[m]) && !events[m].UserDeletesPvc?
    ensures Resting(states[j]) && Standing(states[j]) && SameClaim(states[i].pvc.value, states[j].pvc.value)
  {
    hide Inv, Next, Initial, Resting;
    EvictedCreatesNothing(states, events, i, j);
    if i < j {
      EvictedKeepsALeftoverPvc(states, events, i, j - 1);
      Reachable(states, events, j - 1);
      RestingStep(states[j - 1], events[j - 1], states[j]);
    }
  }

  // -------------------------------------------------- what Ready says of the PVC

  /** Unless a user deleted the PVC, a Ready cache's PVC holds the whole download. */
  lemma ReadyMeansFilled(states: seq<State>, events: seq<Event>, i: nat)
    requires IsRun(states, events) && i < |states| && !states[i].history.tampered
    requires states[i].status.phase == Ready && states[i].pvc.Some?
    ensures states[i].pvc.value.filled
  {
    Reachable(states, events, i);
  }

  // ------------------------------------------------------ what others leave alone

  /** What others leave alone: where the reconcile stands, its history of uses, the past. */
  predicate Rely(s: State, s': State) {
    && s'.pc == s.pc && s'.spec == s.spec && s'.status == s.status && s'.clock >= s.clock
    && s'.history.uses == s.history.uses && s'.history.last == s.history.last
    && (s.pvc.None? ==> s'.pvc.None?) && (s.job.None? ==> s'.job.None?)
  }

  /** A step of the controller, or one that ends its reconcile. */
  predicate Own(e: Event) { e.ControllerSteps? || e.CallFails? || e.ControllerEnds? }

  lemma OutsideRely(s: State, e: Event, s': State)
    requires OutsideStep(s, e, s')
    ensures Rely(s, s')
  {
  }

  /** Any number of steps by others keep what the controller relies on. */
  lemma {:induction false} MayRely(states: seq<State>, events: seq<Event>, i: nat, j: nat)
    requires IsRun(states, events) && i <= j < |states|
    requires forall m :: i <= m < j ==> !Own(events[m])
    ensures Rely(states[i], states[j]) && Inv(states[j])
  {
    hide Inv, OutsideStep;
    Reachable(states, events, j);
    if i < j {
      MayRely(states, events, i, j - 1);
      OutsideRely(states[j - 1], events[j - 1], states[j]);
    }
  }

  // -------------------------------------------------- what a Ready mark says of the PVC

  predicate Filled(pvc: Option<Pvc>) { pvc.Some? && pvc.value.filled }

  /** A PVC is filled exactly if that Job, which is over, finished after it was made. */
  predicate FilledBy(job: Job, s: State) {
    && Succeeded(job) && (s.job.Some? ==> Succeeded(s.job.value))
    && (s.pvc.Some? ==> (s.pvc.value.filled <==> s.pvc.value.createdAt < job.doneAt))
  }

  lemma OutsideKeepsFilling(s: State, e: Event, s': State, job: Job)
    requires OutsideStep(s, e, s') && FilledBy(job, s)
    ensures FilledBy(job, s')
  {
  }

  lemma {:induction false} FillingStays(states: seq<State>, events: seq<Event>, i: nat, j: nat, job: Job)
    requires IsRun(states, events) && i <= j < |states| && FilledBy(job, states[i])
    requires forall m :: i <= m < j ==> !Own(events[m])
    ensures FilledBy(job, states[j])
  {
    hide OutsideStep, FilledBy, Initial;
    if i < j {
      FillingStays(states, events, i, j - 1, job);
      OutsideKeepsFilling(states[j - 1], events[j - 1], states[j], job);
    }
  }

  lemma JudgedDone(s: State, s': State)
    requires Inv(s) && s.pc.CheckJob? && Succeeded(s.pc.job) && ControllerStep(s, s')
    ensures s'.pc == Report(MarkedReady(s.spec, s.pc.st, s.clock), Some(s.clock))
    ensures s'.spec == s.spec && FilledBy(s.pc.job, s')
  {
    hide Consistent, WithReasons, StatusInv, UseInv, PodsConsistent;
  }

  /**
   Once a user may delete the PVC, a Ready mark can be wrong: EnsureDownloadJob takes any Job of
   the right name. From the look at the succeeded Job to the write of the status, the cache is
   marked Ready on a filled PVC if and only if there is one and the Job finished after it was made.
   */
  lemma ReadyMarkIsSoundExactly(states: seq<State>, events: seq<Event>, i: nat, j: nat)
    requires IsRun(states, events) && i < j < |states| && events[i] == ControllerSteps
    requires states[i].pc.CheckJob? && Succeeded(states[i].pc.job)
    requires forall m :: i < m < j ==> !Own(events[m])
    ensures states[j].pc.Report? && states[j].pc.report.phase == Ready && states[j].pc.used.Some?
    ensures Filled(states[j].pvc)
      <==> states[j].pvc.Some? && states[j].pvc.value.createdAt < states[i].pc.job.doneAt
  {
    hide Inv, ControllerStep, Succeeded, OutsideStep, Initial;
    var job := states[i].pc.job;
    Reachable(states, events, i);
    JudgedDone(states[i], states[i + 1]);
    MayRely(states, events, i + 1, j);
    FillingStays(states, events, i + 1, j, job);
  }

  // ------------------------------------------------------ whole reconciles

  /** Neither a crash nor a change to the Pods or the PVC. A failing call that is reported may be among them. */
  predicate Undisturbed(e: Event) {
    || e.ControllerSteps? || e.CallFails? || e.JobReports? || e.JobExpires? || e.ClassChanges? || e.TimePasses?
  }

  /** From `i` to `j` the run is one whole reconcile that nothing disturbs. */
  ghost predicate OneReconcile(states: seq<State>, events: seq<Event>, i: nat, j: nat) {
    && IsRun(states, events) && i < j < |states|
    && states[i].pc.Idle? && events[i].ControllerSteps? && states[j].pc.Idle?
    && (forall m :: i < m < j ==> !states[m].pc.Idle?)
    && (forall m :: i <= m < j ==> Undisturbed(events[m]))
  }

  /** Ready, unused, and the TTL has passed since the last use. */
  predicate Evictable(s: State) {
    && s.status.phase == Ready && !Requested(s)
    && s.spec.ttl.Ttl? && s.clock >= Stored(s.history.last) + s.spec.ttl.duration
  }

  predicate GoingOut(pc: Pc) {
    || pc.AddFinalizer? || pc.Decide? || pc.Unused? || pc.DeleteJob? || pc.DeletePvc? || pc.MarkEvicted?
  }

  predicate Emptied(s: State) { s.status.phase == Evicted && s.pvc.None? && s.job.None? }

  lemma EvictionSteps(s: State, s': State)
    requires Inv(s) && Evictable(s) && (GoingOut(s.pc) || s.pc.Idle?) && ControllerStep(s, s')
    ensures if s'.pc.Idle? then Emptied(s') else Evictable(s') && GoingOut(s'.pc)
  {
    hide Consistent, WithReasons, StatusesConsistent, DataInv;
    if s.pc.MarkEvicted? { PatchIsModified(s.status, MarkedEvicted(s.spec, s.status)); }
  }

  lemma EvictionGoesOn(s: State, e: Event, s': State)
    requires Inv(s) && Evictable(s) && (GoingOut(s.pc) || (s.pc.Idle? && e.ControllerSteps?))
    requires Undisturbed(e) && Next(s, e, s')
    ensures if s'.pc.Idle? then Emptied(s') else Evictable(s') && GoingOut(s'.pc)
  {
    hide Inv, ControllerStep;
    if e.ControllerSteps? { EvictionSteps(s, s'); }
  }

  lemma {:induction false} EvictionStands(states: seq<State>, events: seq<Event>, i: nat, j: nat, m: nat)
    requires OneReconcile(states, events, i, j) && Evictable(states[i]) && i < m <= j
    ensures if m == j then Emptied(states[m]) else Evictable(states[m]) && GoingOut(states[m].pc)
  {
    hide Inv, Evictable, GoingOut, Emptied, Next, Initial;
    if i + 1 < m { EvictionStands(states, events, i, j, m - 1); }
    Reachable(states, events, m - 1);
    EvictionGoesOn(states[m - 1], events[m - 1], states[m]);
  }

  /** Every undisturbed reconcile of an unused Ready cache past its TTL evicts it, and leaves neither Job nor PVC. */
  lemma ReconcileEvicts(states: seq<State>, events: seq<Event>, i: nat, j: nat)
    requires OneReconcile(states, events, i, j) && Evictable(states[i])
    ensures Emptied(states[j])
  {
    EvictionStands(states, events, i, j, j);
  }

  /**
   ...so a crash anywhere in an eviction is made good by the next such reconcile, if no Pod requests the
   cache then.
   */
  lemma NextReconcileEvicts(states: seq<State>, events: seq<Event>, c: nat, i: nat, j: nat)
    requires OneReconcile(states, events, i, j) && c < i && events[c] == ControllerEnds
    requires Evicting(states[c].pc) || states[c].pc.MarkEvicted?
    requires forall m :: c < m < i ==> !Own(events[m])
    requires !Requested(states[i])
    ensures Emptied(states[j])
  {
    hide Consistent, WithReasons, ControllerStep, OutsideStep;
    Reachable(states, events, c);
    assert Next(states[c], events[c], states[c + 1]);
    MayRely(states, events, c + 1, i);
    ReconcileEvicts(states, events, i, j);
  }

  predicate Healthy(pvc: Option<Pvc>) {
    pvc.Some? && pvc.value.managed && pvc.value.bound && !pvc.value.terminating
  }

  /** The same PVC; its Job may have filled it. */
  predicate SamePvc(p: Option<Pvc>, p': Option<Pvc>) {
    if p.None? then p'.None? else p'.Some? && p'.value.(filled := p.value.filled) == p.value
  }

  predicate Looking(pc: Pc) {
    pc.AddFinalizer? || pc.Decide? || pc.Counted? || pc.Use? || pc.CheckPvc?
  }

  /** The PVC is healthy, and no read of it failed on the way. */
  function Verdict(pvc: Option<Pvc>, failed: bool): Phase { if Healthy(pvc) && !failed then Ready else Failed }

  /** A requested Ready cache in its reconcile: before the look at the PVC, and after it. */
  predicate LooksAt(s: State, failed: bool) {
    && Requested(s)
    && if Looking(s.pc) then s.status.phase == Ready && !failed
       else if s.pc.Report? then s.pc.used.None? && s.pc.report.phase == Verdict(s.pvc, failed)
       else s.pc.Idle? && s.status.phase == Verdict(s.pvc, failed)
  }

  /** Where the look at the PVC may begin, or already is. */
  predicate MayLook(s: State, e: Event, failed: bool) {
    if s.pc.Idle? then e.ControllerSteps? && s.status.phase == Ready && Requested(s) && !failed else LooksAt(s, failed)
  }

  lemma LookApproaches(s: State, s': State, failed: bool)
    requires Inv(s) && MayLook(s, ControllerSteps, failed) && (AdmitStep(s, s') || UsageStep(s, s'))
    ensures LooksAt(s', failed) && s'.pvc == s.pvc && s'.job == s.job
  {
    hide Consistent, WithReasons, StatusesConsistent, UseInv, DataInv, PodsConsistent, Healthy;
    if s.pc.Use? { PatchIsModified(s.status, UsedAt(s.status, s.pc.now)); }
  }

  lemma LookConcludes(s: State, s': State, failed: bool)
    requires Inv(s) && MayLook(s, ControllerSteps, failed) && (CheckStep(s, s') || ReportStep(s, s'))
    ensures LooksAt(s', failed) && s'.pvc == s.pvc && s'.job == s.job
  {
    hide Consistent, WithReasons, StatusesConsistent, UseInv, DataInv, PodsConsistent;
  }

  lemma LookSteps(s: State, s': State, failed: bool)
    requires Inv(s) && MayLook(s, ControllerSteps, failed) && ControllerStep(s, s')
    ensures LooksAt(s', failed) && SamePvc(s.pvc, s'.pvc) && s'.job == s.job
  {
    hide Inv, AdmitStep, UsageStep, CheckStep, ReportStep, Verdict;
    if AdmitStep(s, s') || UsageStep(s, s') { LookApproaches(s, s', failed); }
    else if CheckStep(s, s') || ReportStep(s, s') { LookConcludes(s, s', failed); }
  }

  lemma LookWaits(s: State, e: Event, s': State, failed: bool)
    requires LooksAt(s, failed) && Undisturbed(e) && OutsideStep(s, e, s')
    ensures LooksAt(s', failed) && SamePvc(s.pvc, s'.pvc) && (s.job.None? ==> s'.job.None?)
  {
    hide Progress;
  }

  lemma LookGoesOn(s: State, e: Event, s': State, failed: bool)
    requires Inv(s) && MayLook(s, e, failed) && Undisturbed(e) && Next(s, e, s')
    ensures LooksAt(s', failed || e.CallFails?) && SamePvc(s.pvc, s'.pvc) && (s.job.None? ==> s'.job.None?)
  {
    hide Inv, ControllerStep, OutsideStep, WithReasons;
    if e.ControllerSteps? { LookSteps(s, s', failed); }
    else if !e.CallFails? { LookWaits(s, e, s', failed); }
  }

  /** Whether a call failed between `i` and `j`. */
  predicate SomeCallFails(events: seq<Event>, i: nat, j: nat)
    requires i <= j <= |events|
  {
    exists m :: i <= m < j && events[m].CallFails?
  }

  lemma {:induction false} LookStands(states: seq<State>, events: seq<Event>, i: nat, j: nat, m: nat)
    requires OneReconcile(states, events, i, j) && i < m <= j
    requires states[i].status.phase == Ready && Requested(states[i])
    ensures LooksAt(states[m], SomeCallFails(events, i, m)) && SamePvc(states[i].pvc, states[m].pvc)
    ensures states[i].job.None? ==> states[m].job.None?
  {
    hide Inv, LooksAt, Next, Initial, Healthy;
    if i + 1 < m { LookStands(states, events, i, j, m - 1); }
    Reachable(states, events, m - 1);
    LookGoesOn(states[m - 1], events[m - 1], states[m], SomeCallFails(events, i, m - 1));
    assert SomeCallFails(events, i, m) <==> SomeCallFails(events, i, m - 1) || events[m - 1].CallFails?;
  }

  /**
   Every undisturbed reconcile of a Ready cache that a Pod requests leaves its PVC alone, and
   leaves it Ready if and only if that PVC is healthy and could be read; otherwise Failed.
   */
  lemma ReconcileKeepsReadyExactly(states: seq<State>, events: seq<Event>, i: nat, j: nat)
    requires OneReconcile(states, events, i, j) && states[i].status.phase == Ready && Requested(states[i])
    ensures states[j].status.phase == Ready <==> Healthy(states[i].pvc) && !SomeCallFails(events, i, j)
    ensures states[j].status.phase == Ready || states[j].status.phase == Failed
    ensures SamePvc(states[i].pvc, states[j].pvc) && (states[i].job.None? ==> states[j].job.None?)
  {
    LookStands(states, events, i, j, j);
  }

  // -------------------------------------------------- recovering from a crash

  /** Which events may happen: the controller's alone, also the provisioner's and the Job's, or any. */
  datatype Helpers = Alone | Provisioned | Anyone

  predicate Allowed(h: Helpers, e: Event) {
    || e.ControllerSteps? || e.ControllerEnds?
    || (h.Provisioned? && (e.BindPvc? || e.JobReports? || e.JobExpires?))
    || h.Anyone?
  }

  ghost predicate LeadsVia(h: Helpers, s: State, t: State, states: seq<State>, events: seq<Event>) {
    && IsPath(states, events) && states[0] == s && states[|events|] == t
    && (forall i :: 0 <= i < |events| ==> Allowed(h, events[i]))
  }

  /** The system can go from `s` to `t`. */
  ghost predicate Leads(h: Helpers, s: State, t: State) {
    exists states, events :: LeadsVia(h, s, t, states, events)
  }

  lemma LeadsNowhere(h: Helpers, s: State)
    ensures Leads(h, s, s)
  {
    assert LeadsVia(h, s, s, [s], []);
  }

  lemma LeadsOneMore(h: Helpers, s: State, t: State, e: Event, t': State)
    requires Leads(h, s, t) && Inv(t) && Allowed(h, e) && Next(t, e, t')
    ensures Leads(h, s, t') && Inv(t')
  {
    var states, events :| LeadsVia(h, s, t, states, events);
    var states', events' := states + [t'], events + [e];
    forall i | 0 <= i < |events'| ensures Next(states'[i], events'[i], states'[i + 1]) {
      if i < |events| { assert events'[i] == events[i]; }
    }
    assert LeadsVia(h, s, t', states', events');
    StepKeeps(t, e, t');
  }

  /** One controller step. */
  lemma Steps(h: Helpers, s: State, t: State, t': State)
    requires Leads(h, s, t) && Inv(t) && ControllerStep(t, t')
    ensures Leads(h, s, t') && Inv(t')
  {
    LeadsOneMore(h, s, t, ControllerSteps, t');
  }

  /** `t` differs from `s` only in what a new reconcile, or a use, changes. */
  predicate SameStore(s: State, t: State) {
    && t.spec == s.spec && t.pvc == s.pvc && t.job == s.job && t.classExists == s.classExists
    && t.pods == s.pods && t.clock == s.clock
  }

  /** A fresh reconcile gets to the dispatch on the phase. */
  lemma Starts(h: Helpers, s: State, t: State) returns (t': State)
    requires Leads(h, s, t) && Inv(t)
    ensures Leads(h, s, t') && Inv(t') && SameStore(t, t') && t'.pc == Decide(t.status) && t'.status == t.status
  {
    hide Inv, ControllerStep;
    t' := Goto(t, Idle);
    LeadsOneMore(h, s, t, ControllerEnds, t');
    if !t.finalizer {
      t' := Admits(h, s, t', Goto(t', AddFinalizer));
      t' := Admits(h, s, t', Goto(t'.(finalizer := true), Decide(t.status)));
    } else {
      t' := Admits(h, s, t', Goto(t', Decide(t.status)));
    }
  }

  lemma Admits(h: Helpers, s: State, t: State, w: State) returns (t': State)
    requires Leads(h, s, t) && Inv(t) && AdmitStep(t, w)
    ensures t' == w && Leads(h, s, t') && Inv(t')
  {
    t' := w;
    Steps(h, s, t, t');
  }

  lemma Uses(h: Helpers, s: State, t: State, w: State) returns (t': State)
    requires Leads(h, s, t) && Inv(t) && UsageStep(t, w)
    ensures t' == w && Leads(h, s, t') && Inv(t')
  {
    t' := w;
    Steps(h, s, t, t');
  }

  lemma Builds(h: Helpers, s: State, t: State, w: State) returns (t': State)
    requires Leads(h, s, t) && Inv(t) && (ProvisionStep(t, w) || JobStep(t, w))
    ensures t' == w && Leads(h, s, t') && Inv(t')
  {
    t' := w;
    Steps(h, s, t, t');
  }

  /** Such a reconcile is always possible, whatever a crash left of the Job and the PVC. */
  lemma EvictionCompletes(s: State) returns (t: State)
    requires Inv(s) && Evictable(s)
    ensures Leads(Alone, s, t) && Inv(t) && t.pc.Idle? && !Requested(t)
    ensures Emptied(t) && t.classExists == s.classExists
  {
    hide Consistent, WithReasons, AdmitStep;
    LeadsNowhere(Alone, s);
    t := Starts(Alone, s, s);
    assert t.status.lastUsed == Some(Stored(s.history.last));
    t := CountsNone(Alone, s, t);
    t := Uses(Alone, s, t, Goto(t, DeleteJob(t.pc.st, t.pc.countedAt, t.clock)));
    t := Deletes(Alone, s, t);
  }

  lemma CountsNone(h: Helpers, s: State, t: State) returns (t': State)
    requires Leads(h, s, t) && Inv(t) && t.pc == Decide(t.status) && t.status.phase == Ready && !Requested(t)
    ensures Leads(h, s, t') && Inv(t') && t'.pc == Unused(t.status, t.tick) && SameStore(t, t') && t'.status == t.status
  {
    t' := Admits(h, s, t, Goto(t, Unused(t.status, t.tick)));
  }

  lemma Deletes(h: Helpers, s: State, t: State) returns (t': State)
    requires Leads(h, s, t) && Inv(t) && t.pc.DeleteJob?
    ensures Leads(h, s, t') && Inv(t') && t'.pc.Idle? && t'.pods == t.pods
    ensures Emptied(t') && t'.classExists == t.classExists
  {
    hide Consistent, WithReasons;
    var st := t.pc.st;
    t' := Uses(h, s, t, Goto(t.(job := None), DeletePvc(st, t.pc.countedAt, t.pc.now)));
    t' := Uses(h, s, t', Goto(t'.(pvc := None), MarkEvicted(st)));
    assert t'.status == st;
    t' := Uses(h, s, t', Goto(StatusPatched(t', st, MarkedEvicted(t'.spec, st)), Idle));
  }

  /** So is an undisturbed reconcile of a requested Ready cache in which every call succeeds. */
  lemma RequestedReadyIsKept(s: State) returns (t: State)
    requires Inv(s) && s.status.phase == Ready && Requested(s)
    ensures Leads(Alone, s, t) && Inv(t) && SameStore(s, t) && t.pc.Idle?
    ensures t.status.phase == if Healthy(s.pvc) then Ready else Failed
  {
    hide Consistent, WithReasons, AdmitStep;
    LeadsNowhere(Alone, s);
    t := Starts(Alone, s, s);
    t := RecordsUse(s, t);
    t := Checks(s, t);
  }

  lemma RecordsUse(s: State, t: State) returns (t': State)
    requires Leads(Alone, s, t) && Inv(t) && t.pc == Decide(t.status) && t.status.phase == Ready && Requested(t)
    ensures Leads(Alone, s, t') && Inv(t') && SameStore(t, t') && t'.pc == CheckPvc(t'.status)
      && t'.status.phase == Ready
  {
    hide Consistent, WithReasons;
    var st := t.status;
    t' := Admits(Alone, s, t, Goto(t, Counted(st)));
    t' := Uses(Alone, s, t', Goto(t', Use(st, t.clock)));
    PatchIsModified(st, UsedAt(st, t.clock));
    t' := Uses(Alone, s, t',
        Goto(WithUse(StatusPatched(t', st, UsedAt(st, t.clock)), t.clock), CheckPvc(UsedAt(st, t.clock))));
  }

  lemma Checks(s: State, t: State) returns (t': State)
    requires Leads(Alone, s, t) && Inv(t) && t.pc == CheckPvc(t.status) && t.status.phase == Ready
    ensures Leads(Alone, s, t') && Inv(t') && SameStore(t, t') && t'.pc.Idle?
    ensures t'.status.phase == if Healthy(t.pvc) then Ready else Failed
  {
    hide Consistent, WithReasons;
    var pc := Judged(t.spec, t.status, t.pvc);
    t' := Goto(t, pc);
    assert CheckStep(t, t');
    Steps(Alone, s, t, t');
    if pc.Report? {
      t' := Reports(Alone, s, t');
    }
  }

  lemma Reports(h: Helpers, s: State, t: State) returns (t': State)
    requires Leads(h, s, t) && Inv(t) && t.pc.Report?
    ensures Leads(h, s, t') && Inv(t') && SameStore(t, t') && t'.pc.Idle? && t'.status == t.pc.report
  {
    hide Consistent, WithReasons;
    var t0 := t.(status := t.pc.report);
    t' := Goto(if t.pc.used.Some? then WithUse(t0, t.pc.used.value) else t0, Idle);
    assert ReportStep(t, t');
    Steps(h, s, t, t');
  }

  /** A reconcile of a requested cache that is not Ready gets as far as its PVC. */
  lemma Approaches(s: State, t: State) returns (t': State)
    requires Leads(Provisioned, s, t) && Inv(t) && t.status.phase != Ready && Requested(t) && t.classExists
    ensures Leads(Provisioned, s, t') && Inv(t') && SameStore(t, t') && t'.status == t.status
      && t'.pc == EnsurePvc(t.status)
  {
    hide Consistent, WithReasons;
    t' := Starts(Provisioned, s, t);
    t' := Admits(Provisioned, s, t', Goto(t', CheckClass(t.status)));
    t' := Builds(Provisioned, s, t', Goto(t', EnsurePvc(t.status)));
  }

  lemma MakesPvc(s: State, t: State) returns (t': State)
    requires Leads(Provisioned, s, t) && Inv(t) && t.status.phase != Ready && Requested(t) && t.classExists
    requires t.pvc.Some? ==> t.pvc.value.managed
    ensures Leads(Provisioned, s, t') && Inv(t') && t'.pvc.Some? && t'.pvc.value.managed && t'.job == t.job
    ensures t'.status.phase != Ready && Requested(t') && t'.classExists && t'.spec == t.spec
    ensures t.pvc.None? ==> !t'.pvc.value.filled
  {
    hide Consistent, WithReasons;
    if t.pvc.Some? { return t; }
    t' := Approaches(s, t);
    t' := Builds(Provisioned, s, t', Goto(t', CreatePvc(t.status)));
    t' := Builds(Provisioned, s, t',
      Goto(t'.(pvc := Some(Pvc(true, false, false, t'.tick, false))), WithPvc(t'.spec, t.status, false)));
    t' := Reports(Provisioned, s, t');
  }

  lemma GetsBound(s: State, t: State) returns (t': State)
    requires Leads(Provisioned, s, t) && Inv(t) && t.pvc.Some? && t.pvc.value.managed
    ensures Leads(Provisioned, s, t') && Inv(t') && t'.pvc.Some? && t'.pvc.value.managed && t'.pvc.value.bound
    ensures t'.pvc.value.filled == t.pvc.value.filled
    ensures t'.status == t.status && t'.pods == t.pods && t'.classExists == t.classExists
    ensures t'.job == t.job && t'.spec == t.spec
  {
    t' := t.(pvc := Some(t.pvc.value.(bound := true)), tick := t.tick + 1);
    LeadsOneMore(Provisioned, s, t, BindPvc, t');
  }

  /** With a bound PVC and no Job, a reconcile starts one. */
  lemma StartsJob(s: State, t: State) returns (t': State)
    requires Leads(Provisioned, s, t) && Inv(t) && t.status.phase != Ready && Requested(t) && t.classExists
    requires t.pvc.Some? && t.pvc.value.managed && t.pvc.value.bound && t.job.None?
    ensures Leads(Provisioned, s, t') && Inv(t') && t'.pc.Idle? && t'.pvc == t.pvc && t'.job == Some(Job([], 0))
    ensures t'.status.phase == Downloading && Requested(t') && t'.classExists && t'.spec == t.spec
  {
    hide Consistent, WithReasons;
    var st := t.status;
    t' := Approaches(s, t);
    t' := Builds(Provisioned, s, t', Goto(t', EnsureJob(st)));
    t' := Builds(Provisioned, s, t', Goto(t', CreateJob(st)));
    t' := Builds(Provisioned, s, t', Goto(t'.(job := Some(Job([], 0))), CheckJob(st, Job([], 0))));
    t' := Builds(Provisioned, s, t', Goto(t', JobSeen(t'.spec, st, Job([], 0), t'.clock)));
    t' := Reports(Provisioned, s, t');
  }

  lemma FinishesJob(s: State, t: State) returns (t': State)
    requires Leads(Provisioned, s, t) && Inv(t) && t.pvc.Some? && t.job.Some? && Running(t.job.value)
    ensures Leads(Provisioned, s, t') && Inv(t') && t'.job.Some? && Succeeded(t'.job.value)
    ensures t'.pvc == Some(t.pvc.value.(filled := true))
    ensures t'.status == t.status && t'.pods == t.pods && t'.classExists == t.classExists && t'.spec == t.spec
  {
    var done := [JobCondition(JobComplete, true)];
    t' := t.(job := Some(Job(done, t.tick)), pvc := Some(t.pvc.value.(filled := true)), tick := t.tick + 1);
    LeadsOneMore(Provisioned, s, t, JobReports(done), t');
  }

  /** With a bound PVC and a Job that succeeded, a reconcile marks the cache Ready. */
  lemma MarksReady(s: State, t: State) returns (t': State)
    requires Leads(Provisioned, s, t) && Inv(t) && t.status.phase != Ready && Requested(t) && t.classExists
    requires t.pvc.Some? && t.pvc.value.managed && t.pvc.value.bound && t.job.Some? && Succeeded(t.job.value)
    ensures Leads(Provisioned, s, t') && Inv(t') && t'.pc.Idle? && t'.pvc == t.pvc && t'.job == t.job
    ensures t'.status.phase == Ready && t'.pods == t.pods && t'.classExists == t.classExists && t'.spec == t.spec
  {
    hide Consistent, WithReasons;
    var st := t.status;
    t' := Approaches(s, t);
    t' := Builds(Provisioned, s, t', Goto(t', EnsureJob(st)));
    t' := Builds(Provisioned, s, t', Goto(t', CheckJob(st, t.job.value)));
    t' := Builds(Provisioned, s, t', Goto(t', JobSeen(t'.spec, st, t.job.value, t'.clock)));
    t' := Reports(Provisioned, s, t');
  }

  /** A requested cache that is not Ready can always be rebuilt, and is then Ready on a filled PVC. */
  lemma RebuildCompletes(s: State, t: State) returns (t': State)
    requires Leads(Provisioned, s, t) && Inv(t) && t.status.phase != Ready && Requested(t) && t.classExists
    requires t.pvc.Some? ==> t.pvc.value.managed
    ensures Leads(Provisioned, s, t') && Inv(t') && t'.status.phase == Ready
    ensures t'.pvc.Some? && t'.pvc.value.filled && t'.pvc.value.bound
    ensures t'.job.Some? && Succeeded(t'.job.value) && Requested(t') && t'.classExists && t'.spec == t.spec
  {
    hide Consistent, WithReasons;
    t' := MakesPvc(s, t);
    t' := GetsBound(s, t');
    t' := GetsJob(s, t');
    t' := FinishesJob(s, t');
    t' := MarksReady(s, t');
  }

  /** With a bound PVC there will be a running Job: the one under way, or a new one once a finished one has expired. */
  lemma GetsJob(s: State, t: State) returns (t': State)
    requires Leads(Provisioned, s, t) && Inv(t) && t.status.phase != Ready && Requested(t) && t.classExists
    requires t.pvc.Some? && t.pvc.value.managed && t.pvc.value.bound
    ensures Leads(Provisioned, s, t') && Inv(t') && t'.pvc == t.pvc && t'.job.Some? && Running(t'.job.value)
    ensures t'.status.phase != Ready && Requested(t') && t'.classExists && t'.spec == t.spec
  {
    hide Consistent, WithReasons;
    t' := t;
    if t.job.Some? && Running(t.job.value) { return; }
    if t.job.Some? {
      t' := t.(job := None, tick := t.tick + 1);
      LeadsOneMore(Provisioned, s, t, JobExpires, t');
    }
    t' := StartsJob(s, t');
  }

  /**
   A Ready cache whose PVC an eviction had deleted before it crashed, and that a Pod now requests:
   every undisturbed reconcile reports it Failed, and from there it can be rebuilt.
   */
  lemma CrashedEvictionRebuilds(states: seq<State>, events: seq<Event>, i: nat, j: nat) returns (rebuilt: State)
    requires OneReconcile(states, events, i, j) && states[i].status.phase == Ready && states[i].pvc.None?
    requires Requested(states[i]) && states[j].classExists
    ensures states[j].status.phase == Failed
    ensures Leads(Provisioned, states[j], rebuilt) && rebuilt.status.phase == Ready
    ensures rebuilt.pvc.Some? && rebuilt.pvc.value.filled && rebuilt.pvc.value.bound
  {
    hide Next, Initial, Inv;
    LookStands(states, events, i, j, j);
    Reachable(states, events, j);
    LeadsNowhere(Provisioned, states[j]);
    rebuilt := RebuildCompletes(states[j], states[j]);
  }

  // ------------------------------------------- a stale Job and a new, empty PVC

  lemma {:induction false} LeadsOn(s: State, t: State, u: State, h: Helpers, states: seq<State>, events: seq<Event>)
    requires Leads(Anyone, s, t) && Inv(t) && LeadsVia(h, t, u, states, events)
    ensures Leads(Anyone, s, u) && Inv(u)
    decreases |events|
  {
    if |events| > 0 {
      var n := |events| - 1;
      assert forall i :: 0 <= i < n ==> events[..n][i] == events[i];
      LeadsOn(s, t, states[n], h, states[..n + 1], events[..n]);
      assert Next(states[n], events[n], u);
      LeadsOneMore(Anyone, s, states[n], events[n], u);
    }
  }

  lemma LeadsThen(s: State, t: State, u: State, h: Helpers)
    requires Leads(Anyone, s, t) && Inv(t) && Leads(h, t, u)
    ensures Leads(Anyone, s, u) && Inv(u)
  {
    var states, events :| LeadsVia(h, t, u, states, events);
    LeadsOn(s, t, u, h, states, events);
  }

  /** A run from a new cache in which a user deletes the PVC. */
  lemma UserDeletes(s: State) returns (t: State)
    requires Initial(s) && s.pvc.None? && s.classExists && Requested(s)
    ensures Leads(Anyone, s, t) && Inv(t) && t.status.phase == Ready && Requested(t) && t.classExists
    ensures t.pvc.None? && t.job.Some? && Succeeded(t.job.value)
  {
    LeadsNowhere(Anyone, s);
    LeadsNowhere(Provisioned, s);
    var t0 := RebuildCompletes(s, s);
    LeadsThen(s, s, t0, Provisioned);
    var t1 := t0.(pvc := Some(t0.pvc.value.(terminating := true)), history := t0.history.(tampered := true),
        tick := t0.tick + 1);
    LeadsOneMore(Anyone, s, t0, UserDeletesPvc, t1);
    t := t1.(pvc := None, tick := t1.tick + 1);
    LeadsOneMore(Anyone, s, t1, PvcGone, t);
  }

  /**
   The witness: from every new cache that a Pod requests, a run in which a user deletes the PVC
   while the completed Job is still there ends Ready on a PVC that nothing was downloaded to.
   */
  lemma AStaleJobMarksAnEmptyPvcReady(s: State) returns (t: State)
    requires Initial(s) && s.pvc.None? && s.classExists && Requested(s)
    ensures Leads(Anyone, s, t) && t.status.phase == Ready && t.pc.Idle?
    ensures t.pvc.Some? && t.pvc.value.bound && !t.pvc.value.filled
  {
    hide Consistent, WithReasons;
    var t0 := UserDeletes(s);
    var failed := RequestedReadyIsKept(t0);
    LeadsThen(s, t0, failed, Alone);
    t := RebuildsOnStaleJob(failed);
    LeadsThen(s, failed, t, Provisioned);
  }

  lemma RebuildsOnStaleJob(s: State) returns (t: State)
    requires Inv(s) && s.status.phase != Ready && Requested(s) && s.classExists
    requires s.pvc.None? && s.job.Some? && Succeeded(s.job.value)
    ensures Leads(Provisioned, s, t) && t.status.phase == Ready && t.pc.Idle?
    ensures t.pvc.Some? && t.pvc.value.bound && !t.pvc.value.filled
  {
    hide Consistent, WithReasons;
    LeadsNowhere(Provisioned, s);
    t := MakesPvc(s, s);
    t := GetsBound(s, t);
    t := MarksReady(s, t);
  }

  // ------------------------------------------------ a rebuild that is given up

  lemma PodsLeave(s: State, t: State) returns (t': State)
    requires Leads(Anyone, s, t) && Inv(t)
    ensures Leads(Anyone, s, t') && Inv(t') && t' == t.(pods := map[], tick := t'.tick)
    decreases t.pods.Keys
  {
    t' := t;
    if id :| id in t.pods {
      t' := t.(pods := t.pods - {id}, tick := t.tick + 1);
      LeadsOneMore(Anyone, s, t, DeletePod(id), t');
      t' := PodsLeave(s, t');
    }
  }

  lemma TtlPasses(s: State, t: State) returns (t': State)
    requires Leads(Anyone, s, t) && Inv(t) && t.status.phase == Ready && t.pods == map[] && t.spec.ttl.Ttl?
    ensures Leads(Anyone, s, t') && Inv(t') && Evictable(t') && t'.pods == map[] && t'.classExists == t.classExists
  {
    hide Consistent, WithReasons;
    var late := t.clock + t.spec.ttl.duration;
    t' := t.(clock := late, tick := t.tick + 1);
    LeadsOneMore(Anyone, s, t, TimePasses(late), t');
  }

  lemma PodComes(s: State, t: State) returns (t': State)
    requires Leads(Anyone, s, t) && Inv(t) && t.pods == map[]
    ensures Leads(Anyone, s, t') && Inv(t') && t' == t.(pods := map["pod" := t.tick], tick := t.tick + 1)
    ensures Requested(t')
  {
    t' := t.(pods := map["pod" := t.tick], tick := t.tick + 1);
    LeadsOneMore(Anyone, s, t, CreatePod("pod"), t');
    assert "pod" in t'.pods;
  }

  /** A Pod requests an evicted cache; the rebuild creates the PVC, stops, and the Pod goes. */
  lemma GivesUp(s: State, t: State) returns (t': State)
    requires Leads(Anyone, s, t) && Inv(t) && Emptied(t) && t.pods == map[] && t.classExists
    ensures Leads(Anyone, s, t') && Inv(t') && Resting(t') && Standing(t') && !Requested(t')
  {
    hide Inv, AdmitStep, UsageStep, JobStep;
    var t0 := PodComes(s, t);
    LeadsNowhere(Provisioned, t0);
    var t1 := Approaches(t0, t0);
    t1 := Builds(Provisioned, t0, t1, Goto(t1, CreatePvc(t.status)));
    t1 := Builds(Provisioned, t0, t1,
      Goto(t1.(pvc := Some(Pvc(true, false, false, t1.tick, false))), WithPvc(t1.spec, t.status, false)));
    LeadsThen(s, t0, t1, Provisioned);
    LeadsOneMore(Anyone, s, t1, ControllerEnds, Goto(t1, Idle));
    t' := PodsLeave(s, Goto(t1, Idle));
  }

  /** The witness: from every new cache with a TTL that a Pod requests, a run to a resting cache with a leftover PVC. */
  lemma AnAbandonedRebuildLeavesItsPvc(s: State) returns (t: State)
    requires Initial(s) && s.pvc.None? && s.classExists && Requested(s) && s.spec.ttl.Ttl?
    ensures Leads(Anyone, s, t) && Resting(t) && Standing(t) && !Requested(t)
  {
    hide Inv, Initial, Resting, Standing, Emptied;
    var late := BecomesEvictable(s);
    t := EvictionCompletes(late);
    LeadsThen(s, late, t, Alone);
    t := GivesUp(s, t);
  }

  /** From every new cache with a TTL that a Pod requests, a run to a Ready cache that is unused and past its TTL. */
  lemma BecomesEvictable(s: State) returns (t: State)
    requires Initial(s) && s.pvc.None? && s.classExists && Requested(s) && s.spec.ttl.Ttl?
    ensures Leads(Anyone, s, t) && Inv(t) && Evictable(t) && t.pods == map[] && t.classExists
  {
    hide Next, Evictable;
    LeadsNowhere(Anyone, s);
    LeadsNowhere(Provisioned, s);
    var ready := RebuildCompletes(s, s);
    LeadsThen(s, s, ready, Provisioned);
    t := PodsLeave(s, ready);
    t := TtlPasses(s, t);
  }

  /**
   The race that counting before deleting leaves open: a Pod created between the two finds its
   cache evicted. Hence `EvictionSparesCountedPods` cannot promise more than it does.
   */
  lemma APodCreatedAfterTheCountLosesItsPvc(s: State) returns (t: State)
    requires Initial(s) && s.pvc.None? && s.classExists && Requested(s) && s.spec.ttl.Ttl?
    ensures Leads(Anyone, s, t) && Emptied(t) && Requested(t)
  {
    hide Consistent, WithReasons, Initial;
    var late := BecomesEvictable(s);
    t := Starts(Anyone, s, late);
    t := CountsNone(Anyone, s, t);
    t := Uses(Anyone, s, t, Goto(t, DeleteJob(t.pc.st, t.pc.countedAt, t.clock)));
    t := PodComes(s, t);
    t := Deletes(Anyone, s, t);
  }
}
