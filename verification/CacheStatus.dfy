/**
 The status of a ModelCache: its conditions, its counters, and how they are derived from
 the phases of its ModelCacheNodes.
 */
module CacheStatuses {
  import opened Common

  datatype Mode = NoMode | PVCMode | NodeMode

  datatype Kind = ConditionPVCReady | ConditionDownloadComplete | ConditionReady

  datatype Condition = Condition(kind: Kind, status: bool, reason: string)

  datatype Counts = Counts(total: nat, ready: nat, downloading: nat, failed: nat, pending: nat)

  datatype CacheStatus = CacheStatus(
    phase: Phase, mode: Mode, counts: Counts, pvcName: string, jobName: string,
    lastUsed: Option<Time>, conditions: seq<Condition>)

  const NO_COUNTS := Counts(0, 0, 0, 0, 0)
  const FRESH_CACHE_STATUS := CacheStatus(NoPhase, NoMode, NO_COUNTS, "", "", None, [])

  // ------------------------------------------------------------- conditions

  /** Replaces the first condition of the same kind, or appends. */
  function WithCondition(cs: seq<Condition>, c: Condition): seq<Condition> {
    if cs == [] then [c]
    else if cs[0].kind == c.kind then [c] + cs[1..]
    else [cs[0]] + WithCondition(cs[1..], c)
  }

  function Lookup(cs: seq<Condition>, kind: Kind): Option<Condition> {
    if cs == [] then None
    else if cs[0].kind == kind then Some(cs[0])
    else Lookup(cs[1..], kind)
  }

  predicate IsTrue(cs: seq<Condition>, kind: Kind) {
    Lookup(cs, kind).Some? && Lookup(cs, kind).value.status
  }

  predicate OnePerKind(cs: seq<Condition>) {
    forall i, j :: 0 <= i < j < |cs| ==> cs[i].kind != cs[j].kind
  }

  /** Setting a condition changes what is looked up under its kind, and nothing else. */
  lemma {:induction false} ConditionSet(cs: seq<Condition>, c: Condition, kind: Kind)
    ensures Lookup(WithCondition(cs, c), kind) == if kind == c.kind then Some(c) else Lookup(cs, kind)
  {
    if cs != [] && cs[0].kind != c.kind {
      ConditionSet(cs[1..], c, kind);
    }
  }

  lemma {:induction false} KindsOf(cs: seq<Condition>, c: Condition, j: nat)
    requires j < |WithCondition(cs, c)|
    ensures WithCondition(cs, c)[j].kind == c.kind || (j < |cs| && WithCondition(cs, c)[j] == cs[j])
  {
    if cs != [] && cs[0].kind != c.kind && j > 0 {
      KindsOf(cs[1..], c, j - 1);
    }
  }

  lemma {:induction false} OneStaysOne(cs: seq<Condition>, c: Condition)
    requires OnePerKind(cs)
    ensures OnePerKind(WithCondition(cs, c))
  {
    if cs != [] && cs[0].kind != c.kind {
      OneStaysOne(cs[1..], c);
      var rest := WithCondition(cs[1..], c);
      forall j | 0 <= j < |rest| ensures rest[j].kind != cs[0].kind {
        KindsOf(cs[1..], c, j);
      }
    }
  }

  // --------------------------------------------------------------- counters

  function CountsForPhase(phase: Phase): Counts {
    Counts(1,
           if phase == Ready then 1 else 0,
           if phase == Downloading then 1 else 0,
           if phase == Failed then 1 else 0,
           if phase == Pending then 1 else 0)
  }

  /** Why each condition has its value: the reasons are those of the source. */
  datatype Reasons = Reasons(pvc: Condition, download: Condition, ready: Condition) {
    predicate Valid() {
      pvc.kind == ConditionPVCReady && download.kind == ConditionDownloadComplete && ready.kind == ConditionReady
    }
  }

  function WithReasons(cs: seq<Condition>, r: Reasons): seq<Condition> {
    WithCondition(WithCondition(WithCondition(cs, r.pvc), r.download), r.ready)
  }

  /** A status report in PVC mode. */
  function Reported(st: CacheStatus, phase: Phase, pvcName: string, jobName: string, r: Reasons): CacheStatus {
    st.(phase := phase, pvcName := pvcName, jobName := jobName, mode := PVCMode,
        counts := CountsForPhase(phase), conditions := WithReasons(st.conditions, r))
  }

  /** What a reader of the status may rely on, in either mode. */
  predicate Consistent(st: CacheStatus) {
    && OnePerKind(st.conditions)
    && (IsTrue(st.conditions, ConditionReady) <==> st.phase == Ready)
    && (match st.mode
        case NoMode => st.phase == NoPhase
        case PVCMode =>
          && st.counts.total == 1
          && st.counts.ready + st.counts.downloading + st.counts.failed + st.counts.pending
               == (if st.phase == Evicted then 0 else 1)
          && (st.counts.ready == 1 <==> st.phase == Ready)
        case NodeMode =>
          && st.counts.total == st.counts.ready + st.counts.downloading + st.counts.failed + st.counts.pending
          && (st.phase == Ready <==> st.counts.total > 0 && st.counts.ready == st.counts.total))
  }

  lemma ReasonsSet(cs: seq<Condition>, r: Reasons)
    requires OnePerKind(cs) && r.Valid()
    ensures OnePerKind(WithReasons(cs, r))
    ensures Lookup(WithReasons(cs, r), ConditionPVCReady) == Some(r.pvc)
    ensures Lookup(WithReasons(cs, r), ConditionDownloadComplete) == Some(r.download)
    ensures Lookup(WithReasons(cs, r), ConditionReady) == Some(r.ready)
  {
    var cs1 := WithCondition(cs, r.pvc);
    var cs2 := WithCondition(cs1, r.download);
    OneStaysOne(cs, r.pvc);
    OneStaysOne(cs1, r.download);
    OneStaysOne(cs2, r.ready);
    ConditionSet(cs, r.pvc, ConditionPVCReady);
    ConditionSet(cs1, r.download, ConditionPVCReady);
    ConditionSet(cs2, r.ready, ConditionPVCReady);
    ConditionSet(cs1, r.download, ConditionDownloadComplete);
    ConditionSet(cs2, r.ready, ConditionDownloadComplete);
    ConditionSet(cs2, r.ready, ConditionReady);
  }

  /**
   A PVC-mode report leaves the status consistent exactly when it gives a phase and its Ready
   condition agrees with it.
   */
  lemma ReportConsistent(st: CacheStatus, phase: Phase, pvcName: string, jobName: string, r: Reasons)
    requires OnePerKind(st.conditions) && r.Valid()
    ensures Consistent(Reported(st, phase, pvcName, jobName, r))
      <==> phase != NoPhase && (r.ready.status <==> phase == Ready)
  {
    ReasonsSet(st.conditions, r);
  }

  // ------------------------------------------------------------ aggregation

  function Tally(phases: seq<Phase>): Counts {
    if phases == [] then NO_COUNTS
    else Counted(Tally(phases[..|phases| - 1]), phases[|phases| - 1])
  }

  function Counted(c: Counts, phase: Phase): Counts {
    var c' := c.(total := c.total + 1);
    match phase
    case Ready => c'.(ready := c.ready + 1)
    case Downloading => c'.(downloading := c.downloading + 1)
    case Failed => c'.(failed := c.failed + 1)
    case _ => c'.(pending := c.pending + 1)
  }

  function PhaseOf(c: Counts): Phase {
    if c.total == 0 || c.failed > 0 then Failed
    else if c.ready == c.total then Ready
    else if c.downloading > 0 || c.ready > 0 then Downloading
    else Pending
  }

  function ReasonOf(c: Counts): string {
    if c.total == 0 then "NoNodesAvailable"
    else if c.failed > 0 then "ModelCacheNodeFailed"
    else if c.ready == c.total then "AllModelCacheNodesReady"
    else if c.downloading > 0 || c.ready > 0 then "ModelCacheNodesDownloading"
    else "ModelCacheNodesPending"
  }

  /** The status a ModelCache gets from the phases of its ModelCacheNodes. */
  function Aggregated(st: CacheStatus, phases: seq<Phase>): CacheStatus {
    var c := Tally(phases);
    st.(phase := PhaseOf(c), pvcName := "", jobName := "", mode := NodeMode, counts := c,
        conditions := WithCondition(st.conditions, Condition(ConditionReady, PhaseOf(c) == Ready, ReasonOf(c))))
  }

  const NO_NODES := Reasons(
    Condition(ConditionPVCReady, false, "NoNodesFound"),
    Condition(ConditionDownloadComplete, false, "DownloadPending"),
    Condition(ConditionReady, false, "NoNodesAvailable"))

  /** The status a ModelCache gets when its selector matches no node. */
  function WithoutNodes(st: CacheStatus): CacheStatus {
    st.(phase := Failed, pvcName := "", jobName := "", mode := NodeMode, counts := NO_COUNTS,
        conditions := WithReasons(st.conditions, NO_NODES))
  }

  lemma WithoutNodesConsistent(st: CacheStatus)
    requires OnePerKind(st.conditions)
    ensures Consistent(WithoutNodes(st))
  {
    ReasonsSet(st.conditions, NO_NODES);
  }

  /** The four counters are the numbers of phases of each kind. */
  lemma {:induction false} TallyCounts(phases: seq<Phase>)
    ensures
      var c, m := Tally(phases), multiset(phases);
      && c.total == |phases| == c.ready + c.downloading + c.failed + c.pending
      && c.ready == m[Ready] && c.downloading == m[Downloading] && c.failed == m[Failed]
  {
    if phases != [] {
      var n := |phases| - 1;
      TallyCounts(phases[..n]);
      assert phases == phases[..n] + [phases[n]];
    }
  }

  /** The aggregate does not depend on the order in which the nodes are listed. */
  lemma OrderIndependent(st: CacheStatus, phases: seq<Phase>, phases': seq<Phase>)
    requires multiset(phases) == multiset(phases')
    ensures Aggregated(st, phases) == Aggregated(st, phases')
  {
    TallyCounts(phases);
    TallyCounts(phases');
    assert |phases| == |multiset(phases)| == |phases'|;
  }

  predicate AllReady(phases: seq<Phase>) { phases != [] && forall i :: 0 <= i < |phases| ==> phases[i] == Ready }

  /** Some node has started, none has failed, and not all are Ready. */
  predicate OnTheWay(phases: seq<Phase>) {
    Failed !in phases && (Ready in phases || Downloading in phases) && !AllReady(phases)
  }

  /** There are nodes, and none has started or failed. */
  predicate NotStarted(phases: seq<Phase>) {
    phases != [] && Ready !in phases && Downloading !in phases && Failed !in phases
  }

  /**
   The aggregate is consistent, and its phase and its Ready condition say what the nodes say: each
   phase comes in exactly one case, and the condition gives that case as its reason.
   */
  lemma AggregateMeans(st: CacheStatus, phases: seq<Phase>)
    requires OnePerKind(st.conditions)
    ensures Consistent(Aggregated(st, phases))
    ensures Aggregated(st, phases).phase == Ready <==> AllReady(phases)
    ensures Aggregated(st, phases).phase == Failed <==> phases == [] || Failed in phases
    ensures Aggregated(st, phases).phase == Downloading <==> OnTheWay(phases)
    ensures Aggregated(st, phases).phase == Pending <==> NotStarted(phases)
    ensures
      var ready := Lookup(Aggregated(st, phases).conditions, ConditionReady);
      && ready.Some? && (ready.value.status <==> AllReady(phases))
      && (phases == [] ==> ready.value.reason == "NoNodesAvailable")
      && (Failed in phases ==> ready.value.reason == "ModelCacheNodeFailed")
      && (AllReady(phases) ==> ready.value.reason == "AllModelCacheNodesReady")
      && (OnTheWay(phases) ==> ready.value.reason == "ModelCacheNodesDownloading")
      && (NotStarted(phases) ==> ready.value.reason == "ModelCacheNodesPending")
  {
    PhaseMeans(phases);
    var c := Tally(phases);
    TallyCounts(phases);
    var r := Condition(ConditionReady, PhaseOf(c) == Ready, ReasonOf(c));
    OneStaysOne(st.conditions, r);
    ConditionSet(st.conditions, r, ConditionReady);
  }

  lemma PhaseMeans(phases: seq<Phase>)
    ensures
      var c := Tally(phases);
      && (PhaseOf(c) == Ready <==> AllReady(phases)) && (PhaseOf(c) == Failed <==> phases == [] || Failed in phases)
      && (PhaseOf(c) == Downloading <==> OnTheWay(phases)) && (PhaseOf(c) == Pending <==> NotStarted(phases))
  {
    TallyCounts(phases);
    AllOf(phases, Ready);
    assert multiset(phases)[Failed] > 0 <==> Failed in phases;
    assert multiset(phases)[Ready] > 0 <==> Ready in phases;
    assert multiset(phases)[Downloading] > 0 <==> Downloading in phases;
    if AllReady(phases) { assert phases[0] in phases; }
  }

  lemma {:induction false} AllOf(phases: seq<Phase>, p: Phase)
    ensures multiset(phases)[p] <= |phases|
    ensures multiset(phases)[p] == |phases| <==> forall i :: 0 <= i < |phases| ==> phases[i] == p
  {
    if phases != [] {
      var n := |phases| - 1;
      AllOf(phases[..n], p);
      assert phases == phases[..n] + [phases[n]];
      assert (forall i :: 0 <= i < |phases| ==> phases[i] == p)
        <==> (forall i :: 0 <= i < n ==> phases[..n][i] == p) && phases[n] == p;
    }
  }

  // ----------------------------------------------------- the object in memory

  /** The status of a ModelCache object in memory, which a reconcile assigns field by field. */
  class StatusObject {
    var phase: Phase
    var mode: Mode
    var counts: Counts
    var pvcName: string
    var jobName: string
    var lastUsed: Option<Time>
    var conditions: seq<Condition>

    constructor (st: CacheStatus)
      ensures Value() == st
    {
      phase, mode, counts := st.phase, st.mode, st.counts;
      pvcName, jobName, lastUsed, conditions := st.pvcName, st.jobName, st.lastUsed, st.conditions;
    }

    function Value(): CacheStatus
      reads this
    {
      CacheStatus(phase, mode, counts, pvcName, jobName, lastUsed, conditions)
    }

    method SetCondition(c: Condition)
      modifies this`conditions
      ensures conditions == WithCondition(old(conditions), c)
    {
      conditions := WithCondition(conditions, c);
    }

    /** Stores the mode and the counters and tells whether any of them changed. */
    method SetStatusSummary(mode: Mode, counts: Counts) returns (changed: bool)
      modifies this`mode, this`counts
      ensures this.mode == mode && this.counts == counts
      ensures changed <==> old(Value()) != Value()
    {
      changed := this.mode != mode || this.counts != counts;
      this.mode, this.counts := mode, counts;
    }

    method SetPVCSummary() returns (changed: bool)
      modifies this`mode, this`counts
      ensures mode == PVCMode && counts == CountsForPhase(phase)
      ensures changed <==> old(Value()) != Value()
    {
      changed := SetStatusSummary(PVCMode, CountsForPhase(phase));
    }

    /** A status report in PVC mode. */
    method Report(phase: Phase, pvcName: string, jobName: string, r: Reasons)
      modifies this
      ensures Value() == Reported(old(Value()), phase, pvcName, jobName, r)
    {
      this.phase, this.pvcName, this.jobName := phase, pvcName, jobName;
      var _ := SetPVCSummary();
      SetCondition(r.pvc);
      SetCondition(r.download);
      SetCondition(r.ready);
    }

    method ReportNoNodes()
      modifies this
      ensures Value() == WithoutNodes(old(Value()))
    {
      phase, pvcName, jobName := Failed, "", "";
      var _ := SetStatusSummary(NodeMode, NO_COUNTS);
      SetCondition(NO_NODES.pvc);
      SetCondition(NO_NODES.download);
      SetCondition(NO_NODES.ready);
    }

    /** Counts the phases of the ModelCacheNodes and derives the status of the ModelCache. */
    method UpdateFromNodes(phases: seq<Phase>)
      modifies this
      ensures Value() == Aggregated(old(Value()), phases)
    {
      var readyNodes, downloadingNodes, failedNodes, pendingNodes: nat := 0, 0, 0, 0;
      for i := 0 to |phases|
        invariant Tally(phases[..i]) == Counts(i, readyNodes, downloadingNodes, failedNodes, pendingNodes)
        invariant Value() == old(Value())
      {
        assert phases[..i + 1][..i] == phases[..i];
        match phases[i]
        case Ready => readyNodes := readyNodes + 1;
        case Downloading => downloadingNodes := downloadingNodes + 1;
        case Failed => failedNodes := failedNodes + 1;
        case _ => pendingNodes := pendingNodes + 1;
      }
      assert phases[..|phases|] == phases;
      var total := |phases|;
      pvcName, jobName := "", "";
      var _ := SetStatusSummary(NodeMode, Counts(total, readyNodes, downloadingNodes, failedNodes, pendingNodes));
      if total == 0 {
        phase := Failed;
        SetCondition(Condition(ConditionReady, false, "NoNodesAvailable"));
      } else if failedNodes > 0 {
        phase := Failed;
        SetCondition(Condition(ConditionReady, false, "ModelCacheNodeFailed"));
      } else if readyNodes == total {
        phase := Ready;
        SetCondition(Condition(ConditionReady, true, "AllModelCacheNodesReady"));
      } else if downloadingNodes > 0 || readyNodes > 0 {
        phase := Downloading;
        SetCondition(Condition(ConditionReady, false, "ModelCacheNodesDownloading"));
      } else {
        phase := Pending;
        SetCondition(Condition(ConditionReady, false, "ModelCacheNodesPending"));
      }
    }
  }
}
