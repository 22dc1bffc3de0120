/**
 What every run of the local-mode protocol keeps.

 The invariant is stated on the view of one (cache, node) pair, so that each step is
 checked without quantifiers; `Reachable` lifts it to whole runs.
 */
module LocalSafety {
  import opened Common
  import opened LocalProtocol

  // -------------------------------------------------------------- the invariant

  /** Past its finalizer patch, a reconcile works on an object that cannot vanish under it. */
  predicate Holding(pc: AgentPc) { !pc.Idle? && !pc.AddFinalizer? }

  /** Both finalizers are in place: ModelCacheNode implies ModelCache, directory implies ModelCacheNode. */
  predicate FinalizersHeld(v: View) {
    && (v.node.Some? ==>
          && v.cache.Some? && v.cache.value.finalizer
          && v.node.value.uid == v.cache.value.uid && v.node.value.ttl == v.cache.value.ttl)
    && (v.dir.Some? || Holding(v.pc) ==> v.node.Some? && v.node.value.finalizer)
    && (v.node.Some? && v.node.value.deleting ==> v.node.value.finalizer)
    && (v.cache.Some? && v.cache.value.deleting ==> v.cache.value.finalizer)
  }

  /** The ModelCache that a controller reconcile has in memory, once it is past its own finalizer patch. */
  function ControllerObj(pc: ControllerPc): Option<CacheObj> {
    match pc
    case CIdle => None
    case CAddFinalizer => None
    case CListNodes(o) => Some(o)
    case CEnsure(o, _) => Some(o)
    case CCreate(o, _, _) => Some(o)
    case CList(o) => Some(o)
    case CDelete(o, _) => Some(o)
    case CRemoveFinalizer(o) => Some(o)
  }

  predicate Deleting(pc: ControllerPc) { pc.CList? || pc.CDelete? || pc.CRemoveFinalizer? }

  predicate ControllerConsistent(v: View) {
    var o := ControllerObj(v.controller);
    && (o.Some? ==>
          && v.cache.Some? && v.cache.value.finalizer
          && v.cache.value.uid == o.value.uid && v.cache.value.ttl == o.value.ttl)
    && (Deleting(v.controller) ==> v.cache.Some? && v.cache.value.deleting)
    && (v.controller.CRemoveFinalizer? ==> v.node.None?)
  }

  function WorkOf(pc: AgentPc): Option<Work> {
    match pc
    case CheckMarker(w) => Some(w)
    case Listing(w) => Some(w)
    case Fetch(w, _, _) => Some(w)
    case Copy(w, _, _, _) => Some(w)
    case ManifestOpen(w, _, _) => Some(w)
    case ManifestFill(w, _, _) => Some(w)
    case MarkerOpen(w, _, _) => Some(w)
    case MarkerFill(w) => Some(w)
    case Completed(w) => Some(w)
    case MarkReady(w, _) => Some(w)
    case _ => None
  }

  /** The ModelCacheNode a reconcile has in memory. */
  function MemoryOf(pc: AgentPc): Option<NodeObj> {
    match pc
    case Decide(o) => Some(o)
    case Counted(o) => Some(o)
    case InUse(o, _) => Some(o)
    case Unused(o, _) => Some(o)
    case Stamp(o, _) => Some(o)
    case EvictRemove(o, _, _) => Some(o)
    case EvictMark(o) => Some(o)
    case NeedCache(o) => Some(o)
    case Prepare(o, _) => Some(o)
    case OwnerOpen(o, _) => Some(o)
    case OwnerFill(o, _) => Some(o)
    case PrepareFailed(o) => Some(o)
    case PatchDirectory(o, _) => Some(o)
    case _ => if WorkOf(pc).Some? then Some(WorkOf(pc).value.obj) else None
  }

  function SourceOf(pc: AgentPc): Option<string> {
    match pc
    case Prepare(_, source) => Some(source)
    case OwnerOpen(_, source) => Some(source)
    case OwnerFill(_, source) => Some(source)
    case PatchDirectory(_, source) => Some(source)
    case _ => if WorkOf(pc).Some? then Some(WorkOf(pc).value.source) else None
  }

  /** What a reconcile remembers of its object is still what the store holds. */
  predicate MemoryCurrent(v: View) {
    && (MemoryOf(v.pc).Some? && v.node.Some? ==>
          var m := MemoryOf(v.pc).value;
          m.status == v.node.value.status && m.uid == v.node.value.uid && m.ttl == v.node.value.ttl)
    && (SourceOf(v.pc).Some? && v.cache.Some? ==> SourceOf(v.pc).value == v.cache.value.source)
    && (WorkOf(v.pc).Some? ==>
          var w := WorkOf(v.pc).value;
          w.obj.status == MarkedPrepared(w.original.status))
  }

  predicate InPhase(st: NodeStatus, t: ConditionType) {
    t in st.conditions && st.conditions[t]
  }

  /** The phases a ModelCacheNode can have, and the conditions that go with them. */
  predicate StatusConsistent(st: NodeStatus) {
    && (st.phase == NoPhase || st.phase == Pending || st.phase == Ready || st.phase == Evicted)
    && (InPhase(st, ReadyCondition) <==> st.phase == Ready)
    && (InPhase(st, DownloadComplete) <==> st.phase == Ready)
    && (st.phase == Ready ==> st.lastUsed.Some?)
  }

  /** The phase that led a reconcile to where it stands. */
  predicate PhaseConsistent(pc: AgentPc) {
    match pc
    case Counted(o) => o.status.phase == Ready
    case InUse(o, _) => o.status.phase == Ready
    case Unused(o, _) => o.status.phase == Ready
    case Stamp(o, _) => o.status.phase == Ready
    case EvictRemove(o, _, _) => o.status.phase == Ready
    case EvictMark(o) => o.status.phase == Ready
    case _ =>
      && (!pc.Decide? && MemoryOf(pc).Some? ==> MemoryOf(pc).value.status.phase != Ready)
  }

  /** Clock readings, stored times and recorded uses. */
  predicate TimesConsistent(v: View, clock: Time) {
    && v.history.last <= clock
    && (forall u :: u in v.history.uses ==> u <= v.history.last)
    && (v.node.Some? && v.node.value.status.lastUsed.Some? ==>
          v.history.last in v.history.uses && v.node.value.status.lastUsed.value == Stored(v.history.last))
    && (v.pc.InUse? || v.pc.Stamp? || v.pc.MarkReady? || v.pc.EvictRemove? ==>
          v.history.last <= v.pc.now <= clock)
    && (v.pc.EvictRemove? ==>
          && v.pc.obj.ttl.Ttl? && v.pc.obj.status.lastUsed.Some?
          && v.pc.now >= v.pc.obj.status.lastUsed.value + v.pc.obj.ttl.duration)
  }

  /** Every file a finished copy wrote holds what its reader delivered; the last write wins. */
  ghost predicate Holds(dir: Dir, log: Log) {
    forall e :: LastWrite(log, e).Some? ==> e in dir && dir[e] == Data(LastWrite(log, e).value)
  }

  /** The log accounts for the first |log| files of the listing, in order. */
  predicate Accounts(log: Log, files: seq<Entry>) {
    |log| <= |files| && forall i :: 0 <= i < |log| ==> log[i].entry == files[i]
  }

  /** The directory holds everything a finished download was asked for. */
  ghost predicate Delivers(dir: Dir, files: seq<Entry>, log: Log) {
    Listable(files) && Accounts(log, files) && |log| == |files| && Holds(dir, log)
  }

  ghost predicate MarkerMeans(v: View) {
    Complete(v.dir) ==>
      && Delivers(v.dir.value, v.history.files, v.history.log)
      && ManifestFile in v.dir.value
      && v.cache.Some? && v.node.Some?
      && v.dir.value[ManifestFile] == Manifest(v.node.value.uid, v.cache.value.source)
  }

  /** Where a download stands, and that no marker is there before its end. */
  ghost predicate DownloadConsistent(v: View) {
    match v.pc
    case Listing(_) => !Complete(v.dir)
    case Fetch(_, files, log) =>
      v.dir.Some? && !Complete(v.dir) && Listable(files) && Accounts(log, files) && Holds(v.dir.value, log)
    case Copy(_, files, log, got) =>
      && v.dir.Some? && !Complete(v.dir) && Listable(files) && Accounts(log, files) && |log| < |files|
      && files[|log|] in v.dir.value && v.dir.value[files[|log|]] == Data(got)
      && (forall e :: e != files[|log|] && LastWrite(log, e).Some? ==>
            e in v.dir.value && v.dir.value[e] == Data(LastWrite(log, e).value))
    case ManifestOpen(_, files, log) => v.dir.Some? && !Complete(v.dir) && Delivers(v.dir.value, files, log)
    case ManifestFill(_, files, log) => v.dir.Some? && !Complete(v.dir) && Delivers(v.dir.value, files, log)
    case MarkerOpen(w, files, log) =>
      && v.dir.Some? && !Complete(v.dir) && Delivers(v.dir.value, files, log)
      && ManifestFile in v.dir.value && v.dir.value[ManifestFile] == Manifest(w.obj.uid, w.source)
    case MarkerFill(_) => Complete(v.dir)
    case Completed(_) => Complete(v.dir)
    case MarkReady(_, _) => Complete(v.dir)
    case DeletePatch => v.dir.None?
    case EvictMark(_) => v.dir.None?
    case OwnerOpen(_, _) => v.dir.Some?
    case OwnerFill(_, _) => v.dir.Some?
    case _ => true
  }

  /** A live Ready object has its marker exactly when no eviction lost its status patch. */
  predicate ReadyMeans(v: View) {
    && (v.node.Some? && v.node.value.status.phase == Ready && !v.node.value.deleting && !v.pc.EvictMark? ==>
          (Complete(v.dir) <==> !v.history.lostPatch))
    && (v.pc.DeleteRemove? || v.pc.DeletePatch? ==> v.node.Some? && v.node.value.deleting)
  }

  /** The part of the invariant that does not look into directories. */
  ghost predicate ControlInv(v: View, clock: Time) {
    && FinalizersHeld(v)
    && ControllerConsistent(v)
    && MemoryCurrent(v)
    && (v.node.Some? ==> StatusConsistent(v.node.value.status))
    && PhaseConsistent(v.pc)
    && TimesConsistent(v, clock)
  }

  ghost predicate DiskInv(v: View) {
    DownloadConsistent(v) && MarkerMeans(v) && ReadyMeans(v)
  }

  ghost predicate KeyInv(v: View, clock: Time) { ControlInv(v, clock) && DiskInv(v) }

  // ------------------------------------------------- one agent step, view by view

  lemma {:induction false} LastWriteIsListed(log: Log, files: seq<Entry>, e: Entry)
    requires Accounts(log, files) && Listable(files) && LastWrite(log, e).Some?
    ensures e.ModelFile?
  {
    if log[|log| - 1].entry != e {
      LastWriteIsListed(log[..|log| - 1], files, e);
    }
  }

  /** Praesto's own files are no model files, so writing them leaves a download's files alone. */
  lemma DeliveryKept(dir: Dir, files: seq<Entry>, log: Log, own: Entry, content: Content)
    requires Listable(files) && Accounts(log, files) && Holds(dir, log) && !own.ModelFile?
    ensures Holds(dir[own := content], log)
  {
    forall e | LastWrite(log, e).Some?
      ensures e in dir[own := content] && dir[own := content][e] == Data(LastWrite(log, e).value)
    {
      LastWriteIsListed(log, files, e);
    }
  }

  lemma StartKeeps(v: View, w: View, clock: Time)
    requires KeyInv(v, clock) && (StartStep(v, w) || FinalizerStep(v, w))
    ensures KeyInv(w, clock)
  {
  }

  lemma DecideKeeps(v: View, w: View, used: bool, clock: Time, tick: nat)
    requires KeyInv(v, clock) && DecideStep(v, w, used, tick)
    ensures KeyInv(w, clock)
  {
  }

  lemma UsageKeeps(v: View, w: View, clock: Time)
    requires KeyInv(v, clock) && UsageStep(v, w, clock)
    ensures KeyInv(w, clock)
  {
  }

  predicate Timed(pc: AgentPc) { pc.InUse? || pc.Stamp? || pc.MarkReady? || pc.EvictRemove? }

  /** A file step that keeps the reconcile's memory keeps the control part. */
  lemma ControlUnmoved(v: View, w: View, clock: Time)
    requires ControlInv(v, clock) && Holding(v.pc)
    requires w == v.(pc := w.pc, dir := w.dir, history := v.history.(files := w.history.files, log := w.history.log))
    requires MemoryOf(w.pc) == MemoryOf(v.pc) && WorkOf(w.pc) == WorkOf(v.pc)
    requires SourceOf(w.pc).None? || SourceOf(w.pc) == SourceOf(v.pc)
    requires PhaseConsistent(w.pc) && !Timed(w.pc)
    ensures ControlInv(w, clock)
  {
  }

  lemma PrepareKeeps(v: View, w: View, clock: Time)
    requires KeyInv(v, clock) && PrepareStep(v, w)
    ensures KeyInv(w, clock)
  {
    PrepareKeepsControl(v, w, clock);
    PrepareKeepsDisk(v, w, clock);
  }

  lemma PrepareKeepsControl(v: View, w: View, clock: Time)
    requires ControlInv(v, clock) && PrepareStep(v, w)
    ensures ControlInv(w, clock)
  {
    if v.pc.Prepare? || v.pc.OwnerOpen? || v.pc.OwnerFill? {
      ControlUnmoved(v, w, clock);
    }
  }

  lemma PrepareKeepsDisk(v: View, w: View, clock: Time)
    requires KeyInv(v, clock) && PrepareStep(v, w)
    ensures DiskInv(w)
  {
    if v.pc.OwnerOpen? && w.pc.OwnerFill? && Complete(v.dir) {
      DeliveryKept(v.dir.value, v.history.files, v.history.log, OwnerFile, Partial);
    }
    if v.pc.OwnerFill? && w.pc.PatchDirectory? && Complete(v.dir) {
      DeliveryKept(v.dir.value, v.history.files, v.history.log, OwnerFile, Owner(v.pc.obj.uid));
    }
  }

  lemma FetchKeeps(v: View, w: View, clock: Time)
    requires KeyInv(v, clock) && FetchStep(v, w)
    ensures KeyInv(w, clock)
  {
    FetchKeepsControl(v, w, clock);
    match v.pc
    case Listing(_) =>
    case Fetch(_, _, _) => FileStartedKeeps(v, w);
    case Copy(_, _, _, _) => FileCopiedKeeps(v, w);
  }

  lemma FetchKeepsControl(v: View, w: View, clock: Time)
    requires ControlInv(v, clock) && FetchStep(v, w)
    ensures ControlInv(w, clock)
  {
    assert WorkOf(v.pc).Some? && WorkOf(w.pc) == WorkOf(v.pc);
    ControlUnmoved(v, w, clock);
  }

  lemma FileStartedKeeps(v: View, w: View)
    requires DiskInv(v) && v.pc.Fetch? && FetchStep(v, w)
    ensures DiskInv(w)
  {
  }

  lemma FileCopiedKeeps(v: View, w: View)
    requires DiskInv(v) && v.pc.Copy? && FetchStep(v, w)
    ensures DiskInv(w)
  {
    if w.pc.Fetch? {
      assert w.pc.log[..|w.pc.log| - 1] == v.pc.log;
    }
  }

  lemma CompleteKeeps(v: View, w: View, clock: Time)
    requires KeyInv(v, clock) && CompleteStep(v, w, clock)
    ensures KeyInv(w, clock)
  {
    if v.pc.MarkReady? {
      ReadyMarkKeepsControl(v, w, clock);
    } else {
      FileStepKeepsControl(v, w, clock);
    }
    CompleteKeepsDisk(v, w, clock);
  }

  /** The Ready patch is computed against the object as first read, and still lands as a whole. */
  lemma ReadyPatchLands(original: NodeStatus, obj: NodeStatus, now: Time)
    requires obj == MarkedPrepared(original) && StatusConsistent(obj) && obj.phase != Ready
    ensures MergePatch(obj, original, MarkedReady(obj, now)) == MarkedReady(obj, now)
  {
    assert !InPhase(obj, ReadyCondition) && InPhase(MarkedReady(obj, now), ReadyCondition);
    assert !InPhase(original, ReadyCondition);
  }

  lemma ReadyMarkKeepsControl(v: View, w: View, clock: Time)
    requires ControlInv(v, clock) && v.pc.MarkReady? && CompleteStep(v, w, clock)
    ensures ControlInv(w, clock)
  {
    var st := MarkedReady(v.pc.work.obj.status, v.pc.now);
    ReadyPatchLands(v.pc.work.original.status, v.pc.work.obj.status, v.pc.now);
    assert w.node == Some(v.node.value.(status := st));
    assert StatusConsistent(st);
  }

  lemma FileStepKeepsControl(v: View, w: View, clock: Time)
    requires ControlInv(v, clock) && !v.pc.MarkReady? && CompleteStep(v, w, clock)
    ensures ControlInv(w, clock)
  {
    assert WorkOf(v.pc).Some? && WorkOf(w.pc) == WorkOf(v.pc);
    if w.pc.MarkReady? {
      assert w.pc.now == clock;
      assert TimesConsistent(w, clock);
    } else {
      ControlUnmoved(v, w, clock);
    }
  }

  lemma CompleteKeepsDisk(v: View, w: View, clock: Time)
    requires KeyInv(v, clock) && CompleteStep(v, w, clock)
    ensures DiskInv(w)
  {
    match v.pc
    case ManifestOpen(_, files, log) => DeliveryKept(v.dir.value, files, log, ManifestFile, Partial);
    case ManifestFill(work, files, log) =>
      DeliveryKept(v.dir.value, files, log, ManifestFile, Manifest(work.obj.uid, work.source));
    case MarkerOpen(_, files, log) => DeliveryKept(v.dir.value, files, log, MarkerFile, Partial);
    case MarkerFill(_) => DeliveryKept(v.dir.value, v.history.files, v.history.log, MarkerFile, Marker);
    case _ =>
  }

  lemma DeleteKeeps(v: View, w: View, clock: Time)
    requires KeyInv(v, clock) && DeleteStep(v, w)
    ensures KeyInv(w, clock)
  {
  }

  lemma EndKeeps(v: View, clock: Time)
    requires KeyInv(v, clock)
    ensures KeyInv(Ended(v), clock)
  {
  }

  lemma AgentKeeps(v: View, w: View, used: bool, clock: Time, tick: nat)
    requires KeyInv(v, clock) && AgentStep(v, w, used, clock, tick)
    ensures KeyInv(w, clock)
  {
    if StartStep(v, w) || FinalizerStep(v, w) { StartKeeps(v, w, clock); }
    else if DecideStep(v, w, used, tick) { DecideKeeps(v, w, used, clock, tick); }
    else if UsageStep(v, w, clock) { UsageKeeps(v, w, clock); }
    else if PrepareStep(v, w) { PrepareKeeps(v, w, clock); }
    else if FetchStep(v, w) { FetchKeeps(v, w, clock); }
    else if CompleteStep(v, w, clock) { CompleteKeeps(v, w, clock); }
    else { DeleteKeeps(v, w, clock); }
  }

  // ------------------------------------------------------- whole states and runs

  ghost predicate Inv(s: State) {
    && (forall k :: KeyInv(ViewOf(s, k), s.clock))
    && PodsInv(s)
    && MarkedInv(s)
  }

  /** A controller only marks ModelCacheNodes of its own cache for deletion. */
  ghost predicate MarkedInv(s: State) {
    forall c, k :: ControllerAt(s, c).CDelete? && k in ControllerAt(s, c).marked ==> k.cache == c
  }

  /** Pods are bound at moments already past, and one that uses a cache counted as unused came later. */
  ghost predicate PodsInv(s: State) {
    && (forall id :: id in s.pods && s.pods[id].bound.Some? ==> s.pods[id].bound.value.at < s.tick)
    && (forall k :: CountedAt(AgentAt(s, k)).Some? ==>
          && CountedAt(AgentAt(s, k)).value < s.tick
          && forall id :: id in s.pods && PodUses(s.pods[id], k) ==>
               s.pods[id].bound.value.at >= CountedAt(AgentAt(s, k)).value)
  }

  /** When a reconcile found no Pod using its cache. */
  function CountedAt(pc: AgentPc): Option<nat> {
    match pc
    case Unused(_, at) => Some(at)
    case EvictRemove(_, at, _) => Some(at)
    case _ => None
  }

  lemma PutViewElsewhere(s: State, k: NodeKey, v: View, j: NodeKey)
    requires j != k
    ensures ViewOf(PutView(s, k, v), j) == ViewOf(s, j)
  {
  }

  lemma PutViewHere(s: State, k: NodeKey, v: View)
    requires v.cache == ViewOf(s, k).cache && v.controller == ViewOf(s, k).controller
    ensures ViewOf(PutView(s, k, v), k) == v
  {
  }

  lemma CountMoves(v: View, w: View, used: bool, now: Time, tick: nat)
    requires AgentStep(v, w, used, now, tick) && CountedAt(w.pc).Some?
    ensures CountedAt(w.pc) == CountedAt(v.pc) || (!used && CountedAt(w.pc) == Some(tick))
  {
  }

  lemma AgentStepKeepsPods(s: State, s': State, k: NodeKey)
    requires PodsInv(s) && AgentMoves(s, k, s')
    ensures PodsInv(s')
  {
    var pc' := AgentAt(s', k);
    if CountedAt(pc').Some? {
      CountMoves(ViewOf(s, k), ViewOf(s', k), Used(s, k), s.clock, s.tick);
    }
    forall j | CountedAt(AgentAt(s', j)).Some?
      ensures CountedAt(AgentAt(s', j)).value < s'.tick
      ensures forall id :: id in s'.pods && PodUses(s'.pods[id], j) ==>
        s'.pods[id].bound.value.at >= CountedAt(AgentAt(s', j)).value
    {
      assert j != k ==> AgentAt(s', j) == AgentAt(s, j);
    }
  }

  /** Steps that move no agent and bind no Pod earlier than now keep the Pod invariant. */
  lemma PodsKept(s: State, s': State)
    requires PodsInv(s) && s'.tick == s.tick + 1
    requires forall k :: AgentAt(s', k) == AgentAt(s, k) || AgentAt(s', k) == Idle
    requires forall id :: id in s'.pods && s'.pods[id].bound.Some? ==>
      (id in s.pods && s'.pods[id] == s.pods[id]) || s'.pods[id].bound.value.at == s.tick
    ensures PodsInv(s')
  {
    forall j | CountedAt(AgentAt(s', j)).Some?
      ensures CountedAt(AgentAt(s', j)).value < s'.tick
      ensures forall id :: id in s'.pods && PodUses(s'.pods[id], j) ==>
        s'.pods[id].bound.value.at >= CountedAt(AgentAt(s', j)).value
    {
      assert AgentAt(s', j) == AgentAt(s, j);
    }
  }

  /** What a controller step of `c` may touch. */
  ghost predicate DeskFrame(d: Desk, d': Desk, c: CacheKey) {
    && (forall e :: e != c ==> (e in d'.caches <==> e in d.caches) && (e in d.caches ==> d'.caches[e] == d.caches[e]))
    && (forall k: NodeKey :: k.cache != c ==>
        (k in d'.nodes <==> k in d.nodes) && (k in d.nodes ==> d'.nodes[k] == d.nodes[k]))
    && (d'.pc.CDelete? ==> forall k :: k in d'.pc.marked ==> k.cache == c)
  }

  lemma DeskStaysInFrame(d: Desk, d': Desk, c: CacheKey)
    requires d.pc.CDelete? ==> forall k :: k in d.pc.marked ==> k.cache == c
    requires DeskStep(d, d', c)
    ensures DeskFrame(d, d', c)
  {
    if d.pc.CDelete? {
      assert d.pc.marked[0] in d.pc.marked;
    }
    if d.pc.CList? && d'.pc.CDelete? {
      forall k | k in d'.pc.marked ensures k.cache == c {
        assert k in Members(d'.pc.marked);
      }
    }
  }

  /** A controller step, seen from one ModelCacheNode key of its cache. */
  predicate ControllerMove(v: View, w: View) {
    match v.controller
    case CIdle =>
      && v.cache.Some? && w == v.(controller := w.controller)
      && var o := v.cache.value;
         if o.deleting then o.finalizer && w.controller == CList(o)
         else if !o.finalizer then w.controller == CAddFinalizer
         else w.controller == CListNodes(o)
    case CAddFinalizer =>
      && v.cache.Some?
      && var o := v.cache.value.(finalizer := true);
         w == v.(cache := Some(o), controller := CListNodes(o))
    case CListNodes(o) => w.controller.CEnsure? && w == v.(controller := CEnsure(o, w.controller.todo))
    case CEnsure(o, _) =>
      && w == v.(controller := w.controller, node := w.node)
      && (w.controller.CEnsure? || w.controller.CCreate?) && w.controller.obj == o
      && (w.node == v.node || (v.node.Some? && v.node.value.uid != o.uid))
    case CCreate(o, _, _) =>
      && w == v.(controller := w.controller, node := w.node) && w.controller.CEnsure? && w.controller.obj == o
      && (w.node == v.node || (v.node.None? && w.node == Some(NodeObj(o.uid, o.ttl, false, false, FRESH_STATUS))))
    case CList(o) =>
      && w == v.(controller := w.controller)
      && ((w.controller == CRemoveFinalizer(o) && (v.node.Some? ==> v.node.value.uid != o.uid))
          || (w.controller.CDelete? && w.controller.obj == o))
    case CDelete(o, _) =>
      && w == v.(controller := w.controller, node := w.node) && w.controller.CDelete? && w.controller.obj == o
      && (w.node == v.node || NodeDelete(v.node, w.node))
    case CRemoveFinalizer(_) => w == v.(cache := None, controller := CIdle)
  }

  predicate NodeDelete(n: Option<NodeObj>, n': Option<NodeObj>) {
    n.Some? && n' == if n.value.finalizer then Some(n.value.(deleting := true)) else None
  }

  function DeskView(v: View, d: Desk, k: NodeKey): View {
    v.(controller := d.pc,
       cache := if k.cache in d.caches then Some(d.caches[k.cache]) else None,
       node := if k in d.nodes then Some(d.nodes[k]) else None)
  }

  lemma DeskMoves(v: View, d: Desk, d': Desk, k: NodeKey)
    requires DeskStep(d, d', k.cache)
    ensures ControllerMove(DeskView(v, d, k), DeskView(v, d', k))
  {
    if d.pc.CList? {
      assert k in d.nodes && d.nodes[k].uid == d.pc.obj.uid ==> k in Listed(d.nodes, k.cache, d.pc.obj);
    }
  }

  lemma NodeDeleteKeeps(v: View, w: View, clock: Time)
    requires KeyInv(v, clock) && NodeDelete(v.node, w.node) && w == v.(node := w.node)
    ensures KeyInv(w, clock)
  {
  }

  lemma ControllerOnlyKeeps(v: View, pc: ControllerPc, clock: Time)
    requires KeyInv(v, clock) && ControllerConsistent(v.(controller := pc))
    ensures KeyInv(v.(controller := pc), clock)
  {
  }

  lemma CacheFinalizerKeeps(v: View, clock: Time)
    requires KeyInv(v, clock) && v.cache.Some?
    ensures KeyInv(v.(cache := Some(v.cache.value.(finalizer := true))), clock)
  {
  }

  lemma NodeCreateKeeps(v: View, o: CacheObj, clock: Time)
    requires KeyInv(v, clock) && v.node.None? && ControllerObj(v.controller) == Some(o)
    requires !v.controller.CRemoveFinalizer?
    ensures KeyInv(v.(node := Some(NodeObj(o.uid, o.ttl, false, false, FRESH_STATUS))), clock)
  {
  }

  lemma CacheGoneKeeps(v: View, clock: Time)
    requires KeyInv(v, clock) && v.controller.CRemoveFinalizer?
    ensures KeyInv(v.(cache := None, controller := CIdle), clock)
  {
  }

  lemma ControllerMoveKeeps(v: View, w: View, clock: Time)
    requires KeyInv(v, clock) && ControllerMove(v, w)
    ensures KeyInv(w, clock)
  {
    match v.controller
    case CAddFinalizer =>
      CacheFinalizerKeeps(v, clock);
      ControllerOnlyKeeps(v.(cache := w.cache), w.controller, clock);
    case CCreate(o, _, _) =>
      if w.node != v.node { NodeCreateKeeps(v, o, clock); }
      ControllerOnlyKeeps(v.(node := w.node), w.controller, clock);
    case CDelete(_, _) =>
      if w.node != v.node { NodeDeleteKeeps(v, v.(node := w.node), clock); }
      ControllerOnlyKeeps(v.(node := w.node), w.controller, clock);
    case CRemoveFinalizer(_) => CacheGoneKeeps(v, clock);
    case _ =>
      ControllerOnlyKeeps(v, w.controller, clock);
  }

  lemma ViewAfterDesk(s: State, c: CacheKey, d: Desk, k: NodeKey)
    requires DeskFrame(DeskOf(s, c), d, c)
    ensures ViewOf(PutDesk(s, c, d), k) == if k.cache == c then DeskView(ViewOf(s, k), d, k) else ViewOf(s, k)
  {
  }

  lemma ControllerKeeps(s: State, c: CacheKey, d: Desk, k: NodeKey)
    requires MarkedInv(s) && KeyInv(ViewOf(s, k), s.clock) && DeskStep(DeskOf(s, c), d, c)
    ensures KeyInv(ViewOf(PutDesk(s, c, d), k), s.clock)
  {
    var v := ViewOf(s, k);
    DeskStaysInFrame(DeskOf(s, c), d, c);
    ViewAfterDesk(s, c, d, k);
    if k.cache == c {
      assert v == DeskView(v, DeskOf(s, c), k);
      DeskMoves(v, DeskOf(s, c), d, k);
      ControllerMoveKeeps(v, DeskView(v, d, k), s.clock);
    }
  }

  lemma MarkedKept(s: State, s': State, c: CacheKey)
    requires MarkedInv(s) && ControllerStep(s, s', c)
    ensures MarkedInv(s')
  {
    DeskStaysInFrame(DeskOf(s, c), DeskOf(s', c), c);
    forall d, k | ControllerAt(s', d).CDelete? && k in ControllerAt(s', d).marked
      ensures k.cache == d
    {
      assert d != c ==> ControllerAt(s', d) == ControllerAt(s, d);
    }
  }

  /** What users, the scheduler and the clock do to one ModelCacheNode key. */
  predicate OutsideMove(v: View, w: View) {
    || w == v
    || (v.cache.None? && w.cache.Some? && !w.cache.value.finalizer && !w.cache.value.deleting
        && w == v.(cache := w.cache))
    || (v.cache.Some? && w == v.(cache := w.cache)
        && w.cache == if v.cache.value.finalizer then Some(v.cache.value.(deleting := true)) else None)
    || (NodeDelete(v.node, w.node) && w == v.(node := w.node))
  }

  lemma OutsideMoves(s: State, e: Event, s': State, k: NodeKey)
    requires OutsideStep(s, e, s')
    ensures OutsideMove(ViewOf(s, k), ViewOf(s', k)) && s.clock <= s'.clock
  {
    if e.CreateCache? || e.DeleteCache? {
      CachesMove(s, e, s', k);
    } else if e.DeleteNode? {
      NodesMove(s, e.k, s', k);
    } else {
      assert ViewOf(s', k) == ViewOf(s, k);
    }
  }

  lemma CachesMove(s: State, e: Event, s': State, k: NodeKey)
    requires OutsideStep(s, e, s') && (e.CreateCache? || e.DeleteCache?)
    ensures OutsideMove(ViewOf(s, k), ViewOf(s', k))
  {
    assert ViewOf(s', k) == ViewOf(s, k).(cache := ViewOf(s', k).cache);
  }

  lemma NodesMove(s: State, j: NodeKey, s': State, k: NodeKey)
    requires OutsideStep(s, DeleteNode(j), s')
    ensures OutsideMove(ViewOf(s, k), ViewOf(s', k))
  {
    assert ViewOf(s', k) == ViewOf(s, k).(node := ViewOf(s', k).node);
  }

  lemma OutsideMoveKeeps(v: View, w: View, clock: Time, clock': Time)
    requires KeyInv(v, clock) && OutsideMove(v, w) && clock <= clock'
    ensures KeyInv(w, clock')
  {
    assert KeyInv(v, clock');
    if NodeDelete(v.node, w.node) && w == v.(node := w.node) {
      NodeDeleteKeeps(v, w, clock');
    }
  }

  lemma AgentKeepsKeys(s: State, s': State, k: NodeKey, j: NodeKey)
    requires KeyInv(ViewOf(s, j), s.clock) && AgentMoves(s, k, s')
    ensures KeyInv(ViewOf(s', j), s'.clock)
  {
    if j == k {
      AgentKeeps(ViewOf(s, k), ViewOf(s', k), Used(s, k), s.clock, s.tick);
    } else {
      PutViewElsewhere(s, k, ViewOf(s', k), j);
    }
  }

  lemma AgentEndKeepsKeys(s: State, k: NodeKey, j: NodeKey)
    requires KeyInv(ViewOf(s, j), s.clock)
    ensures KeyInv(ViewOf(PutView(s, k, Ended(ViewOf(s, k))), j), s.clock)
  {
    if j == k {
      EndKeeps(ViewOf(s, k), s.clock);
      PutViewHere(s, k, Ended(ViewOf(s, k)));
    } else {
      PutViewElsewhere(s, k, Ended(ViewOf(s, k)), j);
    }
  }

  lemma ControllerEndKeeps(v: View, clock: Time)
    requires KeyInv(v, clock)
    ensures KeyInv(v.(controller := CIdle), clock)
  {
  }

  lemma ControllerEndKeepsKeys(s: State, c: CacheKey, j: NodeKey)
    requires KeyInv(ViewOf(s, j), s.clock)
    ensures KeyInv(ViewOf(PutController(s, c, CIdle, s.caches, s.nodes), j), s.clock)
  {
    var v, s' := ViewOf(s, j), PutController(s, c, CIdle, s.caches, s.nodes);
    assert ViewOf(s', j) == if j.cache == c then v.(controller := CIdle) else v;
    ControllerEndKeeps(v, s.clock);
  }

  lemma MarkedUnmoved(s: State, s': State)
    requires MarkedInv(s)
    requires forall c :: ControllerAt(s', c) == ControllerAt(s, c) || ControllerAt(s', c) == CIdle
    ensures MarkedInv(s')
  {
  }

  lemma AgentEventKeeps(s: State, k: NodeKey, s': State)
    requires Inv(s) && (AgentMoves(s, k, s') || s' == PutView(s, k, Ended(ViewOf(s, k))))
    ensures Inv(s')
  {
    MarkedUnmoved(s, s');
    if AgentMoves(s, k, s') {
      AgentStepKeepsPods(s, s', k);
      forall j ensures KeyInv(ViewOf(s', j), s'.clock) { AgentKeepsKeys(s, s', k, j); }
    } else {
      PodsKept(s, s');
      forall j ensures KeyInv(ViewOf(s', j), s'.clock) { AgentEndKeepsKeys(s, k, j); }
    }
  }

  lemma ControllerEventKeeps(s: State, c: CacheKey, s': State)
    requires Inv(s) && (ControllerStep(s, s', c) || s' == PutController(s, c, CIdle, s.caches, s.nodes))
    ensures Inv(s')
  {
    PodsKept(s, s');
    if ControllerStep(s, s', c) {
      MarkedKept(s, s', c);
      forall j ensures KeyInv(ViewOf(s', j), s'.clock) { ControllerKeeps(s, c, DeskOf(s', c), j); }
    } else {
      MarkedUnmoved(s, s');
      forall j ensures KeyInv(ViewOf(s', j), s'.clock) { ControllerEndKeepsKeys(s, c, j); }
    }
  }

  lemma OutsideEventKeeps(s: State, e: Event, s': State)
    requires Inv(s) && OutsideStep(s, e, s')
    ensures Inv(s')
  {
    PodsKept(s, s');
    MarkedUnmoved(s, s');
    forall j ensures KeyInv(ViewOf(s', j), s'.clock) {
      OutsideMoves(s, e, s', j);
      OutsideMoveKeeps(ViewOf(s, j), ViewOf(s', j), s.clock, s'.clock);
    }
  }

  lemma StepKeeps(s: State, e: Event, s': State)
    requires Inv(s) && Next(s, e, s')
    ensures Inv(s')
  {
    match e
    case AgentSteps(k) => AgentEventKeeps(s, k, s');
    case AgentEnds(k) => AgentEventKeeps(s, k, s');
    case ControllerSteps(c) => ControllerEventKeeps(s, c, s');
    case ControllerEnds(c) => ControllerEventKeeps(s, c, s');
    case _ => OutsideEventKeeps(s, e, s');
  }

  lemma InitialInv(s: State)
    requires Initial(s)
    ensures Inv(s)
  {
  }

  // ------------------------------------------------ ModelCacheNodes only go

  /** No ModelCacheNode of `c` appears, and none loses its deletion timestamp. */
  predicate OnlyGo(nodes: map<NodeKey, NodeObj>, nodes': map<NodeKey, NodeObj>, c: CacheKey) {
    forall k :: k in nodes' && k.cache == c ==> k in nodes && (nodes[k].deleting ==> nodes'[k].deleting)
  }

  lemma AgentOnlyDeletes(v: View, w: View, used: bool, now: Time, tick: nat)
    requires AgentStep(v, w, used, now, tick)
    ensures w.node.Some? ==> v.node.Some? && w.node.value.deleting == v.node.value.deleting
  {
  }

  lemma AgentEventOnlyGoes(s: State, k: NodeKey, s': State, c: CacheKey)
    requires AgentMoves(s, k, s') || s' == PutView(s, k, Ended(ViewOf(s, k)))
    ensures OnlyGo(s.nodes, s'.nodes, c)
  {
    if AgentMoves(s, k, s') {
      AgentOnlyDeletes(ViewOf(s, k), ViewOf(s', k), Used(s, k), s.clock, s.tick);
    }
    forall j | j in s'.nodes && j.cache == c
      ensures j in s.nodes && (s.nodes[j].deleting ==> s'.nodes[j].deleting)
    {
      if j == k { assert ViewOf(s', k).node.Some?; }
    }
  }

  /** The invariant holds in every state of every run. */
  lemma {:induction false} Reachable(states: seq<State>, events: seq<Event>, i: nat)
    requires IsRun(states, events) && i < |states|
    ensures Inv(states[i])
  {
    if i == 0 {
      InitialInv(states[0]);
    } else {
      Reachable(states, events, i - 1);
      StepKeeps(states[i - 1], events[i - 1], states[i]);
    }
  }
}
