/**
 The local-mode cache lifecycle as a labelled transition system.

 Three kinds of process share an API store and one disk per node: the ModelCache
 controller, one agent per node, and the users (who create and delete caches, delete
 ModelCacheNodes and run Pods). Every API write and every disk write is a step of
 its own. A reconcile may stop between any two of them (event `AgentEnds` and
 `ControllerEnds`: a crash, a failed call or an early return).

 A ModelCacheNode is named by its (cache, node) pair: the model assumes that
 modelCacheNodeName is collision free on the live caches.
 */
module LocalProtocol {
  import opened Common

  // ---------------------------------------------------------------- entities

  type NodeId = string
  datatype NodeKey = NodeKey(cache: CacheKey, node: NodeId)

  newtype Byte = x: int | 0 <= x < 256
  type Bytes = seq<Byte>

  datatype ConditionType = DirectoryReady | DownloadComplete | ReadyCondition

  datatype CacheObj = CacheObj(uid: string, source: string, ttl: Ttl, finalizer: bool, deleting: bool)

  datatype NodeStatus = NodeStatus(phase: Phase, lastUsed: Option<Time>, conditions: map<ConditionType, bool>)

  datatype NodeObj = NodeObj(uid: string, ttl: Ttl, finalizer: bool, deleting: bool, status: NodeStatus)

  const FRESH_STATUS := NodeStatus(NoPhase, None, map[])

  /** A file of a cache directory: one of Praesto's own, or a model file by its clean relative path. */
  datatype Entry = OwnerFile | ManifestFile | MarkerFile | ModelFile(path: string)

  datatype Content =
    | Partial
    | Owner(uid: string)
    | Manifest(uid: string, source: string)
    | Marker
    | Data(bytes: Bytes)

  type Dir = map<Entry, Content>

  /** One finished file of a download: where it went and the bytes its reader delivered. */
  datatype Delivered = Delivered(entry: Entry, bytes: Bytes)
  type Log = seq<Delivered>

  /** What the download wrote last to `e`. */
  function LastWrite(log: Log, e: Entry): Option<Bytes> {
    if log == [] then None
    else if log[|log| - 1].entry == e then Some(log[|log| - 1].bytes)
    else LastWrite(log[..|log| - 1], e)
  }

  datatype Binding = Binding(node: NodeId, at: nat)

  /** A labelled Pod: the caches its Praesto CSI volumes name, and when it was bound. */
  datatype Pod = Pod(caches: set<CacheKey>, bound: Option<Binding>)

  predicate PodUses(p: Pod, k: NodeKey) {
    p.bound.Some? && p.bound.value.node == k.node && k.cache in p.caches
  }

  // ------------------------------------------------------- control locations

  /** What one reconcile of the agent keeps in memory once the directory is prepared. */
  datatype Work = Work(obj: NodeObj, original: NodeObj, source: string)

  /** Where an agent's reconcile of one ModelCacheNode stands. */
  datatype AgentPc =
    | Idle
    | AddFinalizer
    | Decide(obj: NodeObj)
    | Counted(obj: NodeObj)
    | InUse(obj: NodeObj, now: Time)
    | Unused(obj: NodeObj, countedAt: nat)
    | Stamp(obj: NodeObj, now: Time)
    | EvictRemove(obj: NodeObj, countedAt: nat, now: Time)
    | EvictMark(obj: NodeObj)
    | NeedCache(obj: NodeObj)
    | Prepare(obj: NodeObj, source: string)
    | OwnerOpen(obj: NodeObj, source: string)
    | OwnerFill(obj: NodeObj, source: string)
    | PrepareFailed(obj: NodeObj)
    | PatchDirectory(obj: NodeObj, source: string)
    | CheckMarker(work: Work)
    | Listing(work: Work)
    | Fetch(work: Work, files: seq<Entry>, log: Log)
    | Copy(work: Work, files: seq<Entry>, log: Log, got: Bytes)
    | ManifestOpen(work: Work, files: seq<Entry>, log: Log)
    | ManifestFill(work: Work, files: seq<Entry>, log: Log)
    | MarkerOpen(work: Work, files: seq<Entry>, log: Log)
    | MarkerFill(work: Work)
    | Completed(work: Work)
    | MarkReady(work: Work, now: Time)
    | DeleteRemove
    | DeletePatch

  /** Where the controller's reconcile of one ModelCache stands. */
  datatype ControllerPc =
    | CIdle
    | CAddFinalizer
    | CListNodes(obj: CacheObj)
    | CEnsure(obj: CacheObj, todo: seq<NodeId>)
    | CCreate(obj: CacheObj, node: NodeId, todo: seq<NodeId>)
    | CList(obj: CacheObj)
    | CDelete(obj: CacheObj, marked: seq<NodeKey>)
    | CRemoveFinalizer(obj: CacheObj)

  /**
   History, read by no step: the clock readings recorded as uses, the last of them, the
   download behind the marker, and whether an eviction's status patch was lost.
   */
  datatype History = History(uses: set<Time>, last: Time, files: seq<Entry>, log: Log, lostPatch: bool)

  const NO_HISTORY := History({}, 0, [], [], false)

  function Recorded(h: History, t: Time): History { h.(uses := h.uses + {t}, last := t) }

  datatype State = State(
    caches: map<CacheKey, CacheObj>,
    nodes: map<NodeKey, NodeObj>,
    disks: map<NodeKey, Dir>,
    agents: map<NodeKey, AgentPc>,
    controllers: map<CacheKey, ControllerPc>,
    history: map<NodeKey, History>,
    pods: map<string, Pod>,
    clock: Time,
    tick: nat)

  function AgentAt(s: State, k: NodeKey): AgentPc { if k in s.agents then s.agents[k] else Idle }
  function ControllerAt(s: State, c: CacheKey): ControllerPc { if c in s.controllers then s.controllers[c] else CIdle }
  function HistoryOf(s: State, k: NodeKey): History { if k in s.history then s.history[k] else NO_HISTORY }

  ghost predicate Used(s: State, k: NodeKey) {
    exists id :: id in s.pods && PodUses(s.pods[id], k)
  }

  // ------------------------------------------------------------ status writes

  function SetCondition(st: NodeStatus, t: ConditionType, b: bool): NodeStatus {
    st.(conditions := st.conditions[t := b])
  }

  /** A JSON merge patch from `original` to `modified`, applied to what the store holds. */
  function MergePatch(store: NodeStatus, original: NodeStatus, modified: NodeStatus): NodeStatus {
    NodeStatus(
      if original.phase != modified.phase then modified.phase else store.phase,
      if original.lastUsed != modified.lastUsed then modified.lastUsed else store.lastUsed,
      if original.conditions != modified.conditions then modified.conditions else store.conditions)
  }

  function UsedAt(st: NodeStatus, now: Time): NodeStatus { st.(lastUsed := Some(Stored(now))) }

  function MarkedReady(st: NodeStatus, now: Time): NodeStatus {
    SetCondition(SetCondition(UsedAt(st.(phase := Ready), now), DownloadComplete, true), ReadyCondition, true)
  }

  function MarkedEvicted(st: NodeStatus): NodeStatus {
    SetCondition(SetCondition(st.(phase := Evicted), ReadyCondition, false), DownloadComplete, false)
  }

  function MarkedUnprepared(st: NodeStatus): NodeStatus {
    var st' := SetCondition(st, DirectoryReady, false);
    if st.phase == NoPhase then st'.(phase := Pending) else st'
  }

  function MarkedPrepared(st: NodeStatus): NodeStatus { SetCondition(st, DirectoryReady, true) }

  // --------------------------------------------------------------- the agent

  /** The part of the state that one agent reconcile reads and writes. */
  datatype View = View(
    cache: Option<CacheObj>, controller: ControllerPc,
    node: Option<NodeObj>, dir: Option<Dir>, pc: AgentPc, history: History)

  function ViewOf(s: State, k: NodeKey): View {
    View(
      if k.cache in s.caches then Some(s.caches[k.cache]) else None, ControllerAt(s, k.cache),
      if k in s.nodes then Some(s.nodes[k]) else None,
      if k in s.disks then Some(s.disks[k]) else None,
      AgentAt(s, k), HistoryOf(s, k))
  }

  function PutOption<K, V>(m: map<K, V>, k: K, v: Option<V>): map<K, V> {
    match v
    case Some(x) => m[k := x]
    case None => m - {k}
  }

  /** `s` with everything an agent reconcile of `k` may write taken from `v`. */
  function PutView(s: State, k: NodeKey, v: View): State {
    s.(nodes := PutOption(s.nodes, k, v.node),
       disks := PutOption(s.disks, k, v.dir),
       agents := s.agents[k := v.pc],
       history := s.history[k := v.history],
       tick := s.tick + 1)
  }

  const OWNER_FILE := ".praesto-owner"
  const MANIFEST_FILE := ".praesto-manifest.json"
  const COMPLETE_FILE := ".praesto-complete"

  /** The entry that is the file of that name in a cache directory. */
  function EntryNamed(name: string): Entry {
    if name == OWNER_FILE then OwnerFile
    else if name == MANIFEST_FILE then ManifestFile
    else if name == COMPLETE_FILE then MarkerFile
    else ModelFile(name)
  }

  predicate BelowOwn(path: string) {
    Below(path, OWNER_FILE) || Below(path, MANIFEST_FILE) || Below(path, COMPLETE_FILE)
  }

  /** Model files only: the repository lists no file at or below the names Praesto keeps for its own. */
  predicate Listable(files: seq<Entry>) {
    forall i :: 0 <= i < |files| ==> files[i].ModelFile? && !BelowOwn(files[i].path)
  }

  /** One of the two would have to be a directory. */
  predicate Clash(a: Entry, b: Entry) {
    a.ModelFile? && b.ModelFile? && (Below(a.path, b.path) || Below(b.path, a.path))
  }

  predicate Clashes(dir: Dir, e: Entry) { exists x :: x in dir && Clash(x, e) }

  function Mkdir(dir: Option<Dir>): Option<Dir> { if dir.Some? then dir else Some(map[]) }

  predicate Complete(dir: Option<Dir>) { dir.Some? && MarkerFile in dir.value }

  /** Patches the status of the ModelCacheNode, computed in memory from `original` to `modified`. */
  predicate StatusPatched(v: View, w: View, original: NodeStatus, modified: NodeStatus) {
    && v.node.Some?
    && w.node == Some(v.node.value.(status := MergePatch(v.node.value.status, original, modified)))
  }

  predicate FileWritten(v: View, w: View, e: Entry, content: Content) {
    v.dir.Some? && w.dir == Some(v.dir.value[e := content])
  }

  /** The read that starts a reconcile. */
  predicate StartStep(v: View, w: View) {
    && v.pc.Idle? && v.node.Some?
    && w == v.(pc := w.pc)
    && var n := v.node.value;
       if n.deleting then n.finalizer && w.pc == DeleteRemove
       else if !n.finalizer then w.pc == AddFinalizer
       else w.pc == Decide(n)
  }

  predicate FinalizerStep(v: View, w: View) {
    && v.pc.AddFinalizer? && v.node.Some? && !v.node.value.deleting
    && w == v.(node := Some(v.node.value.(finalizer := true)), pc := Decide(v.node.value.(finalizer := true)))
  }

  /** Dispatch on the phase; `used` is the outcome of counting Pods and `tick` the moment of the count. */
  predicate DecideStep(v: View, w: View, used: bool, tick: nat) {
    && v.pc.Decide?
    && var obj := v.pc.obj;
       w == v.(pc := w.pc) &&
       match obj.status.phase
       case Ready => w.pc == if used then Counted(obj) else Unused(obj, tick)
       case Evicted => used && w.pc == NeedCache(obj)
       case _ => w.pc == NeedCache(obj)
  }

  predicate UsageStep(v: View, w: View, now: Time) {
    match v.pc
    case Counted(obj) => w == v.(pc := InUse(obj, now))
    case InUse(obj, t) =>
      && StatusPatched(v, w, obj.status, UsedAt(obj.status, t))
      && w == v.(node := w.node, pc := Idle, history := Recorded(v.history, t))
    case Unused(obj, at) =>
      && obj.ttl.Ttl?
      && w == v.(pc := w.pc)
      && (match obj.status.lastUsed
          case None => w.pc == Stamp(obj, now)
          case Some(last) => now >= last + obj.ttl.duration && w.pc == EvictRemove(obj, at, now))
    case Stamp(obj, t) =>
      && StatusPatched(v, w, obj.status, UsedAt(obj.status, t))
      && w == v.(node := w.node, pc := Idle, history := Recorded(v.history, t))
    case EvictRemove(obj, _, _) =>
      w == v.(dir := None, pc := EvictMark(obj))
    case EvictMark(obj) =>
      && StatusPatched(v, w, obj.status, MarkedEvicted(obj.status))
      && w == v.(node := w.node, pc := Idle, history := v.history.(lostPatch := false))
    case _ => false
  }

  predicate PrepareStep(v: View, w: View) {
    match v.pc
    case NeedCache(obj) =>
      && v.cache.Some?
      && w == v.(pc := Prepare(obj, v.cache.value.source))
    case Prepare(obj, source) =>
      || w == v.(dir := Mkdir(v.dir), pc := OwnerOpen(obj, source))
      || (w == v.(dir := w.dir, pc := PrepareFailed(obj)) && (w.dir == v.dir || w.dir == Mkdir(v.dir)))
    case OwnerOpen(obj, source) =>
      || (FileWritten(v, w, OwnerFile, Partial) && w == v.(dir := w.dir, pc := OwnerFill(obj, source)))
      || w == v.(pc := PrepareFailed(obj))
    case OwnerFill(obj, source) =>
      || (FileWritten(v, w, OwnerFile, Owner(obj.uid)) && w == v.(dir := w.dir, pc := PatchDirectory(obj, source)))
      || w == v.(pc := PrepareFailed(obj))
    case PrepareFailed(obj) =>
      && StatusPatched(v, w, obj.status, MarkedUnprepared(obj.status))
      && w == v.(node := w.node, pc := Idle)
    case PatchDirectory(obj, source) =>
      && StatusPatched(v, w, obj.status, MarkedPrepared(obj.status))
      && w == v.(node := w.node, pc := CheckMarker(Work(w.node.value, obj, source)))
    case _ => false
  }

  /** Listing the repository and copying its files, chunk by chunk. */
  predicate FetchStep(v: View, w: View) {
    match v.pc
    case Listing(work) =>
      && w.pc.Fetch? && Listable(w.pc.files)
      && w == v.(dir := Mkdir(v.dir), pc := Fetch(work, w.pc.files, []))
    case Fetch(work, files, log) =>
      if |log| < |files| then
        && v.dir.Some? && !Clashes(v.dir.value, files[|log|])
        && FileWritten(v, w, files[|log|], Data([]))
        && w == v.(dir := w.dir, pc := Copy(work, files, log, []))
      else
        w == v.(pc := ManifestOpen(work, files, log))
    case Copy(work, files, log, got) =>
      && |log| < |files|
      && var e := files[|log|];
         || (w.pc.Copy? && got <= w.pc.got && FileWritten(v, w, e, Data(w.pc.got))
             && w == v.(dir := w.dir, pc := Copy(work, files, log, w.pc.got)))
         || w == v.(pc := Fetch(work, files, log + [Delivered(e, got)]))
    case _ => false
  }

  /** The manifest, then the marker, then the Ready mark. */
  predicate CompleteStep(v: View, w: View, now: Time) {
    match v.pc
    case CheckMarker(work) =>
      w == v.(pc := if Complete(v.dir) then Completed(work) else Listing(work))
    case ManifestOpen(work, files, log) =>
      FileWritten(v, w, ManifestFile, Partial) && w == v.(dir := w.dir, pc := ManifestFill(work, files, log))
    case ManifestFill(work, files, log) =>
      && FileWritten(v, w, ManifestFile, Manifest(work.obj.uid, work.source))
      && w == v.(dir := w.dir, pc := MarkerOpen(work, files, log))
    case MarkerOpen(work, files, log) =>
      && FileWritten(v, w, MarkerFile, Partial)
      && w == v.(dir := w.dir, pc := MarkerFill(work), history := v.history.(files := files, log := log))
    case MarkerFill(work) =>
      FileWritten(v, w, MarkerFile, Marker) && w == v.(dir := w.dir, pc := Completed(work))
    case Completed(work) => w == v.(pc := MarkReady(work, now))
    case MarkReady(work, t) =>
      && StatusPatched(v, w, work.original.status, MarkedReady(work.obj.status, t))
      && w == v.(node := w.node, pc := Idle, history := Recorded(v.history, t).(lostPatch := false))
    case _ => false
  }

  predicate DeleteStep(v: View, w: View) {
    match v.pc
    case DeleteRemove => w == v.(dir := None, pc := DeletePatch)
    case DeletePatch => v.node.Some? && v.node.value.deleting && w == v.(node := None, pc := Idle)
    case _ => false
  }

  predicate AgentStep(v: View, w: View, used: bool, now: Time, tick: nat) {
    || StartStep(v, w)
    || FinalizerStep(v, w)
    || DecideStep(v, w, used, tick)
    || UsageStep(v, w, now)
    || PrepareStep(v, w)
    || FetchStep(v, w)
    || CompleteStep(v, w, now)
    || DeleteStep(v, w)
  }

  /** A reconcile stops where it is: a crash, a failed call or a return. */
  function Ended(v: View): View {
    v.(pc := Idle, history := v.history.(lostPatch := v.history.lostPatch || v.pc.EvictMark?))
  }

  // ---------------------------------------------------------- the controller

  /** `s` with everything a controller reconcile of `c` may write replaced. */
  function PutController(s: State, c: CacheKey, pc: ControllerPc,
                         caches: map<CacheKey, CacheObj>, nodes: map<NodeKey, NodeObj>): State {
    s.(controllers := s.controllers[c := pc], caches := caches, nodes := nodes, tick := s.tick + 1)
  }

  /** The ModelCacheNodes listed by the label selector of the cache object `obj`. */
  function Listed(nodes: map<NodeKey, NodeObj>, c: CacheKey, obj: CacheObj): set<NodeKey> {
    set k | k in nodes && k.cache == c && nodes[k].uid == obj.uid
  }

  function Members(ks: seq<NodeKey>): set<NodeKey> { set k | k in ks }

  function Undeleted(nodes: map<NodeKey, NodeObj>, listed: set<NodeKey>): set<NodeKey> {
    set k | k in listed && k in nodes && !nodes[k].deleting
  }

  /** The API server's answer to a delete: objects with a finalizer only get a deletion timestamp. */
  function NodeDeleted(nodes: map<NodeKey, NodeObj>, k: NodeKey): map<NodeKey, NodeObj> {
    if k !in nodes then nodes
    else if nodes[k].finalizer then nodes[k := nodes[k].(deleting := true)]
    else nodes - {k}
  }

  function CacheDeleted(caches: map<CacheKey, CacheObj>, c: CacheKey): map<CacheKey, CacheObj> {
    if c !in caches then caches
    else if caches[c].finalizer then caches[c := caches[c].(deleting := true)]
    else caches - {c}
  }

  /** The store as a controller reconcile of one cache sees it, and where that reconcile stands. */
  datatype Desk = Desk(pc: ControllerPc, caches: map<CacheKey, CacheObj>, nodes: map<NodeKey, NodeObj>)

  function DeskOf(s: State, c: CacheKey): Desk { Desk(ControllerAt(s, c), s.caches, s.nodes) }

  /** Reading the ModelCache and adding its finalizer. */
  predicate AdmitStep(d: Desk, d': Desk, c: CacheKey) {
    match d.pc
    case CIdle =>
      && c in d.caches && d' == d.(pc := d'.pc)
      && var o := d.caches[c];
         if o.deleting then o.finalizer && d'.pc == CList(o)
         else d'.pc == if o.finalizer then CListNodes(o) else CAddFinalizer
    case CAddFinalizer =>
      && c in d.caches && !d.caches[c].deleting
      && var o := d.caches[c].(finalizer := true);
         d' == d.(pc := CListNodes(o), caches := d.caches[c := o])
    case _ => false
  }

  /** Creating one ModelCacheNode per selected node. */
  predicate EnsureStep(d: Desk, d': Desk, c: CacheKey) {
    match d.pc
    case CListNodes(o) => d'.pc.CEnsure? && d' == d.(pc := CEnsure(o, d'.pc.todo))
    case CEnsure(o, todo) =>
      && todo != []
      && var k := NodeKey(c, todo[0]);
         if k !in d.nodes then d' == d.(pc := CCreate(o, todo[0], todo[1..]))
         else d' == d.(pc := CEnsure(o, todo[1..]),
                       nodes := if d.nodes[k].uid == o.uid then d.nodes
                                else d.nodes[k := d.nodes[k].(uid := o.uid, ttl := o.ttl)])
    case CCreate(o, node, todo) =>
      && var k := NodeKey(c, node);
         && k !in d.nodes
         && d' == d.(pc := CEnsure(o, todo), nodes := d.nodes[k := NodeObj(o.uid, o.ttl, false, false, FRESH_STATUS)])
    case _ => false
  }

  /** Deleting the ModelCacheNodes, then the ModelCache's finalizer. */
  predicate RemoveStep(d: Desk, d': Desk, c: CacheKey) {
    match d.pc
    case CList(o) =>
      var listed := Listed(d.nodes, c, o);
      if listed == {} then d' == d.(pc := CRemoveFinalizer(o))
      else
        && d'.pc.CDelete?
        && d' == d.(pc := CDelete(o, d'.pc.marked))
        && Members(d'.pc.marked) == Undeleted(d.nodes, listed)
    case CDelete(o, marked) =>
      && marked != []
      && d' == d.(pc := CDelete(o, marked[1..]), nodes := NodeDeleted(d.nodes, marked[0]))
    case CRemoveFinalizer(o) =>
      && c in d.caches && d.caches[c].deleting
      && d' == d.(pc := CIdle, caches := d.caches - {c})
    case _ => false
  }

  predicate DeskStep(d: Desk, d': Desk, c: CacheKey) {
    AdmitStep(d, d', c) || EnsureStep(d, d', c) || RemoveStep(d, d', c)
  }

  function PutDesk(s: State, c: CacheKey, d: Desk): State { PutController(s, c, d.pc, d.caches, d.nodes) }

  /** One effect, or one read, of the controller's reconcile of `c`. */
  predicate ControllerStep(s: State, s': State, c: CacheKey) {
    DeskStep(DeskOf(s, c), DeskOf(s', c), c) && s' == PutDesk(s, c, DeskOf(s', c))
  }

  // ------------------------------------------------------------------ events

  datatype Event =
    | AgentSteps(k: NodeKey)
    | AgentEnds(k: NodeKey)
    | ControllerSteps(c: CacheKey)
    | ControllerEnds(c: CacheKey)
    | CreateCache(c: CacheKey, uid: string, source: string, ttl: Ttl)
    | DeleteCache(c: CacheKey)
    | DeleteNode(k: NodeKey)
    | CreatePod(id: string, caches: set<CacheKey>)
    | BindPod(id: string, node: NodeId)
    | DeletePod(id: string)
    | TimePasses(to: Time)

  /** One effect, or one read, of the agent's reconcile of `k`. */
  ghost predicate AgentMoves(s: State, k: NodeKey, s': State) {
    && AgentStep(ViewOf(s, k), ViewOf(s', k), Used(s, k), s.clock, s.tick)
    && s' == PutView(s, k, ViewOf(s', k))
  }

  /** What users, the scheduler and the clock do. */
  predicate OutsideStep(s: State, e: Event, s': State) {
    match e
    case CreateCache(c, uid, source, ttl) =>
      c !in s.caches && s' == s.(caches := s.caches[c := CacheObj(uid, source, ttl, false, false)], tick := s.tick + 1)
    case DeleteCache(c) => s' == s.(caches := CacheDeleted(s.caches, c), tick := s.tick + 1)
    case DeleteNode(k) => s' == s.(nodes := NodeDeleted(s.nodes, k), tick := s.tick + 1)
    case CreatePod(id, caches) =>
      id !in s.pods && s' == s.(pods := s.pods[id := Pod(caches, None)], tick := s.tick + 1)
    case BindPod(id, node) =>
      && id in s.pods && s.pods[id].bound.None?
      && s' == s.(pods := s.pods[id := s.pods[id].(bound := Some(Binding(node, s.tick)))], tick := s.tick + 1)
    case DeletePod(id) => s' == s.(pods := s.pods - {id}, tick := s.tick + 1)
    case TimePasses(to) => s.clock <= to && s' == s.(clock := to, tick := s.tick + 1)
    case _ => false
  }

  ghost predicate Next(s: State, e: Event, s': State) {
    match e
    case AgentSteps(k) => AgentMoves(s, k, s')
    case AgentEnds(k) => s' == PutView(s, k, Ended(ViewOf(s, k)))
    case ControllerSteps(c) => ControllerStep(s, s', c)
    case ControllerEnds(c) => s' == PutController(s, c, CIdle, s.caches, s.nodes)
    case _ => OutsideStep(s, e, s')
  }

  /** No caches, no ModelCacheNodes, no directories and no reconcile under way. */
  predicate Initial(s: State) {
    && s.caches == map[] && s.nodes == map[] && s.disks == map[]
    && s.agents == map[] && s.controllers == map[] && s.history == map[] && s.pods == map[]
  }

  /** Consecutive states joined by events. */
  ghost predicate IsPath(states: seq<State>, events: seq<Event>) {
    && |states| == |events| + 1
    && (forall i {:trigger events[i]} :: 0 <= i < |events| ==> Next(states[i], events[i], states[i + 1]))
  }

  ghost predicate IsRun(states: seq<State>, events: seq<Event>) {
    IsPath(states, events) && Initial(states[0])
  }
}
