/**
 Which caches a Pod uses, as the node agent and the controller see it, and which
 ModelCacheNodes a Pod event wakes up.
 */
module Usage {
  import opened Common
  import opened KubeIdent
  import opened Paths

  const CSI_DRIVER := "csi.praesto.io"
  const CSI_NAMESPACE := "modelCacheNamespace"
  const CSI_NAME := "modelCacheName"
  const USES_LABEL := "praesto.io/uses-model-cache"

  // ---------------------------------------------------------------------- Pods

  datatype VolumeSource =
    | Csi(driver: string, readOnly: Option<bool>, attributes: map<string, string>)
    | Claim(claimName: string, claimReadOnly: bool)
    | OtherSource(description: string)

  datatype Volume = Volume(name: string, source: VolumeSource)

  /** `rest` stands for the fields of the object that Praesto does not look at. */
  datatype VolumeMount = VolumeMount(name: string, mountPath: string, readOnly: bool, rest: string)

  datatype Container = Container(
    name: string, image: string, command: seq<string>, mounts: seq<VolumeMount>, rest: string)

  /** One entry of the model mounts annotation. */
  datatype MountRequest = MountRequest(modelCache: string, mountPath: string)

  /** The model mounts annotation: not there, blank, not valid JSON, or a list. */
  datatype MountsAnnotation = Absent | Blank | Malformed | Mounts(requests: seq<MountRequest>)

  datatype PodValue = PodValue(
    namespace: string, nodeName: string,
    mounts: MountsAnnotation, target: Option<string>,
    labels: map<string, string>,
    volumes: seq<Volume>, initContainers: seq<Container>, containers: seq<Container>)

  /** A key of a Go map of strings; what is not there reads as the empty string. */
  function Get(m: map<string, string>, k: string): string { if k in m then m[k] else "" }

  /** ASCII white space: blank, tab, line feed, vertical tab, form feed and carriage return. */
  predicate IsSpace(c: char) {
    c == ' ' || c == '\t' || c == '\n' || c == '\U{0B}' || c == '\U{0C}' || c == '\r'
  }

  function TrimSpaceLeft(s: string): string { if s != "" && IsSpace(s[0]) then TrimSpaceLeft(s[1..]) else s }

  function TrimSpaceRight(s: string): string {
    if s != "" && IsSpace(s[|s| - 1]) then TrimSpaceRight(s[..|s| - 1]) else s
  }

  function TrimSpace(s: string): string { TrimSpaceRight(TrimSpaceLeft(s)) }

  predicate AllSpace(s: string) { forall i :: 0 <= i < |s| ==> IsSpace(s[i]) }

  /** What is left has no white space at its ends, and only white space is cut off. */
  lemma TrimSpaceExactly(s: string) returns (a: string, b: string)
    ensures s == a + TrimSpace(s) + b && AllSpace(a) && AllSpace(b)
    ensures TrimSpace(s) != "" ==> !IsSpace(TrimSpace(s)[0]) && !IsSpace(TrimSpace(s)[|TrimSpace(s)| - 1])
  {
    a := LeftCutOff(s);
    b := RightCutOff(TrimSpaceLeft(s));
  }

  lemma {:induction false} LeftCutOff(s: string) returns (a: string)
    ensures s == a + TrimSpaceLeft(s) && AllSpace(a)
    ensures TrimSpaceLeft(s) != "" ==> !IsSpace(TrimSpaceLeft(s)[0])
  {
    a := "";
    if s != "" && IsSpace(s[0]) {
      a := LeftCutOff(s[1..]);
      a := [s[0]] + a;
    }
  }

  lemma {:induction false} RightCutOff(s: string) returns (b: string)
    ensures s == TrimSpaceRight(s) + b && AllSpace(b) && TrimSpaceRight(s) <= s
    ensures TrimSpaceRight(s) != "" ==> !IsSpace(TrimSpaceRight(s)[|TrimSpaceRight(s)| - 1])
  {
    b := "";
    if s != "" && IsSpace(s[|s| - 1]) {
      b := RightCutOff(s[..|s| - 1]);
      b := b + [s[|s| - 1]];
    }
  }

  predicate IsLabelled(p: PodValue) { Get(p.labels, USES_LABEL) == "true" }

  // ------------------------------------------------- what the node agent counts

  /** The cache a CSI volume names, if it is one of Praesto's and names one. */
  function RefOf(v: Volume): Option<CacheKey> {
    if v.source.Csi? && v.source.driver == CSI_DRIVER
      && Get(v.source.attributes, CSI_NAMESPACE) != "" && Get(v.source.attributes, CSI_NAME) != ""
    then Some(CacheKey(Get(v.source.attributes, CSI_NAMESPACE), Get(v.source.attributes, CSI_NAME)))
    else None
  }

  /** The caches that some volume names. */
  function Caches(volumes: seq<Volume>): set<CacheKey> {
    set v | v in volumes && RefOf(v).Some? :: RefOf(v).value
  }

  function KeyText(c: CacheKey): string { c.namespace + "/" + c.name }

  /** One entry per key text, the first. */
  function Refs(volumes: seq<Volume>): seq<CacheKey> {
    if volumes == [] then []
    else
      var refs, ref := Refs(volumes[..|volumes| - 1]), RefOf(volumes[|volumes| - 1]);
      if ref.None? || KeyText(ref.value) in Texts(refs) then refs else refs + [ref.value]
  }

  function Texts(refs: seq<CacheKey>): set<string> { set c | c in refs :: KeyText(c) }

  /** Walks the volumes with a map of the key texts seen so far. */
  method ModelCacheRefsFromPod(p: PodValue) returns (refs: seq<CacheKey>)
    ensures refs == Refs(p.volumes)
  {
    refs := [];
    var seen: set<string> := {};
    for i := 0 to |p.volumes|
      invariant refs == Refs(p.volumes[..i]) && seen == Texts(refs)
    {
      assert p.volumes[..i + 1][..i] == p.volumes[..i];
      var v := p.volumes[i];
      if v.source.Csi? && v.source.driver == CSI_DRIVER {
        var namespace, name := Get(v.source.attributes, CSI_NAMESPACE), Get(v.source.attributes, CSI_NAME);
        if namespace != "" && name != "" && KeyText(CacheKey(namespace, name)) !in seen {
          seen := seen + {KeyText(CacheKey(namespace, name))};
          refs := refs + [CacheKey(namespace, name)];
        }
      }
    }
    assert p.volumes[..|p.volumes|] == p.volumes;
  }

  /** A key text with a slash-free namespace and name stands for that pair alone, whatever the other pair. */
  lemma KeyTextIsExact(c: CacheKey, d: CacheKey)
    requires NoSlash(c.namespace) && NoSlash(c.name) && KeyText(c) == KeyText(d)
    ensures c == d
  {
    SplitConcat(c.namespace, c.name);
    SplitConcat(d.namespace, d.name);
    SplitWhole(c.namespace);
    SplitWhole(c.name);
    SplitJoin(d.namespace);
    SplitJoin(d.name);
    var parts := Split(d.namespace) + Split(d.name);
    assert parts == [c.namespace, c.name];
    assert |Split(d.namespace)| == 1 && Split(d.namespace)[0] == parts[0] && Split(d.name)[0] == parts[1];
  }

  lemma {:induction false} RefsOnlyNamed(volumes: seq<Volume>)
    ensures forall c :: c in Refs(volumes) ==> c in Caches(volumes)
    ensures forall c :: c in Caches(volumes) ==> KeyText(c) in Texts(Refs(volumes))
  {
    if volumes != [] {
      var n := |volumes| - 1;
      RefsOnlyNamed(volumes[..n]);
      forall c ensures c in Caches(volumes) <==> c in Caches(volumes[..n]) || RefOf(volumes[n]) == Some(c) {
        if c in Caches(volumes) {
          var v :| v in volumes && RefOf(v) == Some(c);
          assert v in volumes[..n] || v == volumes[n];
        }
        if c in Caches(volumes[..n]) {
          var v :| v in volumes[..n] && RefOf(v) == Some(c);
          assert v in volumes;
        }
        assert volumes[n] in volumes;
      }
      forall c | c in Refs(volumes[..n]) ensures c in Refs(volumes) {}
    }
  }

  /** The dedup key never drops a real cache: one is listed exactly if some volume names it. */
  lemma RefsExactly(volumes: seq<Volume>, c: CacheKey)
    requires NoSlash(c.namespace) && NoSlash(c.name)
    ensures c in Refs(volumes) <==> c in Caches(volumes)
  {
    RefsOnlyNamed(volumes);
    if c in Caches(volumes) {
      var d :| d in Refs(volumes) && KeyText(d) == KeyText(c);
      KeyTextIsExact(c, d);
    }
  }

  /** No cache is listed twice. */
  lemma {:induction false} RefsDistinct(volumes: seq<Volume>)
    ensures forall i, j :: 0 <= i < j < |Refs(volumes)| ==> KeyText(Refs(volumes)[i]) != KeyText(Refs(volumes)[j])
  {
    if volumes != [] {
      RefsDistinct(volumes[..|volumes| - 1]);
    }
  }

  method PodUsesModelCache(p: PodValue, c: CacheKey) returns (uses: bool)
    ensures uses <==> c in Refs(p.volumes)
  {
    var refs := ModelCacheRefsFromPod(p);
    for i := 0 to |refs|
      invariant c !in refs[..i]
    {
      if refs[i].namespace == c.namespace && refs[i].name == c.name {
        return true;
      }
    }
    return false;
  }

  /** Whether the agent of `node` counts the Pod for the cache. */
  predicate UsesOn(p: PodValue, node: string, c: CacheKey) {
    p.nodeName == node && IsLabelled(p) && c in Caches(p.volumes)
  }

  function UsingCount(pods: seq<PodValue>, node: string, c: CacheKey): nat {
    if pods == [] then 0
    else UsingCount(pods[..|pods| - 1], node, c) + if UsesOn(pods[|pods| - 1], node, c) then 1 else 0
  }

  /** A CSI volume of Praesto's driver whose attributes are the namespace and the name of the cache. */
  predicate NamesCache(v: Volume, c: CacheKey) {
    && v.source.Csi? && v.source.driver == "csi.praesto.io"
    && "modelCacheNamespace" in v.source.attributes && v.source.attributes["modelCacheNamespace"] == c.namespace
    && "modelCacheName" in v.source.attributes && v.source.attributes["modelCacheName"] == c.name
    && c.namespace != "" && c.name != ""
  }

  /** Who is counted on a node: no Pod of another node, none without the label, none without such a volume. */
  lemma UsersExactly(p: PodValue, node: string, c: CacheKey)
    requires NoSlash(c.namespace) && NoSlash(c.name)
    ensures UsesOn(p, node, c)
      <==> && p.nodeName == node
           && "praesto.io/uses-model-cache" in p.labels && p.labels["praesto.io/uses-model-cache"] == "true"
           && exists v :: v in p.volumes && NamesCache(v, c)
  {
    if v :| v in p.volumes && RefOf(v) == Some(c) { assert NamesCache(v, c); }
    if v :| v in p.volumes && NamesCache(v, c) { assert RefOf(v) == Some(c); }
  }

  /** The count is the number of those Pods. */
  lemma UsingCountExactly(pods: seq<PodValue>, node: string, c: CacheKey)
    ensures UsingCount(pods, node, c) == |set i | 0 <= i < |pods| && UsesOn(pods[i], node, c)|
  {
    UsingCountUpTo(pods, |pods|, node, c);
    assert pods[..|pods|] == pods;
  }

  lemma {:induction false} UsingCountUpTo(pods: seq<PodValue>, n: nat, node: string, c: CacheKey)
    requires n <= |pods|
    ensures UsingCount(pods[..n], node, c) == |set i | 0 <= i < n && UsesOn(pods[i], node, c)|
  {
    hide UsesOn;
    var counted := set i | 0 <= i < n && UsesOn(pods[i], node, c);
    if n == 0 {
      assert counted == {};
    } else {
      UsingCountUpTo(pods, n - 1, node, c);
      assert pods[..n][..n - 1] == pods[..n - 1];
      var before := set i | 0 <= i < n - 1 && UsesOn(pods[i], node, c);
      assert counted == before + if UsesOn(pods[n - 1], node, c) then {n - 1} else {};
    }
  }

  /** The labelled Pods of the node, filtered by a list call, then looked at one by one. */
  method CountPodsUsingModelCache(pods: seq<PodValue>, node: string, c: CacheKey) returns (count: nat)
    requires NoSlash(c.namespace) && NoSlash(c.name)
    ensures count == UsingCount(pods, node, c)
    ensures count > 0 <==> exists p :: p in pods && UsesOn(p, node, c)
  {
    hide Caches, Refs;
    count := 0;
    for i := 0 to |pods|
      invariant count == UsingCount(pods[..i], node, c)
      invariant count > 0 <==> exists p :: p in pods[..i] && UsesOn(p, node, c)
    {
      assert pods[..i + 1][..i] == pods[..i];
      assert forall p :: p in pods[..i + 1] <==> p in pods[..i] || p == pods[i];
      if pods[i].nodeName == node && IsLabelled(pods[i]) {
        var uses := PodUsesModelCache(pods[i], c);
        RefsExactly(pods[i].volumes, c);
        if uses { count := count + 1; }
      }
    }
    assert pods[..|pods|] == pods;
  }

  // ------------------------------------------------ what the controller counts

  /** The cache names of an annotation, without blanks and repetitions, in order. */
  function Names(requests: seq<MountRequest>): seq<string> {
    if requests == [] then []
    else
      var names, name := Names(requests[..|requests| - 1]), TrimSpace(requests[|requests| - 1].modelCache);
      if name == "" || name in names then names else names + [name]
  }

  method ModelCacheNamesFromPod(p: PodValue) returns (names: seq<string>)
    ensures names == if p.mounts.Mounts? then Names(p.mounts.requests) else []
  {
    names := [];
    if !p.mounts.Mounts? { return; }
    var seen: set<string> := {};
    var requests := p.mounts.requests;
    for i := 0 to |requests|
      invariant names == Names(requests[..i]) && forall n :: n in seen <==> n in names
    {
      assert requests[..i + 1][..i] == requests[..i];
      var name := TrimSpace(requests[i].modelCache);
      if name != "" && name !in seen {
        seen := seen + {name};
        names := names + [name];
      }
    }
    assert requests[..|requests|] == requests;
  }

  /** The names are exactly those that some entry requests, each once. */
  lemma {:induction false} NamesExactly(requests: seq<MountRequest>)
    ensures forall n :: n in Names(requests) <==> n != "" && exists r :: r in requests && TrimSpace(r.modelCache) == n
    ensures forall i, j :: 0 <= i < j < |Names(requests)| ==> Names(requests)[i] != Names(requests)[j]
  {
    if requests != [] {
      var k := |requests| - 1;
      NamesExactly(requests[..k]);
      assert forall r :: r in requests <==> r in requests[..k] || r == requests[k];
    }
  }

  /** Whether the controller counts the Pod for the cache. */
  predicate Requests(p: PodValue, c: CacheKey) {
    && p.namespace == c.namespace && IsLabelled(p) && p.mounts.Mounts?
    && c.name in Names(p.mounts.requests)
  }

  /** Who is counted in a namespace: labelled Pods of that namespace with an entry that names the cache. */
  lemma RequestersExactly(p: PodValue, c: CacheKey)
    ensures Requests(p, c)
      <==> && p.namespace == c.namespace && c.name != ""
           && "praesto.io/uses-model-cache" in p.labels && p.labels["praesto.io/uses-model-cache"] == "true"
           && p.mounts.Mounts? && exists r :: r in p.mounts.requests && TrimSpace(r.modelCache) == c.name
  {
    hide TrimSpace;
    if p.mounts.Mounts? { NamesExactly(p.mounts.requests); }
  }

  /** The count is the number of those Pods. */
  lemma RequestingCountExactly(pods: seq<PodValue>, c: CacheKey)
    ensures RequestingCount(pods, c) == |set i | 0 <= i < |pods| && Requests(pods[i], c)|
  {
    RequestingCountUpTo(pods, |pods|, c);
    assert pods[..|pods|] == pods;
  }

  lemma {:induction false} RequestingCountUpTo(pods: seq<PodValue>, n: nat, c: CacheKey)
    requires n <= |pods|
    ensures RequestingCount(pods[..n], c) == |set i | 0 <= i < n && Requests(pods[i], c)|
  {
    hide Requests;
    var counted := set i | 0 <= i < n && Requests(pods[i], c);
    if n == 0 {
      assert counted == {};
    } else {
      RequestingCountUpTo(pods, n - 1, c);
      assert pods[..n][..n - 1] == pods[..n - 1];
      var before := set i | 0 <= i < n - 1 && Requests(pods[i], c);
      assert counted == before + if Requests(pods[n - 1], c) then {n - 1} else {};
    }
  }

  function RequestingCount(pods: seq<PodValue>, c: CacheKey): nat {
    if pods == [] then 0
    else RequestingCount(pods[..|pods| - 1], c) + if Requests(pods[|pods| - 1], c) then 1 else 0
  }

  /** The labelled Pods of the namespace, filtered by a list call, then looked at one by one. */
  method CountRequestingPods(pods: seq<PodValue>, c: CacheKey) returns (count: nat)
    ensures count == RequestingCount(pods, c)
    ensures count > 0 <==> exists p :: p in pods && Requests(p, c)
  {
    hide Names;
    count := 0;
    for i := 0 to |pods|
      invariant count == RequestingCount(pods[..i], c)
      invariant count > 0 <==> exists p :: p in pods[..i] && Requests(p, c)
    {
      assert pods[..i + 1][..i] == pods[..i];
      assert forall p :: p in pods[..i + 1] <==> p in pods[..i] || p == pods[i];
      if pods[i].namespace == c.namespace && IsLabelled(pods[i]) {
        var names := ModelCacheNamesFromPod(pods[i]);
        var found := false;
        for j := 0 to |names|
          invariant found <==> c.name in names[..j]
        {
          if names[j] == c.name {
            found := true;
          }
        }
        if found { count := count + 1; }
      }
    }
    assert pods[..|pods|] == pods;
  }

  // ---------------------------------------------------------------- waking up

  datatype NodeLabels = NodeLabels(namespace: string, name: string, uid: string, node: string)

  /** A ModelCacheNode as the agent lists it. */
  datatype ListedNode = ListedNode(name: string, labels: NodeLabels)

  /** The object the controller creates for one cache on one node. */
  function DesiredModelCacheNode(lower: Lower, hash: Hash, c: CacheKey, uid: string, node: string): ListedNode {
    ListedNode(
      ModelCacheNodeName(lower, hash, c.namespace, c.name, node),
      NodeLabels(LabelValue(lower, hash, c.namespace), LabelValue(lower, hash, c.name),
                 LabelValue(lower, hash, uid), LabelValue(lower, hash, node)))
  }

  /** What the agent's list call for one cache selects. */
  predicate Selected(lower: Lower, hash: Hash, n: ListedNode, c: CacheKey, node: string) {
    && n.labels.namespace == LabelValue(lower, hash, c.namespace)
    && n.labels.name == LabelValue(lower, hash, c.name)
    && n.labels.node == LabelValue(lower, hash, node)
  }

  /** The objects that the list calls for `refs` return, those that do not fail. */
  function Woken(lower: Lower, hash: Hash, nodes: seq<ListedNode>, refs: seq<CacheKey>, failing: set<CacheKey>,
                 node: string): set<string> {
    set n, c | n in nodes && c in refs && c !in failing && Selected(lower, hash, n, c, node) :: n.name
  }

  predicate NoRepeats(s: seq<string>) { forall i, j :: 0 <= i < j < |s| ==> s[i] != s[j] }

  /** The agent's map from a Pod event to the ModelCacheNodes to reconcile; `failing` are the list calls that fail. */
  method RequestsForPod(lower: Lower, hash: Hash, p: PodValue, node: string, nodes: seq<ListedNode>,
                        failing: set<CacheKey>)
    returns (requests: seq<string>)
    ensures NoRepeats(requests)
    ensures forall n :: n in requests <==>
      p.nodeName == node && IsLabelled(p) && n in Woken(lower, hash, nodes, Refs(p.volumes), failing, node)
  {
    requests := [];
    if p.nodeName != node || !IsLabelled(p) { return; }
    var refs := ModelCacheRefsFromPod(p);
    var byName: set<string> := {};
    for i := 0 to |refs|
      invariant byName == Woken(lower, hash, nodes, refs[..i], failing, node)
    {
      var found := {};
      if refs[i] !in failing {
        found := ListNodes(lower, hash, nodes, refs[i], node);
      }
      WokenByOneMore(lower, hash, nodes, refs, i, failing, node, found);
      byName := byName + found;
    }
    assert refs[..|refs|] == refs;
    requests := Listed(byName);
  }

  method ListNodes(lower: Lower, hash: Hash, nodes: seq<ListedNode>, c: CacheKey, node: string)
    returns (found: set<string>)
    ensures found == set n | n in nodes && Selected(lower, hash, n, c, node) :: n.name
  {
    hide Selected;
    found := {};
    for j := 0 to |nodes|
      invariant found == set n | n in nodes[..j] && Selected(lower, hash, n, c, node) :: n.name
    {
      assert forall n :: n in nodes[..j + 1] <==> n in nodes[..j] || n == nodes[j];
      if Selected(lower, hash, nodes[j], c, node) {
        found := found + {nodes[j].name};
      }
    }
    assert nodes[..|nodes|] == nodes;
  }

  lemma WokenByOneMore(lower: Lower, hash: Hash, nodes: seq<ListedNode>, refs: seq<CacheKey>, i: nat,
                       failing: set<CacheKey>,
                       node: string, found: set<string>)
    requires i < |refs|
    requires found == if refs[i] in failing then {} else
      set n | n in nodes && Selected(lower, hash, n, refs[i], node) :: n.name
    ensures Woken(lower, hash, nodes, refs[..i + 1], failing, node)
      == Woken(lower, hash, nodes, refs[..i], failing, node) + found
  {
    assert forall c :: c in refs[..i + 1] <==> c in refs[..i] || c == refs[i];
  }

  /** The elements of a set, each once. */
  method Listed(names: set<string>) returns (list: seq<string>)
    ensures NoRepeats(list) && forall n :: n in list <==> n in names
  {
    list := [];
    var left := names;
    while left != {}
      invariant left <= names && NoRepeats(list)
      invariant forall n :: n in list <==> n in names && n !in left
      decreases left
    {
      var n :| n in left;
      list := list + [n];
      left := left - {n};
    }
  }

  /**
   No missed wake-up: an event of a labelled Pod on this node enqueues the ModelCacheNode of
   every cache that one of its volumes names, if the list call for it does not fail.
   */
  lemma NoMissedWakeUp(lower: Lower, hash: Hash, p: PodValue, node: string, nodes: seq<ListedNode>,
                       failing: set<CacheKey>,
                       c: CacheKey, uid: string)
    requires NoSlash(c.namespace) && NoSlash(c.name) && c in Caches(p.volumes) && c !in failing
    requires DesiredModelCacheNode(lower, hash, c, uid, node) in nodes
    ensures ModelCacheNodeName(lower, hash, c.namespace, c.name, node)
      in Woken(lower, hash, nodes, Refs(p.volumes), failing, node)
  {
    RefsExactly(p.volumes, c);
    assert Selected(lower, hash, DesiredModelCacheNode(lower, hash, c, uid, node), c, node);
  }

  /** An object that the controller made for a cache on a node. */
  datatype Placed = Placed(c: CacheKey, uid: string, node: string)

  function ObjectsOf(lower: Lower, hash: Hash, placed: seq<Placed>): (r: seq<ListedNode>)
    ensures |r| == |placed|
    ensures forall i :: 0 <= i < |r| ==>
      r[i] == DesiredModelCacheNode(lower, hash, placed[i].c, placed[i].uid, placed[i].node)
  {
    seq(|placed|, i requires 0 <= i < |placed| =>
      DesiredModelCacheNode(lower, hash, placed[i].c, placed[i].uid, placed[i].node))
  }

  lemma SelectedExactly(lower: Lower, hash: Hash, x: Placed, c: CacheKey, node: string)
    requires IsLabelValue(x.c.namespace) && IsLabelValue(x.c.name) && IsLabelValue(x.node)
    requires IsLabelValue(c.namespace) && IsLabelValue(c.name) && IsLabelValue(node)
    ensures Selected(lower, hash, DesiredModelCacheNode(lower, hash, x.c, x.uid, x.node), c, node)
      <==> x.c == c && x.node == node
  {
    hide LabelValue, IsLabelValue, ModelCacheNodeName;
    LabelValueFixedPoints(lower, hash, x.c.namespace);
    LabelValueFixedPoints(lower, hash, x.c.name);
    LabelValueFixedPoints(lower, hash, x.node);
    LabelValueFixedPoints(lower, hash, c.namespace);
    LabelValueFixedPoints(lower, hash, c.name);
    LabelValueFixedPoints(lower, hash, node);
  }

  /**
   And no other is woken: if all names are valid label values, each object enqueued is that of a cache one
   of the Pod's volumes names, on this very node.
   */
  lemma NoneElsewhereIsWoken(lower: Lower, hash: Hash, volumes: seq<Volume>, node: string, placed: seq<Placed>,
                             failing: set<CacheKey>, name: string)
    requires IsLabelValue(node)
    requires forall x :: x in placed ==>
      && IsLabelValue(x.c.namespace) && IsLabelValue(x.c.name) && IsLabelValue(x.node)
      && NoSlash(x.c.namespace) && NoSlash(x.c.name)
    requires forall c :: c in Refs(volumes) ==> IsLabelValue(c.namespace) && IsLabelValue(c.name)
    ensures name in Woken(lower, hash, ObjectsOf(lower, hash, placed), Refs(volumes), failing, node)
      <==> exists x :: x in placed && x.node == node && x.c in Caches(volumes) && x.c !in failing
                       && name == ModelCacheNodeName(lower, hash, x.c.namespace, x.c.name, node)
  {
    hide IsLabelValue, ModelCacheNodeName, Refs, Caches, Selected, LabelValue;
    var nodes := ObjectsOf(lower, hash, placed);
    forall x | x in placed ensures x.c in Refs(volumes) <==> x.c in Caches(volumes) { RefsExactly(volumes, x.c); }
    if name in Woken(lower, hash, nodes, Refs(volumes), failing, node) {
      var n, c :| n in nodes && c in Refs(volumes) && c !in failing && Selected(lower, hash, n, c, node)
          && n.name == name;
      var i :| 0 <= i < |nodes| && nodes[i] == n;
      SelectedExactly(lower, hash, placed[i], c, node);
      assert placed[i] in placed;
    }
    if x :| x in placed && x.node == node && x.c in Caches(volumes) && x.c !in failing
            && name == ModelCacheNodeName(lower, hash, x.c.namespace, x.c.name, node) {
      var i :| 0 <= i < |placed| && placed[i] == x;
      SelectedExactly(lower, hash, x, x.c, node);
      assert nodes[i] in nodes && Selected(lower, hash, nodes[i], x.c, node);
    }
  }
}
