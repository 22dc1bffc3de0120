/** The CSI driver's side of the marker protocol: it binds only what carries the marker. */
module CsiDrivers {
  import opened Common
  import opened Paths
  import opened LocalProtocol
  import opened LocalTheorems
  import LocalWitnesses
  import opened Clusters
  import opened Usage
  import Downloads

  /** The gRPC codes the driver answers with. */
  datatype Code = InvalidArgument | NotFound | FailedPrecondition | Internal

  /** The cache root of the configuration; the empty one stands for the default. */
  type CacheRoot = s: string | s == "" || IsAbs(s) witness ""

  /** The marker is there, with the manifest of the ModelCache that exists and every file of the download. */
  ghost predicate HoldsCompleteCache(s: State, k: NodeKey) {
    && k in s.disks && k.cache in s.caches
    && MarkerFile in s.disks[k] && ManifestFile in s.disks[k]
    && s.disks[k][ManifestFile] == Manifest(s.caches[k.cache].uid, s.caches[k.cache].source)
    && forall j :: 0 <= j < |HistoryOf(s, k).files| ==>
         var f := HistoryOf(s, k).files[j];
         && f in s.disks[k] && LastWrite(HistoryOf(s, k).log, f).Some?
         && s.disks[k][f] == Data(LastWrite(HistoryOf(s, k).log, f).value)
  }

  // ---------------------------------------------- what a node's disk answers

  /** What `os.Stat` finds at a path. */
  datatype Stat = Missing | File | Directory

  predicate FilesBelow(dir: Dir, name: string) {
    exists e :: e in dir && e.ModelFile? && Below(e.path, name)
  }

  /**
   What the disk of the node may answer at a place. Within a cache's directory that is settled by
   its files, except that a failed download may leave empty directories; elsewhere it is open.
   */
  predicate Answers(s: State, node: NodeId, p: Place, r: Stat) {
    match p
    case Elsewhere => true
    case Within(c, rest) =>
      var k := NodeKey(c, node);
      if k !in s.disks then r == Missing
      else if rest == [] then r == Directory
      else if EntryNamed(Join(rest)) in s.disks[k] then r == File
      else if FilesBelow(s.disks[k], Join(rest)) then r == Directory
      else r != File
  }

  /** Where the marker of a directory would be. */
  function MarkerOf(path: string): string { path + "/" + COMPLETE_FILE }

  lemma MarkerPlace(root: CacheRoot, path: string)
    requires IsAbs(path) && PlaceOf(root, path).Within?
    ensures
      var p := PlaceOf(root, path);
      PlaceOf(root, MarkerOf(path)) == Within(p.cache, p.rest + [COMPLETE_FILE])
  {
    hide Resolved, RootSegments, PlaceOf;
    var p := PlaceOf(root, path);
    assert Proper(COMPLETE_FILE) by { NoSlashInMarker(); }
    OneSegmentBelow(path, COMPLETE_FILE);
    PlaceExactly(root, path, p.cache, p.rest);
    PlaceExactly(root, MarkerOf(path), p.cache, p.rest + [COMPLETE_FILE]);
    assert Resolved(path) + [COMPLETE_FILE]
      == RootSegments(root) + [p.cache.namespace, p.cache.name] + (p.rest + [COMPLETE_FILE]);
  }

  lemma NoSlashInMarker()
    ensures NoSlash(COMPLETE_FILE)
  {
  }

  /** The file that stands for the marker at a place within a cache's directory. */
  function MarkerAt(rest: seq<string>): Entry { EntryNamed(Join(rest + [COMPLETE_FILE])) }

  /** Only at the directory itself is that the marker; below it, it is a file of the repository. */
  lemma MarkerAtExactly(rest: seq<string>)
    ensures if rest == [] then MarkerAt(rest) == MarkerFile
            else MarkerAt(rest) == ModelFile(MarkerOf(Join(rest)))
  {
    if rest != [] {
      JoinConcat(rest, [COMPLETE_FILE]);
      var name := MarkerOf(Join(rest));
      assert name[|Join(rest)|] == '/';
      assert '/' in name;
    }
  }

  class NodeServer {
    const cluster: Cluster
    const node: NodeId
    const cacheRoot: CacheRoot
    /** The bind mounts: target path to source path. */
    var mounts: map<string, string>
    /** Which system calls fail, in the order in which the requests make them. */
    const faults: nat -> bool
    var calls: nat

    constructor (cluster: Cluster, node: NodeId, cacheRoot: CacheRoot, faults: nat -> bool)
      ensures this.cluster == cluster && this.node == node && this.cacheRoot == cacheRoot && this.faults == faults
      ensures mounts == map[]
    {
      this.cluster, this.node, this.cacheRoot, this.faults := cluster, node, cacheRoot, faults;
      mounts, calls := map[], 0;
    }

    /** A system call since call number `from` has failed. */
    ghost predicate Failed(from: nat)
      reads this`calls
    {
      Faulty(faults, from, calls)
    }

    /** Looks at a path. */
    method Look(path: string) returns (r: Stat)
      ensures Answers(cluster.Now(), node, PlaceOf(cacheRoot, path), r)
    {
      match PlaceOf(cacheRoot, path)
      case Elsewhere => r := *;
      case Within(c, rest) =>
        var k := NodeKey(c, node);
        if k !in cluster.disks { return Missing; }
        if rest == [] { return Directory; }
        if EntryNamed(Join(rest)) in cluster.disks[k] { return File; }
        if FilesBelow(cluster.disks[k], Join(rest)) { return Directory; }
        var leftEmpty: bool := *;
        r := if leftEmpty then Directory else Missing;
    }

    /** A system call: whether it fails is settled by `faults`. */
    method Fails() returns (fails: bool)
      modifies this`calls
      ensures calls == old(calls) + 1 && fails == faults(old(calls))
    {
      fails := faults(calls);
      calls := calls + 1;
    }

    /** Any number of steps of the rest of the system, on any cache. */
    method Others()
      requires cluster.Valid()
      modifies cluster
      ensures cluster.Valid() && Grew(old(cluster.run), cluster.run)
    {
      Growth<State, Event>();
    }

    lemma CheckedNow()
      requires cluster.Valid()
      ensures |cluster.run.states| == |cluster.run.events| + 1
      ensures cluster.run.states[|cluster.run.events|] == cluster.Now()
    {
    }

    /** At some moment since `r0` the disk could have answered that. */
    ghost predicate Answered(r0: LocalRun, path: string, r: Stat)
      reads cluster
    {
      exists i :: |r0.events| <= i < |cluster.run.states|
        && Answers(cluster.run.states[i], node, PlaceOf(cacheRoot, path), r)
    }

    lemma AnsweredNow(r0: LocalRun, path: string, r: Stat)
      requires cluster.Valid() && Grew(r0, cluster.run)
      requires Answers(cluster.Now(), node, PlaceOf(cacheRoot, path), r)
      ensures Answered(r0, path, r)
    {
      hide Answers, PlaceOf;
      CheckedNow();
      assert cluster.run.states[|cluster.run.events|] == cluster.Now();
    }

    /** At some moment since `r0` there was no directory. */
    ghost predicate WasMissing(r0: LocalRun, path: string)
      reads cluster
    {
      Answered(r0, path, Missing) || Answered(r0, path, File)
    }

    /** At some moments since `r0` there were a directory and a marker in it. */
    ghost predicate WasComplete(r0: LocalRun, path: string)
      reads cluster
    {
      Answered(r0, path, Directory) && Answered(r0, MarkerOf(path), File)
    }

    /**
     Why a request was refused: there was no directory, or a directory but no marker in it, or a system call
     failed, or else the directory went away after both had been seen.
     */
    ghost predicate Refuses(code: Code, r0: LocalRun, path: string, failed: bool)
      reads cluster
    {
      match code
      case InvalidArgument => true
      case NotFound => WasMissing(r0, path)
      case FailedPrecondition =>
        && Answered(r0, path, Directory)
        && (Answered(r0, MarkerOf(path), Missing) || Answered(r0, MarkerOf(path), Directory))
      case Internal => failed || (WasComplete(r0, path) && WasMissing(r0, path))
    }

    /**
     Since `r0` the directory of a cache was seen complete, and it still is, unless an agent
     removed it in between (see `RemovedBetween`).
     */
    ghost predicate SeenComplete(r0: LocalRun, k: NodeKey)
      requires cluster.Valid()
      reads cluster
    {
      exists i :: |r0.events| <= i < |cluster.run.states| && HoldsCompleteCache(cluster.run.states[i], k)
        && (HoldsCompleteCache(cluster.Now(), k)
            || RemovedBetween(cluster.run.states, cluster.run.events, i, |cluster.run.events|, k))
    }

    ghost predicate SeenFile(r0: LocalRun, k: NodeKey, e: Entry)
      reads cluster
    {
      exists i :: |r0.events| <= i < |cluster.run.states|
        && k in cluster.run.states[i].disks && e in cluster.run.states[i].disks[k]
    }

    /**
     What a new bind mount of a path rests on. At the directory of a cache, the marker and all it
     stands for; below it, no more than a file of the repository with the marker's name; elsewhere
     nothing is known. In every case there is a directory now.
     */
    ghost predicate Justifies(r0: LocalRun, path: string)
      requires cluster.Valid()
      reads cluster
    {
      && Answers(cluster.Now(), node, PlaceOf(cacheRoot, path), Directory)
      && match PlaceOf(cacheRoot, path)
         case Elsewhere => true
         case Within(c, rest) =>
           if rest == [] then SeenComplete(r0, NodeKey(c, node))
           else SeenFile(r0, NodeKey(c, node), ModelFile(MarkerOf(Join(rest))))
    }

    /** Where the cache that a volume names lies on this node. */
    function SourcePath(volumeContext: map<string, string>): string {
      CsiPath(cacheRoot, Get(volumeContext, CSI_NAMESPACE), Get(volumeContext, CSI_NAME))
    }

    /** Publishes a volume, whatever its attributes contain. Others may move between any two of its system calls. */
    method NodePublishVolume(targetPath: string, volumeContext: map<string, string>) returns (r: Result<(), Code>)
      requires cluster.Valid()
      modifies this, cluster
      ensures cluster.Valid() && Grew(old(cluster.run), cluster.run)
      ensures targetPath == "" || Get(volumeContext, CSI_NAMESPACE) == "" || Get(volumeContext, CSI_NAME) == "" <==>
        r == Err(InvalidArgument)
      ensures Failed(old(calls)) ==> r == Err(Internal)
      ensures r.Err? ==>
        mounts == old(mounts) && Refuses(r.error, old(cluster.run), SourcePath(volumeContext), Failed(old(calls)))
      ensures r.Ok? ==> WasComplete(old(cluster.run), SourcePath(volumeContext))
      ensures r.Ok? && targetPath in old(mounts) ==> mounts == old(mounts)
      ensures r.Ok? && targetPath !in old(mounts) ==>
        && mounts == old(mounts)[targetPath := SourcePath(volumeContext)]
        && Justifies(old(cluster.run), SourcePath(volumeContext))
      ensures
        var namespace, name := Get(volumeContext, CSI_NAMESPACE), Get(volumeContext, CSI_NAME);
        r.Ok? && targetPath !in old(mounts) && Proper(namespace) && Proper(name) ==>
          SeenComplete(old(cluster.run), NodeKey(CacheKey(namespace, name), node))
    {
      hide Grew, RunTo, StatusesValid, Explained, Answers, PlaceOf, CsiPath, Answered, Justifies, SeenComplete;
      Growth<State, Event>();
      if targetPath == "" { return Err(InvalidArgument); }
      var namespace, name := Get(volumeContext, CSI_NAMESPACE), Get(volumeContext, CSI_NAME);
      if namespace == "" || name == "" { return Err(InvalidArgument); }
      var sourcePath := CsiPath(cacheRoot, namespace, name);
      SourcePathResolves(cacheRoot, namespace, name);
      r := Publish(sourcePath, targetPath);
      if Justifies(old(cluster.run), sourcePath) && Proper(namespace) && Proper(name) {
        ProperIsComplete(old(cluster.run), namespace, name);
      }
    }

    lemma ProperIsComplete(r0: LocalRun, namespace: string, name: string)
      requires cluster.Valid() && Proper(namespace) && Proper(name)
      requires Justifies(r0, CsiPath(cacheRoot, namespace, name))
      ensures SeenComplete(r0, NodeKey(CacheKey(namespace, name), node))
    {
      hide PlaceOf, CsiPath, SeenComplete;
      ProperAttributes(cacheRoot, namespace, name);
    }

    /** Publishes the source path. */
    method Publish(sourcePath: string, targetPath: string) returns (r: Result<(), Code>)
      requires cluster.Valid() && IsAbs(sourcePath)
      modifies this`mounts, this`calls, cluster
      ensures cluster.Valid() && Grew(old(cluster.run), cluster.run)
      ensures r != Err(InvalidArgument) && (Failed(old(calls)) ==> r == Err(Internal))
      ensures r.Err? ==> mounts == old(mounts) && Refuses(r.error, old(cluster.run), sourcePath, Failed(old(calls)))
      ensures r.Ok? ==> WasComplete(old(cluster.run), sourcePath)
      ensures r.Ok? && targetPath in old(mounts) ==> mounts == old(mounts)
      ensures r.Ok? && targetPath !in old(mounts) ==>
        mounts == old(mounts)[targetPath := sourcePath] && Justifies(old(cluster.run), sourcePath)
    {
      hide Grew, RunTo, StatusesValid, Explained, Answers, PlaceOf;
      Growth<State, Event>();
      Others();
      var found := Look(sourcePath);
      var unreadable := Fails();
      if unreadable { return Err(Internal); }
      AnsweredNow(old(cluster.run), sourcePath, found);
      if found != Directory { return Err(NotFound); }
      Others();
      AnsweredBefore(old(cluster.run));
      r := CheckAndBind(sourcePath, targetPath, old(cluster.run));
    }

    /** Looks for the marker. */
    method CacheComplete(path: string) returns (r: Result<Stat, Code>)
      modifies this`calls
      ensures (r.Err? <==> Failed(old(calls))) && old(calls) <= calls
      ensures r.Err? ==> r.error == Internal
      ensures r.Ok? ==> Answers(cluster.Now(), node, PlaceOf(cacheRoot, MarkerOf(path)), r.value)
    {
      hide Answers, PlaceOf, MarkerOf;
      var unreadable := Fails();
      if unreadable { return Err(Internal); }
      var found := Look(MarkerOf(path));
      r := Ok(found);
    }

    /** The marker check, then the bind mount. */
    method CheckAndBind(sourcePath: string, targetPath: string, ghost r0: LocalRun) returns (r: Result<(), Code>)
      requires cluster.Valid() && Grew(r0, cluster.run) && IsAbs(sourcePath)
      requires Answered(r0, sourcePath, Directory)
      modifies this`mounts, this`calls, cluster
      ensures cluster.Valid() && Grew(old(cluster.run), cluster.run)
      ensures r.Err? ==> r.error == Internal || r.error == FailedPrecondition
      ensures (Failed(old(calls)) ==> r == Err(Internal)) && old(calls) <= calls
      ensures r.Err? ==> mounts == old(mounts) && Refuses(r.error, r0, sourcePath, Failed(old(calls)))
      ensures r.Ok? ==> WasComplete(r0, sourcePath)
      ensures r.Ok? && targetPath in old(mounts) ==> mounts == old(mounts)
      ensures r.Ok? && targetPath !in old(mounts) ==>
        mounts == old(mounts)[targetPath := sourcePath] && Justifies(r0, sourcePath)
    {
      hide Grew, RunTo, StatusesValid, Explained, Answers, PlaceOf;
      Growth<State, Event>();
      var marker := CacheComplete(sourcePath);
      if marker.Err? { return Err(marker.error); }
      AnsweredNow(r0, MarkerOf(sourcePath), marker.value);
      if marker.value != File {
        assert marker.value == Missing || marker.value == Directory;
        return Err(FailedPrecondition);
      }
      ghost var checked := cluster.run;
      CheckedNow();
      var isNew;
      r, isNew := BindMount(sourcePath, targetPath, r0);
      if isNew { Justified(r0, checked, sourcePath); }
    }

    /** Bind mounts the source unless the target is a mount point; the mount needs the source to be there. */
    method BindMount(sourcePath: string, targetPath: string, ghost r0: LocalRun)
      returns (r: Result<(), Code>, isNew: bool)
      requires cluster.Valid() && Grew(r0, cluster.run) && WasComplete(r0, sourcePath)
      modifies this`mounts, this`calls, cluster
      ensures cluster.Valid() && Grew(old(cluster.run), cluster.run)
      ensures WasComplete(r0, sourcePath)
      ensures r.Err? ==> r.error == Internal && (Failed(old(calls)) || WasMissing(r0, sourcePath))
      ensures (Failed(old(calls)) ==> r.Err?) && old(calls) <= calls
      ensures isNew <==> r.Ok? && targetPath !in old(mounts)
      ensures mounts == if isNew then old(mounts)[targetPath := sourcePath] else old(mounts)
      ensures isNew ==> Answers(cluster.Now(), node, PlaceOf(cacheRoot, sourcePath), Directory)
    {
      hide Grew, RunTo, StatusesValid, Explained, Answers, PlaceOf;
      Growth<State, Event>();
      r, isNew := Err(Internal), false;
      var there := SourceIsThere(sourcePath, r0);
      if !there { return; }
      if targetPath in mounts { return Ok(()), false; }
      there := SourceIsThere(sourcePath, r0);
      if !there { return; }
      mounts := mounts[targetPath := sourcePath];
      return Ok(()), true;
    }

    /** A look at the source, after whatever others have done to it. */
    method SourceIsThere(sourcePath: string, ghost r0: LocalRun) returns (there: bool)
      requires cluster.Valid() && Grew(r0, cluster.run) && WasComplete(r0, sourcePath)
      modifies this`calls, cluster
      ensures cluster.Valid() && Grew(old(cluster.run), cluster.run)
      ensures WasComplete(r0, sourcePath) && calls == old(calls) + 1
      ensures faults(old(calls)) ==> !there
      ensures !there ==> faults(old(calls)) || WasMissing(r0, sourcePath)
      ensures there ==> Answers(cluster.Now(), node, PlaceOf(cacheRoot, sourcePath), Directory)
    {
      hide Grew, RunTo, StatusesValid, Explained, Answers, PlaceOf;
      Growth<State, Event>();
      Others();
      AnsweredBefore(r0);
      var source := Look(sourcePath);
      AnsweredNow(r0, sourcePath, source);
      var fails := Fails();
      there := !fails && source == Directory;
    }

    /** What could be answered at some moment of a run still could, at that moment of a longer one. */
    twostate lemma AnsweredBefore(r0: LocalRun)
      requires Grew(old(cluster.run), cluster.run)
      ensures forall path, r :: old(Answered(r0, path, r)) ==> Answered(r0, path, r)
    {
    }

    /** The marker was found in the last state of `checked`, so the mount that followed is justified. */
    lemma Justified(r0: LocalRun, checked: LocalRun, path: string)
      requires cluster.Valid() && Grew(r0, checked) && Grew(checked, cluster.run) && IsAbs(path)
      requires |checked.states| == |checked.events| + 1
      requires Answers(checked.states[|checked.events|], node, PlaceOf(cacheRoot, MarkerOf(path)), File)
      requires Answers(cluster.Now(), node, PlaceOf(cacheRoot, path), Directory)
      ensures Justifies(r0, path)
    {
      hide RunTo, PlaceOf, Resolved, HoldsCompleteCache, RemovedBetween;
      var p := PlaceOf(cacheRoot, path);
      if p.Within? {
        var k, i := NodeKey(p.cache, node), |checked.events|;
        MarkerPlace(cacheRoot, path);
        MarkerAtExactly(p.rest);
        assert k in checked.states[i].disks && MarkerAt(p.rest) in checked.states[i].disks[k];
        if p.rest == [] { StillComplete(r0, checked, k); }
        else { assert cluster.run.states[i] == checked.states[i]; }
      }
    }

    lemma StillComplete(r0: LocalRun, checked: LocalRun, k: NodeKey)
      requires cluster.Valid() && Grew(r0, checked) && Grew(checked, cluster.run)
      requires |checked.states| == |checked.events| + 1
      requires HasMarker(checked.states[|checked.events|], k)
      ensures SeenComplete(r0, k)
    {
      hide RunTo;
      var i, n := |checked.events|, |cluster.run.events|;
      CheckedNow();
      assert IsRun(cluster.run.states, cluster.run.events) by { IsRunNow(); }
      assert cluster.run.states[i] == checked.states[i];
      MarkerInvariant(cluster.run.states, cluster.run.events, i, k);
      MarkerStaysExactly(cluster.run.states, cluster.run.events, i, n, k);
      if !RemovedBetween(cluster.run.states, cluster.run.events, i, n, k) {
        assert HasMarker(cluster.run.states[n], k);
        MarkerInvariant(cluster.run.states, cluster.run.events, n, k);
      }
    }

    lemma IsRunNow()
      requires cluster.Valid()
      ensures IsRun(cluster.run.states, cluster.run.events)
    {
    }

    /** Takes a bind mount away; a target that is none is fine. */
    method NodeUnpublishVolume(targetPath: string) returns (r: Result<(), Code>)
      modifies this
      ensures r == Err(InvalidArgument) <==> targetPath == ""
      ensures r == Err(Internal) <==> Failed(old(calls))
      ensures mounts == if r.Ok? then old(mounts) - {targetPath} else old(mounts)
    {
      if targetPath == "" { return Err(InvalidArgument); }
      var stuck := Fails();
      if stuck { return Err(Internal); }
      mounts := mounts - {targetPath};
      r := Ok(());
    }
  }

  // ------------------------------------- a file of the repository as the marker

  /** The disk answers so and in no other way. */
  predicate Finds(s: State, node: NodeId, p: Place, r: Stat) {
    Answers(s, node, p, r) && forall r' :: Answers(s, node, p, r') ==> r' == r
  }

  /**
   Below a cache's directory the check means less: with a repository file of the marker's name in
   a subdirectory, a volume whose namespace attribute has a slash leads to that subdirectory, and
   the checks of a publish succeed there while the download is still under way.
   */
  lemma ARepositoryFileCountsAsMarker(root: CacheRoot, k: NodeKey, o: CacheObj, id: string, sub: string)
    returns (s: State)
    requires o.finalizer && !o.deleting && Proper(k.cache.namespace) && Proper(k.cache.name)
    requires Proper(sub) && EntryNamed(sub).ModelFile?
    ensures LocalWitnesses.Reached(s) && k in s.disks && MarkerFile !in s.disks[k]
    ensures Downloads.EntryOf(MarkerOf(sub)) == Some(ModelFile(MarkerOf(sub))) && Listable([ModelFile(MarkerOf(sub))])
    ensures
      var path := CsiPath(root, k.cache.namespace + "/" + k.cache.name, sub);
      && PlaceOf(root, path) == Within(k.cache, [sub])
      && Finds(s, k.node, PlaceOf(root, path), Directory)
      && Finds(s, k.node, PlaceOf(root, MarkerOf(path)), File)
  {
    hide CsiPath, PlaceOf, Resolved, RootSegments, EntryNamed;
    var e, ns := ModelFile(MarkerOf(sub)), k.cache.namespace + "/" + k.cache.name;
    RepositoryFile(sub);
    s := LocalWitnesses.ADownloadOpens(k, o, id, e);
    ASlashLeadsBelow(root, k.cache.namespace, k.cache.name, sub);
    SourcePathResolves(root, ns, sub);
    MarkerPlace(root, CsiPath(root, ns, sub));
    MarkerAtExactly([sub]);
    assert Join([sub]) == sub && FilesBelow(s.disks[k], sub);
    assert e.path != sub && EntryNamed(sub) == ModelFile(sub) by { NamedAlike(sub); }
  }

  lemma NamedAlike(name: string)
    requires EntryNamed(name).ModelFile?
    ensures EntryNamed(name) == ModelFile(name) && MarkerOf(name) != name
  {
    assert |MarkerOf(name)| > |name|;
  }

  /** The repository may list such a file, and it is taken as it is. */
  lemma RepositoryFile(sub: string)
    requires Proper(sub) && EntryNamed(sub).ModelFile?
    ensures Downloads.EntryOf(MarkerOf(sub)) == Some(ModelFile(MarkerOf(sub))) && Listable([ModelFile(MarkerOf(sub))])
  {
    RepositoryPath(sub);
    hide Downloads.EntryOf;
    NotBelow(sub, OWNER_FILE);
    NotBelow(sub, MANIFEST_FILE);
    NotBelow(sub, COMPLETE_FILE);
  }

  lemma RepositoryPath(sub: string)
    requires Proper(sub) && EntryNamed(sub).ModelFile?
    ensures Downloads.EntryOf(MarkerOf(sub)) == Some(ModelFile(MarkerOf(sub)))
  {
    var path := MarkerOf(sub);
    SplitConcat(sub, COMPLETE_FILE);
    SplitWhole(sub);
    NoSlashInMarker();
    SplitWhole(COMPLETE_FILE);
    assert path[0] == sub[0] && sub[0] in sub;
    ResolvePlain([sub, COMPLETE_FILE], false, []);
    KeptProper([sub, COMPLETE_FILE]);
    assert Split(path) == [sub, COMPLETE_FILE];
    RelativePathGoesDown(path);
    assert Join([sub, COMPLETE_FILE]) == path;
    MarkerAtExactly([sub]);
  }

  lemma NotBelow(sub: string, own: string)
    requires NoSlash(sub) && NoSlash(own) && sub != own
    ensures !Below(MarkerOf(sub), own)
  {
    if |own| < |sub| {
      assert sub[|own|] in sub;
    } else if |sub| < |own| {
      assert own[|sub|] in own;
    }
    assert MarkerOf(sub)[|sub|] == '/' && MarkerOf(sub)[..|sub|] == sub;
  }
}
