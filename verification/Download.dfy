/** From the repository's listing to files of the cache directory, and the names Praesto keeps for itself. */
module Downloads {
  import opened Common
  import opened Paths
  import opened LocalProtocol

  /** An entry of the repository tree. */
  datatype TreeEntry = TreeEntry(kind: string, path: string)

  function Files(entries: seq<TreeEntry>): seq<string> {
    if entries == [] then []
    else
      var e := entries[|entries| - 1];
      Files(entries[..|entries| - 1]) + if e.kind == "file" && CleanRelativePath(e.path) != "" then [e.path] else []
  }

  /** Keeps the files with a usable path. */
  method ListFiles(entries: seq<TreeEntry>) returns (files: seq<string>)
    ensures files == Files(entries)
    ensures forall f :: f in files <==> CleanRelativePath(f) != "" && TreeEntry("file", f) in entries
  {
    files := [];
    for i := 0 to |entries|
      invariant files == Files(entries[..i])
      invariant forall f :: f in files <==> CleanRelativePath(f) != "" && TreeEntry("file", f) in entries[..i]
    {
      assert entries[..i + 1][..i] == entries[..i];
      assert forall e :: e in entries[..i + 1] <==> e in entries[..i] || e == entries[i];
      var e := entries[i];
      if e.kind == "file" && CleanRelativePath(e.path) != "" {
        files := files + [e.path];
      }
    }
    assert entries[..|entries|] == entries;
  }

  /** The file of the cache directory that a listed file is written to, or nothing if its path is refused. */
  function EntryOf(path: string): Option<Entry> {
    var clean := CleanRelativePath(path);
    if clean == "" then None else Some(EntryNamed(clean))
  }

  /** The download has a destination for it. */
  predicate Accepted(path: string) { EntryOf(path).Some? }

  /** What the listing keeps, the download accepts: each kept file has a destination. */
  lemma {:induction false} KeptFilesAreAccepted(entries: seq<TreeEntry>)
    ensures forall i :: 0 <= i < |Files(entries)| ==> Accepted(Files(entries)[i])
  {
    if entries != [] {
      KeptFilesAreAccepted(entries[..|entries| - 1]);
    }
  }

  function EntriesOf(files: seq<string>): seq<Entry>
    requires forall i :: 0 <= i < |files| ==> Accepted(files[i])
  {
    seq(|files|, i requires 0 <= i < |files| && Accepted(files[i]) => EntryOf(files[i]).value)
  }

  /** Two listed files share an entry exactly when they land on the same file below any target. */
  lemma EntriesMatchDestinations(target: string, a: string, b: string)
    requires IsAbs(target) && EntryOf(a).Some? && EntryOf(b).Some?
    ensures
      EntryOf(a) == EntryOf(b)
      <==> Destination(target, CleanRelativePath(a)) == Destination(target, CleanRelativePath(b))
  {
    EntryIsCleanPath(a, b);
    hide EntryOf, CleanRelativePath;
    DestinationsAgree(target, a, b);
  }

  lemma EntryIsCleanPath(a: string, b: string)
    requires EntryOf(a).Some? && EntryOf(b).Some?
    ensures CleanRelativePath(a) != "" && CleanRelativePath(b) != ""
    ensures EntryOf(a) == EntryOf(b) <==> CleanRelativePath(a) == CleanRelativePath(b)
  {
    hide CleanRelativePath;
  }

  /** At or below one of the names that Praesto keeps for itself. */
  predicate Reserved(path: string) {
    var clean := CleanRelativePath(path);
    clean in {OWNER_FILE, MANIFEST_FILE, COMPLETE_FILE} || BelowOwn(clean)
  }

  lemma EntryKind(path: string)
    requires EntryOf(path).Some?
    ensures Reserved(path) <==> !EntryOf(path).value.ModelFile? || BelowOwn(EntryOf(path).value.path)
    ensures EntryOf(path).value == MarkerFile <==> CleanRelativePath(path) == COMPLETE_FILE
  {
    hide CleanRelativePath;
    assert OWNER_FILE[9] != MANIFEST_FILE[9] && OWNER_FILE[9] != COMPLETE_FILE[9]
        && MANIFEST_FILE[9] != COMPLETE_FILE[9];
  }

  /** The protocol's assumption on listings, said of the paths: no kept file lies at or below Praesto's own. */
  lemma ListableExactly(files: seq<string>)
    requires forall i :: 0 <= i < |files| ==> Accepted(files[i])
    ensures Listable(EntriesOf(files)) <==> forall i :: 0 <= i < |files| ==> !Reserved(files[i])
  {
    hide CleanRelativePath, BelowOwn, EntryOf, Reserved;
    var entries := EntriesOf(files);
    forall i | 0 <= i < |files|
      ensures entries[i].ModelFile? && !BelowOwn(entries[i].path) <==> !Reserved(files[i])
    {
      EntryKind(files[i]);
      assert Some(entries[i]) == EntryOf(files[i]);
    }
  }

  // ------------------------------------------ a listing that is not as assumed

  /** A download of `entries` under way in the protocol. */
  predicate Fetching(v: View, entries: seq<Entry>) {
    && v.dir.Some?
    && match v.pc
       case Fetch(_, files, log) => files == entries && |log| <= |entries|
       case Copy(_, files, log, _) => files == entries && |log| < |entries|
       case ManifestOpen(_, files, log) => files == entries && |log| == |entries|
       case _ => false
  }

  /** How many of the files have been opened. */
  function FilesOpened(pc: AgentPc): nat {
    match pc
    case Fetch(_, _, log) => |log|
    case Copy(_, _, log, _) => |log| + 1
    case ManifestOpen(_, _, log) => |log|
    case _ => 0
  }

  lemma FetchingGoesOn(v: View, w: View, entries: seq<Entry>)
    requires Fetching(v, entries) && FetchStep(v, w)
    requires MarkerFile in v.dir.value <==> MarkerFile in entries[..FilesOpened(v.pc)]
    ensures Fetching(w, entries)
    ensures MarkerFile in w.dir.value <==> MarkerFile in entries[..FilesOpened(w.pc)]
  {
    if v.pc.Fetch? && w.pc.Copy? {
      var n := |v.pc.log|;
      assert entries[..n + 1] == entries[..n] + [entries[n]];
    }
  }

  /** Any stretch of a download's steps from its start, whatever was listed. */
  ghost predicate IsDownload(views: seq<View>, files: seq<string>) {
    && |views| > 0 && (forall i :: 0 <= i < |files| ==> Accepted(files[i]))
    && views[0].dir.Some? && views[0].pc.Fetch? && views[0].pc.files == EntriesOf(files) && views[0].pc.log == []
    && (forall i :: 0 < i < |views| ==> FetchStep(views[i - 1], views[i]))
  }

  lemma {:induction false} MarkerIsOpened(views: seq<View>, files: seq<string>, i: nat)
    requires IsDownload(views, files) && MarkerFile !in views[0].dir.value && i < |views|
    ensures Fetching(views[i], EntriesOf(files))
    ensures MarkerFile in views[i].dir.value <==> MarkerFile in EntriesOf(files)[..FilesOpened(views[i].pc)]
  {
    hide FetchStep;
    if i > 0 {
      MarkerIsOpened(views, files, i - 1);
      FetchingGoesOn(views[i - 1], views[i], EntriesOf(files));
    }
  }

  lemma OpenedBound(v: View, entries: seq<Entry>)
    requires Fetching(v, entries)
    ensures FilesOpened(v.pc) <= |entries|
  {
  }

  /** The marker is among the first entries exactly if one of their files is named like it. */
  lemma MarkerAmong(files: seq<string>, n: nat)
    requires n <= |files| && forall i :: 0 <= i < |files| ==> Accepted(files[i])
    ensures MarkerFile in EntriesOf(files)[..n] <==>
      exists m :: 0 <= m < n && CleanRelativePath(files[m]) == COMPLETE_FILE
  {
    hide CleanRelativePath, EntryOf;
    var entries := EntriesOf(files);
    forall m | 0 <= m < n ensures entries[m] == MarkerFile <==> CleanRelativePath(files[m]) == COMPLETE_FILE {
      EntryKind(files[m]);
      assert Some(entries[m]) == EntryOf(files[m]);
    }
    if m :| 0 <= m < n && CleanRelativePath(files[m]) == COMPLETE_FILE {
      assert entries[..n][m] == MarkerFile;
    }
    if MarkerFile in entries[..n] {
      var m :| 0 <= m < n && entries[..n][m] == MarkerFile;
      assert CleanRelativePath(files[m]) == COMPLETE_FILE;
    }
  }

  /**
   Why the assumption is needed: without it, a download puts the completion marker in place
   itself, and does so if and only if a file opened so far is named like it.
   */
  lemma MarkerForgedExactly(views: seq<View>, files: seq<string>, i: nat)
    requires IsDownload(views, files) && MarkerFile !in views[0].dir.value && i < |views|
    ensures Fetching(views[i], EntriesOf(files)) && FilesOpened(views[i].pc) <= |files|
    ensures MarkerFile in views[i].dir.value <==>
      exists m :: 0 <= m < FilesOpened(views[i].pc) && CleanRelativePath(files[m]) == COMPLETE_FILE
  {
    hide CleanRelativePath, FetchStep, EntryOf, FilesOpened;
    MarkerIsOpened(views, files, i);
    OpenedBound(views[i], EntriesOf(files));
    MarkerAmong(files, FilesOpened(views[i].pc));
  }

  /** Such a name need not look like it: below any directory, `..` leads back to it. */
  lemma AForgedMarkerInDisguise(x: string)
    requires Proper(x)
    ensures EntryOf(x + "/" + (".." + "/" + COMPLETE_FILE)) == Some(MarkerFile)
  {
    hide EntryNamed, Reserved;
    var path := x + "/" + (".." + "/" + COMPLETE_FILE);
    SplitConcat(x, ".." + "/" + COMPLETE_FILE);
    SplitConcat("..", COMPLETE_FILE);
    SplitWhole(x);
    SplitWhole("..");
    SplitWhole(COMPLETE_FILE);
    assert Split(path) == [x] + ([".."] + [COMPLETE_FILE]);
    StepsBack(x);
    assert !IsAbs(path) by { assert path[0] == x[0] && x[0] in x; }
    assert Resolved(path) == [COMPLETE_FILE];
    RelativePathGoesDown(path);
    assert CleanRelativePath(path) == COMPLETE_FILE;
    EntryKind(path);
  }

  lemma StepsBack(x: string)
    requires Proper(x)
    ensures Resolve([x] + ([".."] + [COMPLETE_FILE]), false, []) == [COMPLETE_FILE]
  {
    ResolveConcat([x], [".."] + [COMPLETE_FILE], false, []);
    ResolveConcat([".."], [COMPLETE_FILE], false, [x]);
    ResolvePlain([x], false, []);
    ResolvePlain([COMPLETE_FILE], false, []);
  }
}
