/** Operations of the filesystem repository that are cut short: what readers find, and what a new process can go on
    from. */
module DiskCrashes {
  import opened Sequences
  import opened Store
  import opened Disk
  import opened StubFiles
  import opened DiskView
  import opened DiskOperations

  // ---------- Operations that are safe ----------

  lemma RemovesOnly(paths: seq<Path>)
    ensures forall a :: a in Removes(paths) ==> a.Remove?
    ensures WritesAside(Removes(paths))
  {
  }

  /** A header is committed by one renaming. */
  lemma HeaderCommits(d: Files, first: seq<Action>, port: int, info: Info, hs: seq<StubHeader>, after: seq<Action>)
    requires QuietScript(d, first) && QuietScript(DoAll(d, first + HeaderScript(port, info, hs)), after)
    requires WritesAside(first) && WritesAside(after)
    ensures CrashSafe(d, first + HeaderScript(port, info, hs) + after)
    ensures WritesAside(first + HeaderScript(port, info, hs) + after)
  {
    hide DoAll, CrashSafe, SameLoads;
    var script := HeaderScript(port, info, hs);
    var before := first + [script[0], script[1]];
    assert before + [script[2]] == first + script;
    OneCommit(d, before, script[2], after);
  }

  /** Wherever adding a stub is cut short, readers find the imposter without it or with it. */
  lemma AddStubIsCrashSafe(d: Files, port: int, stub: Stub, index: int, dir: Name, files: seq<Name>)
    requires HeaderFile(port) in d && ReadHeader(d, port).Header? && !Refers(d, port, dir)
    requires |stub.responses| == |files|
    ensures CrashSafe(d, AddStubScript(port, ReadHeader(d, port), stub, index, dir, files))
  {
    hide CrashSafe, StubScript, DoAll;
    var header := ReadHeader(d, port);
    var hs := Inserted(header.stubs, index, StubHeader(stub.predicates, dir));
    StubScriptStays(port, stub, dir, files);
    HeaderCommits(d, StubScript(port, stub, dir, files), port, header.info, hs, []);
    assert StubScript(port, stub, dir, files) + HeaderScript(port, header.info, hs) + [] ==
           AddStubScript(port, header, stub, index, dir, files);
  }

  lemma AddIsCrashSafe(d: Files, port: int, imposter: Imposter, dirs: seq<Name>, files: seq<seq<Name>>)
    requires HeaderFile(port) !in d && Fits(imposter.stubs, dirs, files)
    ensures CrashSafe(d, AddScript(port, imposter, dirs, files))
  {
    hide CrashSafe, StubsScript, DoAll;
    var first := [Write(ImposterDir(port), Directory)] + StubsScript(port, imposter.stubs, dirs, files);
    StubsScriptStays(port, imposter.stubs, dirs, files);
    HeaderCommits(d, first, port, imposter.info, HeadersFor(imposter.stubs, dirs), []);
    assert AddScript(port, imposter, dirs, files) + [] == AddScript(port, imposter, dirs, files);
  }

  lemma DeleteStubIsCrashSafe(d: Files, port: int, index: nat, leftovers: seq<Path>)
    requires Sound(d) && HeaderFile(port) in d && ReadHeader(d, port).Header? && index < |ReadHeader(d, port).stubs|
    requires forall path :: path in leftovers ==> InDir(path, port, ReadHeader(d, port).stubs[index].dir)
    ensures CrashSafe(d, DeleteStubScript(port, ReadHeader(d, port), index, leftovers))
  {
    hide DoAll, HeaderScript, Removes, Removed, CrashSafe;
    var header := ReadHeader(d, port);
    var script := HeaderScript(port, header.info, Removed(header.stubs, index));
    LeftoversAreQuiet(d, port, index, leftovers);
    assert [] + script == script;
    RemovesOnly(leftovers);
    HeaderCommits(d, [], port, header.info, Removed(header.stubs, index), Removes(leftovers));
  }

  ghost predicate NothingBroken(d: Files) {
    forall port :: Load(d, port) != Broken
  }

  lemma NothingBreaksElsewhere(d: Files, e: Files, port: int)
    requires NothingBroken(d) && OthersStay(d, e, port) && Load(e, port) != Broken
    ensures NothingBroken(e)
  {
    hide Load;
    OthersLoad(d, e, port);
  }

  /** A crash in an operation that is safe leaves every port absent or whole, at every step and in the middle of it. */
  lemma NothingBreaks(d: Files, script: seq<Action>, k: nat)
    requires NothingBroken(d) && NothingBroken(DoAll(d, script)) && CrashSafe(d, script) && k <= |script|
    ensures NothingBroken(DoAll(d, script[..k]))
    ensures k < |script| ==> NothingBroken(Torn(d, script, k))
  {
    hide DoAll, Load, Torn;
    NothingBreaksAt(d, script, DoAll(d, script[..k]));
    if k < |script| {
      NothingBreaksAt(d, script, Torn(d, script, k));
    }
  }

  lemma NothingBreaksAt(d: Files, script: seq<Action>, f: Files)
    requires NothingBroken(d) && NothingBroken(DoAll(d, script)) && BeforeOrAfter(d, script, f)
    ensures NothingBroken(f)
  {
    hide DoAll, Load;
    var e := DoAll(d, script);
    forall port ensures Load(f, port) != Broken {
      assert Load(d, port) != Broken && Load(e, port) != Broken;
    }
  }

  // ---------- Starting again ----------

  /** A crash leaves a disk that a new process can start on. */
  ghost predicate Recovers(d: Files, script: seq<Action>) {
    (forall k :: 0 <= k <= |script| ==> Sound(DoAll(d, script[..k]))) &&
    forall k :: 0 <= k < |script| ==> Sound(Torn(d, script, k))
  }

  lemma TornIsSound(d: Files, script: seq<Action>, k: nat)
    requires WritesAside(script) && k < |script| && Sound(DoAll(d, script[..k]))
    ensures Sound(Torn(d, script, k))
  {
    hide DoAll;
    assert script[k] in script;
    var e, f := DoAll(d, script[..k]), Torn(d, script, k);
    forall port ensures PortSound(f, port) {
      assert PortSound(e, port);
    }
  }

  ghost predicate KeepsDirs(script: seq<Action>) {
    forall a, path :: a in script && Touches(a, path) && path.ImposterDir? ==> a.Write?
  }

  lemma {:induction false} DirStays(d: Files, script: seq<Action>, port: int)
    requires KeepsDirs(script) && ImposterDir(port) in d
    ensures ImposterDir(port) in DoAll(d, script)
  {
    if script != [] {
      var n := |script| - 1;
      assert script[n] in script;
      assert Touches(script[n], ImposterDir(port)) ==> script[n].Write?;
      DirStays(d, script[..n], port);
    }
  }

  lemma QuietKeepsSound(d: Files, script: seq<Action>, k: nat)
    requires Sound(d) && QuietScript(d, script) && KeepsDirs(script) && k <= |script|
    ensures Sound(DoAll(d, script[..k]))
  {
    hide DoAll;
    assert forall a :: a in script[..k] ==> a in script;
    var e := DoAll(d, script[..k]);
    QuietKeeps(d, script[..k]);
    forall port ensures PortSound(e, port) {
      assert PortSound(d, port) && SameFile(d, e, HeaderFile(port));
      if ImposterDir(port) in d {
        DirStays(d, script[..k], port);
      }
    }
  }

  lemma HeaderRecovers(d: Files, first: seq<Action>, port: int, info: Info, hs: seq<StubHeader>, after: seq<Action>)
    requires Sound(d) && QuietScript(d, first) && KeepsDirs(first) && KeepsDirs(after)
    requires Sound(DoAll(d, first + HeaderScript(port, info, hs)))
    requires QuietScript(DoAll(d, first + HeaderScript(port, info, hs)), after)
    requires WritesAside(first + HeaderScript(port, info, hs) + after)
    ensures Recovers(d, first + HeaderScript(port, info, hs) + after)
  {
    hide DoAll, Sound;
    var write := HeaderScript(port, info, hs);
    var before, whole := first + [write[0], write[1]], first + write;
    var script := whole + after;
    forall k | 0 <= k <= |script| ensures Sound(DoAll(d, script[..k])) {
      if k < |whole| {
        assert script[..k] == before[..k];
        QuietKeepsSound(d, before, k);
      } else {
        assert script[..k] == whole + after[..k - |whole|];
        DoConcat(d, whole, after[..k - |whole|]);
        QuietKeepsSound(DoAll(d, whole), after, k - |whole|);
      }
    }
    forall k | 0 <= k < |script| ensures Sound(Torn(d, script, k)) {
      TornIsSound(d, script, k);
    }
  }

  lemma NothingDone(d: Files)
    ensures DoAll(d, []) == d && CrashSafe(d, [])
    ensures Sound(d) ==> Recovers(d, [])
  {
    hide Sound;
  }

  lemma AddRecovers(d: Files, port: int, imposter: Imposter, dirs: seq<Name>, files: seq<seq<Name>>)
    requires Sound(d) && ImposterDir(port) !in d && Fits(imposter.stubs, dirs, files) && Distinct(dirs)
    ensures Recovers(d, AddScript(port, imposter, dirs, files))
  {
    hide Recovers, StubsScript, DoAll, Load;
    AddLoads(d, port, imposter, dirs, files);
    assert PortSound(d, port);
    hide Sound;
    var first := [Write(ImposterDir(port), Directory)] + StubsScript(port, imposter.stubs, dirs, files);
    StubsScriptStays(port, imposter.stubs, dirs, files);
    HeaderRecovers(d, first, port, imposter.info, HeadersFor(imposter.stubs, dirs), []);
    assert AddScript(port, imposter, dirs, files) + [] == AddScript(port, imposter, dirs, files);
  }

  lemma AddStubRecovers(d: Files, port: int, stub: Stub, index: int, dir: Name, files: seq<Name>)
    requires Sound(d) && HeaderFile(port) in d && ReadHeader(d, port).Header? && !Refers(d, port, dir)
    requires |stub.responses| == |files| && Distinct(files)
    ensures Recovers(d, AddStubScript(port, ReadHeader(d, port), stub, index, dir, files))
  {
    hide Recovers, StubScript, DoAll, ShelfAt;
    AddStubShelves(d, port, stub, index, dir, files);
    hide Sound;
    var header := ReadHeader(d, port);
    var hs := Inserted(header.stubs, index, StubHeader(stub.predicates, dir));
    StubScriptStays(port, stub, dir, files);
    HeaderRecovers(d, StubScript(port, stub, dir, files), port, header.info, hs, []);
    assert StubScript(port, stub, dir, files) + HeaderScript(port, header.info, hs) + [] ==
           AddStubScript(port, header, stub, index, dir, files);
  }

  lemma DeleteStubRecovers(d: Files, port: int, index: nat, leftovers: seq<Path>)
    requires Sound(d) && HeaderFile(port) in d && ReadHeader(d, port).Header? && index < |ReadHeader(d, port).stubs|
    requires forall path :: path in leftovers ==> InDir(path, port, ReadHeader(d, port).stubs[index].dir)
    ensures Recovers(d, DeleteStubScript(port, ReadHeader(d, port), index, leftovers))
  {
    hide DoAll, Removes, Removed, Recovers;
    var header := ReadHeader(d, port);
    var script := HeaderScript(port, header.info, Removed(header.stubs, index));
    LeftoversAreQuiet(d, port, index, leftovers);
    hide Sound;
    RemovesTouch(leftovers);
    assert [] + script == script;
    RemovesOnly(leftovers);
    HeaderRecovers(d, [], port, header.info, Removed(header.stubs, index), Removes(leftovers));
  }

  /** Adding that was cut short after the directory was made leaves a port that no one can read and no one can add
      to. */
  lemma CutShortAddBlocks(d: Files, port: int, imposter: Imposter, dirs: seq<Name>, files: seq<seq<Name>>, k: nat)
    requires HeaderFile(port) !in d && Fits(imposter.stubs, dirs, files)
    requires 0 < k < |AddScript(port, imposter, dirs, files)|
    ensures var e := DoAll(d, AddScript(port, imposter, dirs, files)[..k]);
            Load(e, port) == Missing && port in Blocked(e)
  {
    hide DoAll, StubsScript, Blocked;
    var script := AddScript(port, imposter, dirs, files);
    StubsScriptStays(port, imposter.stubs, dirs, files);
    assert forall i :: 0 <= i < |script| - 1 ==> script[i] in script[..|script| - 1];
    Untouched(d, script[..k], HeaderFile(port));
    assert script[..k] == [script[0]] + script[1..k];
    DoConcat(d, [script[0]], script[1..k]);
    DoOne(d, script[0]);
    Untouched(Do(d, script[0]), script[1..k], ImposterDir(port));
  }

  // ---------- Replacing all stubs ----------

  lemma NotCrashSafe(d: Files, script: seq<Action>, k: nat, port: int)
    requires k <= |script| && Load(DoAll(d, script[..k]), port) == Broken
    requires Load(d, port) != Broken && Load(DoAll(d, script), port) != Broken
    ensures !CrashSafe(d, script)
  {
    hide Load, DoAll;
    var e := DoAll(d, script[..k]);
    assert !SameLoads(d, e) && !SameLoads(DoAll(d, script), e);
    assert !BeforeOrAfter(d, script, e);
  }

  lemma BrokenOnceRemoved(d: Files, port: int, leftovers: seq<Path>)
    requires HeaderFile(port) in d && ReadHeader(d, port).Header? && ReadHeader(d, port).stubs != []
    requires forall path :: path in leftovers <==> path in d && UnderStubs(path, port)
    ensures Load(DoAll(d, Removes(leftovers)), port) == Broken
  {
    hide DoAll, Removes, ResponsesThere;
    RemovesAll(d, leftovers);
    var e, hs := DoAll(d, Removes(leftovers)), ReadHeader(d, port).stubs;
    assert HeaderFile(port) in e && ReadHeader(e, port) == ReadHeader(d, port);
    assert !StubThere(e, port, hs[0].dir);
    assert ShelfAt(e, port).pieces[0] == Lost;
  }

  /** The files that a header needs go, or stay as they are. */
  ghost predicate OnlyRemoves(d: Files, script: seq<Action>) {
    forall a, path :: a in script && Touches(a, path) && !Quiet(d, path) ==> a.Remove? && !path.HeaderFile?
  }

  lemma {:induction false} OnlyRemoved(d: Files, script: seq<Action>, path: Path)
    requires forall a :: a in script && Touches(a, path) ==> a.Remove?
    ensures path in DoAll(d, script) ==> path in d && DoAll(d, script)[path] == d[path]
  {
    if script != [] {
      var n := |script| - 1;
      assert script[n] in script;
      OnlyRemoved(d, script[..n], path);
    }
  }

  lemma LostStaysLost(d: Files, script: seq<Action>, port: int, h: StubHeader)
    requires OnlyRemoves(d, script) && Refers(d, port, h.dir) && PieceOf(d, port, h) == Lost
    ensures PieceOf(DoAll(d, script), port, h) == Lost
  {
    hide DoAll;
    var e, meta := DoAll(d, script), MetaFile(port, h.dir);
    OnlyRemoved(d, script, meta);
    if StubThere(e, port, h.dir) {
      forall i | 0 <= i < |d[meta].files|
        ensures ResponseFile(port, h.dir, d[meta].files[i]) in d
        ensures d[ResponseFile(port, h.dir, d[meta].files[i])].Stored?
      {
        OnlyRemoved(d, script, ResponseFile(port, h.dir, d[meta].files[i]));
      }
      assert false;
    }
  }

  lemma BrokenStaysBroken(d: Files, script: seq<Action>, port: int)
    requires OnlyRemoves(d, script) && HeaderFile(port) in d && ReadHeader(d, port).Header? && Load(d, port) == Broken
    ensures Load(DoAll(d, script), port) == Broken
  {
    hide DoAll, PieceOf;
    var hs := ReadHeader(d, port).stubs;
    var i :| 0 <= i < |hs| && ShelfAt(d, port).pieces[i] == Lost;
    assert hs[i] in hs;
    LostStaysLost(d, script, port, hs[i]);
    assert !Quiet(d, HeaderFile(port));
    Untouched(d, script, HeaderFile(port));
    assert ShelfAt(DoAll(d, script), port).pieces[i] == Lost;
  }

  /** A broken imposter stays broken until the new header is in place. */
  lemma UpdateOfBrokenIsCrashSafe(d: Files, port: int, info: Info, leftovers: seq<Path>, stubs: seq<Stub>,
                                  dirs: seq<Name>, files: seq<seq<Name>>)
    requires HeaderFile(port) in d && ReadHeader(d, port).Header? && Load(d, port) == Broken && Fits(stubs, dirs, files)
    requires forall dir :: dir in dirs ==> !Refers(d, port, dir)
    requires forall path :: path in leftovers ==> path in d && UnderStubs(path, port)
    ensures CrashSafe(d, UpdateScript(port, info, leftovers, stubs, dirs, files))
  {
    hide DoAll, StubsScript, Removes, Load, ShelfAt;
    var script := UpdateScript(port, info, leftovers, stubs, dirs, files);
    var n := |script| - 1;
    StubsScriptStays(port, stubs, dirs, files);
    RemovesTouch(leftovers);
    RemovesOnly(leftovers);
    forall k | 0 <= k <= |script| ensures BeforeOrAfter(d, script, DoAll(d, script[..k])) {
      if k == |script| {
        assert script[..k] == script;
      } else {
        assert forall a :: a in script[..k] ==> a in script[..n];
        AboutKeeps(d, script[..k], port);
        OthersLoad(d, DoAll(d, script[..k]), port);
        BrokenStaysBroken(d, script[..k], port);
      }
    }
    CutsAreEnough(d, script);
  }

  /** Replacing the stubs is safe against crashes exactly unless the imposter was whole and had stubs: once the old
      files are gone, the header names directories that no longer load. */
  lemma UpdateIsCrashSafeWhen(d: Files, port: int, info: Info, leftovers: seq<Path>, stubs: seq<Stub>,
                              dirs: seq<Name>, files: seq<seq<Name>>)
    requires Sound(d) && HeaderFile(port) in d && Fits(stubs, dirs, files) && Distinct(dirs)
    requires forall dir :: dir in dirs ==> !Refers(d, port, dir)
    requires forall path :: path in leftovers <==> path in d && UnderStubs(path, port)
    ensures CrashSafe(d, UpdateScript(port, info, leftovers, stubs, dirs, files)) <==>
            !(Load(d, port).Whole? && Load(d, port).imposter.stubs != [])
  {
    hide DoAll, PieceOf, StubsScript, Removes, CrashSafe;
    assert PortSound(d, port);
    UnderStubsInStubs(port);
    var script, hs := UpdateScript(port, info, leftovers, stubs, dirs, files), ReadHeader(d, port).stubs;
    if Load(d, port) == Broken {
      UpdateOfBrokenIsCrashSafe(d, port, info, leftovers, stubs, dirs, files);
    } else if hs == [] {
      var first := Removes(leftovers) + StubsScript(port, stubs, dirs, files);
      StubsScriptStays(port, stubs, dirs, files);
      RemovesTouch(leftovers);
      RemovesOnly(leftovers);
      HeaderCommits(d, first, port, info, HeadersFor(stubs, dirs), []);
      assert first + HeaderScript(port, info, HeadersFor(stubs, dirs)) + [] == script;
    } else {
      UpdateLoads(d, port, info, leftovers, stubs, dirs, files);
      BrokenOnceRemoved(d, port, leftovers);
      var k := |Removes(leftovers)|;
      assert script[..k] == Removes(leftovers);
      NotCrashSafe(d, script, k, port);
    }
  }

  // ---------- Deleting an imposter ----------

  /** The files without which the imposter does not load. */
  predicate Needs(d: Files, port: int, path: Path) {
    (path.MetaFile? || path.ResponseFile?) && path.port == port && Refers(d, port, path.dir) &&
    (path.ResponseFile? ==>
      MetaFile(port, path.dir) in d && d[MetaFile(port, path.dir)].Meta? &&
      path.file in d[MetaFile(port, path.dir)].files)
  }

  /** The header goes before any file that it needs. */
  predicate HeaderGoesFirst(d: Files, port: int, order: seq<Path>) {
    forall k :: 0 <= k < |order| && Needs(d, port, order[k]) ==> HeaderFile(port) in order[..k]
  }

  lemma NeededStay(d: Files, e: Files, port: int)
    requires forall path :: path in e ==> path in d && e[path] == d[path]
    requires Load(d, port).Whole? && HeaderFile(port) in e
    requires forall path :: path in d && Needs(d, port, path) ==> path in e
    ensures Load(e, port) == Load(d, port)
  {
    var hs := ReadHeader(d, port).stubs;
    forall i | 0 <= i < |hs| ensures PieceOf(e, port, hs[i]) == PieceOf(d, port, hs[i]) {
      assert ShelfAt(d, port).pieces[i].Kept? && hs[i] in hs && Refers(d, port, hs[i].dir);
      var meta := MetaFile(port, hs[i].dir);
      assert Needs(d, port, meta);
      forall j | 0 <= j < |d[meta].files| ensures ResponseFile(port, hs[i].dir, d[meta].files[j]) in e {
        assert Needs(d, port, ResponseFile(port, hs[i].dir, d[meta].files[j]));
      }
      assert ResponsesIn(e, port, hs[i].dir, d[meta].files) == ResponsesIn(d, port, hs[i].dir, d[meta].files);
    }
    hide PieceOf;
    assert PiecesOf(e, port, hs) == PiecesOf(d, port, hs);
  }

  lemma NeededGone(d: Files, e: Files, port: int, path: Path)
    requires forall path :: path in e ==> path in d && e[path] == d[path]
    requires Load(d, port).Whole? && HeaderFile(port) in e && Needs(d, port, path) && path !in e
    ensures Load(e, port) == Broken
  {
    var hs := ReadHeader(d, port).stubs;
    var h :| h in hs && h.dir == path.dir;
    var i :| 0 <= i < |hs| && hs[i] == h;
    assert PieceOf(e, port, hs[i]) == Lost by {
      if path.ResponseFile? {
        var files := d[MetaFile(port, h.dir)].files;
        var j :| 0 <= j < |files| && files[j] == path.file;
        assert ResponseFile(port, h.dir, files[j]) == path;
      }
    }
    assert ShelfAt(e, port).pieces[i] == Lost;
  }

  /** Deleting an imposter is safe against crashes exactly when its header goes before any file that it needs. */
  lemma DeleteIsCrashSafeWhen(d: Files, port: int, order: seq<Path>)
    requires Sound(d) && Load(d, port).Whole? && Distinct(order)
    requires forall path :: path in order <==> path in d && UnderImposter(path, port)
    ensures CrashSafe(d, Removes(order)) <==> HeaderGoesFirst(d, port, order)
  {
    hide DoAll, Load, ShelfAt, PieceOf, Needs, UnderImposter;
    var script := Removes(order);
    UnderImposterHere(port);
    HeaderIsUnder(d, port, order);
    DeleteLoads(d, port, order);
    if HeaderGoesFirst(d, port, order) {
      forall k | 0 <= k <= |script| ensures BeforeOrAfter(d, script, DoAll(d, script[..k])) {
        DeletedSoFar(d, port, order, k);
      }
      RemovesOnly(order);
      CutsAreEnough(d, script);
    } else {
      var k :| 0 <= k < |order| && Needs(d, port, order[k]) && HeaderFile(port) !in order[..k];
      RemovedSoFar(d, order, k + 1);
      NeededIsNoHeader(d, port, order[k]);
      assert order[k] in order[..k + 1];
      assert forall path :: path in order[..k + 1] ==> path in order[..k] || path == order[k];
      NeededGone(d, DoAll(d, script[..k + 1]), port, order[k]);
      NotCrashSafe(d, script, k + 1, port);
    }
  }

  lemma NeededIsNoHeader(d: Files, port: int, path: Path)
    requires Needs(d, port, path)
    ensures path != HeaderFile(port)
  {
  }

  lemma HeaderIsUnder(d: Files, port: int, order: seq<Path>)
    requires Sound(d) && Load(d, port).Whole?
    requires forall path :: path in order <==> path in d && UnderImposter(path, port)
    ensures HeaderFile(port) in d && HeaderFile(port) in order && ImposterDir(port) in order
  {
    assert PortSound(d, port);
    UnderImposterHere(port);
  }

  lemma RemovedSoFar(d: Files, order: seq<Path>, k: nat)
    requires k <= |order|
    ensures k <= |Removes(order)|
    ensures var e := DoAll(d, Removes(order)[..k]);
            (forall path :: path in e <==> path in d && path !in order[..k]) &&
            forall path :: path in e ==> e[path] == d[path]
  {
    RemovesAll(d, order[..k]);
    assert Removes(order)[..k] == Removes(order[..k]);
  }

  /** While the header is there nothing it needs has gone; once it has gone the port reads as absent. */
  lemma DeletedSoFar(d: Files, port: int, order: seq<Path>, k: nat)
    requires Load(d, port).Whole? && HeaderFile(port) in d && Distinct(order) && HeaderGoesFirst(d, port, order)
    requires forall path :: path in order ==> !Elsewhere(path, port)
    requires k <= |order| && Load(DoAll(d, Removes(order)), port) == Missing
    ensures var e := DoAll(d, Removes(order)[..k]);
            SameLoads(d, e) || SameLoads(DoAll(d, Removes(order)), e)
  {
    hide DoAll, Load, ShelfAt, Needs, Removes;
    RemovedSoFar(d, order, k);
    var e, end := DoAll(d, Removes(order)[..k]), DoAll(d, Removes(order));
    RemovesTouch(order);
    AboutKeeps(d, Removes(order), port);
    AboutKeeps(d, Removes(order)[..k], port);
    OthersLoad(d, end, port);
    OthersLoad(d, e, port);
    if HeaderFile(port) in order[..k] {
      NoHeaderIsMissing(e, port);
    } else {
      forall j | 0 <= j < k ensures !Needs(d, port, order[..k][j]) {
        assert order[..j] <= order[..k];
      }
      assert forall path :: path in order[..k] ==> !Needs(d, port, path);
      NeededStay(d, e, port);
    }
  }

  lemma NoHeaderIsMissing(d: Files, port: int)
    requires HeaderFile(port) !in d
    ensures Load(d, port) == Missing
  {
  }
}
