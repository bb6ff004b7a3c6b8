/** The operations of the filesystem repository as scripts of single steps, and what they amount to. */
module DiskOperations {
  import opened Sequences
  import opened Store
  import opened Disk
  import opened StubFiles
  import opened DiskView

  // ---------- Adding a stub ----------

  function AddStubScript(port: int, header: Content, stub: Stub, index: int, dir: Name, files: seq<Name>): seq<Action>
    requires header.Header? && |stub.responses| == |files|
  {
    StubScript(port, stub, dir, files) +
    HeaderScript(port, header.info, Inserted(header.stubs, index, StubHeader(stub.predicates, dir)))
  }

  lemma PiecesInserted(d: Files, port: int, hs: seq<StubHeader>, index: int, h: StubHeader)
    ensures PiecesOf(d, port, Inserted(hs, index, h)) == Inserted(PiecesOf(d, port, hs), index, PieceOf(d, port, h))
  {
    hide PieceOf;
  }

  lemma DirsInserted(hs: seq<StubHeader>, index: int, h: StubHeader)
    requires Distinct(DirsOf(hs)) && h.dir !in DirsOf(hs)
    ensures Distinct(DirsOf(Inserted(hs, index, h)))
  {
    assert forall i :: 0 <= i < |hs| ==> DirsOf(hs)[i] == hs[i].dir;
    assert DirsOf(Inserted(hs, index, h)) == Inserted(DirsOf(hs), index, h.dir);
  }

  /** Saving a stub in a new directory keeps the other stubs. */
  lemma SavedBeside(d: Files, port: int, stub: Stub, dir: Name, files: seq<Name>)
    requires HeaderFile(port) in d && ReadHeader(d, port).Header? && !Refers(d, port, dir)
    requires |stub.responses| == |files| && Distinct(files)
    ensures var d1, hs := DoAll(d, StubScript(port, stub, dir, files)), ReadHeader(d, port).stubs;
            PiecesOf(d1, port, hs) == PiecesOf(d, port, hs) &&
            PieceOf(d1, port, StubHeader(stub.predicates, dir)) == Kept(stub)
  {
    hide DoAll, StubScript, PieceOf;
    var script, hs := StubScript(port, stub, dir, files), ReadHeader(d, port).stubs;
    NotReferred(d, port, dir);
    StubSaved(d, port, stub, dir, files);
    StubScriptStays(port, stub, dir, files);
    forall i | 0 <= i < |hs| ensures PieceOf(DoAll(d, script), port, hs[i]) == PieceOf(d, port, hs[i]) {
      assert DirsOf(hs)[i] != dir;
      OtherStubStays(d, script, port, dir, hs[i]);
    }
  }

  /** Adding a stub inserts it among what there is of the imposter, and changes nothing else. */
  lemma AddStubShelves(d: Files, port: int, stub: Stub, index: int, dir: Name, files: seq<Name>)
    requires Sound(d) && HeaderFile(port) in d && ReadHeader(d, port).Header? && !Refers(d, port, dir)
    requires |stub.responses| == |files| && Distinct(files)
    ensures var e := DoAll(d, AddStubScript(port, ReadHeader(d, port), stub, index, dir, files));
            Sound(e) && OthersStay(d, e, port) && NamesOnly(d, e, [dir]) && var shelf := ShelfAt(d, port);
            ShelfAt(e, port) == Shelf(shelf.info, Inserted(shelf.pieces, index, Kept(stub)))
  {
    hide DoAll, StubScript, PieceOf, HeaderScript;
    assert PortSound(d, port);
    var header, h := ReadHeader(d, port), StubHeader(stub.predicates, dir);
    var first, hs := StubScript(port, stub, dir, files), Inserted(header.stubs, index, h);
    var d1, e := DoAll(d, first), DoAll(d, AddStubScript(port, header, stub, index, dir, files));
    SavedBeside(d, port, stub, dir, files);
    NotReferred(d, port, dir);
    PiecesInserted(d1, port, header.stubs, index, h);
    DirsInserted(header.stubs, index, h);
    HeaderWritten(d1, port, header.info, hs);
    DoConcat(d, first, HeaderScript(port, header.info, hs));
    StubScriptStays(port, stub, dir, files);
    HeaderScriptAbout(port, header.info, hs);
    AboutKeeps(d, first + HeaderScript(port, header.info, hs), port);
    Untouched(d, first, ImposterDir(port));
    OthersStaySound(d, e, port);
    forall k | k in hs ensures Refers(d, port, k.dir) || k.dir in [dir] {
      assert k == h || k in header.stubs;
    }
    NamesFrom(d, e, port, [dir]);
  }

  // ---------- Adding an imposter ----------

  function AddScript(port: int, imposter: Imposter, dirs: seq<Name>, files: seq<seq<Name>>): seq<Action>
    requires Fits(imposter.stubs, dirs, files)
  {
    [Write(ImposterDir(port), Directory)] + StubsScript(port, imposter.stubs, dirs, files) +
    HeaderScript(port, imposter.info, HeadersFor(imposter.stubs, dirs))
  }

  lemma AddLoads(d: Files, port: int, imposter: Imposter, dirs: seq<Name>, files: seq<seq<Name>>)
    requires Sound(d) && ImposterDir(port) !in d && Fits(imposter.stubs, dirs, files) && Distinct(dirs)
    ensures var e := DoAll(d, AddScript(port, imposter, dirs, files));
            Sound(e) && OthersStay(d, e, port) && NamesOnly(d, e, dirs) && Load(e, port) == Whole(imposter)
  {
    hide DoAll, PieceOf, HeaderScript, StubsScript;
    var make, hs := [Write(ImposterDir(port), Directory)], HeadersFor(imposter.stubs, dirs);
    var save := StubsScript(port, imposter.stubs, dirs, files);
    var d1, e := DoAll(d, make), DoAll(d, AddScript(port, imposter, dirs, files));
    StubsSaved(d1, port, imposter.stubs, dirs, files);
    StubsScriptStays(port, imposter.stubs, dirs, files);
    HeaderWritten(DoAll(d1, save), port, imposter.info, hs);
    DoConcat(d, make, save);
    DoConcat(d, make + save, HeaderScript(port, imposter.info, hs));
    HeaderScriptAbout(port, imposter.info, hs);
    AboutKeeps(d, AddScript(port, imposter, dirs, files), port);
    DoOne(d, make[0]);
    Untouched(d1, save, ImposterDir(port));
    assert DirsOf(hs) == dirs;
    OthersStaySound(d, e, port);
    HeaderDirs(imposter.stubs, dirs);
    NamesFrom(d, e, port, dirs);
    KeptsLoad(e, port, imposter.info, imposter.stubs);
  }

  lemma HeaderDirs(stubs: seq<Stub>, dirs: seq<Name>)
    requires |stubs| == |dirs|
    ensures forall h :: h in HeadersFor(stubs, dirs) ==> h.dir in dirs
  {
  }

  // ---------- Removing files ----------

  function Removes(paths: seq<Path>): seq<Action> {
    seq(|paths|, i requires 0 <= i < |paths| => Remove(paths[i]))
  }

  lemma {:induction false} RemovesAll(d: Files, paths: seq<Path>)
    ensures forall path :: path in DoAll(d, Removes(paths)) <==> path in d && path !in paths
    ensures forall path :: path in DoAll(d, Removes(paths)) ==> DoAll(d, Removes(paths))[path] == d[path]
  {
    if paths != [] {
      var n := |paths| - 1;
      RemovesAll(d, paths[..n]);
      assert Removes(paths)[..n] == Removes(paths[..n]);
      assert paths == paths[..n] + [paths[n]];
    }
  }

  lemma RemovesTouch(paths: seq<Path>)
    ensures forall a, path :: a in Removes(paths) && Touches(a, path) ==> path in paths
  {
  }

  // ---------- Deleting a stub ----------

  /** The files of the removed stub go, in any order, once the header is written. */
  function DeleteStubScript(port: int, header: Content, index: nat, leftovers: seq<Path>): seq<Action>
    requires header.Header? && index < |header.stubs|
  {
    HeaderScript(port, header.info, Removed(header.stubs, index)) + Removes(leftovers)
  }

  lemma PiecesRemoved(d: Files, port: int, hs: seq<StubHeader>, index: nat)
    requires index < |hs|
    ensures PiecesOf(d, port, Removed(hs, index)) == Removed(PiecesOf(d, port, hs), index)
  {
    hide PieceOf;
  }

  lemma DirsRemoved(hs: seq<StubHeader>, index: nat)
    requires Distinct(DirsOf(hs)) && index < |hs|
    ensures Distinct(DirsOf(Removed(hs, index)))
    ensures forall h :: h in Removed(hs, index) ==> h in hs && h.dir != hs[index].dir
  {
    var rest := Removed(hs, index);
    assert forall i :: 0 <= i < |hs| ==> DirsOf(hs)[i] == hs[i].dir;
    assert DirsOf(rest) == Removed(DirsOf(hs), index);
    forall i | 0 <= i < |rest| ensures rest[i] in hs && rest[i].dir != hs[index].dir {
      assert rest[i] == if i < index then hs[i] else hs[i + 1];
    }
  }

  /** After the header is written, the files of the stub it no longer names are out of sight. */
  lemma LeftoversAreQuiet(d: Files, port: int, index: nat, leftovers: seq<Path>)
    requires Sound(d) && HeaderFile(port) in d && ReadHeader(d, port).Header? && index < |ReadHeader(d, port).stubs|
    requires forall path :: path in leftovers ==> InDir(path, port, ReadHeader(d, port).stubs[index].dir)
    ensures var header := ReadHeader(d, port);
            var d1 := DoAll(d, HeaderScript(port, header.info, Removed(header.stubs, index)));
            Sound(d1) && OthersStay(d, d1, port) && NamesOnly(d, d1, []) &&
            ShelfAt(d1, port) == Shelf(header.info, Removed(PiecesOf(d, port, header.stubs), index)) &&
            QuietScript(d1, Removes(leftovers))
  {
    hide DoAll, HeaderScript, PieceOf, Removes, Removed;
    assert PortSound(d, port);
    var header := ReadHeader(d, port);
    var hs := Removed(header.stubs, index);
    var d1 := DoAll(d, HeaderScript(port, header.info, hs));
    PiecesRemoved(d, port, header.stubs, index);
    DirsRemoved(header.stubs, index);
    HeaderWritten(d, port, header.info, hs);
    HeaderScriptAbout(port, header.info, hs);
    AboutKeeps(d, HeaderScript(port, header.info, hs), port);
    OthersStaySound(d, d1, port);
    NamesFrom(d, d1, port, []);
    RemovesTouch(leftovers);
  }

  /** Deleting a stub removes it from what there is of the imposter, and changes nothing else. */
  lemma DeleteStubShelves(d: Files, port: int, index: nat, leftovers: seq<Path>)
    requires Sound(d) && HeaderFile(port) in d && ReadHeader(d, port).Header? && index < |ReadHeader(d, port).stubs|
    requires forall path :: path in leftovers ==> InDir(path, port, ReadHeader(d, port).stubs[index].dir)
    ensures var e := DoAll(d, DeleteStubScript(port, ReadHeader(d, port), index, leftovers));
            Sound(e) && OthersStay(d, e, port) && NamesOnly(d, e, []) && var shelf := ShelfAt(d, port);
            index < |shelf.pieces| && ShelfAt(e, port) == Shelf(shelf.info, Removed(shelf.pieces, index))
  {
    hide DoAll, HeaderScript, PieceOf, Removes, Removed;
    var header := ReadHeader(d, port);
    var script, rest := HeaderScript(port, header.info, Removed(header.stubs, index)), Removes(leftovers);
    var d1, e := DoAll(d, script), DoAll(d, script + rest);
    LeftoversAreQuiet(d, port, index, leftovers);
    DoConcat(d, script, rest);
    QuietKeeps(d1, rest);
    SameVisibleShelves(d1, e);
    HeaderScriptAbout(port, header.info, Removed(header.stubs, index));
    RemovesTouch(leftovers);
    AboutKeeps(d, script + rest, port);
    assert SameFile(d1, e, HeaderFile(port));
    Untouched(d1, rest, ImposterDir(port));
    assert PortSound(d1, port);
    OthersStaySound(d, e, port);
    assert forall h :: h in ReadHeader(e, port).stubs ==> Refers(d1, port, h.dir);
    NamesFrom(d, e, port, []);
  }

  // ---------- Replacing all stubs ----------

  /** The old files go first here. */
  function UpdateScript(port: int, info: Info, leftovers: seq<Path>, stubs: seq<Stub>, dirs: seq<Name>,
                        files: seq<seq<Name>>): seq<Action>
    requires Fits(stubs, dirs, files)
  {
    Removes(leftovers) + (StubsScript(port, stubs, dirs, files) + HeaderScript(port, info, HeadersFor(stubs, dirs)))
  }

  predicate InStubs(path: Path, port: int) {
    path.Temp? || ((path.MetaFile? || path.ResponseFile?) && path.port == port)
  }

  /** Below the directory of an imposter, of its stubs, of one stub. */
  predicate UnderImposter(path: Path, port: int) {
    if path.Temp? then UnderImposter(path.of, port) else path.port == port
  }

  predicate UnderStubs(path: Path, port: int) {
    if path.Temp? then UnderStubs(path.of, port) else (path.MetaFile? || path.ResponseFile?) && path.port == port
  }

  predicate UnderStub(path: Path, port: int, dir: Name) {
    if path.Temp? then UnderStub(path.of, port, dir)
    else (path.MetaFile? || path.ResponseFile?) && path.port == port && path.dir == dir
  }

  /** Whatever was left of the imposter, the new stubs load. */
  lemma UpdateLoads(d: Files, port: int, info: Info, leftovers: seq<Path>, stubs: seq<Stub>, dirs: seq<Name>,
                    files: seq<seq<Name>>)
    requires Sound(d) && HeaderFile(port) in d && Fits(stubs, dirs, files) && Distinct(dirs)
    requires forall path :: path in leftovers ==> InStubs(path, port)
    ensures var e := DoAll(d, UpdateScript(port, info, leftovers, stubs, dirs, files));
            Sound(e) && OthersStay(d, e, port) && NamesOnly(d, e, dirs) && Load(e, port) == Whole(Imposter(info, stubs))
  {
    hide DoAll, PieceOf, HeaderScript, StubsScript, Removes;
    assert PortSound(d, port);
    var remove, save, hs := Removes(leftovers), StubsScript(port, stubs, dirs, files), HeadersFor(stubs, dirs);
    var write := HeaderScript(port, info, hs);
    var d1, e := DoAll(d, remove), DoAll(d, UpdateScript(port, info, leftovers, stubs, dirs, files));
    StubsSaved(d1, port, stubs, dirs, files);
    StubsScriptStays(port, stubs, dirs, files);
    HeaderWritten(DoAll(d1, save), port, info, hs);
    DoConcat(d, remove, save + write);
    DoConcat(d1, save, write);
    HeaderScriptAbout(port, info, hs);
    RemovesTouch(leftovers);
    AboutKeeps(d, UpdateScript(port, info, leftovers, stubs, dirs, files), port);
    Untouched(d, remove, ImposterDir(port));
    Untouched(d1, save, ImposterDir(port));
    assert DirsOf(hs) == dirs;
    OthersStaySound(d, e, port);
    HeaderDirs(stubs, dirs);
    NamesFrom(d, e, port, dirs);
    KeptsLoad(e, port, info, stubs);
  }

  /** Every stub file of a port lies in a directory that its header names. */
  ghost predicate NoLitter(d: Files, port: int) {
    forall path ::
      path in d && (path.MetaFile? || path.ResponseFile?) && path.port == port ==> Refers(d, port, path.dir)
  }

  /** Replacing all stubs leaves no file of the old ones, nor of any that a crash had left there. */
  lemma UpdateCleans(d: Files, port: int, info: Info, leftovers: seq<Path>, stubs: seq<Stub>, dirs: seq<Name>,
                     files: seq<seq<Name>>)
    requires Fits(stubs, dirs, files)
    requires forall path :: path in leftovers <==> path in d && UnderStubs(path, port)
    ensures NoLitter(DoAll(d, UpdateScript(port, info, leftovers, stubs, dirs, files)), port)
  {
    hide DoAll, HeaderScript, StubsScript, Removes, PieceOf;
    var remove, save, hs := Removes(leftovers), StubsScript(port, stubs, dirs, files), HeadersFor(stubs, dirs);
    var write := HeaderScript(port, info, hs);
    var d1, e := DoAll(d, remove), DoAll(d, UpdateScript(port, info, leftovers, stubs, dirs, files));
    RemovesAll(d, leftovers);
    DoConcat(d, remove, save + write);
    DoConcat(d1, save, write);
    HeaderWritten(DoAll(d1, save), port, info, hs);
    forall path | path in e && (path.MetaFile? || path.ResponseFile?) && path.port == port
      ensures Refers(e, port, path.dir)
    {
      assert UnderStubs(path, port) && path !in d1;
      if path.dir in dirs {
        var i :| 0 <= i < |dirs| && dirs[i] == path.dir;
        assert hs[i] in hs;
      } else {
        StubsScriptStays(port, stubs, dirs, files);
        HeaderScriptTouches(port, info, hs, path);
        Untouched(d1, save + write, path);
        DoConcat(d1, save, write);
        assert false;
      }
    }
  }

  lemma HeaderScriptTouches(port: int, info: Info, hs: seq<StubHeader>, path: Path)
    requires path.MetaFile? || path.ResponseFile?
    ensures forall a :: a in HeaderScript(port, info, hs) ==> !Touches(a, path)
  {
  }

  // ---------- Deleting an imposter ----------

  lemma DeleteLoads(d: Files, port: int, leftovers: seq<Path>)
    requires Sound(d)
    requires forall path :: path in leftovers ==> !Elsewhere(path, port)
    requires HeaderFile(port) in leftovers && ImposterDir(port) in leftovers
    ensures var e := DoAll(d, Removes(leftovers));
            Sound(e) && OthersStay(d, e, port) && NamesOnly(d, e, []) && Load(e, port) == Missing &&
            ImposterDir(port) !in e
  {
    hide DoAll, Removes;
    RemovesTouch(leftovers);
    RemovesAll(d, leftovers);
    AboutKeeps(d, Removes(leftovers), port);
    OthersStaySound(d, DoAll(d, Removes(leftovers)), port);
    NamesFrom(d, DoAll(d, Removes(leftovers)), port, []);
  }

  // ---------- What the operations unfold to ----------

  lemma AddScriptIs(port: int, imposter: Imposter, dirs: seq<Name>, files: seq<seq<Name>>)
    requires Fits(imposter.stubs, dirs, files)
    ensures AddScript(port, imposter, dirs, files) ==
            [Write(ImposterDir(port), Directory)] + StubsScript(port, imposter.stubs, dirs, files) +
            HeaderScript(port, imposter.info, HeadersFor(imposter.stubs, dirs))
  {
  }

  lemma AddStubScriptIs(port: int, header: Content, stub: Stub, index: int, h: StubHeader, files: seq<Name>)
    requires header.Header? && |stub.responses| == |files| && h.predicates == stub.predicates
    ensures AddStubScript(port, header, stub, index, h.dir, files) ==
            StubScript(port, stub, h.dir, files) + HeaderScript(port, header.info, Inserted(header.stubs, index, h))
  {
  }

  lemma DeleteStubScriptIs(port: int, header: Content, index: nat, leftovers: seq<Path>)
    requires header.Header? && index < |header.stubs|
    ensures DeleteStubScript(port, header, index, leftovers) ==
            HeaderScript(port, header.info, Removed(header.stubs, index)) + Removes(leftovers)
  {
  }

  lemma UpdateScriptIs(port: int, info: Info, leftovers: seq<Path>, stubs: seq<Stub>, dirs: seq<Name>,
                       files: seq<seq<Name>>)
    requires Fits(stubs, dirs, files)
    ensures UpdateScript(port, info, leftovers, stubs, dirs, files) ==
            Removes(leftovers) + StubsScript(port, stubs, dirs, files) +
            HeaderScript(port, info, HeadersFor(stubs, dirs))
  {
  }

  lemma SoundPort(d: Files, port: int)
    requires Sound(d)
    ensures PortSound(d, port)
    ensures if HeaderFile(port) in d then
              ShelfAt(d, port).Shelf? && ShelfAt(d, port).info == ReadHeader(d, port).info &&
              |ShelfAt(d, port).pieces| == |ReadHeader(d, port).stubs|
            else ShelfAt(d, port) == Empty
  {
    assert PortSound(d, port);
  }

  lemma UnderStubInDir(port: int, dir: Name)
    ensures forall path :: UnderStub(path, port, dir) ==> InDir(path, port, dir)
  {
  }

  lemma UnderStubsInStubs(port: int)
    ensures forall path :: UnderStubs(path, port) ==> InStubs(path, port)
  {
  }

  lemma UnderImposterHere(port: int)
    ensures forall path :: UnderImposter(path, port) ==> !Elsewhere(path, port)
    ensures UnderImposter(HeaderFile(port), port) && UnderImposter(ImposterDir(port), port)
  {
  }
}
