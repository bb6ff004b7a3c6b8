/** The repository that keeps its imposters in files. */
module Filesystem {
  import Cycling
  import Slices
  import opened Sequences
  import opened Store
  import opened Disk
  import opened StubFiles
  import opened DiskView
  import opened DiskOperations
  import opened DiskCrashes

  class Repository {
    var disk: Files
    var counter: int
    const pid: int
    const started: int
    /** Every step taken so far. */
    ghost var performed: seq<Action>

    /** A name that this process may have given, or an earlier one before it started. */
    predicate Taken(n: Name)
      reads this
    {
      n.pid != pid || n.epoch < started || n.counter <= counter
    }

    /** Every directory that a header names was named in this way. */
    ghost predicate NamesTaken()
      reads this
    {
      forall port, dir :: Refers(disk, port, dir) ==> Taken(dir)
    }

    /** Ports are sound one by one; what crashes leave of an imposter, in it or in others, does not matter. */
    ghost predicate Valid()
      reads this
    {
      counter >= 0 && Sound(disk) && NamesTaken()
    }

    /** The steps of a call lead from the old disk to the new one. */
    twostate predicate Did(script: seq<Action>)
      reads this
    {
      disk == DoAll(old(disk), script) && performed == old(performed) + script
    }

    /** A crash at any step of a call leaves to readers the old imposters or the new ones, and to a new process a disk
        that it can start on. */
    twostate predicate Recoverable()
      reads this
    {
      exists script :: Did(script) && CrashSafe(old(disk), script) && Recovers(old(disk), script)
    }

    /** Unless the imposter it is about is broken, a call is one operation of the store, and breaks nothing. */
    twostate predicate Refines(op: Op, r: Outcome)
      reads this
    {
      old(Load(disk, op.port)) != Broken ==>
        View(disk) == Step(old(View(disk)), old(Blocked(disk)), op).0 &&
        r == Step(old(View(disk)), old(Blocked(disk)), op).1 &&
        Blocked(disk) == old(Blocked(disk)) && Load(disk, op.port) != Broken
    }

    /** A process starts on whatever sound disk earlier processes left, itself having named nothing there. */
    constructor (disk: Files, pid: int, started: int)
      requires Sound(disk)
      requires forall port, dir :: Refers(disk, port, dir) ==> dir.pid != pid || dir.epoch < started
      ensures Valid() && this.disk == disk
    {
      this.disk, this.pid, this.started := disk, pid, started;
      counter, performed := 0, [];
    }

    // ---------- Single steps ----------

    method Perform(a: Action)
      modifies `disk, `performed
      ensures disk == Do(old(disk), a) && performed == old(performed) + [a]
    {
      disk := Do(disk, a);
      performed := performed + [a];
    }

    /** The clock may stand still, but not before the start of the process. */
    method FilenameFor() returns (n: Name)
      modifies `counter
      ensures counter == old(counter) + 1
      ensures n.pid == pid && n.epoch >= started && n.counter == counter
    {
      var epoch :| epoch >= started;
      counter := counter + 1;
      n := Name(epoch, pid, counter);
    }

    method WriteJSON(path: Path, content: Content)
      modifies `disk, `performed
      ensures Did(AtomicWrite(path, content))
    {
      Perform(Write(Temp(path), Partial));
      Perform(Write(Temp(path), content));
      Perform(Rename(Temp(path), path));
      ghost var script := AtomicWrite(path, content);
      DoConcat(old(disk), [script[0]], [script[1]]);
      DoConcat(old(disk), [script[0]] + [script[1]], [script[2]]);
      DoOne(old(disk), script[0]);
      DoOne(Do(old(disk), script[0]), script[1]);
      DoOne(Do(Do(old(disk), script[0]), script[1]), script[2]);
      assert script == [script[0]] + [script[1]] + [script[2]];
    }

    /** Files go one by one, in any order. */
    method RemoveAll(doomed: set<Path>) returns (ghost order: seq<Path>)
      modifies `disk, `performed
      ensures Did(Removes(order)) && forall path :: path in order <==> path in doomed
    {
      order := [];
      var left := doomed;
      while left != {}
        invariant left <= doomed && forall path :: path in order <==> path in doomed - left
        invariant Did(Removes(order))
        decreases |left|
      {
        var path :| path in left;
        Perform(Remove(path));
        left := left - {path};
        assert Removes(order + [path]) == Removes(order) + [Remove(path)];
        DoConcat(old(disk), Removes(order), [Remove(path)]);
        DoOne(DoAll(old(disk), Removes(order)), Remove(path));
        order := order + [path];
      }
    }

    // ---------- Saving and loading a stub ----------

    /** A name given during a call: by this process, with a counter between the old one and the new. */
    twostate predicate Given(n: Name)
      reads this
    {
      n.pid == pid && n.epoch >= started && old(counter) < n.counter <= counter
    }

    method SaveResponse(port: int, dir: Name, response: Response) returns (name: Name)
      modifies this
      ensures counter == old(counter) + 1 && name.counter == counter
      ensures Did(AtomicWrite(ResponseFile(port, dir, name), Stored(response)))
    {
      name := FilenameFor();
      WriteJSON(ResponseFile(port, dir, name), Stored(response));
    }

    method AppendRepeats(order: seq<nat>, i: nat, response: Response) returns (r: seq<nat>)
      ensures r == order + Cycling.Copies(Cycling.Effective(response.repeat), i)
    {
      var repeat := 1;
      if response.repeat > 0 {
        repeat := response.repeat;
      }
      r := order;
      for j := 0 to repeat
        invariant r == order + Cycling.Copies(j, i)
      {
        r := r + [i];
        assert Cycling.Copies(j + 1, i) == Cycling.Copies(j, i) + [i];
      }
    }

    method SaveStub(port: int, stub: Stub) returns (h: StubHeader, ghost files: seq<Name>)
      modifies this
      ensures h.predicates == stub.predicates && Given(h.dir) && counter >= old(counter)
      ensures |files| == |stub.responses| && Distinct(files) && Did(StubScript(port, stub, h.dir, files))
    {
      hide DoAll, AtomicWrite, ResponseScript, Distinct;
      var dir := FilenameFor();
      var names: seq<Name>, order: seq<nat> := [], [];
      ghost var repeats := Cycling.Repeats(stub.responses);
      NothingSaved(disk, port, dir);
      assert performed == old(performed) + [] && stub.responses[..0] == [];
      for i := 0 to |stub.responses|
        invariant |names| == i && Given(dir) && counter >= old(counter)
        invariant Distinct(names) && forall n :: n in names ==> n.counter <= counter
        invariant Did(ResponseScript(port, dir, stub.responses[..i], names))
        invariant order == Cycling.Expanded(repeats, i)
      {
        ghost var before := ResponseScript(port, dir, stub.responses[..i], names);
        var name := SaveResponse(port, dir, stub.responses[i]);
        DoConcat(old(disk), before, AtomicWrite(ResponseFile(port, dir, name), Stored(stub.responses[i])));
        ResponseScriptNext(port, dir, stub.responses, i, names, name);
        DistinctNext(names, name);
        names := names + [name];
        order := AppendRepeats(order, i, stub.responses[i]);
      }
      assert stub.responses[..|stub.responses|] == stub.responses;
      WriteJSON(MetaFile(port, dir), Meta(names, order, 0));
      DoConcat(old(disk), ResponseScript(port, dir, stub.responses, names),
               AtomicWrite(MetaFile(port, dir), Meta(names, order, 0)));
      h, files := StubHeader(stub.predicates, dir), names;
    }

    method SaveStubs(port: int, stubs: seq<Stub>)
      returns (hs: seq<StubHeader>, ghost dirs: seq<Name>, ghost files: seq<seq<Name>>)
      modifies this
      ensures Fits(stubs, dirs, files) && Distinct(dirs) && hs == HeadersFor(stubs, dirs)
      ensures counter >= old(counter) && forall dir :: dir in dirs ==> Given(dir)
      ensures Did(StubsScript(port, stubs, dirs, files))
    {
      hide DoAll, StubScript, Distinct, HeadersFor;
      hs, dirs, files := [], [], [];
      NoStubsSaved(disk, port);
      assert performed == old(performed) + [] && stubs[..0] == [];
      hide StubsScript, Fits;
      for i := 0 to |stubs|
        invariant Fits(stubs[..i], dirs, files) && Distinct(dirs) && |dirs| == i
        invariant hs == HeadersFor(stubs[..i], dirs)
        invariant counter >= old(counter) && forall dir :: dir in dirs ==> Given(dir)
        invariant Did(StubsScript(port, stubs[..i], dirs, files))
      {
        var h, names := SaveStub(port, stubs[i]);
        DoConcat(old(disk), StubsScript(port, stubs[..i], dirs, files), StubScript(port, stubs[i], h.dir, names));
        StubsScriptNext(port, stubs, i, dirs, files, h.dir, names);
        DistinctNext(dirs, h.dir);
        hs, dirs, files := hs + [h], dirs + [h.dir], files + [names];
      }
      assert stubs[..|stubs|] == stubs;
    }

    method LoadStub(port: int, h: StubHeader) returns (ok: bool, stub: Stub)
      ensures PieceOf(disk, port, h) == if ok then Kept(stub) else Lost
    {
      stub := Stub(h.predicates, []);
      if MetaFile(port, h.dir) !in disk || !disk[MetaFile(port, h.dir)].Meta? {
        return false, stub;
      }
      var files, responses := disk[MetaFile(port, h.dir)].files, [];
      for i := 0 to |files|
        invariant ResponsesThere(disk, port, h.dir, files[..i])
        invariant responses == ResponsesIn(disk, port, h.dir, files[..i])
      {
        var path := ResponseFile(port, h.dir, files[i]);
        if path !in disk || !disk[path].Stored? {
          return false, stub;
        }
        responses := responses + [disk[path].response];
      }
      assert files[..|files|] == files;
      ok, stub := true, Stub(h.predicates, responses);
    }

    method GetImposter(port: int) returns (r: Read)
      ensures r == Load(disk, port)
    {
      if HeaderFile(port) !in disk {
        return Missing;
      }
      var header := disk[HeaderFile(port)];
      if !header.Header? {
        return Broken;
      }
      var stubs := [];
      hide PieceOf;
      for i := 0 to |header.stubs|
        invariant PiecesOf(disk, port, header.stubs[..i]) == Kepts(stubs)
      {
        var ok, stub := LoadStub(port, header.stubs[i]);
        if !ok {
          assert ShelfAt(disk, port).pieces[i] == Lost;
          return Broken;
        }
        assert header.stubs[..i + 1] == header.stubs[..i] + [header.stubs[i]];
        assert Kepts(stubs + [stub]) == Kepts(stubs) + [Kept(stub)];
        stubs := stubs + [stub];
      }
      assert header.stubs[..|header.stubs|] == header.stubs;
      KeptsLoad(disk, port, header.info, stubs);
      r := Whole(Imposter(header.info, stubs));
    }

    // ---------- The operations ----------

    method Get(port: int) returns (r: Outcome)
      ensures match Load(disk, port)
              case Missing => r == NotFound(port)
              case Broken => r == Failed
              case Whole(imposter) => r == Found(imposter)
    {
      var read := GetImposter(port);
      match read
      case Missing => r := NotFound(port);
      case Broken => r := Failed;
      case Whole(imposter) => r := Found(imposter);
    }

    method Add(port: int, imposter: Imposter) returns (r: Outcome)
      requires Valid()
      modifies this
      ensures Valid() && Recoverable() && OthersStay(old(disk), disk, port)
      ensures View(disk) == Step(old(View(disk)), old(Blocked(disk)), Op.Add(port, imposter)).0
      ensures r == Step(old(View(disk)), old(Blocked(disk)), Op.Add(port, imposter)).1
      ensures Blocked(disk) == old(Blocked(disk)) && (Load(disk, port) == Broken ==> old(Load(disk, port)) == Broken)
    {
      hide DoAll, CrashSafe, Recovers, Load, ShelfAt, AddScript, StubsScript, AtomicWrite;
      SoundPort(disk, port);
      if ImposterDir(port) in disk {
        NothingDone(disk);
        assert Did([]);
        return Conflict(port);
      }
      NoHeaderIsMissing(disk, port);
      Perform(Write(ImposterDir(port), Directory));
      ghost var make := [Write(ImposterDir(port), Directory)];
      DoOne(old(disk), make[0]);
      var hs, dirs, files := SaveStubs(port, imposter.stubs);
      ghost var save := StubsScript(port, imposter.stubs, dirs, files);
      DoConcat(old(disk), make, save);
      WriteJSON(HeaderFile(port), Header(imposter.info, hs));
      DoConcat(old(disk), make + save, HeaderScript(port, imposter.info, hs));
      ghost var script := AddScript(port, imposter, dirs, files);
      AddScriptIs(port, imposter, dirs, files);
      assert Did(script);
      AddLoads(old(disk), port, imposter, dirs, files);
      AddIsCrashSafe(old(disk), port, imposter, dirs, files);
      AddRecovers(old(disk), port, imposter, dirs, files);
      ViewSet(old(disk), disk, port, imposter);
      BlockedStays(old(disk), disk, port);
      r := Done;
    }

    method AddStub(port: int, stub: Stub, index: int) returns (r: Outcome)
      requires Valid()
      modifies this
      ensures Valid() && Recoverable() && OthersStay(old(disk), disk, port) && Refines(Op.AddStub(port, stub, index), r)
      ensures var shelf := old(ShelfAt(disk, port));
              if shelf == Empty then r == NotFound(port) && disk == old(disk)
              else
                r == Done && shelf.Shelf? &&
                ShelfAt(disk, port) == Shelf(shelf.info, Inserted(shelf.pieces, index, Kept(stub)))
    {
      hide DoAll, CrashSafe, Recovers, ShelfAt, AddStubScript, StubScript, AtomicWrite, Blocked, View;
      SoundPort(disk, port);
      if HeaderFile(port) !in disk {
        NothingDone(disk);
        assert Did([]);
        return NotFound(port);
      }
      var header := disk[HeaderFile(port)];
      var h, files := SaveStub(port, stub);
      var hs := header.stubs;
      if index < 0 || index >= |hs| {
        hs := hs + [h];
      } else {
        hs := Slices.Insert(hs, index, h);
      }
      WriteJSON(HeaderFile(port), Header(header.info, hs));
      ghost var script := AddStubScript(port, header, stub, index, h.dir, files);
      AddStubScriptIs(port, header, stub, index, h, files);
      DoConcat(old(disk), StubScript(port, stub, h.dir, files), HeaderScript(port, header.info, hs));
      assert Did(script) && !Refers(old(disk), port, h.dir);
      AddStubShelves(old(disk), port, stub, index, h.dir, files);
      AddStubIsCrashSafe(old(disk), port, stub, index, h.dir, files);
      AddStubRecovers(old(disk), port, stub, index, h.dir, files);
      r := Done;
      if old(Load(disk, port)) != Broken {
        InsertedLoads(old(disk), disk, port, index, stub);
        ViewSet(old(disk), disk, port, Load(disk, port).imposter);
        BlockedStays(old(disk), disk, port);
      }
    }

    method DeleteStub(port: int, index: int) returns (r: Outcome)
      requires Valid()
      modifies this
      ensures Valid() && Recoverable() && OthersStay(old(disk), disk, port) && Refines(Op.DeleteStub(port, index), r)
      ensures var shelf := old(ShelfAt(disk, port));
              if shelf == Empty then r == NotFound(port) && disk == old(disk)
              else if shelf.Shelf? && 0 <= index < |shelf.pieces| then
                r == Done && ShelfAt(disk, port) == Shelf(shelf.info, Removed(shelf.pieces, index)) &&
                var dir := old(disk[HeaderFile(port)].stubs[index].dir);
                forall path :: path in disk && !path.Temp? ==> !InDir(path, port, dir)
              else r == InvalidIndex(index) && disk == old(disk)
    {
      hide DoAll, CrashSafe, Recovers, ShelfAt, DeleteStubScript, AtomicWrite, Removes, Blocked, View;
      SoundPort(disk, port);
      if HeaderFile(port) !in disk {
        NothingDone(disk);
        assert Did([]);
        return NotFound(port);
      }
      var header := disk[HeaderFile(port)];
      if index < 0 || index >= |header.stubs| {
        NothingDone(disk);
        assert Did([]);
        return InvalidIndex(index);
      }
      var dir := header.stubs[index].dir;
      var hs := Slices.Delete(header.stubs, index);
      assert hs == Removed(header.stubs, index);
      hide Removed;
      WriteJSON(HeaderFile(port), Header(header.info, hs));
      ghost var middle := disk;
      var leftovers := RemoveAll(set path | path in disk && UnderStub(path, port, dir));
      RemovesAll(middle, leftovers);
      ghost var script := DeleteStubScript(port, header, index, leftovers);
      DeleteStubScriptIs(port, header, index, leftovers);
      DoConcat(old(disk), HeaderScript(port, header.info, hs), Removes(leftovers));
      assert Did(script);
      UnderStubInDir(port, dir);
      DeleteStubShelves(old(disk), port, index, leftovers);
      DeleteStubIsCrashSafe(old(disk), port, index, leftovers);
      DeleteStubRecovers(old(disk), port, index, leftovers);
      r := Done;
      if old(Load(disk, port)) != Broken {
        RemovedLoads(old(disk), disk, port, index);
        ViewSet(old(disk), disk, port, Load(disk, port).imposter);
        BlockedStays(old(disk), disk, port);
      }
    }

    /** Repairs a broken imposter. Not always safe against crashes: see `UpdateIsCrashSafeWhen`. */
    method UpdateStubs(port: int, stubs: seq<Stub>) returns (r: Outcome)
      requires Valid()
      modifies this
      ensures Valid() && OthersStay(old(disk), disk, port) && Refines(Op.UpdateStubs(port, stubs), r)
      ensures var shelf := old(ShelfAt(disk, port));
              if shelf == Empty then r == NotFound(port) && disk == old(disk)
              else
                r == Done && shelf.Shelf? && Load(disk, port) == Whole(Imposter(shelf.info, stubs)) &&
                NoLitter(disk, port)
    {
      hide DoAll, CrashSafe, ShelfAt, UpdateScript, StubsScript, AtomicWrite, Removes, Blocked, View;
      SoundPort(disk, port);
      if HeaderFile(port) !in disk {
        return NotFound(port);
      }
      var header := disk[HeaderFile(port)];
      var leftovers := RemoveAll(set path | path in disk && UnderStubs(path, port));
      var hs, dirs, files := SaveStubs(port, stubs);
      WriteJSON(HeaderFile(port), Header(header.info, hs));
      ghost var script := UpdateScript(port, header.info, leftovers, stubs, dirs, files);
      UpdateScriptIs(port, header.info, leftovers, stubs, dirs, files);
      ghost var save := StubsScript(port, stubs, dirs, files);
      DoConcat(old(disk), Removes(leftovers), save);
      DoConcat(old(disk), Removes(leftovers) + save, HeaderScript(port, header.info, hs));
      assert Did(script);
      UnderStubsInStubs(port);
      UpdateLoads(old(disk), port, header.info, leftovers, stubs, dirs, files);
      UpdateCleans(old(disk), port, header.info, leftovers, stubs, dirs, files);
      r := Done;
      if old(Load(disk, port)) != Broken {
        ViewSet(old(disk), disk, port, Imposter(header.info, stubs));
        BlockedStays(old(disk), disk, port);
      }
    }

    /** A broken imposter cannot be deleted. Not always safe against crashes: see `DeleteIsCrashSafeWhen`. */
    method Delete(port: int) returns (r: Outcome)
      requires Valid()
      modifies this
      ensures Valid() && OthersStay(old(disk), disk, port) && Refines(Op.Delete(port), r)
      ensures old(Load(disk, port)) == Broken ==> r == Failed && disk == old(disk)
      ensures r.Found? ==> forall path :: path in disk && !path.Temp? ==> path.port != port
    {
      hide DoAll, Removes, ShelfAt, Blocked, View;
      SoundPort(disk, port);
      r := Get(port);
      if !r.Found? {
        return;
      }
      var leftovers := RemoveAll(set path | path in disk && UnderImposter(path, port));
      RemovesAll(old(disk), leftovers);
      UnderImposterHere(port);
      HeaderIsUnder(old(disk), port, leftovers);
      DeleteLoads(old(disk), port, leftovers);
      ViewDropped(old(disk), disk, port);
      BlockedStays(old(disk), disk, port);
    }
  }
}
