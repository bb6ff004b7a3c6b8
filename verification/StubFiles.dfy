/** Saving stubs in files of their own: every stub in a directory, with a file for each response and one for their
    order. */
module StubFiles {
  import Cycling
  import opened Sequences
  import opened Store
  import opened Disk

  function DirsOf(hs: seq<StubHeader>): seq<Name> {
    seq(|hs|, i requires 0 <= i < |hs| => hs[i].dir)
  }

  /** Below the directory of a stub, or temporary. */
  predicate InDir(path: Path, port: int, dir: Name) {
    path.Temp? || ((path.MetaFile? || path.ResponseFile?) && path.port == port && path.dir == dir)
  }

  function ResponseScript(port: int, dir: Name, responses: seq<Response>, files: seq<Name>): seq<Action>
    requires |responses| == |files|
  {
    if responses == [] then []
    else
      var n := |responses| - 1;
      ResponseScript(port, dir, responses[..n], files[..n]) +
      AtomicWrite(ResponseFile(port, dir, files[n]), Stored(responses[n]))
  }

  lemma NothingSaved(d: Files, port: int, dir: Name)
    ensures ResponseScript(port, dir, [], []) == [] && DoAll(d, []) == d && Distinct<Name>([])
  {
  }

  lemma ResponseScriptNext(port: int, dir: Name, responses: seq<Response>, i: nat, files: seq<Name>, file: Name)
    requires i < |responses| && |files| == i
    ensures ResponseScript(port, dir, responses[..i + 1], files + [file]) ==
            ResponseScript(port, dir, responses[..i], files) +
            AtomicWrite(ResponseFile(port, dir, file), Stored(responses[i]))
  {
    assert responses[..i + 1][..i] == responses[..i] && (files + [file])[..i] == files;
  }

  /** The order in which a cycle gives the responses, as the counters of a stub produce it. */
  function OrderOf(responses: seq<Response>): seq<nat> {
    Cycling.Order(Cycling.Repeats(responses))
  }

  function StubScript(port: int, stub: Stub, dir: Name, files: seq<Name>): seq<Action>
    requires |stub.responses| == |files|
  {
    ResponseScript(port, dir, stub.responses, files) +
    AtomicWrite(MetaFile(port, dir), Meta(files, OrderOf(stub.responses), 0))
  }

  lemma {:induction false} ResponseScriptStays(port: int, dir: Name, responses: seq<Response>, files: seq<Name>)
    requires |responses| == |files|
    ensures forall a, path ::
              a in ResponseScript(port, dir, responses, files) && Touches(a, path) ==> InDir(path, port, dir)
    ensures WritesAside(ResponseScript(port, dir, responses, files))
  {
    if responses != [] {
      var n := |responses| - 1;
      ResponseScriptStays(port, dir, responses[..n], files[..n]);
    }
  }

  lemma StubScriptStays(port: int, stub: Stub, dir: Name, files: seq<Name>)
    requires |stub.responses| == |files|
    ensures forall a, path :: a in StubScript(port, stub, dir, files) && Touches(a, path) ==> InDir(path, port, dir)
    ensures WritesAside(StubScript(port, stub, dir, files))
  {
    ResponseScriptStays(port, dir, stub.responses, files);
  }

  lemma OneMoreResponse(d: Files, port: int, dir: Name, files: seq<Name>, file: Name, response: Response)
    requires ResponsesThere(d, port, dir, files) && file !in files
    ensures var e := Written(d, ResponseFile(port, dir, file), Stored(response));
            ResponsesThere(e, port, dir, files + [file]) &&
            ResponsesIn(e, port, dir, files + [file]) == ResponsesIn(d, port, dir, files) + [response]
  {
  }

  lemma {:induction false} ResponsesSaved(d: Files, port: int, dir: Name, responses: seq<Response>, files: seq<Name>)
    requires |responses| == |files| && Distinct(files)
    ensures var e := DoAll(d, ResponseScript(port, dir, responses, files));
            ResponsesThere(e, port, dir, files) && ResponsesIn(e, port, dir, files) == responses
  {
    if responses != [] {
      hide DoAll, AtomicWrite, Written;
      var n := |responses| - 1;
      var path, content := ResponseFile(port, dir, files[n]), Stored(responses[n]);
      var first := ResponseScript(port, dir, responses[..n], files[..n]);
      ResponsesSaved(d, port, dir, responses[..n], files[..n]);
      DoConcat(d, first, AtomicWrite(path, content));
      AtomicWriteWrites(DoAll(d, first), path, content);
      OneMoreResponse(DoAll(d, first), port, dir, files[..n], files[n], responses[n]);
      assert responses == responses[..n] + [responses[n]] && files == files[..n] + [files[n]];
    }
  }

  /** What was saved is what is loaded, and the order saved with it is the one the counters of the stub walk through. */
  lemma StubSaved(d: Files, port: int, stub: Stub, dir: Name, files: seq<Name>)
    requires |stub.responses| == |files| && Distinct(files)
    ensures var e := DoAll(d, StubScript(port, stub, dir, files));
            PieceOf(e, port, StubHeader(stub.predicates, dir)) == Kept(stub) &&
            MetaFile(port, dir) in e &&
            e[MetaFile(port, dir)] == Meta(files, Cycling.Order(Cycling.Repeats(stub.responses)), 0)
  {
    hide DoAll, Cycling.Order;
    var path, content := MetaFile(port, dir), Meta(files, OrderOf(stub.responses), 0);
    var script := ResponseScript(port, dir, stub.responses, files);
    var before := DoAll(d, script);
    ResponsesSaved(d, port, dir, stub.responses, files);
    DoConcat(d, script, AtomicWrite(path, content));
    AtomicWriteWrites(before, path, content);
    var e := Written(before, path, content);
    assert ResponsesIn(e, port, dir, files) == ResponsesIn(before, port, dir, files);
  }

  // ---------- Several stubs ----------

  predicate Fits(stubs: seq<Stub>, dirs: seq<Name>, files: seq<seq<Name>>) {
    && |stubs| == |dirs| == |files|
    && forall i :: 0 <= i < |stubs| ==> |stubs[i].responses| == |files[i]| && Distinct(files[i])
  }

  function StubsScript(port: int, stubs: seq<Stub>, dirs: seq<Name>, files: seq<seq<Name>>): seq<Action>
    requires Fits(stubs, dirs, files)
  {
    if stubs == [] then []
    else
      var n := |stubs| - 1;
      StubsScript(port, stubs[..n], dirs[..n], files[..n]) + StubScript(port, stubs[n], dirs[n], files[n])
  }

  lemma NoStubsSaved(d: Files, port: int)
    ensures Fits([], [], []) && Distinct<Name>([]) && HeadersFor([], []) == []
    ensures StubsScript(port, [], [], []) == [] && DoAll(d, []) == d
  {
  }

  lemma StubsScriptNext(port: int, stubs: seq<Stub>, i: nat, dirs: seq<Name>, files: seq<seq<Name>>,
                        dir: Name, names: seq<Name>)
    requires i < |stubs| && Fits(stubs[..i], dirs, files) && |names| == |stubs[i].responses| && Distinct(names)
    ensures Fits(stubs[..i + 1], dirs + [dir], files + [names])
    ensures StubsScript(port, stubs[..i + 1], dirs + [dir], files + [names]) ==
            StubsScript(port, stubs[..i], dirs, files) + StubScript(port, stubs[i], dir, names)
    ensures HeadersFor(stubs[..i + 1], dirs + [dir]) ==
            HeadersFor(stubs[..i], dirs) + [StubHeader(stubs[i].predicates, dir)]
  {
    var n := |stubs[..i + 1]| - 1;
    assert stubs[..i + 1][..n] == stubs[..i] && (dirs + [dir])[..n] == dirs && (files + [names])[..n] == files;
  }

  function HeadersFor(stubs: seq<Stub>, dirs: seq<Name>): seq<StubHeader>
    requires |stubs| == |dirs|
  {
    seq(|stubs|, i requires 0 <= i < |stubs| => StubHeader(stubs[i].predicates, dirs[i]))
  }

  lemma {:induction false} StubsScriptStays(port: int, stubs: seq<Stub>, dirs: seq<Name>, files: seq<seq<Name>>)
    requires Fits(stubs, dirs, files)
    ensures forall a, path :: a in StubsScript(port, stubs, dirs, files) && Touches(a, path) ==>
              path.Temp? || exists dir :: dir in dirs && InDir(path, port, dir)
    ensures WritesAside(StubsScript(port, stubs, dirs, files))
  {
    if stubs != [] {
      var n := |stubs| - 1;
      StubsScriptStays(port, stubs[..n], dirs[..n], files[..n]);
      StubScriptStays(port, stubs[n], dirs[n], files[n]);
    }
  }

  /** A stub keeps while another one is saved in another directory. */
  lemma OtherStubStays(d: Files, script: seq<Action>, port: int, dir: Name, h: StubHeader)
    requires forall a, path :: a in script && Touches(a, path) ==> InDir(path, port, dir)
    requires h.dir != dir
    ensures PieceOf(DoAll(d, script), port, h) == PieceOf(d, port, h)
  {
    hide PieceOf;
    Untouched(d, script, MetaFile(port, h.dir));
    forall file ensures SameFile(d, DoAll(d, script), ResponseFile(port, h.dir, file)) {
      Untouched(d, script, ResponseFile(port, h.dir, file));
    }
    SameDir(d, DoAll(d, script), port, h);
  }

  lemma OneMoreStub(d: Files, script: seq<Action>, port: int, hs: seq<StubHeader>, h: StubHeader)
    requires forall a, path :: a in script && Touches(a, path) ==> InDir(path, port, h.dir)
    requires forall i :: 0 <= i < |hs| ==> hs[i].dir != h.dir
    ensures var e := DoAll(d, script); PiecesOf(e, port, hs + [h]) == PiecesOf(d, port, hs) + [PieceOf(e, port, h)]
  {
    hide DoAll, PieceOf, InDir;
    forall i | 0 <= i < |hs| ensures PieceOf(DoAll(d, script), port, hs[i]) == PieceOf(d, port, hs[i]) {
      OtherStubStays(d, script, port, h.dir, hs[i]);
    }
  }

  lemma FitsLengths(stubs: seq<Stub>, dirs: seq<Name>, files: seq<seq<Name>>)
    requires Fits(stubs, dirs, files)
    ensures |stubs| == |dirs| == |files|
  {
  }

  lemma StubsScriptLast(port: int, stubs: seq<Stub>, dirs: seq<Name>, files: seq<seq<Name>>)
    requires Fits(stubs, dirs, files) && stubs != []
    ensures var n := |stubs| - 1;
            Fits(stubs[..n], dirs[..n], files[..n]) && |stubs[n].responses| == |files[n]| && Distinct(files[n]) &&
            StubsScript(port, stubs, dirs, files) ==
            StubsScript(port, stubs[..n], dirs[..n], files[..n]) + StubScript(port, stubs[n], dirs[n], files[n])
  {
    hide Distinct;
  }

  lemma HeadersLast(stubs: seq<Stub>, dirs: seq<Name>)
    requires |stubs| == |dirs| > 0 && Distinct(dirs)
    ensures var n := |stubs| - 1;
            Distinct(dirs[..n]) && (forall i :: 0 <= i < n ==> dirs[i] != dirs[n]) &&
            stubs == stubs[..n] + [stubs[n]] &&
            HeadersFor(stubs, dirs) == HeadersFor(stubs[..n], dirs[..n]) + [StubHeader(stubs[n].predicates, dirs[n])]
  {
  }

  lemma {:induction false} StubsSaved(d: Files, port: int, stubs: seq<Stub>, dirs: seq<Name>, files: seq<seq<Name>>)
    requires Fits(stubs, dirs, files) && Distinct(dirs)
    ensures PiecesOf(DoAll(d, StubsScript(port, stubs, dirs, files)), port, HeadersFor(stubs, dirs)) == Kepts(stubs)
  {
    if stubs != [] {
      hide DoAll, StubsScript, StubScript, PieceOf, InDir, Fits, Distinct;
      var n := |stubs| - 1;
      FitsLengths(stubs, dirs, files);
      StubsScriptLast(port, stubs, dirs, files);
      HeadersLast(stubs, dirs);
      var first := StubsScript(port, stubs[..n], dirs[..n], files[..n]);
      var last, h := StubScript(port, stubs[n], dirs[n], files[n]), StubHeader(stubs[n].predicates, dirs[n]);
      StubsSaved(d, port, stubs[..n], dirs[..n], files[..n]);
      DoConcat(d, first, last);
      StubSaved(DoAll(d, first), port, stubs[n], dirs[n], files[n]);
      StubScriptStays(port, stubs[n], dirs[n], files[n]);
      OneMoreStub(DoAll(d, first), last, port, HeadersFor(stubs[..n], dirs[..n]), h);
    }
  }
}
