/** The files of the filesystem repository, single steps on them, and what a reader finds after a crash between two
    steps. */
module Disk {
  import opened Store

  /** Names made of the time, the process and a counter. */
  datatype Name = Name(epoch: int, pid: int, counter: int)

  /** The files below the data directory; of the directories only the one of an imposter is ever asked about. */
  datatype Path =
    | ImposterDir(port: int)
    | HeaderFile(port: int)
    | MetaFile(port: int, dir: Name)
    | ResponseFile(port: int, dir: Name, file: Name)
    | Temp(of: Path)

  datatype StubHeader = StubHeader(predicates: seq<string>, dir: Name)

  /** What a file decodes to; `Partial` is a file cut off while being written. */
  datatype Content =
    | Directory
    | Header(info: Info, stubs: seq<StubHeader>)
    | Meta(files: seq<Name>, orderWithRepeats: seq<nat>, nextIndex: int)
    | Stored(response: Response)
    | Partial

  type Files = map<Path, Content>

  // ---------- Reading ----------

  datatype Read = Missing | Broken | Whole(imposter: Imposter)

  predicate ResponsesThere(d: Files, port: int, dir: Name, files: seq<Name>) {
    forall i :: 0 <= i < |files| ==>
      ResponseFile(port, dir, files[i]) in d && d[ResponseFile(port, dir, files[i])].Stored?
  }

  function ResponsesIn(d: Files, port: int, dir: Name, files: seq<Name>): seq<Response>
    requires ResponsesThere(d, port, dir, files)
  {
    seq(|files|, i requires 0 <= i < |files| => d[ResponseFile(port, dir, files[i])].response)
  }

  predicate StubThere(d: Files, port: int, dir: Name) {
    MetaFile(port, dir) in d && d[MetaFile(port, dir)].Meta? &&
    ResponsesThere(d, port, dir, d[MetaFile(port, dir)].files)
  }

  /** What is left of a stub. */
  datatype Piece = Lost | Kept(stub: Stub)

  function PieceOf(d: Files, port: int, h: StubHeader): Piece {
    if StubThere(d, port, h.dir) then
      Kept(Stub(h.predicates, ResponsesIn(d, port, h.dir, d[MetaFile(port, h.dir)].files)))
    else Lost
  }

  function PiecesOf(d: Files, port: int, hs: seq<StubHeader>): seq<Piece> {
    seq(|hs|, i requires 0 <= i < |hs| => PieceOf(d, port, hs[i]))
  }

  predicate AllKept(pieces: seq<Piece>) {
    forall i :: 0 <= i < |pieces| ==> pieces[i].Kept?
  }

  function StubsIn(pieces: seq<Piece>): seq<Stub>
    requires AllKept(pieces)
  {
    seq(|pieces|, i requires 0 <= i < |pieces| => pieces[i].stub)
  }

  function Kepts(stubs: seq<Stub>): seq<Piece> {
    seq(|stubs|, i requires 0 <= i < |stubs| => Kept(stubs[i]))
  }

  function ReadHeader(d: Files, port: int): Content
    requires HeaderFile(port) in d
  {
    d[HeaderFile(port)]
  }

  /** Everything the disk has of an imposter. */
  datatype Shelf = Empty | Unreadable | Shelf(info: Info, pieces: seq<Piece>)

  function ShelfAt(d: Files, port: int): Shelf {
    if HeaderFile(port) !in d then Empty
    else
      var header := ReadHeader(d, port);
      if header.Header? then Shelf(header.info, PiecesOf(d, port, header.stubs)) else Unreadable
  }

  /** A reader gets the imposter with all of its stubs, or an error. */
  function Load(d: Files, port: int): Read {
    match ShelfAt(d, port)
    case Empty => Missing
    case Unreadable => Broken
    case Shelf(info, pieces) => if AllKept(pieces) then Whole(Imposter(info, StubsIn(pieces))) else Broken
  }

  // ---------- Steps ----------

  datatype Action = Write(path: Path, content: Content) | Rename(from: Path, to: Path) | Remove(path: Path)

  function Do(d: Files, a: Action): Files {
    match a
    case Write(path, content) => d[path := content]
    case Rename(from, to) => if from in d then (d - {from})[to := d[from]] else d
    case Remove(path) => d - {path}
  }

  function DoAll(d: Files, script: seq<Action>): Files {
    if script == [] then d else Do(DoAll(d, script[..|script| - 1]), script[|script| - 1])
  }

  lemma {:induction false} DoConcat(d: Files, a: seq<Action>, b: seq<Action>)
    ensures DoAll(d, a + b) == DoAll(DoAll(d, a), b)
  {
    if b == [] {
      assert a + b == a;
    } else {
      var n := |b| - 1;
      assert (a + b)[..|a + b| - 1] == a + b[..n] && (a + b)[|a + b| - 1] == b[n];
      DoConcat(d, a, b[..n]);
    }
  }

  lemma DoOne(d: Files, a: Action)
    ensures DoAll(d, [a]) == Do(d, a)
  {
    assert [a][..0] == [];
  }

  /** A file appears whole: it is written under another name first. */
  function AtomicWrite(path: Path, content: Content): seq<Action> {
    [Write(Temp(path), Partial), Write(Temp(path), content), Rename(Temp(path), path)]
  }

  function Written(d: Files, path: Path, content: Content): Files {
    (d - {Temp(path)})[path := content]
  }

  lemma AtomicWriteWrites(d: Files, path: Path, content: Content)
    ensures DoAll(d, AtomicWrite(path, content)) == Written(d, path, content)
  {
    var script := AtomicWrite(path, content);
    assert script == [script[0]] + ([script[1]] + [script[2]]);
    DoConcat(d, [script[0]], [script[1]] + [script[2]]);
    DoConcat(Do(d, script[0]), [script[1]], [script[2]]);
    DoOne(d, script[0]);
    DoOne(Do(d, script[0]), script[1]);
    DoOne(Do(Do(d, script[0]), script[1]), script[2]);
    assert Do(Do(Do(d, script[0]), script[1]), script[2]) == Written(d, path, content);
  }

  // ---------- What readers do not see ----------

  predicate Touches(a: Action, path: Path) {
    match a
    case Write(p, _) => path == p
    case Rename(from, to) => path == from || path == to
    case Remove(p) => path == p
  }

  predicate Refers(d: Files, port: int, dir: Name) {
    HeaderFile(port) in d && ReadHeader(d, port).Header? && exists h :: h in ReadHeader(d, port).stubs && h.dir == dir
  }

  /** No reader looks at temporary files, at the bare directory, or into a stub directory that no header names. */
  predicate Quiet(d: Files, path: Path) {
    match path
    case ImposterDir(_) => true
    case HeaderFile(_) => false
    case MetaFile(port, dir) => !Refers(d, port, dir)
    case ResponseFile(port, dir, _) => !Refers(d, port, dir)
    case Temp(_) => true
  }

  predicate SameFile(d: Files, e: Files, path: Path) {
    (path in d <==> path in e) && (path in d ==> d[path] == e[path])
  }

  ghost predicate SameVisible(d: Files, e: Files) {
    forall path :: !Quiet(d, path) ==> SameFile(d, e, path)
  }

  ghost predicate QuietScript(d: Files, script: seq<Action>) {
    forall a, path :: a in script && Touches(a, path) ==> Quiet(d, path)
  }

  lemma {:induction false} Untouched(d: Files, script: seq<Action>, path: Path)
    requires forall a :: a in script ==> !Touches(a, path)
    ensures SameFile(d, DoAll(d, script), path)
  {
    if script != [] {
      var n := |script| - 1;
      assert script[n] in script;
      Untouched(d, script[..n], path);
    }
  }

  lemma QuietKeeps(d: Files, script: seq<Action>)
    requires QuietScript(d, script)
    ensures SameVisible(d, DoAll(d, script))
  {
    forall path | !Quiet(d, path) ensures SameFile(d, DoAll(d, script), path) {
      Untouched(d, script, path);
    }
  }

  ghost predicate SameLoads(d: Files, e: Files) {
    forall port :: Load(d, port) == Load(e, port)
  }

  lemma SameVisibleShelves(d: Files, e: Files)
    requires SameVisible(d, e)
    ensures forall port :: ShelfAt(d, port) == ShelfAt(e, port)
  {
    hide PieceOf;
    forall port ensures ShelfAt(d, port) == ShelfAt(e, port) {
      assert SameFile(d, e, HeaderFile(port));
      if HeaderFile(port) in d && ReadHeader(d, port).Header? {
        var hs := ReadHeader(d, port).stubs;
        forall i | 0 <= i < |hs| ensures PieceOf(d, port, hs[i]) == PieceOf(e, port, hs[i]) {
          assert hs[i] in hs && Refers(d, port, hs[i].dir);
          SameDir(d, e, port, hs[i]);
        }
        assert PiecesOf(d, port, hs) == PiecesOf(e, port, hs);
      }
    }
  }

  lemma SameVisibleLoads(d: Files, e: Files)
    requires SameVisible(d, e)
    ensures SameLoads(d, e)
  {
    hide ShelfAt;
    SameVisibleShelves(d, e);
  }

  lemma SameDir(d: Files, e: Files, port: int, h: StubHeader)
    requires SameFile(d, e, MetaFile(port, h.dir))
    requires forall file :: SameFile(d, e, ResponseFile(port, h.dir, file))
    ensures PieceOf(d, port, h) == PieceOf(e, port, h)
  {
    if MetaFile(port, h.dir) in d && d[MetaFile(port, h.dir)].Meta? {
      var files := d[MetaFile(port, h.dir)].files;
      forall i | 0 <= i < |files| ensures SameFile(d, e, ResponseFile(port, h.dir, files[i])) {}
      assert ResponsesThere(d, port, h.dir, files) <==> ResponsesThere(e, port, h.dir, files);
      if ResponsesThere(d, port, h.dir, files) {
        assert ResponsesIn(d, port, h.dir, files) == ResponsesIn(e, port, h.dir, files);
      }
    }
  }

  // ---------- Crashes ----------

  /** Renaming, removing and making a directory happen at once; a file may be left cut off. */
  function Torn(d: Files, script: seq<Action>, k: nat): Files
    requires k < |script|
  {
    var e := DoAll(d, script[..k]);
    match script[k]
    case Write(path, content) => if content == Directory then e else e[path := Partial]
    case _ => e
  }

  ghost predicate BeforeOrAfter(d: Files, script: seq<Action>, e: Files) {
    SameLoads(d, e) || SameLoads(DoAll(d, script), e)
  }

  /** Wherever the script stops between two steps, readers find what was there before or what is there at the end. */
  ghost predicate CutSafe(d: Files, script: seq<Action>) {
    forall k :: 0 <= k <= |script| ==> BeforeOrAfter(d, script, DoAll(d, script[..k]))
  }

  /** And so they do when it stops in the middle of a step. */
  ghost predicate CrashSafe(d: Files, script: seq<Action>) {
    CutSafe(d, script) && forall k :: 0 <= k < |script| ==> BeforeOrAfter(d, script, Torn(d, script, k))
  }

  /** Files are written under temporary names only. */
  predicate WritesAside(script: seq<Action>) {
    forall a :: a in script && a.Write? ==> a.path.Temp? || a.content == Directory
  }

  lemma TornIsUnseen(d: Files, script: seq<Action>, k: nat)
    requires WritesAside(script) && k < |script|
    ensures SameVisible(DoAll(d, script[..k]), Torn(d, script, k))
  {
    hide DoAll;
    assert script[k] in script;
  }

  lemma CutsAreEnough(d: Files, script: seq<Action>)
    requires CutSafe(d, script) && WritesAside(script)
    ensures CrashSafe(d, script)
  {
    hide DoAll, Load, WritesAside, Torn;
    forall k | 0 <= k < |script| ensures BeforeOrAfter(d, script, Torn(d, script, k)) {
      TornIsUnseen(d, script, k);
      SameVisibleLoads(DoAll(d, script[..k]), Torn(d, script, k));
      assert BeforeOrAfter(d, script, DoAll(d, script[..k]));
    }
  }

  /** One renaming between steps no reader sees. */
  lemma OneCommit(d: Files, before: seq<Action>, commit: Action, after: seq<Action>)
    requires QuietScript(d, before) && QuietScript(DoAll(d, before + [commit]), after)
    requires WritesAside(before + [commit] + after)
    ensures CrashSafe(d, before + [commit] + after)
    ensures SameLoads(DoAll(d, before + [commit]), DoAll(d, before + [commit] + after))
  {
    hide CrashSafe, WritesAside;
    var first := before + [commit];
    var script, e := first + after, DoAll(d, first);
    forall k | 0 <= k <= |after| ensures SameLoads(e, DoAll(d, first + after[..k])) {
      DoConcat(d, first, after[..k]);
      QuietPrefix(e, after, k);
    }
    assert after[..|after|] == after;
    forall k | 0 <= k <= |script| ensures BeforeOrAfter(d, script, DoAll(d, script[..k])) {
      if k <= |before| {
        assert script[..k] == before[..k];
        QuietPrefix(d, before, k);
      } else {
        assert script[..k] == first + after[..k - |first|];
      }
    }
    CutsAreEnough(d, script);
  }

  lemma QuietPrefix(d: Files, script: seq<Action>, k: nat)
    requires QuietScript(d, script) && k <= |script|
    ensures SameLoads(d, DoAll(d, script[..k]))
  {
    assert forall a :: a in script[..k] ==> a in script;
    QuietKeeps(d, script[..k]);
    SameVisibleLoads(d, DoAll(d, script[..k]));
  }
}
