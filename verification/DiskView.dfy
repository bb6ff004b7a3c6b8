/** The files of all imposters as a store, and what the steps of one operation leave of other imposters. */
module DiskView {
  import opened Sequences
  import opened Store
  import opened Disk
  import opened StubFiles

  // ---------- The disk as a store ----------

  /** A header stands in the directory of its imposter and names distinct directories. What these hold may be lost,
      and the directory of an imposter may have no header. */
  predicate PortSound(d: Files, port: int) {
    HeaderFile(port) in d ==>
      ImposterDir(port) in d && ReadHeader(d, port).Header? && Distinct(DirsOf(ReadHeader(d, port).stubs))
  }

  ghost predicate Sound(d: Files) {
    forall port :: PortSound(d, port)
  }

  /** The imposters that load. */
  ghost function View(d: Files): (s: Store)
    ensures forall port :: (port in s <==> Load(d, port).Whole?) && (port in s ==> s[port] == Load(d, port).imposter)
  {
    var ports := set path | path in d && path.HeaderFile? :: path.port;
    assert forall port :: Load(d, port).Whole? ==> HeaderFile(port) in d;
    map port | port in ports && Load(d, port).Whole? :: Load(d, port).imposter
  }

  /** The ports that are taken by a directory from which no imposter loads. */
  ghost function Blocked(d: Files): (ports: set<int>)
    ensures forall port :: port in ports <==> ImposterDir(port) in d && !Load(d, port).Whole?
  {
    set path | path in d && path.ImposterDir? && !Load(d, path.port).Whole? :: path.port
  }

  lemma ViewIs(d: Files, s: Store)
    requires forall port :: (port in s <==> Load(d, port).Whole?) && (port in s ==> s[port] == Load(d, port).imposter)
    ensures View(d) == s
  {
    hide Load, View;
    forall port ensures port in View(d) <==> port in s {
      assert port in s <==> Load(d, port).Whole?;
    }
    forall port | port in s ensures View(d)[port] == s[port] {
      assert port in View(d) && s[port] == Load(d, port).imposter;
    }
    assert View(d) == s;
  }

  // ---------- Other imposters ----------

  /** Nothing of other imposters has changed. */
  ghost predicate OthersStay(d: Files, e: Files, port: int) {
    forall q :: q != port ==>
      ShelfAt(e, q) == ShelfAt(d, q) && SameFile(d, e, HeaderFile(q)) && SameFile(d, e, ImposterDir(q))
  }

  lemma OthersLoad(d: Files, e: Files, port: int)
    requires OthersStay(d, e, port)
    ensures forall q :: q != port ==> Load(e, q) == Load(d, q)
  {
    hide ShelfAt;
    forall q | q != port ensures Load(e, q) == Load(d, q) {
      assert ShelfAt(e, q) == ShelfAt(d, q);
    }
  }

  lemma ViewSet(d: Files, e: Files, port: int, imposter: Imposter)
    requires OthersStay(d, e, port) && Load(e, port) == Whole(imposter)
    ensures View(e) == View(d)[port := imposter]
  {
    hide Load, OthersStay;
    OthersLoad(d, e, port);
    ViewIs(e, View(d)[port := imposter]);
  }

  lemma ViewDropped(d: Files, e: Files, port: int)
    requires OthersStay(d, e, port) && Load(e, port) == Missing
    ensures View(e) == View(d) - {port}
  {
    hide Load, OthersStay;
    OthersLoad(d, e, port);
    ViewIs(e, View(d) - {port});
  }

  lemma BlockedStays(d: Files, e: Files, port: int)
    requires OthersStay(d, e, port) && (port in Blocked(d) <==> port in Blocked(e))
    ensures Blocked(e) == Blocked(d)
  {
    hide Load, Blocked;
    OthersLoad(d, e, port);
    forall q ensures q in Blocked(e) <==> q in Blocked(d) {
      assert q != port ==> SameFile(d, e, ImposterDir(q));
    }
  }

  lemma OthersStaySound(d: Files, e: Files, port: int)
    requires Sound(d) && OthersStay(d, e, port) && PortSound(e, port)
    ensures Sound(e)
  {
    hide ShelfAt;
    forall q ensures PortSound(e, q) {
      assert PortSound(d, q);
      assert q != port ==> SameFile(d, e, HeaderFile(q)) && SameFile(d, e, ImposterDir(q));
    }
  }

  predicate Elsewhere(path: Path, port: int) {
    !path.Temp? && path.port != port
  }

  lemma OthersStayAbout(d: Files, e: Files, port: int)
    requires forall path :: Elsewhere(path, port) ==> SameFile(d, e, path)
    ensures OthersStay(d, e, port)
  {
    hide PieceOf;
    forall q | q != port ensures ShelfAt(e, q) == ShelfAt(d, q) {
      assert SameFile(d, e, HeaderFile(q));
      forall h: StubHeader ensures PieceOf(d, q, h) == PieceOf(e, q, h) {
        SameDir(d, e, q, h);
      }
    }
  }

  ghost predicate About(script: seq<Action>, port: int) {
    forall a, path :: a in script && Touches(a, path) ==> !Elsewhere(path, port)
  }

  lemma AboutKeeps(d: Files, script: seq<Action>, port: int)
    requires About(script, port)
    ensures OthersStay(d, DoAll(d, script), port)
  {
    hide ShelfAt;
    forall path | Elsewhere(path, port) ensures SameFile(d, DoAll(d, script), path) {
      Untouched(d, script, path);
    }
    OthersStayAbout(d, DoAll(d, script), port);
  }

  // ---------- The header ----------

  function HeaderScript(port: int, info: Info, hs: seq<StubHeader>): seq<Action> {
    AtomicWrite(HeaderFile(port), Header(info, hs))
  }

  lemma HeaderScriptAbout(port: int, info: Info, hs: seq<StubHeader>)
    ensures About(HeaderScript(port, info, hs), port)
  {
  }

  /** Writing a header changes what it names and no file of a stub. */
  lemma HeaderWritten(d: Files, port: int, info: Info, hs: seq<StubHeader>)
    ensures var e := DoAll(d, HeaderScript(port, info, hs));
            ShelfAt(e, port) == Shelf(info, PiecesOf(d, port, hs)) && HeaderFile(port) in e &&
            ReadHeader(e, port) == Header(info, hs) && SameFile(d, e, ImposterDir(port))
  {
    hide PieceOf;
    AtomicWriteWrites(d, HeaderFile(port), Header(info, hs));
    var e := Written(d, HeaderFile(port), Header(info, hs));
    forall h: StubHeader ensures PieceOf(e, port, h) == PieceOf(d, port, h) {
      SameDir(d, e, port, h);
    }
    assert PiecesOf(e, port, hs) == PiecesOf(d, port, hs);
  }

  // ---------- Names of directories ----------

  lemma NotReferred(d: Files, port: int, dir: Name)
    requires HeaderFile(port) in d && ReadHeader(d, port).Header? && !Refers(d, port, dir)
    ensures dir !in DirsOf(ReadHeader(d, port).stubs)
  {
    var hs := ReadHeader(d, port).stubs;
    forall i | 0 <= i < |hs| ensures DirsOf(hs)[i] != dir {
      assert hs[i] in hs;
    }
  }

  /** Headers name directories that some header named before, or new ones. */
  ghost predicate NamesOnly(d: Files, e: Files, dirs: seq<Name>) {
    forall port, dir :: Refers(e, port, dir) ==> Refers(d, port, dir) || dir in dirs
  }

  lemma NamesFrom(d: Files, e: Files, port: int, dirs: seq<Name>)
    requires OthersStay(d, e, port)
    requires HeaderFile(port) in e && ReadHeader(e, port).Header? ==>
               forall h :: h in ReadHeader(e, port).stubs ==> Refers(d, port, h.dir) || h.dir in dirs
    ensures NamesOnly(d, e, dirs)
  {
    hide ShelfAt;
    forall q, dir | Refers(e, q, dir) ensures Refers(d, q, dir) || dir in dirs {
      if q != port {
        assert SameFile(d, e, HeaderFile(q));
      }
    }
  }

  // ---------- Whole and broken imposters ----------

  lemma KeptsLoad(d: Files, port: int, info: Info, stubs: seq<Stub>)
    requires ShelfAt(d, port) == Shelf(info, Kepts(stubs))
    ensures Load(d, port) == Whole(Imposter(info, stubs))
  {
    assert StubsIn(Kepts(stubs)) == stubs;
  }

  /** Adding a stub to a whole imposter leaves it whole. */
  lemma InsertedLoads(d: Files, e: Files, port: int, index: int, stub: Stub)
    requires Load(d, port).Whole? && var shelf := ShelfAt(d, port);
             ShelfAt(e, port) == Shelf(shelf.info, Inserted(shelf.pieces, index, Kept(stub)))
    ensures var imposter := Load(d, port).imposter;
            Load(e, port) == Whole(imposter.(stubs := Inserted(imposter.stubs, index, stub)))
  {
    hide ShelfAt;
    var pieces := ShelfAt(d, port).pieces;
    assert StubsIn(Inserted(pieces, index, Kept(stub))) == Inserted(StubsIn(pieces), index, stub);
  }

  lemma RemovedLoads(d: Files, e: Files, port: int, index: nat)
    requires Load(d, port).Whole? && var shelf := ShelfAt(d, port);
             index < |shelf.pieces| && ShelfAt(e, port) == Shelf(shelf.info, Removed(shelf.pieces, index))
    ensures var imposter := Load(d, port).imposter;
            index < |imposter.stubs| &&
            Load(e, port) == Whole(imposter.(stubs := Removed(imposter.stubs, index)))
  {
    hide ShelfAt;
    var pieces := ShelfAt(d, port).pieces;
    assert StubsIn(Removed(pieces, index)) == Removed(StubsIn(pieces), index);
  }
}
