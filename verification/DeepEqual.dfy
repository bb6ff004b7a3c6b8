/** Deep equality of JSON values: objects with equal key sets, arrays in any order. */
module DeepEqual {
  import opened JsonTree
  import opened Permutations
  import opened Matching

  // ---------- What deep equality means ----------

  /** Equality up to the order of array elements, at every depth. */
  ghost predicate Same(a: Json, e: Json, o: Options)
    decreases e
  {
    match e
    case Str(s) => a.Str? && o.Text(a.s) == o.Text(s)
    case Arr(ee) =>
      a.Arr? && |a.elems| == |ee| &&
      exists p: seq<int> ::
        IsPermutation(p, |ee|) && forall i :: 0 <= i < |ee| ==> Same(a.elems[p[i]], ee[i], o)
    case Obj(em) =>
      a.Obj? && FoldedKeys(a.fields, o) == FoldedKeys(em, o) &&
      forall k, k' :: k in em && k' in a.fields && o.Key(k) == o.Key(k') ==> Same(a.fields[k'], em[k], o)
    case _ => a == e
  }

  ghost function FoldedKeys(m: map<string, Json>, o: Options): set<string> {
    set k | k in m :: o.Key(k)
  }

  /** Strings are compared as they are, or folded, and so are keys. */
  lemma SameTexts(s: string, t: string, v: Json, w: Json, o: Options)
    ensures Same(Str(s), Str(t), o) <==> if o.caseSensitive then s == t else o.fold(s) == o.fold(t)
    ensures Same(Obj(map[s := v]), Obj(map[t := w]), o) <==>
            (if o.keyCaseSensitive then s == t else o.fold(s) == o.fold(t)) && Same(v, w, o)
  {
    var a, e := map[s := v], map[t := w];
    assert FoldedKeys(a, o) == {o.Key(s)} && FoldedKeys(e, o) == {o.Key(t)};
    assert s in a && t in e;
  }

  /** Case sensitive and without arrays, deep equality is equality. */
  lemma {:induction false} SameIsEqual(a: Json, e: Json, o: Options)
    requires o.caseSensitive && o.keyCaseSensitive && NoArrays(e)
    ensures Same(a, e, o) <==> a == e
    decreases e
  {
    if e.Obj? && a.Obj? {
      assert FoldedKeys(a.fields, o) == a.fields.Keys && FoldedKeys(e.fields, o) == e.fields.Keys;
      forall k | k in e.fields && k in a.fields
        ensures Same(a.fields[k], e.fields[k], o) <==> a.fields[k] == e.fields[k]
      {
        SameIsEqual(a.fields[k], e.fields[k], o);
      }
      assert a.fields == e.fields <==>
             a.fields.Keys == e.fields.Keys && forall k :: k in e.fields ==> a.fields[k] == e.fields[k];
    }
  }

  // ---------- Canonical forms ----------

  /** A JSON value in which arrays have no order and strings are already folded. */
  datatype Canonical =
    | CNull
    | CBool(b: bool)
    | CNum(n: real)
    | CStr(s: string)
    | CArr(bag: multiset<Canonical>)
    | CObj(fields: map<string, Canonical>)

  ghost function Canon(j: Json, o: Options): Canonical
    decreases j
  {
    match j
    case Null => CNull
    case Bool(b) => CBool(b)
    case Num(n) => CNum(n)
    case Str(s) => CStr(o.Text(s))
    case Arr(es) => CArr(multiset(CanonAll(es, o)))
    case Obj(m) =>
      CObj(map f | f in FoldedKeys(m, o) :: var k :| k in m && o.Key(k) == f; Canon(m[k], o))
  }

  ghost function CanonAll(es: seq<Json>, o: Options): (cs: seq<Canonical>)
    ensures |cs| == |es|
    ensures forall i :: 0 <= i < |es| ==> cs[i] == Canon(es[i], o)
    decreases es
  {
    if es == [] then [] else
      assert forall i :: 0 < i < |es| ==> es[i] == es[1..][i - 1];
      [Canon(es[0], o)] + CanonAll(es[1..], o)
  }

  /** The arrays hold the same canonical forms equally often. */
  ghost predicate SameBags(aa: seq<Json>, ee: seq<Json>, o: Options) {
    multiset(CanonAll(aa, o)) == multiset(CanonAll(ee, o))
  }

  lemma CanonField(m: map<string, Json>, k: string, o: Options)
    requires KeysDistinct(m, o) && k in m
    ensures o.Key(k) in Canon(Obj(m), o).fields
    ensures Canon(Obj(m), o).fields[o.Key(k)] == Canon(m[k], o)
  {
    assert o.Key(k) in FoldedKeys(m, o);
  }

  /** Every value of `am` under a key matching `k` has the canonical form of `v`. */
  ghost predicate FieldAgrees(am: map<string, Json>, k: string, v: Json, o: Options) {
    forall k' :: k' in am && o.Key(k) == o.Key(k') ==> Canon(am[k'], o) == Canon(v, o)
  }

  /** Values under matching keys have equal canonical forms. */
  ghost predicate FieldsAgree(am: map<string, Json>, em: map<string, Json>, o: Options) {
    forall k :: k in em ==> FieldAgrees(am, k, em[k], o)
  }

  /** Two well-keyed objects have the same canonical form exactly when their keys agree and so do the values under
      them. */
  lemma CanonFieldsEqual(am: map<string, Json>, em: map<string, Json>, o: Options)
    requires KeysDistinct(am, o) && KeysDistinct(em, o)
    ensures Canon(Obj(am), o) == Canon(Obj(em), o) <==>
            FoldedKeys(am, o) == FoldedKeys(em, o) && FieldsAgree(am, em, o)
  {
    var ca, ce := Canon(Obj(am), o).fields, Canon(Obj(em), o).fields;
    assert ca.Keys == FoldedKeys(am, o) && ce.Keys == FoldedKeys(em, o);
    if ca == ce {
      forall k, k' | k in em && k' in am && o.Key(k) == o.Key(k')
        ensures Canon(am[k'], o) == Canon(em[k], o)
      {
        CanonField(em, k, o);
        CanonField(am, k', o);
      }
    } else if FoldedKeys(am, o) == FoldedKeys(em, o) {
      var f :| f in ce && ca[f] != ce[f];
      var k :| k in em && o.Key(k) == f;
      var k' :| k' in am && o.Key(k') == f;
      CanonField(em, k, o);
      CanonField(am, k', o);
      assert !FieldAgrees(am, k, em[k], o);
    }
  }

  lemma RearrangedCanon(p: seq<int>, aa: seq<Json>, ee: seq<Json>, o: Options)
    requires |aa| == |ee| && IsPermutation(p, |ee|)
    requires forall i :: 0 <= i < |ee| ==> Canon(aa[p[i]], o) == Canon(ee[i], o)
    ensures SameBags(aa, ee, o)
  {
    var ca, ce := CanonAll(aa, o), CanonAll(ee, o);
    forall i | 0 <= i < |ee| ensures ce[i] == ca[p[i]] {
      assert ca[p[i]] == Canon(aa[p[i]], o);
    }
    RearrangedIsSameMultiset(p, ca, ce);
  }

  lemma CanonRearranged(aa: seq<Json>, ee: seq<Json>, o: Options) returns (p: seq<int>)
    requires SameBags(aa, ee, o)
    ensures |aa| == |ee| && IsPermutation(p, |ee|)
    ensures forall i :: 0 <= i < |ee| ==> Canon(aa[p[i]], o) == Canon(ee[i], o)
  {
    var ca, ce := CanonAll(aa, o), CanonAll(ee, o);
    p := SameMultisetIsRearranged(ca, ce);
    assert forall i :: 0 <= i < |ee| ==> ca[p[i]] == ce[i];
  }

  /** The recursive reading and the canonical forms agree. */
  lemma {:induction false} SameIffCanon(a: Json, e: Json, o: Options)
    requires WellKeyed(a, o) && WellKeyed(e, o)
    ensures Same(a, e, o) <==> Canon(a, o) == Canon(e, o)
    decreases e
  {
    match e
    case Arr(ee) =>
      if a.Arr? && Same(a, e, o) {
        var p :| IsPermutation(p, |ee|) && forall i :: 0 <= i < |ee| ==> Same(a.elems[p[i]], ee[i], o);
        forall i | 0 <= i < |ee| { SameIffCanon(a.elems[p[i]], ee[i], o); }
        RearrangedCanon(p, a.elems, ee, o);
      }
      if a.Arr? && SameBags(a.elems, ee, o) {
        var p := CanonRearranged(a.elems, ee, o);
        forall i | 0 <= i < |ee| { SameIffCanon(a.elems[p[i]], ee[i], o); }
        assert forall i :: 0 <= i < |ee| ==> Same(a.elems[p[i]], ee[i], o);
      }
    case Obj(em) =>
      if a.Obj? {
        CanonFieldsEqual(a.fields, em, o);
        forall k, k' | k in em && k' in a.fields && o.Key(k) == o.Key(k')
          ensures Same(a.fields[k'], em[k], o) <==> Canon(a.fields[k'], o) == Canon(em[k], o)
        {
          SameIffCanon(a.fields[k'], em[k], o);
        }
      }
    case _ =>
  }

  /** Deep equality is an equivalence, so a first fit never spoils a full matching. */
  lemma SameIsEquivalence(a: Json, b: Json, c: Json, o: Options)
    requires WellKeyed(a, o) && WellKeyed(b, o) && WellKeyed(c, o)
    ensures Same(a, a, o)
    ensures Same(a, b, o) ==> Same(b, a, o)
    ensures Same(a, b, o) && Same(b, c, o) ==> Same(a, c, o)
  {
    SameIffCanon(a, a, o);
    SameIffCanon(a, b, o);
    SameIffCanon(b, a, o);
    SameIffCanon(b, c, o);
    SameIffCanon(a, c, o);
  }

  // ---------- Folding the keys away ----------

  /** The tree with every object key replaced by its folded form. */
  ghost function FoldKeys(j: Json, o: Options): Json
    decreases j
  {
    match j
    case Arr(es) => Arr(seq(|es|, i requires 0 <= i < |es| => FoldKeys(es[i], o)))
    case Obj(m) => Obj(map f | f in FoldedKeys(m, o) :: var k :| k in m && o.Key(k) == f; FoldKeys(m[k], o))
    case _ => j
  }

  /** Comparing with folded keys is comparing the key-folded trees with exact keys. */
  lemma {:induction false} FoldedKeysCanon(j: Json, o: Options)
    requires WellKeyed(j, o)
    ensures Canon(FoldKeys(j, o), o.(keyCaseSensitive := true)) == Canon(j, o)
    decreases j
  {
    var exact := o.(keyCaseSensitive := true);
    match j
    case Arr(es) =>
      forall i | 0 <= i < |es| { FoldedKeysCanon(es[i], o); }
      assert CanonAll(FoldKeys(j, o).elems, exact) == CanonAll(es, o);
    case Obj(m) =>
      var folded := FoldKeys(j, o).fields;
      assert FoldedKeys(folded, exact) == folded.Keys by { assert forall f :: f in folded ==> exact.Key(f) == f; }
      forall f | f in folded
        ensures Canon(folded[f], exact) == Canon(j, o).fields[f]
      {
        var k :| k in m && o.Key(k) == f;
        FoldedKeysCanon(m[k], o);
        CanonField(m, k, o);
      }
      assert Canon(Obj(folded), exact).fields == Canon(j, o).fields;
    case _ =>
  }

  lemma {:induction false} FoldedTreeIsWellKeyed(j: Json, o: Options)
    ensures WellKeyed(FoldKeys(j, o), o.(keyCaseSensitive := true))
  {
    ExactKeysAreWellKeyed(FoldKeys(j, o), o.(keyCaseSensitive := true));
  }

  lemma SameOnFoldedKeys(a: Json, e: Json, o: Options)
    requires WellKeyed(a, o) && WellKeyed(e, o)
    ensures Same(a, e, o) <==> Same(FoldKeys(a, o), FoldKeys(e, o), o.(keyCaseSensitive := true))
  {
    FoldedKeysCanon(a, o);
    FoldedKeysCanon(e, o);
    FoldedTreeIsWellKeyed(a, o);
    FoldedTreeIsWellKeyed(e, o);
    SameIffCanon(a, e, o);
    SameIffCanon(FoldKeys(a, o), FoldKeys(e, o), o.(keyCaseSensitive := true));
  }

  // ---------- The comparison as it runs ----------

  ghost predicate Comparable(a: Json, e: Json, o: Options) {
    WellKeyed(a, o) && WellKeyed(e, o)
  }

  lemma FoldedKeysSplit(m: map<string, Json>, k: string, o: Options)
    requires KeysDistinct(m, o) && k in m
    ensures KeysDistinct(m - {k}, o) && o.Key(k) !in FoldedKeys(m - {k}, o)
    ensures FoldedKeys(m, o) == FoldedKeys(m - {k}, o) + {o.Key(k)}
    ensures |m| == |m - {k}| + 1
  {
    assert m.Keys == (m - {k}).Keys + {k};
  }

  lemma {:induction false} FoldedKeysCount(m: map<string, Json>, o: Options)
    requires KeysDistinct(m, o)
    ensures |FoldedKeys(m, o)| == |m|
    decreases |m|
  {
    if m == map[] {
      assert FoldedKeys(m, o) == {};
    } else {
      hide *;
      var k :| k in m;
      FoldedKeysSplit(m, k, o);
      FoldedKeysCount(m - {k}, o);
    }
  }

  lemma SubsetOfSameSize<T>(a: set<T>, b: set<T>)
    requires a <= b && |a| == |b|
    ensures a == b
  {
    assert |b - a| == |b| - |a|;
  }

  /** The recursive comparison: nulls, objects, arrays, strings, other primitives. */
  method DeepEqualJson(actual: Json, expected: Json, o: Options) returns (r: bool)
    ensures Comparable(actual, expected, o) ==> (r <==> Same(actual, expected, o))
    decreases expected, 2
  {
    if expected == Null || actual == Null {
      return actual == expected;
    }
    ghost var comparable := Comparable(actual, expected, o);
    if comparable { SameIffCanon(actual, expected, o); }
    match expected
    case Obj(em) =>
      if !actual.Obj? {
        return false;
      }
      if comparable {
        FoldedKeysCount(actual.fields, o);
        FoldedKeysCount(em, o);
        CanonFieldsEqual(actual.fields, em, o);
      }
      if |actual.fields| != |em| {
        return false;
      }
      r := MatchFields(actual.fields, expected, o);
    case Arr(ee) =>
      if !actual.Arr? {
        return false;
      }
      if |actual.elems| != |ee| {
        assert !SameBags(actual.elems, ee, o) by {
          assert |multiset(CanonAll(actual.elems, o))| == |actual.elems|;
          assert |multiset(CanonAll(ee, o))| == |ee|;
        }
        return false;
      }
      r := MatchElements(actual.elems, expected, o);
    case Str(s) =>
      r := actual.Str? && o.Text(actual.s) == o.Text(s);
    case _ =>
      r := actual == expected;
  }

  lemma FieldSame(am: map<string, Json>, expected: Json, k: string, k': string, o: Options)
    requires expected.Obj? && Comparable(Obj(am), expected, o)
    requires k in expected.fields && k' in am && o.Key(k) == o.Key(k')
    ensures Comparable(am[k'], expected.fields[k], o)
    ensures Same(am[k'], expected.fields[k], o) <==> FieldAgrees(am, k, expected.fields[k], o)
  {
    hide Same, Canon;
    SameIffCanon(am[k'], expected.fields[k], o);
  }

  /** The loop over the expected keys, taken in any order. */
  method MatchFields(am: map<string, Json>, expected: Json, o: Options) returns (r: bool)
    requires expected.Obj? && |am| == |expected.fields|
    ensures Comparable(Obj(am), expected, o) ==>
              (r <==> FoldedKeys(am, o) == FoldedKeys(expected.fields, o) && FieldsAgree(am, expected.fields, o))
    decreases expected, 1
  {
    hide Same, Canon, Comparable, FieldAgrees;
    var em := expected.fields;
    ghost var comparable := Comparable(Obj(am), expected, o);
    var todo := em.Keys;
    while todo != {}
      invariant todo <= em.Keys
      invariant forall k :: k in em && k !in todo ==> o.Key(k) in FoldedKeys(am, o)
      invariant comparable ==> forall k :: k in em && k !in todo ==> FieldAgrees(am, k, em[k], o)
      decreases |todo|
    {
      var k :| k in todo;
      todo := todo - {k};
      assert o.Key(k) in FoldedKeys(em, o);
      var found := LookUp(am, k, o);
      if found == None {
        return false;
      }
      var same := DeepEqualJson(am[found.value], em[k], o);
      if comparable { FieldSame(am, expected, k, found.value, o); }
      if !same {
        return false;
      }
    }
    if comparable { SameKeys(am, expected, o); }
    r := true;
  }

  lemma SameKeys(am: map<string, Json>, expected: Json, o: Options)
    requires expected.Obj? && Comparable(Obj(am), expected, o) && |am| == |expected.fields|
    requires forall k :: k in expected.fields ==> o.Key(k) in FoldedKeys(am, o)
    ensures FoldedKeys(am, o) == FoldedKeys(expected.fields, o)
  {
    FoldedKeysCount(am, o);
    FoldedKeysCount(expected.fields, o);
    SubsetOfSameSize(FoldedKeys(expected.fields, o), FoldedKeys(am, o));
  }

  /** The exact key if present; otherwise, unless keys are case sensitive, whichever key folding alike comes first. */
  method LookUp(m: map<string, Json>, key: string, o: Options) returns (found: Option<string>)
    ensures found == None <==> o.Key(key) !in FoldedKeys(m, o)
    ensures found.Some? ==> found.value in m && o.Key(found.value) == o.Key(key)
    ensures key in m ==> found == Some(key)
  {
    if key in m {
      assert o.Key(key) in FoldedKeys(m, o);
      return Some(key);
    }
    if !o.keyCaseSensitive {
      var todo := m.Keys;
      while todo != {}
        invariant todo <= m.Keys
        invariant forall k :: k in m && k !in todo ==> o.fold(k) != o.fold(key)
        decreases |todo|
      {
        var k :| k in todo;
        if o.fold(k) == o.fold(key) {
          assert o.Key(k) in FoldedKeys(m, o);
          return Some(k);
        }
        todo := todo - {k};
      }
    }
    found := None;
  }

  /** The first `j` expected elements have found their partners. */
  ghost predicate PartnersFound(matched: seq<bool>, av: seq<Json>, ev: seq<Json>, j: nat, o: Options) {
    |matched| == |av| && j <= |ev| && Paired(matched, CanonAll(av, o), CanonAll(ev, o), j)
  }

  /** What taking the first free equal element, or finding none, means for the pairing. */
  lemma AfterTakeFirst(before: seq<bool>, at: nat, av: seq<Json>, ev: seq<Json>, j: nat, o: Options)
    requires PartnersFound(before, av, ev, j, o) && j < |ev|
    requires at < |av| ==> !before[at] && Canon(av[at], o) == Canon(ev[j], o)
    requires at >= |av| ==> forall i :: 0 <= i < |av| && !before[i] ==> Canon(av[i], o) != Canon(ev[j], o)
    ensures at < |av| ==> PartnersFound(before[at := true], av, ev, j + 1, o)
    ensures at >= |av| ==> !SameBags(av, ev, o)
  {
    var ca, ce := CanonAll(av, o), CanonAll(ev, o);
    if at < |av| {
      PairedAfterTake(before, ca, ce, j, at);
    } else {
      assert forall i :: 0 <= i < |ca| && !before[i] ==> ca[i] == Canon(av[i], o) != ce[j];
      PairedIsStuck(before, ca, ce, j);
    }
  }

  lemma NoPartnersYet(matched: seq<bool>, av: seq<Json>, ev: seq<Json>, o: Options)
    requires |matched| == |av| && forall i :: 0 <= i < |matched| ==> !matched[i]
    ensures PartnersFound(matched, av, ev, 0, o)
  {
    PairedAtStart(matched, CanonAll(av, o), CanonAll(ev, o));
  }

  lemma AllPartnersFound(matched: seq<bool>, av: seq<Json>, ev: seq<Json>, o: Options)
    requires PartnersFound(matched, av, ev, |ev|, o) && |av| == |ev|
    ensures SameBags(av, ev, o)
  {
    PairedAtEnd(matched, CanonAll(av, o), CanonAll(ev, o));
  }

  /** The greedy loop over the expected elements: each must find an actual element not yet taken. */
  method MatchElements(av: seq<Json>, expected: Json, o: Options) returns (r: bool)
    requires expected.Arr? && |av| == |expected.elems|
    ensures Comparable(Arr(av), expected, o) ==> (r <==> SameBags(av, expected.elems, o))
    decreases expected, 1
  {
    hide *;
    var ev := expected.elems;
    ghost var comparable := Comparable(Arr(av), expected, o);
    var matched := new bool[|av|](_ => false);
    var j := 0;
    NoPartnersYet(matched[..], av, ev, o);
    while j < |ev|
      invariant j <= |ev|
      invariant comparable ==> PartnersFound(matched[..], av, ev, j, o)
    {
      ghost var before := matched[..];
      var at := TakeFirst(av, expected, j, matched, o);
      if comparable { AfterTakeFirst(before, at, av, ev, j, o); }
      if at == |av| {
        return false;
      }
      j := j + 1;
    }
    if comparable { AllPartnersFound(matched[..], av, ev, o); }
    r := true;
  }

  lemma ElementSame(av: seq<Json>, expected: Json, i: nat, j: nat, o: Options)
    requires expected.Arr? && Comparable(Arr(av), expected, o) && i < |av| && j < |expected.elems|
    ensures Comparable(av[i], expected.elems[j], o)
    ensures Same(av[i], expected.elems[j], o) <==> Canon(av[i], o) == Canon(expected.elems[j], o)
  {
    hide Same, Canon;
    SameIffCanon(av[i], expected.elems[j], o);
  }

  /** Takes the first actual element equal to expected element `j` that is not yet taken;
      answers the number of actual elements if there is none. */
  method TakeFirst(av: seq<Json>, expected: Json, j: nat, matched: array<bool>, o: Options) returns (at: nat)
    requires matched.Length == |av| && expected.Arr? && j < |expected.elems|
    modifies matched
    ensures at <= |av|
    ensures at < |av| ==> !old(matched[at]) && matched[..] == old(matched[..])[at := true]
    ensures at == |av| ==> matched[..] == old(matched[..])
    ensures Comparable(Arr(av), expected, o) ==>
              (at < |av| ==> Canon(av[at], o) == Canon(expected.elems[j], o)) &&
              forall i :: 0 <= i < at && !old(matched[i]) ==> Canon(av[i], o) != Canon(expected.elems[j], o)
    decreases expected, 0
  {
    hide Same, Canon, Comparable;
    var e := expected.elems[j];
    ghost var comparable := Comparable(Arr(av), expected, o);
    at := 0;
    while at < |av|
      invariant at <= |av|
      invariant matched[..] == old(matched[..])
      invariant comparable ==> forall i :: 0 <= i < at && !old(matched[i]) ==> Canon(av[i], o) != Canon(e, o)
    {
      if !matched[at] {
        var same := DeepEqualJson(av[at], e, o);
        if comparable { ElementSame(av, expected, at, j, o); }
        if same {
          matched[at] := true;
          return;
        }
      }
      at := at + 1;
    }
  }
}
