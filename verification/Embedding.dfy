/** Containment bounded from above: what must be found in the actual value for the comparison to say yes. */
module Embedding {
  import opened JsonTree
  import opened DeepEqual
  import opened Containment

  // ---------- Embeddings ----------

  /** Where the parts of an expected value are found: a leaf on the spot, a value in one element of an array, every
      expected key under a key of the actual object, every expected element in an element of the actual array. */
  datatype Embedding =
    | Leaf
    | Into(index: nat, inner: Embedding)
    | Keys(keys: map<string, string>, below: map<string, Embedding>)
    | Places(places: seq<nat>, at: seq<Embedding>)

  ghost predicate Fits(w: Embedding, a: Json, e: Json, o: Options) {
    match w
    case Leaf =>
      !e.Arr? && !e.Obj? &&
      if e.Str? then a.Str? && (if o.caseSensitive then a.s == e.s else o.fold(a.s) == o.fold(e.s)) else a == e
    case Into(i, inner) =>
      a.Arr? && !e.Arr? && !e.Null? && i < |a.elems| && Fits(inner, a.elems[i], e, o)
    case Keys(keys, below) =>
      a.Obj? && e.Obj? && keys.Keys == e.fields.Keys && below.Keys == e.fields.Keys &&
      forall k :: k in e.fields ==>
        keys[k] in a.fields && (if o.keyCaseSensitive then keys[k] == k else o.fold(keys[k]) == o.fold(k)) &&
        Fits(below[k], a.fields[keys[k]], e.fields[k], o)
    case Places(places, at) =>
      a.Arr? && e.Arr? && |a.elems| == |e.elems| == |places| == |at| &&
      forall j :: 0 <= j < |e.elems| ==>
        places[j] < |a.elems| && Fits(at[j], a.elems[places[j]], e.elems[j], o)
  }

  lemma {:induction false} FitIsContained(w: Embedding, a: Json, e: Json, o: Options)
    requires WellKeyed(a, o) && Fits(w, a, e, o)
    ensures Contains(a, e, o)
    decreases w
  {
    match w
    case Leaf =>
    case Into(i, inner) =>
      FitIsContained(inner, a.elems[i], e, o);
      assert AnyContains(a.elems, e, o);
    case Keys(keys, below) =>
      forall k | k in e.fields
        ensures Find(a.fields, k, o).Some? && Contains(Find(a.fields, k, o).value, e.fields[k], o)
      {
        FindDistinct(a.fields, keys[k], k, o);
        FitIsContained(below[k], a.fields[keys[k]], e.fields[k], o);
      }
    case Places(places, at) =>
      forall j | 0 <= j < |e.elems| ensures AnyContains(a.elems, e.elems[j], o) {
        FitIsContained(at[j], a.elems[places[j]], e.elems[j], o);
      }
  }

  ghost predicate Embeds(a: Json, e: Json, o: Options) {
    exists w :: Fits(w, a, e, o)
  }

  lemma {:induction false} SomeElementFits(elems: seq<Json>, e: Json, o: Options) returns (i: nat)
    requires AnyContains(elems, e, o)
    ensures i < |elems| && Embeds(elems[i], e, o)
    decreases e, elems
  {
    i :| 0 <= i < |elems| && Contains(elems[i], e, o);
    ContainedFits(elems[i], e, o);
  }

  lemma {:induction false} ContainedFits(a: Json, e: Json, o: Options)
    requires Contains(a, e, o)
    ensures Embeds(a, e, o)
    decreases e, a
  {
    if a.Arr? && !e.Arr? && !e.Null? {
      var i := SomeElementFits(a.elems, e, o);
      var w :| Fits(w, a.elems[i], e, o);
      assert Fits(Into(i, w), a, e, o);
    } else if e.Arr? {
      ContainedArrayFits(a, e, o);
    } else if e.Obj? {
      ContainedObjectFits(a, e, o);
    } else {
      assert Fits(Leaf, a, e, o);
    }
  }

  ghost predicate FitsIn(w: Embedding, elems: seq<Json>, i: int, e: Json, o: Options) {
    0 <= i < |elems| && Fits(w, elems[i], e, o)
  }

  lemma {:induction false} ContainedArrayFits(a: Json, e: Json, o: Options)
    requires Contains(a, e, o) && e.Arr?
    ensures Embeds(a, e, o)
    decreases e, a, 0
  {
    forall j | 0 <= j < |e.elems| ensures exists i: nat, w :: FitsIn(w, a.elems, i, e.elems[j], o) {
      var i := SomeElementFits(a.elems, e.elems[j], o);
      var w :| Fits(w, a.elems[i], e.elems[j], o);
      assert FitsIn(w, a.elems, i, e.elems[j], o);
    }
    var pairs := seq(|e.elems|, j requires 0 <= j < |e.elems| =>
      var i: nat, w :| FitsIn(w, a.elems, i, e.elems[j], o); (i, w));
    var places := seq(|e.elems|, j requires 0 <= j < |e.elems| => pairs[j].0);
    var at := seq(|e.elems|, j requires 0 <= j < |e.elems| => pairs[j].1);
    assert forall j :: 0 <= j < |e.elems| ==> FitsIn(at[j], a.elems, places[j], e.elems[j], o);
    assert Fits(Places(places, at), a, e, o);
  }

  ghost predicate FitsUnder(w: Embedding, m: map<string, Json>, k': string, k: string, e: Json, o: Options) {
    k' in m && (if o.keyCaseSensitive then k' == k else o.fold(k') == o.fold(k)) && Fits(w, m[k'], e, o)
  }

  lemma {:induction false} ContainedObjectFits(a: Json, e: Json, o: Options)
    requires Contains(a, e, o) && e.Obj? && !a.Arr?
    ensures Embeds(a, e, o)
    decreases e, a, 0
  {
    forall k | k in e.fields ensures exists k', w :: FitsUnder(w, a.fields, k', k, e.fields[k], o) {
      var found := Find(a.fields, k, o);
      var k' :| k' in a.fields && o.Key(k') == o.Key(k) && a.fields[k'] == found.value;
      ContainedFits(found.value, e.fields[k], o);
      var w :| Fits(w, found.value, e.fields[k], o);
      assert FitsUnder(w, a.fields, k', k, e.fields[k], o);
    }
    KeysFit(a, e, o);
  }

  lemma KeysFit(a: Json, e: Json, o: Options)
    requires a.Obj? && e.Obj?
    requires forall k :: k in e.fields ==> exists k', w :: FitsUnder(w, a.fields, k', k, e.fields[k], o)
    ensures Embeds(a, e, o)
  {
    hide FitsUnder, Fits;
    var pairs := map k | k in e.fields :: var k', w :| FitsUnder(w, a.fields, k', k, e.fields[k], o); (k', w);
    var keys := map k | k in e.fields :: pairs[k].0;
    var below := map k | k in e.fields :: pairs[k].1;
    assert forall k :: k in e.fields ==> FitsUnder(below[k], a.fields, keys[k], k, e.fields[k], o);
    AllUnderFits(keys, below, a, e, o);
  }

  lemma AllUnderFits(keys: map<string, string>, below: map<string, Embedding>, a: Json, e: Json, o: Options)
    requires a.Obj? && e.Obj? && keys.Keys == e.fields.Keys && below.Keys == e.fields.Keys
    requires forall k :: k in e.fields ==> FitsUnder(below[k], a.fields, keys[k], k, e.fields[k], o)
    ensures Fits(Keys(keys, below), a, e, o)
  {
  }

  /** The comparison says yes exactly when the expected value can be embedded in the actual one. */
  lemma ContainsIffEmbeds(a: Json, e: Json, o: Options)
    requires WellKeyed(a, o)
    ensures Contains(a, e, o) <==> Embeds(a, e, o)
  {
    if Contains(a, e, o) {
      ContainedFits(a, e, o);
    }
    if w :| Fits(w, a, e, o) {
      FitIsContained(w, a, e, o);
    }
  }

  // ---------- The comparison as it runs ----------

  /** The recursive comparison, with its loops over expected keys and elements. */
  method JsonContains(actual: Json, expected: Json, o: Options) returns (r: bool)
    ensures WellKeyed(actual, o) ==> (r <==> Embeds(actual, expected, o))
    decreases expected, actual, 2
  {
    r := RunContains(actual, expected, o);
    if WellKeyed(actual, o) { ContainsIffEmbeds(actual, expected, o); }
  }

  method RunContains(actual: Json, expected: Json, o: Options) returns (r: bool)
    ensures WellKeyed(actual, o) ==> (r <==> Contains(actual, expected, o))
    decreases expected, actual, 1
  {
    if expected == Null {
      return actual == Null;
    }
    if expected.Obj? {
      if actual.Arr? {
        r := AnyElement(actual, expected, o);
        return;
      }
      if !actual.Obj? {
        return false;
      }
      r := ContainsKeys(actual, expected, o);
      return;
    }
    if expected.Arr? {
      if !actual.Arr? {
        return false;
      }
      if |actual.elems| != |expected.elems| {
        return false;
      }
      for j := 0 to |expected.elems|
        invariant WellKeyed(actual, o) ==> forall i :: 0 <= i < j ==> AnyContains(actual.elems, expected.elems[i], o)
      {
        var found := AnyElement(actual, expected.elems[j], o);
        if !found {
          return false;
        }
      }
      return true;
    }
    if actual.Arr? {
      r := AnyElement(actual, expected, o);
      return;
    }
    if expected.Str? {
      return actual.Str? && o.Text(actual.s) == o.Text(expected.s);
    }
    r := actual == expected;
  }

  lemma NotFound(m: map<string, Json>, k: string, o: Options)
    requires o.Key(k) !in FoldedKeys(m, o)
    ensures Find(m, k, o) == None
  {
    forall k' | k' in m ensures o.Key(k') != o.Key(k) {
      assert o.Key(k') in FoldedKeys(m, o);
    }
  }

  /** The value under an expected key is found and contains what is expected there. */
  ghost predicate KeyContains(m: map<string, Json>, k: string, e: Json, o: Options) {
    Find(m, k, o).Some? && Contains(Find(m, k, o).value, e, o)
  }

  lemma ContainsKeysIs(a: Json, e: Json, o: Options)
    requires a.Obj? && e.Obj?
    ensures Contains(a, e, o) <==> forall k :: k in e.fields ==> KeyContains(a.fields, k, e.fields[k], o)
  {
    hide Find;
  }

  /** The loop over the expected keys, taken in any order. */
  method ContainsKeys(actual: Json, expected: Json, o: Options) returns (r: bool)
    requires actual.Obj? && expected.Obj?
    ensures WellKeyed(actual, o) ==> (r <==> Contains(actual, expected, o))
    decreases expected, actual, 0
  {
    hide Contains, Find;
    ContainsKeysIs(actual, expected, o);
    var am, em := actual.fields, expected.fields;
    var todo := em.Keys;
    while todo != {}
      invariant todo <= em.Keys
      invariant WellKeyed(actual, o) ==> forall k :: k in em && k !in todo ==> KeyContains(am, k, em[k], o)
      decreases |todo|
    {
      var k :| k in todo;
      todo := todo - {k};
      var found := LookUp(am, k, o);
      if found == None {
        NotFound(am, k, o);
        return false;
      }
      var inner := RunContains(am[found.value], em[k], o);
      if WellKeyed(actual, o) { FindDistinct(am, found.value, k, o); }
      if !inner {
        return false;
      }
    }
    r := true;
  }

  /** The loop over the elements of an actual array. */
  method AnyElement(actual: Json, expected: Json, o: Options) returns (r: bool)
    requires actual.Arr?
    ensures WellKeyed(actual, o) ==> (r <==> AnyContains(actual.elems, expected, o))
    decreases expected, actual, 0
  {
    for i := 0 to |actual.elems|
      invariant WellKeyed(actual, o) ==> forall j :: 0 <= j < i ==> !Contains(actual.elems[j], expected, o)
    {
      var found := RunContains(actual.elems[i], expected, o);
      if found {
        return true;
      }
    }
    r := false;
  }

  // ---------- Upper bounds ----------

  /** Arrays are contained in arrays of the same length only. */
  lemma SameLength(x: seq<Json>, y: seq<Json>, o: Options)
    requires Contains(Arr(x), Arr(y), o)
    ensures |x| == |y|
  {
  }

  /** What is left of an object without the keys that are not expected, at every depth. */
  ghost function Cut(a: Json, e: Json, o: Options): Json
    decreases e
  {
    if a.Obj? && e.Obj? then
      Obj(map k' | k' in a.fields && (exists k :: k in e.fields && o.Key(k) == o.Key(k')) ::
        var k :| k in e.fields && o.Key(k) == o.Key(k'); Cut(a.fields[k'], e.fields[k], o))
    else a
  }

  lemma CutField(a: Json, e: Json, o: Options, k': string) returns (k: string)
    requires a.Obj? && e.Obj? && k' in Cut(a, e, o).fields
    ensures k' in a.fields && k in e.fields && o.Key(k) == o.Key(k')
    ensures Cut(a, e, o).fields[k'] == Cut(a.fields[k'], e.fields[k], o)
  {
    k :| k in e.fields && o.Key(k) == o.Key(k') && Cut(a, e, o).fields[k'] == Cut(a.fields[k'], e.fields[k], o);
  }

  lemma CutHas(a: Json, e: Json, o: Options, k': string, k: string)
    requires a.Obj? && e.Obj? && k' in a.fields && k in e.fields && o.Key(k) == o.Key(k')
    ensures k' in Cut(a, e, o).fields
  {
  }

  lemma {:induction false} CutGrows(a: Json, e: Json, o: Options)
    ensures Grows(Cut(a, e, o), a)
    decreases e
  {
    if a.Obj? && e.Obj? {
      var cut := Cut(a, e, o);
      assert cut.Obj?;
      hide Cut;
      forall k' | k' in cut.fields ensures k' in a.fields && Grows(cut.fields[k'], a.fields[k']) {
        var k := CutField(a, e, o, k');
        CutGrows(a.fields[k'], e.fields[k], o);
      }
    } else {
      GrowsFromItself(a);
    }
  }

  lemma CutKeys(a: Json, e: Json, o: Options)
    requires a.Obj? && e.Obj? && forall k :: k in e.fields ==> Find(a.fields, k, o).Some?
    ensures Cut(a, e, o).Obj? && FoldedKeys(Cut(a, e, o).fields, o) == FoldedKeys(e.fields, o)
  {
    var m := Cut(a, e, o).fields;
    hide Cut, Find;
    forall k | k in e.fields ensures o.Key(k) in FoldedKeys(m, o) {
      var k' :| k' in a.fields && o.Key(k') == o.Key(k);
      CutHas(a, e, o, k', k);
    }
    forall k' | k' in m ensures o.Key(k') in FoldedKeys(e.fields, o) {
      var k := CutField(a, e, o, k');
    }
  }

  lemma {:induction false} CutIsSame(a: Json, e: Json, o: Options)
    requires WellKeyed(a, o) && WellKeyed(e, o) && NoArrays(a) && NoArrays(e) && Contains(a, e, o)
    ensures Same(Cut(a, e, o), e, o)
    decreases e
  {
    if e.Obj? {
      CutKeys(a, e, o);
      var m := Cut(a, e, o).fields;
      hide Cut, Find;
      forall k, k' | k in e.fields && k' in m && o.Key(k) == o.Key(k')
        ensures Same(m[k'], e.fields[k], o)
      {
        var k0 := CutField(a, e, o, k');
        FindDistinct(a.fields, k', k, o);
        CutIsSame(a.fields[k'], e.fields[k], o);
      }
    }
  }

  lemma {:induction false} SmallerIsWellKeyed(a: Json, b: Json, o: Options)
    requires Grows(a, b) && WellKeyed(b, o)
    ensures WellKeyed(a, o)
    decreases a
  {
    match a
    case Arr(es) => forall i | 0 <= i < |es| { SmallerIsWellKeyed(es[i], b.elems[i], o); }
    case Obj(m) => forall k | k in m { SmallerIsWellKeyed(m[k], b.fields[k], o); }
    case _ =>
  }

  ghost predicate GrownFrom(a': Json, a: Json, e: Json, o: Options) {
    Grows(a', a) && Same(a', e, o)
  }

  lemma GrownContains(a': Json, a: Json, e: Json, o: Options)
    requires WellKeyed(a, o) && GrownFrom(a', a, e, o)
    ensures Contains(a, e, o)
  {
    SmallerIsWellKeyed(a', a, o);
    SameImpliesContains(a', e, o);
    GrowsFromItself(e);
    ContainmentIsMonotone(a', e, a, e, o);
  }

  /** Without arrays, containment is deep equality up to further keys in the actual value. */
  lemma ContainsIffGrown(a: Json, e: Json, o: Options)
    requires WellKeyed(a, o) && WellKeyed(e, o) && NoArrays(a) && NoArrays(e)
    ensures Contains(a, e, o) <==> exists a' :: GrownFrom(a', a, e, o)
  {
    if Contains(a, e, o) {
      CutGrows(a, e, o);
      CutIsSame(a, e, o);
      assert GrownFrom(Cut(a, e, o), a, e, o);
    }
    if a' :| GrownFrom(a', a, e, o) {
      GrownContains(a', a, e, o);
    }
  }
}
