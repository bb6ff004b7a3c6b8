/** Containment of one JSON value in another, as the `equals` predicate reads a JSON body. */
module Containment {
  import opened JsonTree
  import opened Permutations
  import opened DeepEqual

  /** `expected` is found in `actual`: extra object keys are allowed, an array stands for any of its elements,
      and two arrays of equal length match when every expected element is found in some actual one. */
  ghost predicate Contains(actual: Json, expected: Json, o: Options)
    decreases expected, actual
  {
    match expected
    case Null => actual.Null?
    case Obj(em) =>
      if actual.Arr? then AnyContains(actual.elems, expected, o)
      else
        actual.Obj? && forall k :: k in em ==>
          var found := Find(actual.fields, k, o);
          found.Some? && Contains(found.value, em[k], o)
    case Arr(ee) =>
      actual.Arr? && |actual.elems| == |ee| &&
      forall j :: 0 <= j < |ee| ==> AnyContains(actual.elems, ee[j], o)
    case _ =>
      if actual.Arr? then AnyContains(actual.elems, expected, o)
      else if expected.Str? then
        actual.Str? && o.Text(actual.s) == o.Text(expected.s)
      else
        actual == expected
  }

  ghost predicate AnyContains(elems: seq<Json>, expected: Json, o: Options)
    decreases expected, elems
  {
    exists i :: 0 <= i < |elems| && Contains(elems[i], expected, o)
  }

  /** `b` is `a` with object keys added, at any depth. */
  ghost predicate Grows(a: Json, b: Json) {
    match a
    case Arr(es) => b.Arr? && |b.elems| == |es| && forall i :: 0 <= i < |es| ==> Grows(es[i], b.elems[i])
    case Obj(m) => b.Obj? && forall k :: k in m ==> k in b.fields && Grows(m[k], b.fields[k])
    case _ => a == b
  }

  /** Among distinct keys, lookup finds the one value whose key folds like the one asked for. */
  lemma FindDistinct(m: map<string, Json>, k: string, key: string, o: Options)
    requires KeysDistinct(m, o) && k in m && o.Key(k) == o.Key(key)
    ensures Find(m, key, o) == Some(m[k])
  {
  }

  /** Deep equality is the stronger comparison. */
  lemma {:induction false} SameImpliesContains(a: Json, e: Json, o: Options)
    requires WellKeyed(a, o) && Same(a, e, o)
    ensures Contains(a, e, o)
    decreases e
  {
    match e
    case Obj(em) =>
      forall k | k in em
        ensures Find(a.fields, k, o).Some? && Contains(Find(a.fields, k, o).value, em[k], o)
      {
        assert o.Key(k) in FoldedKeys(em, o);
        var k' :| k' in a.fields && o.Key(k') == o.Key(k);
        FindDistinct(a.fields, k', k, o);
        SameImpliesContains(a.fields[k'], em[k], o);
      }
    case Arr(ee) =>
      var p :| IsPermutation(p, |ee|) && forall i :: 0 <= i < |ee| ==> Same(a.elems[p[i]], ee[i], o);
      forall j | 0 <= j < |ee|
        ensures AnyContains(a.elems, ee[j], o)
      {
        SameImpliesContains(a.elems[p[j]], ee[j], o);
      }
    case _ =>
  }

  /** Adding object keys to the actual value and removing object keys from the expected one keeps containment. */
  lemma {:induction false} ContainmentIsMonotone(a: Json, e: Json, a': Json, e': Json, o: Options)
    requires Contains(a, e, o) && Grows(a, a') && Grows(e', e) && WellKeyed(a', o)
    ensures Contains(a', e', o)
    decreases e', a'
  {
    if a.Arr? && !e.Arr? && e != Null {
      assert AnyContains(a.elems, e, o);
      var i :| 0 <= i < |a.elems| && Contains(a.elems[i], e, o);
      ContainmentIsMonotone(a.elems[i], e, a'.elems[i], e', o);
    } else {
      match e'
      case Obj(em') =>
        forall k | k in em'
          ensures Find(a'.fields, k, o).Some? && Contains(Find(a'.fields, k, o).value, em'[k], o)
        {
          var v := Find(a.fields, k, o).value;
          var k' :| k' in a.fields && o.Key(k') == o.Key(k) && v == a.fields[k'];
          FindDistinct(a'.fields, k', k, o);
          ContainmentIsMonotone(v, e.fields[k], a'.fields[k'], em'[k], o);
        }
      case Arr(ee') =>
        forall j | 0 <= j < |ee'|
          ensures AnyContains(a'.elems, ee'[j], o)
        {
          assert AnyContains(a.elems, e.elems[j], o);
          var i :| 0 <= i < |ee'| && Contains(a.elems[i], e.elems[j], o);
          ContainmentIsMonotone(a.elems[i], e.elems[j], a'.elems[i], ee'[j], o);
        }
      case _ =>
    }
  }

  /** The law on all trees: adding keys to the actual value and removing keys from the expected one keeps
      containment. */
  ghost predicate Monotone(o: Options) {
    forall a, e, a', e' :: Contains(a, e, o) && Grows(a, a') && Grows(e', e) ==> Contains(a', e', o)
  }

  ghost predicate KeysTellApart(o: Options) {
    forall k, k' :: o.Key(k) == o.Key(k') ==> k == k'
  }

  lemma {:induction false} AllWellKeyed(j: Json, o: Options)
    requires KeysTellApart(o)
    ensures WellKeyed(j, o)
  {
    match j
    case Arr(es) => forall i | 0 <= i < |es| { AllWellKeyed(es[i], o); }
    case Obj(m) => forall k | k in m { AllWellKeyed(m[k], o); }
    case _ =>
  }

  lemma {:induction false} GrowsFromItself(j: Json)
    ensures Grows(j, j)
  {
    match j
    case Arr(es) => forall i | 0 <= i < |es| { GrowsFromItself(es[i]); }
    case Obj(m) => forall k | k in m { GrowsFromItself(m[k]); }
    case _ =>
  }

  /** A new key hides the value of any other key that compares equal to it. */
  lemma AddedKeyHidesValue(k: string, k': string, o: Options)
    requires k != k' && o.Key(k) == o.Key(k')
    ensures var a, a', e := Obj(map[k := Num(1.0)]), Obj(map[k := Num(1.0), k' := Num(2.0)]), Obj(map[k' := Num(1.0)]);
            Contains(a, e, o) && Grows(a, a') && !Contains(a', e, o)
  {
    var a, a', e := Obj(map[k := Num(1.0)]), Obj(map[k := Num(1.0), k' := Num(2.0)]), Obj(map[k' := Num(1.0)]);
    FindDistinct(a.fields, k, k', o);
    assert k' in e.fields && Find(a'.fields, k', o) == Some(Num(2.0));
    assert !Contains(Num(2.0), Num(1.0), o);
  }

  /** The law holds of all trees exactly when no two different keys compare equal. */
  lemma MonotoneExactlyWhen(o: Options)
    ensures Monotone(o) <==> KeysTellApart(o)
  {
    if KeysTellApart(o) {
      forall a, e, a', e' | Contains(a, e, o) && Grows(a, a') && Grows(e', e)
        ensures Contains(a', e', o)
      {
        AllWellKeyed(a', o);
        ContainmentIsMonotone(a, e, a', e', o);
      }
    } else {
      var k, k' :| o.Key(k) == o.Key(k') && k != k';
      AddedKeyHidesValue(k, k', o);
      GrowsFromItself(Obj(map[k' := Num(1.0)]));
    }
  }
}
