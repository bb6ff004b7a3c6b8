/** Decoded JSON values and the options under which the predicate engine compares them. */
module JsonTree {

  datatype Option<+T> = None | Some(value: T)

  datatype Json =
    | Null
    | Bool(b: bool)
    | Num(n: real)
    | Str(s: string)
    | Arr(elems: seq<Json>)
    | Obj(fields: map<string, Json>)

  /** The comparison options of one predicate, with an empty `except` pattern.
      Two strings are equal under case folding when `fold` maps them to the same string. */
  datatype Options = Options(caseSensitive: bool, keyCaseSensitive: bool, fold: string -> string) {
    function Text(s: string): string {
      if caseSensitive then s else fold(s)
    }

    function Key(k: string): string {
      if keyCaseSensitive then k else fold(k)
    }
  }

  /** No two keys of one object compare equal. */
  ghost predicate KeysDistinct(m: map<string, Json>, o: Options) {
    forall k, k' :: k in m && k' in m && o.Key(k) == o.Key(k') ==> k == k'
  }

  /** Keys are distinct in every object of the tree: what makes key lookup
      independent of the order in which a Go map is iterated. */
  ghost predicate WellKeyed(j: Json, o: Options) {
    match j
    case Arr(es) => forall i :: 0 <= i < |es| ==> WellKeyed(es[i], o)
    case Obj(m) => KeysDistinct(m, o) && forall k :: k in m ==> WellKeyed(m[k], o)
    case _ => true
  }

  /** With case-sensitive keys every tree is well keyed. */
  lemma {:induction false} ExactKeysAreWellKeyed(j: Json, o: Options)
    requires o.keyCaseSensitive
    ensures WellKeyed(j, o)
  {
    match j
    case Arr(es) => forall i | 0 <= i < |es| { ExactKeysAreWellKeyed(es[i], o); }
    case Obj(m) => forall k | k in m { ExactKeysAreWellKeyed(m[k], o); }
    case _ =>
  }

  predicate NoArrays(j: Json) {
    match j
    case Arr(_) => false
    case Obj(m) => forall k :: k in m ==> NoArrays(m[k])
    case _ => true
  }

  /** Key lookup: the exact key first, then, unless keys are case sensitive, any key that folds alike. */
  ghost function Find(m: map<string, Json>, key: string, o: Options): (found: Option<Json>)
    ensures found.Some? <==> exists k :: k in m && o.Key(k) == o.Key(key)
    ensures found.Some? ==> exists k :: k in m && o.Key(k) == o.Key(key) && m[k] == found.value
  {
    if key in m then Some(m[key])
    else if k :| k in m && o.Key(k) == o.Key(key) then Some(m[k])
    else None
  }
}
