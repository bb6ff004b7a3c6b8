/** The nested form of the `exists` predicate on a JSON body. */
module Existence {
  import opened JsonTree
  import opened Navigation

  /** What the nested form asks of a key: a flag, more keys below it, or something it ignores. */
  datatype Spec = Flag(expected: bool) | Nested(keys: map<string, Spec>) | Ignored

  ghost predicate KeyExists(data: Json, key: string, o: Options) {
    data.Obj? && Find(data.fields, key, o).Some?
  }

  /** The value under a key, with null standing for a missing one. */
  ghost function ValueOf(data: Json, key: string, o: Options): Json {
    if KeyExists(data, key, o) then Find(data.fields, key, o).value else Null
  }

  predicate AllExpectFalse(spec: Spec)
    requires spec.Nested?
    decreases spec
  {
    forall k :: k in spec.keys ==>
      match spec.keys[k]
      case Flag(expected) => !expected
      case Nested(_) => AllExpectFalse(spec.keys[k])
      case Ignored => true
  }

  ghost predicate CheckNested(data: Json, spec: Spec, o: Options)
    requires spec.Nested?
    decreases spec
  {
    forall k :: k in spec.keys ==>
      match spec.keys[k]
      case Flag(expected) => KeyExists(data, k, o) == expected
      case Nested(_) =>
        var child := ValueOf(data, k, o);
        if child == Null then AllExpectFalse(spec.keys[k]) else CheckNested(child, spec.keys[k], o)
      case Ignored => true
  }

  // ---------- The flat reading ----------

  /** The flag at the end of a path of keys. */
  function FlagAt(spec: Spec, path: seq<string>): Option<bool>
    decreases |path|
  {
    match spec
    case Flag(expected) => if path == [] then Some(expected) else None
    case Nested(keys) => if path != [] && path[0] in keys then FlagAt(keys[path[0]], path[1..]) else None
    case Ignored => None
  }

  /** Every flag says whether its own path exists. */
  ghost predicate FlatExistence(data: Json, spec: Spec, o: Options) {
    forall path, expected :: FlagAt(spec, path) == Some(expected) ==> NavigateAndCheck(data, path, o) == expected
  }

  /** No key on the way to a flag reads as an array selector. */
  ghost predicate FlagsUnderNames(spec: Spec) {
    forall path :: FlagAt(spec, path).Some? ==> !HasBracket(path)
  }

  predicate HasBracket(path: seq<string>) {
    exists i :: 0 <= i < |path| && IsBracket(path[i])
  }

  lemma FlagsBelow(spec: Spec, k: string)
    requires spec.Nested? && k in spec.keys && FlagsUnderNames(spec)
    ensures FlagsUnderNames(spec.keys[k])
  {
    forall path | FlagAt(spec.keys[k], path).Some? ensures !HasBracket(path) {
      var longer := [k] + path;
      assert longer[1..] == path && FlagAt(spec, longer).Some?;
      assert forall i :: 0 <= i < |path| ==> path[i] == longer[i + 1];
    }
  }

  lemma StepDown(data: Json, path: seq<string>, o: Options)
    requires path != [] && !IsBracket(path[0])
    ensures NavigateAndCheck(data, path, o) <==>
            KeyExists(data, path[0], o) && NavigateAndCheck(ValueOf(data, path[0], o), path[1..], o)
  {
  }

  lemma {:induction false} NoFlagExpected(spec: Spec, path: seq<string>)
    requires spec.Nested? && AllExpectFalse(spec)
    ensures FlagAt(spec, path) != Some(true)
    decreases |path|
  {
    if path != [] && path[0] in spec.keys && spec.keys[path[0]].Nested? {
      NoFlagExpected(spec.keys[path[0]], path[1..]);
    }
  }

  lemma {:induction false} FlagExpected(spec: Spec) returns (path: seq<string>)
    requires spec.Nested? && !AllExpectFalse(spec)
    ensures path != [] && FlagAt(spec, path) == Some(true)
  {
    var k :| k in spec.keys && match spec.keys[k]
             case Flag(expected) => expected
             case Nested(_) => !AllExpectFalse(spec.keys[k])
             case Ignored => false;
    var below := [];
    if spec.keys[k].Nested? {
      below := FlagExpected(spec.keys[k]);
    }
    path := [k] + below;
    assert path[1..] == below;
  }

  lemma {:induction false} NestedImpliesFlat(data: Json, spec: Spec, o: Options, path: seq<string>, expected: bool)
    requires spec.Nested? && FlagsUnderNames(spec) && CheckNested(data, spec, o)
    requires FlagAt(spec, path) == Some(expected)
    ensures NavigateAndCheck(data, path, o) == expected
    decreases |path|
  {
    var k, child := path[0], ValueOf(data, path[0], o);
    assert !IsBracket(path[0]) by { assert !HasBracket(path); }
    FlagsBelow(spec, k);
    StepDown(data, path, o);
    if spec.keys[k].Nested? {
      assert path[1..] != [];
      if child == Null {
        NoFlagExpected(spec.keys[k], path[1..]);
      } else {
        NestedImpliesFlat(child, spec.keys[k], o, path[1..], expected);
      }
    }
  }

  /** A nested check that fails names a flag that is wrong about its path. */
  lemma {:induction false} FailingFlag(data: Json, spec: Spec, o: Options) returns (path: seq<string>, expected: bool)
    requires spec.Nested? && FlagsUnderNames(spec) && !CheckNested(data, spec, o)
    ensures path != [] && FlagAt(spec, path) == Some(expected) && NavigateAndCheck(data, path, o) != expected
    decreases spec
  {
    var k :| k in spec.keys && match spec.keys[k]
             case Flag(e) => KeyExists(data, k, o) != e
             case Nested(_) => (var child := ValueOf(data, k, o);
               if child == Null then !AllExpectFalse(spec.keys[k]) else !CheckNested(child, spec.keys[k], o))
             case Ignored => false;
    var child, below := ValueOf(data, k, o), [];
    FlagsBelow(spec, k);
    if spec.keys[k].Flag? {
      expected := spec.keys[k].expected;
    } else if child == Null {
      below := FlagExpected(spec.keys[k]);
      expected := true;
    } else {
      below, expected := FailingFlag(child, spec.keys[k], o);
    }
    path := [k] + below;
    assert path[1..] == below;
    assert FlagAt(spec, path) == Some(expected);
    assert !IsBracket(path[0]) by { assert !HasBracket(path); }
    StepDown(data, path, o);
  }

  /** Checking the nested specification is checking every one of its paths on its own. */
  lemma NestedIffFlat(data: Json, spec: Spec, o: Options)
    requires spec.Nested? && FlagsUnderNames(spec)
    ensures CheckNested(data, spec, o) <==> FlatExistence(data, spec, o)
  {
    if CheckNested(data, spec, o) {
      forall path, expected | FlagAt(spec, path) == Some(expected)
        ensures NavigateAndCheck(data, path, o) == expected
      {
        NestedImpliesFlat(data, spec, o, path, expected);
      }
    } else {
      var path, expected := FailingFlag(data, spec, o);
    }
  }

  // ---------- The readings part where a flag lies under a bracket key ----------

  /** Whether the smallest tree that the flags ask for has a key, or the tree is to have it on the way along `extra`. */
  predicate Wanted(spec: Spec, key: string, extra: seq<string>)
    requires spec.Nested? && key in spec.keys
  {
    || (extra != [] && extra[0] == key)
    || spec.keys[key] == Flag(true)
    || (spec.keys[key].Nested? && !AllExpectFalse(spec.keys[key]))
  }

  function Below(key: string, extra: seq<string>): seq<string> {
    if extra != [] && extra[0] == key then extra[1..] else []
  }

  /** The smallest tree in which every path that is expected to exist does, and the path `extra` too. */
  ghost function Smallest(spec: Spec, extra: seq<string>): Json
    requires spec.Nested?
    decreases spec
  {
    Obj(map k | k in spec.keys && Wanted(spec, k, extra) ::
      if spec.keys[k].Nested? then Smallest(spec.keys[k], Below(k, extra)) else Null)
  }

  lemma {:induction false} SmallestIsAccepted(spec: Spec, o: Options)
    requires spec.Nested? && o.keyCaseSensitive
    ensures CheckNested(Smallest(spec, []), spec, o)
    decreases spec
  {
    var data := Smallest(spec, []);
    forall k | k in spec.keys
      ensures KeyExists(data, k, o) == (k in data.fields)
      ensures spec.keys[k].Nested? && k in data.fields ==> CheckNested(ValueOf(data, k, o), spec.keys[k], o)
    {
      if spec.keys[k].Nested? && k in data.fields {
        SmallestIsAccepted(spec.keys[k], o);
      }
    }
  }

  /** With a path added that is expected to be missing, the tree is rejected. */
  lemma {:induction false} AddedPathIsRejected(spec: Spec, extra: seq<string>, o: Options)
    requires spec.Nested? && o.keyCaseSensitive && FlagAt(spec, extra) == Some(false)
    ensures !CheckNested(Smallest(spec, extra), spec, o)
    decreases spec
  {
    var k, data := extra[0], Smallest(spec, extra);
    assert k in data.fields && Find(data.fields, k, o) == Some(data.fields[k]);
    if spec.keys[k].Nested? {
      AddedPathIsRejected(spec.keys[k], extra[1..], o);
    }
  }

  /** The tree has no arrays, so no path with a bracket leads anywhere in it. */
  lemma {:induction false} BracketLeadsNowhere(spec: Spec, extra: seq<string>, path: seq<string>, o: Options)
    requires spec.Nested? && o.keyCaseSensitive && HasBracket(path)
    ensures !NavigateAndCheck(Smallest(spec, extra), path, o)
    decreases |path|
  {
    var k, data := path[0], Smallest(spec, extra);
    if !IsBracket(k) && k in data.fields {
      assert HasBracket(path[1..]) by {
        var i :| 0 <= i < |path| && IsBracket(path[i]);
        assert path[1..][i - 1] == path[i];
      }
      if spec.keys[k].Nested? {
        BracketLeadsNowhere(spec.keys[k], Below(k, extra), path[1..], o);
      }
    }
  }

  /** Every other flag is right about the tree, read as a path. */
  lemma {:induction false} OtherFlagsHold(spec: Spec, extra: seq<string>, path: seq<string>, expected: bool, o: Options)
    requires spec.Nested? && o.keyCaseSensitive && (extra == [] || FlagAt(spec, extra) == Some(false))
    requires FlagAt(spec, path) == Some(expected) && path != extra && !HasBracket(path)
    ensures NavigateAndCheck(Smallest(spec, extra), path, o) == expected
    decreases |path|
  {
    var k, rest, data := path[0], path[1..], Smallest(spec, extra);
    assert path == [k] + rest && (extra != [] ==> extra == [extra[0]] + extra[1..]);
    assert !IsBracket(k);
    assert Find(data.fields, k, o) == if k in data.fields then Some(data.fields[k]) else None;
    if spec.keys[k].Nested? {
      if k in data.fields {
        assert !HasBracket(rest) by { assert forall i :: 0 <= i < |rest| ==> rest[i] == path[i + 1]; }
        OtherFlagsHold(spec.keys[k], Below(k, extra), rest, expected, o);
      } else {
        NoFlagExpected(spec.keys[k], rest);
      }
    } else {
      assert rest == [];
    }
  }

  /** A flag under a bracket key has a tree that separates the readings. */
  lemma FlagUnderBracketSeparates(spec: Spec, o: Options) returns (data: Json)
    requires spec.Nested? && o.keyCaseSensitive && !FlagsUnderNames(spec)
    ensures CheckNested(data, spec, o) != FlatExistence(data, spec, o)
  {
    if path :| FlagAt(spec, path).Some? && FlagAt(spec, path).value && HasBracket(path) {
      data := Smallest(spec, []);
      SmallestIsAccepted(spec, o);
      BracketLeadsNowhere(spec, [], path, o);
    } else {
      var extra :| FlagAt(spec, extra).Some? && HasBracket(extra);
      data := Smallest(spec, extra);
      assert !FlagAt(spec, extra).value;
      AddedPathIsRejected(spec, extra, o);
      forall path, expected | FlagAt(spec, path) == Some(expected)
        ensures NavigateAndCheck(data, path, o) == expected
      {
        if HasBracket(path) {
          BracketLeadsNowhere(spec, extra, path, o);
        } else {
          OtherFlagsHold(spec, extra, path, expected, o);
        }
      }
    }
  }

  /** The two readings agree on all data exactly when every flag lies under names only. */
  lemma ReadingsAgreeExactlyWhen(spec: Spec, o: Options)
    requires spec.Nested? && o.keyCaseSensitive
    ensures (forall data :: CheckNested(data, spec, o) <==> FlatExistence(data, spec, o)) <==> FlagsUnderNames(spec)
  {
    if FlagsUnderNames(spec) {
      forall data ensures CheckNested(data, spec, o) <==> FlatExistence(data, spec, o) {
        NestedIffFlat(data, spec, o);
      }
    } else {
      var data := FlagUnderBracketSeparates(spec, o);
    }
  }
}
