/** What each kind of step selects, said without the walkers: numbered elements, wildcards, quoted keys, and
    field names applied to a whole array. */
module Selectors {
  import opened JsonTree
  import opened Strings
  import opened Paths
  import opened Navigation

  // ---------- Numbers as text ----------

  function Digit(d: nat): char
    requires d < 10
  {
    '0' + d as char
  }

  /** The decimal text of a number. */
  function Digits(n: nat): string {
    if n < 10 then [Digit(n)] else Digits(n / 10) + [Digit(n % 10)]
  }

  /** The decimal text of a number, with a minus sign if it is negative. */
  function IndexText(n: int): string {
    if n < 0 then "-" + Digits(-n) else Digits(n)
  }

  lemma {:induction false} DigitsReadBack(n: nat)
    ensures AllDigits(Digits(n)) && Decimal(Digits(n)) == n
  {
    var s := Digits(n);
    if n < 10 {
      assert s[..0] == "";
    } else {
      DigitsReadBack(n / 10);
      assert s[..|s| - 1] == Digits(n / 10) && s[|s| - 1] == Digit(n % 10);
    }
  }

  /** A number is read back from its text; the text needs no brackets. */
  lemma IndexTextReadsBack(n: int)
    ensures Atoi(IndexText(n)) == Some(n)
    ensures Bracket(IndexText(n)).Plain() && IndexText(n) != "*"
  {
    hide Digits;
    if n < 0 {
      DigitsReadBack(-n);
      assert IndexText(n)[1..] == Digits(-n);
    } else {
      DigitsReadBack(n);
    }
  }

  function Zeros(n: nat): string {
    seq(n, _ => '0')
  }

  function Magnitude(n: int): nat {
    if n < 0 then -n else n
  }

  function NumberText(sign: string, zeros: nat, n: int): string {
    sign + (Zeros(zeros) + Digits(Magnitude(n)))
  }

  predicate IsSign(sign: string, n: int) {
    (n <= 0 && sign == "-") || (n >= 0 && (sign == "" || sign == "+"))
  }

  /** The number, after an optional sign and leading zeros. */
  ghost predicate IsNumber(s: string, n: int) {
    exists sign, zeros :: IsSign(sign, n) && s == NumberText(sign, zeros, n)
  }

  lemma {:induction false} LeadingZeros(zeros: nat, n: nat)
    ensures AllDigits(Zeros(zeros) + Digits(n)) && Decimal(Zeros(zeros) + Digits(n)) == n
  {
    var s := Zeros(zeros) + Digits(n);
    DigitsReadBack(n);
    if n < 10 {
      ZerosAreZero(zeros);
      assert s[..|s| - 1] == Zeros(zeros) && s[|s| - 1] == Digit(n);
    } else {
      LeadingZeros(zeros, n / 10);
      assert s[..|s| - 1] == Zeros(zeros) + Digits(n / 10) && s[|s| - 1] == Digit(n % 10);
    }
  }

  lemma {:induction false} ZerosAreZero(zeros: nat)
    ensures Decimal(Zeros(zeros)) == 0
  {
    if zeros > 0 {
      assert Zeros(zeros)[..zeros - 1] == Zeros(zeros - 1);
      ZerosAreZero(zeros - 1);
    }
  }

  lemma {:induction false} DigitTexts(s: string) returns (zeros: nat)
    requires AllDigits(s)
    ensures Decimal(s) >= 0 && s == Zeros(zeros) + Digits(Decimal(s))
    decreases |s|
  {
    var t, c := s[..|s| - 1], s[|s| - 1];
    if t == "" {
      zeros := 0;
      assert s == [c] && Decimal(t) == 0;
    } else {
      zeros := DigitTexts(t);
      if Decimal(t) == 0 {
        zeros := zeros + 1;
        assert Digits(0) == "0" && Zeros(zeros) == Zeros(zeros - 1) + "0";
        assert s == t + [c];
      } else {
        assert s == t + [c];
      }
    }
  }

  /** A text is taken for a number exactly when it is that number, with an optional sign and leading zeros. */
  lemma NumberTextsExactly(s: string, n: int)
    ensures Atoi(s) == Some(n) <==> IsNumber(s, n)
  {
    hide Atoi, NumberText, IsSign;
    if Atoi(s) == Some(n) {
      NumberTextRead(s, n);
    }
    if IsNumber(s, n) {
      var sign, zeros :| IsSign(sign, n) && s == NumberText(sign, zeros, n);
      ReadNumberText(sign, zeros, n);
    }
  }

  lemma NumberTextRead(s: string, n: int)
    requires Atoi(s) == Some(n)
    ensures IsNumber(s, n)
  {
    hide Digits, Decimal, Zeros;
    var sign := if s[0] == '-' || s[0] == '+' then s[..1] else "";
    var zeros := DigitTexts(s[|sign|..]);
    assert s == NumberText(sign, zeros, n);
  }

  lemma ReadNumberText(sign: string, zeros: nat, n: int)
    requires IsSign(sign, n)
    ensures Atoi(NumberText(sign, zeros, n)) == Some(n)
  {
    hide Digits, Decimal, Zeros;
    var s := NumberText(sign, zeros, n);
    var digits := Zeros(zeros) + Digits(Magnitude(n));
    LeadingZeros(zeros, Magnitude(n));
    if sign == "" {
      assert s == digits && IsDigit(s[0]);
    } else {
      assert s[0] == sign[0] && s[1..] == digits;
    }
  }

  // ---------- Numbered elements ----------

  /** The element a number selects: from the front, or from the end if it is negative; none beyond either. */
  lemma NumberSelects(es: seq<Json>, n: int)
    ensures 0 <= n < |es| ==> ElementAt(es, IndexText(n)) == Some(es[n])
    ensures -|es| <= n < 0 ==> ElementAt(es, IndexText(n)) == Some(es[|es| + n])
    ensures n < -|es| || |es| <= n ==> ElementAt(es, IndexText(n)) == None
  {
    hide Atoi;
    IndexTextReadsBack(n);
  }

  /** A number in brackets leads to that element, for either reading of the path. */
  lemma NumberLeads(es: seq<Json>, n: int, parts: seq<Part>, o: Options, form: TextForm)
    requires AllPlain(parts)
    ensures var path := Render([Bracket(IndexText(n))] + parts, true);
            var texts := ["[" + IndexText(n) + "]"] + Texts(parts);
            var i := if n < 0 then |es| + n else n;
            if 0 <= i < |es| then
              Reach(Arr(es), texts, o) == Reach(es[i], Texts(parts), o) &&
              NavigatePath(Arr(es), path, o, form) == NavigatePath(es[i], Render(parts, true), o, form)
            else Reach(Arr(es), texts, o) == None && NavigatePath(Arr(es), path, o, form) == ""
  {
    IndexTextReadsBack(n);
    NumberSelects(es, n);
    BracketLeads(es, IndexText(n), parts, o, form);
  }

  /** A bracket that is no wildcard leads where its text does, for either reading of the path. */
  lemma BracketLeads(es: seq<Json>, inner: string, parts: seq<Part>, o: Options, form: TextForm)
    requires AllPlain(parts) && Bracket(inner).Plain() && inner != "*"
    ensures var v := ElementAt(es, inner);
            var texts := ["[" + inner + "]"] + Texts(parts);
            Reach(Arr(es), texts, o) == (if v.Some? then Reach(v.value, Texts(parts), o) else None) &&
            NavigatePath(Arr(es), Render([Bracket(inner)] + parts, true), o, form) ==
            if v.Some? then NavigatePath(v.value, Render(parts, true), o, form) else ""
  {
    hide ElementAt, Render, ParseSegment, Trim;
    var all := [Bracket(inner)] + parts;
    TrimPlain(inner);
    assert all[1..] == parts;
    ParseRendered(all);
    var texts := ["[" + inner + "]"] + Texts(parts);
    assert texts[1..] == Texts(parts);
  }

  // ---------- Wildcards ----------

  /** The wildcard asks whether any element accepts the rest of the path. */
  lemma WildcardAccepts(es: seq<Json>, rest: seq<string>, o: Options)
    ensures NavigateAndCheck(Arr(es), ["[*]"] + rest, o) <==> exists v :: v in es && NavigateAndCheck(v, rest, o)
  {
    hide Trim;
    TrimPlain("*");
    assert "[" + "*" + "]" == "[*]" && (["[*]"] + rest)[1..] == rest;
    if v :| v in es && NavigateAndCheck(v, rest, o) {
      var i :| 0 <= i < |es| && es[i] == v;
    }
  }

  /** What a bracketed path shows of an array under the wildcard: what its elements show, in order. */
  lemma WildcardShows(es: seq<Json>, parts: seq<Part>, o: Options, form: TextForm)
    requires AllPlain(parts)
    ensures NavigatePath(Arr(es), Render([Bracket("*")] + parts, true), o, form) ==
            Join(Shown(es, Render(parts, true), o, form))
  {
    hide ElementAt, Render, ParseSegment, Trim, Join;
    var all := [Bracket("*")] + parts;
    TrimPlain("*");
    assert all[1..] == parts;
    assert all[0].Plain();
    ParseRendered(all);
    var rest := Render(parts, true);
    assert Shown(es, rest, o, form) ==
           seq(|es|, i requires 0 <= i < |es| => NavigatePath(es[i], rest, o, form));
  }

  /** What the elements show at a path. */
  ghost function Shown(es: seq<Json>, path: string, o: Options, form: TextForm): seq<string> {
    seq(|es|, i requires 0 <= i < |es| => NavigatePath(es[i], path, o, form))
  }

  /** What a star shows of an object without such a key: what its values show, in the order of the keys. */
  lemma StarShows(m: map<string, Json>, parts: seq<Part>, o: Options, form: TextForm)
    requires AllPlain(parts) && forall k :: k in form.order(m) ==> k in m
    requires forall k :: k in m ==> o.Key(k) != o.Key("*")
    ensures var ks := form.order(m);
            NavigatePath(Obj(m), Render([Name("*")] + parts, true), o, form) ==
            Join(Shown(seq(|ks|, i requires 0 <= i < |ks| => m[ks[i]]), Render(parts, true), o, form))
  {
    hide Render, ParseSegment, Join;
    var all, ks, rest := [Name("*")] + parts, form.order(m), Render(parts, true);
    assert all[1..] == parts && all[0].Plain();
    ParseRendered(all);
    var vs := seq(|ks|, i requires 0 <= i < |ks| => m[ks[i]]);
    assert Shown(vs, rest, o, form) ==
           seq(|ks|, i requires 0 <= i < |ks| => if ks[i] in m then NavigatePath(m[ks[i]], rest, o, form) else "");
  }

  function NonEmpty(results: seq<string>): seq<string> {
    if results == [] then []
    else if results[0] == "" then NonEmpty(results[1..])
    else [results[0]] + NonEmpty(results[1..])
  }

  /** The pieces between the commas. */
  function Pieces(s: string): seq<string>
    decreases |s|
  {
    var i := IndexOf(s, ',');
    if i == |s| then [s] else [s[..i]] + Pieces(s[i + 1..])
  }

  lemma PiecesStep(s: string, rest: string)
    requires ',' !in s
    ensures Pieces(s) == [s]
    ensures Pieces(s + "," + rest) == [s] + Pieces(rest)
  {
    forall i | 0 <= i < |s| ensures s[i] != ',' && (s + "," + rest)[i] != ',' {}
    IndexOfIs(s, ',', |s|);
    IndexOfIs(s + "," + rest, ',', |s|);
    assert (s + "," + rest)[..|s|] == s && (s + "," + rest)[|s| + 1..] == rest;
  }

  /** Joined results without commas of their own can be told apart again, but for those that are empty. */
  lemma {:induction false} JoinKeepsResults(results: seq<string>)
    requires forall r :: r in results ==> ',' !in r
    ensures if NonEmpty(results) == [] then Join(results) == ""
            else Join(results) != "" && Pieces(Join(results)) == NonEmpty(results)
  {
    hide Pieces;
    if results != [] {
      assert results[0] in results;
      JoinKeepsResults(results[1..]);
      PiecesStep(results[0], Join(results[1..]));
    }
  }

  // ---------- A quoted key in brackets ----------

  lemma {:induction false} TrimQuotes(key: string)
    requires '\'' !in key && '"' !in key
    ensures Trim("'" + key + "'", QUOTES) == key
  {
    var s := key + "'";
    assert ("'" + key + "'")[1..] == s && s[..|s| - 1] == key;
    if key == "" {
      assert s == "'" && s[1..] == "";
      assert TrimLeft(s, QUOTES) == TrimLeft("", QUOTES) == "";
    } else {
      assert s[0] == key[0] && key[0] in key && key[|key| - 1] in key;
      assert TrimLeft("'" + key + "'", QUOTES) == TrimLeft(s, QUOTES) == s;
      assert TrimRight(s, QUOTES) == TrimRight(key, QUOTES) == key;
    }
  }

  /** A key in quotes and brackets leads where the bare key does, unless some key is spelled with the brackets. */
  lemma QuotedKeyLeads(m: map<string, Json>, key: string, parts: seq<Part>, o: Options, form: TextForm)
    requires AllPlain(parts) && Name(key).Plain() && '\'' !in key && '"' !in key && ']' !in key
    requires forall k :: k in m ==> o.Key(k) != o.Key("['" + key + "']")
    ensures NavigatePath(Obj(m), Render([Bracket("'" + key + "'")] + parts, true), o, form) ==
            var v := Find(m, key, o);
            if v.Some? then NavigatePath(v.value, Render(parts, true), o, form) else ""
  {
    hide Render, ParseSegment, Trim;
    var inner := "'" + key + "'";
    var all := [Bracket(inner)] + parts;
    TrimPlain(inner);
    TrimQuotes(key);
    assert all[1..] == parts && all[0].Plain();
    ParseRendered(all);
    assert "[" + inner + "]" == "['" + key + "']";
  }

  // ---------- A field name applied to an array ----------

  /** The name, followed by the parts; a name at their head is run together with it. */
  function Fused(name: string, parts: seq<Part>): seq<Part> {
    if parts != [] && parts[0].Name? then [Name(name + parts[0].name)] + parts[1..] else [Name(name)] + parts
  }

  lemma NameFirst(name: string, parts: seq<Part>)
    requires AllPlain(parts) && Name(name).Plain()
    ensures AllPlain([Name(name)] + parts)
    ensures Render([Name(name)] + parts, true) == name + Render(parts, false)
  {
    hide Render;
    var all := [Name(name)] + parts;
    assert all[1..] == parts && forall i :: 0 <= i < |parts| ==> all[i + 1] == parts[i];
    RenderStep(all, true);
  }

  lemma FusedRenders(name: string, parts: seq<Part>)
    requires AllPlain(parts) && Name(name).Plain()
    ensures AllPlain(Fused(name, parts))
    ensures name + Render(parts, true) == Render(Fused(name, parts), true)
  {
    if parts == [] {
      NameFirst(name, []);
      assert [Name(name)] + [] == [Name(name)];
    } else if parts[0].Name? {
      FusedNames(name, parts);
    } else {
      hide Render;
      RenderStep(parts, true);
      RenderStep(parts, false);
      NameFirst(name, parts);
    }
  }

  lemma FusedNames(name: string, parts: seq<Part>)
    requires parts != [] && parts[0].Name? && AllPlain(parts) && Name(name).Plain()
    ensures AllPlain(Fused(name, parts))
    ensures name + Render(parts, true) == Render(Fused(name, parts), true)
  {
    hide Render;
    RenderStep(parts, true);
    var t, rest := parts[0].name, parts[1..];
    NameFirst(name + t, rest);
    assert name + (t + Render(rest, false)) == name + t + Render(rest, false);
  }

  /** A field name applied to an array is asked of each element, without the dot after it. */
  lemma FieldOverArray(es: seq<Json>, name: string, parts: seq<Part>, o: Options, form: TextForm)
    requires AllPlain(parts) && Name(name).Plain()
    ensures NavigatePath(Arr(es), Render([Name(name)] + parts, true), o, form) ==
            Join(Shown(es, Render(Fused(name, parts), true), o, form))
  {
    hide Render, ParseSegment, Join, Fused;
    var all := [Name(name)] + parts;
    assert all[1..] == parts && all[0].Plain();
    ParseRendered(all);
    FusedRenders(name, parts);
    var path := name + Render(parts, true);
    assert Shown(es, path, o, form) == seq(|es|, i requires 0 <= i < |es| => NavigatePath(es[i], path, o, form));
  }

  predicate AllNames(parts: seq<Part>) {
    forall i :: 0 <= i < |parts| ==> parts[i].Name? && parts[i].Plain()
  }

  /** Objects inside one another along a path of names, with the leaf innermost. */
  function Nested(parts: seq<Part>, leaf: Json): Json
    requires AllNames(parts)
  {
    if parts == [] then leaf else Obj(map[parts[0].name := Nested(parts[1..], leaf)])
  }

  lemma {:induction false} NestedShowsLeaf(parts: seq<Part>, leaf: Json, o: Options, form: TextForm)
    requires AllNames(parts)
    ensures NavigatePath(Nested(parts, leaf), Render(parts, true), o, form) == form.show(leaf)
  {
    if parts != [] {
      hide ParseSegment;
      ParseRendered(parts);
      NestedShowsLeaf(parts[1..], leaf, o, form);
      assert Find(map[parts[0].name := Nested(parts[1..], leaf)], parts[0].name, o).value == Nested(parts[1..], leaf);
    }
  }

  /** The name that results from the lost dot is no key. */
  lemma FusedShowsNothing(name: string, parts: seq<Part>, leaf: Json, o: Options, form: TextForm)
    requires parts != [] && AllNames([Name(name)] + parts) && o.keyCaseSensitive
    ensures NavigatePath(Nested([Name(name)] + parts, leaf), Render(Fused(name, parts), true), o, form) == ""
  {
    hide ParseSegment, Render;
    var fused, all := Fused(name, parts), [Name(name)] + parts;
    assert all[0].Plain() && all[1].Plain() && all[1] == parts[0] && all[1..] == parts;
    assert forall i :: 0 <= i < |parts| ==> all[i + 1] == parts[i];
    FusedRenders(name, parts);
    ParseRendered(fused);
    var word := name + parts[0].name;
    assert |word| >= 2 && word[0] == name[0] && |word| > |name|;
    assert Find(map[name := Nested(parts, leaf)], word, o) == None;
  }

  /** With exact keys, an array shows at a path of names what its elements show there, for all data,
      exactly when nothing follows the first name. */
  lemma ArrayShowsElementsExactlyWhen(name: string, parts: seq<Part>, leaf: Json, o: Options, form: TextForm)
    requires AllNames([Name(name)] + parts) && o.keyCaseSensitive && form.show(leaf) != ""
    ensures var path := Render([Name(name)] + parts, true);
            (forall es :: NavigatePath(Arr(es), path, o, form) == Join(Shown(es, path, o, form))) <==> parts == []
  {
    hide ParseSegment, Render, NavigatePath, Join;
    var all := [Name(name)] + parts;
    assert all[0].Plain() && forall i :: 0 <= i < |parts| ==> all[i + 1] == parts[i];
    var path := Render(all, true);
    if parts == [] {
      forall es: seq<Json> ensures NavigatePath(Arr(es), path, o, form) == Join(Shown(es, path, o, form)) {
        FieldOverArray(es, name, parts, o, form);
        assert Fused(name, parts) == all;
      }
    } else {
      var v := Nested(all, leaf);
      FieldOverArray([v], name, parts, o, form);
      FusedShowsNothing(name, parts, leaf, o, form);
      NestedShowsLeaf(all, leaf, o, form);
      JoinOne(Shown([v], path, o, form));
      JoinOne(Shown([v], Render(Fused(name, parts), true), o, form));
    }
  }

  lemma JoinOne(results: seq<string>)
    requires |results| == 1
    ensures Join(results) == results[0]
  {
  }
}
