/** Walking a JSON value along a path: existence checks and value extraction. */
module Navigation {
  import opened JsonTree
  import opened Strings
  import opened Paths

  // ---------- Array indices ----------

  predicate IsDigit(c: char) {
    '0' <= c <= '9'
  }

  function Decimal(s: string): int
    requires forall i :: 0 <= i < |s| ==> IsDigit(s[i])
  {
    if s == "" then 0 else 10 * Decimal(s[..|s| - 1]) + (s[|s| - 1] as int) - ('0' as int)
  }

  predicate AllDigits(s: string) {
    s != "" && forall i :: 0 <= i < |s| ==> IsDigit(s[i])
  }

  /** Decimal digits after an optional sign. */
  function Atoi(s: string): Option<int> {
    if s != "" && (s[0] == '-' || s[0] == '+') then
      if AllDigits(s[1..]) then Some(if s[0] == '-' then -Decimal(s[1..]) else Decimal(s[1..])) else None
    else
      if AllDigits(s) then Some(Decimal(s)) else None
  }

  /** The element an index text selects; a negative index counts from the end. */
  function ElementAt(es: seq<Json>, index: string): (v: Option<Json>)
    ensures v.Some? ==> v.value in es
  {
    match Atoi(index)
    case None => None
    case Some(n) =>
      var i := if n < 0 then |es| + n else n;
      if 0 <= i < |es| then Some(es[i]) else None
  }

  predicate IsBracket(part: string) {
    part != "" && part[0] == '[' && part[|part| - 1] == ']'
  }

  // ---------- Existence ----------

  /** Whether the path leads anywhere; the wildcard asks whether any element has the rest of it. */
  ghost predicate NavigateAndCheck(data: Json, parts: seq<string>, o: Options)
    decreases |parts|
  {
    if parts == [] then true
    else if IsBracket(parts[0]) then
      var index := Trim(parts[0], BRACKETS);
      data.Arr? &&
      if index == "*" then exists i :: 0 <= i < |data.elems| && NavigateAndCheck(data.elems[i], parts[1..], o)
      else
        var v := ElementAt(data.elems, index);
        v.Some? && NavigateAndCheck(v.value, parts[1..], o)
    else
      data.Obj? &&
      var v := Find(data.fields, parts[0], o);
      v.Some? && NavigateAndCheck(v.value, parts[1..], o)
  }

  /** The value a wildcard-free path leads to. */
  ghost function Reach(data: Json, parts: seq<string>, o: Options): Option<Json>
    decreases |parts|
  {
    if parts == [] then Some(data)
    else
      var v :=
        if IsBracket(parts[0]) then
          if data.Arr? then ElementAt(data.elems, Trim(parts[0], BRACKETS)) else None
        else if data.Obj? then Find(data.fields, parts[0], o)
        else None;
      if v == None then None else Reach(v.value, parts[1..], o)
  }

  predicate NoWildcard(parts: seq<Part>) {
    Bracket("*") !in parts
  }

  lemma {:induction false} TrimPlain(inner: string)
    requires '[' !in inner && ']' !in inner
    ensures Trim("[" + inner + "]", BRACKETS) == inner
  {
    var s := inner + "]";
    assert ("[" + inner + "]")[1..] == s && s[..|s| - 1] == inner;
    if inner == "" {
      assert s == "]" && s[1..] == "";
      assert TrimLeft(s, BRACKETS) == TrimLeft("", BRACKETS) == "";
    } else {
      assert s[0] == inner[0] && inner[0] in inner && inner[|inner| - 1] in inner;
      assert TrimLeft("[" + inner + "]", BRACKETS) == TrimLeft(s, BRACKETS) == s;
      assert TrimRight(s, BRACKETS) == TrimRight(inner, BRACKETS) == inner;
    }
  }

  /** The existence check accepts a wildcard-free path exactly when it leads to a value. */
  lemma {:induction false} AcceptedIffReached(data: Json, parts: seq<Part>, o: Options)
    requires AllPlain(parts) && NoWildcard(parts)
    ensures NavigateAndCheck(data, Texts(parts), o) <==> Reach(data, Texts(parts), o).Some?
    decreases |parts|
  {
    if parts != [] {
      var part, texts := parts[0], Texts(parts);
      assert part.Plain() && part in parts;
      assert texts[0] == part.Text() && texts[1..] == Texts(parts[1..]);
      if part.Bracket? {
        TrimPlain(part.inner);
      }
      var v :=
        if IsBracket(texts[0]) then
          if data.Arr? then ElementAt(data.elems, Trim(texts[0], BRACKETS)) else None
        else if data.Obj? then Find(data.fields, texts[0], o)
        else None;
      if v.Some? {
        AcceptedIffReached(v.value, parts[1..], o);
      }
    }
  }

  // ---------- Extraction ----------

  /** How values are shown as text, and the order in which the keys of an object are visited. */
  datatype TextForm = TextForm(show: Json -> string, order: map<string, Json> -> seq<string>)

  const QUOTES := {'\'', '"'}

  function BracketKey(segment: string): string {
    Trim(Trim(segment, BRACKETS), QUOTES)
  }

  /** The non-empty results, separated by commas. */
  function Join(results: seq<string>): string {
    if results == [] then ""
    else
      var rest := Join(results[1..]);
      if results[0] == "" then rest else if rest == "" then results[0] else results[0] + "," + rest
  }

  /** The text found at the end of the path. A field name applied to an array is
      applied to every element, with the separator after it lost. */
  ghost function NavigatePath(data: Json, path: string, o: Options, form: TextForm): string
    decreases data
  {
    if path == "" then form.show(data)
    else
      var (segment, rest) := ParseSegment(path);
      var bracket := segment != "" && segment[0] == '[';
      match data
      case Obj(m) =>
        var exact := Find(m, segment, o);
        var quoted := Find(m, BracketKey(segment), o);
        if exact.Some? then NavigatePath(exact.value, rest, o, form)
        else if bracket then
          if quoted.Some? then NavigatePath(quoted.value, rest, o, form) else ""
        else if segment == "*" then
          var ks := form.order(m);
          Join(seq(|ks|, i requires 0 <= i < |ks| => if ks[i] in m then NavigatePath(m[ks[i]], rest, o, form) else ""))
        else ""
      case Arr(es) =>
        if bracket then
          var index := Trim(segment, BRACKETS);
          var v := ElementAt(es, index);
          if index == "*" then Join(seq(|es|, i requires 0 <= i < |es| => NavigatePath(es[i], rest, o, form)))
          else if v.Some? then NavigatePath(v.value, rest, o, form) else ""
        else Join(seq(|es|, i requires 0 <= i < |es| => NavigatePath(es[i], segment + rest, o, form)))
      case _ => ""
  }

  /** On a wildcard-free path that the existence check accepts, extraction shows the very value reached. */
  lemma {:induction false} ExtractionShowsReached(data: Json, parts: seq<Part>, o: Options, form: TextForm)
    requires AllPlain(parts) && NoWildcard(parts)
    requires NavigateAndCheck(data, Split(Render(parts, true)), o)
    ensures Reach(data, Texts(parts), o).Some?
    ensures NavigatePath(data, Render(parts, true), o, form) == form.show(Reach(data, Texts(parts), o).value)
    decreases |parts|
  {
    SplitInvertsRender(parts);
    AcceptedIffReached(data, parts, o);
    if parts != [] {
      ParseRendered(parts);
      ExtractionStep(data, parts, o);
      SplitInvertsRender(parts[1..]);
      var v := Reach(data, [parts[0].Text()], o).value;
      ExtractionShowsReached(v, parts[1..], o, form);
    }
  }

  /** The first part of an accepted path leads to a value that accepts the rest. */
  lemma ExtractionStep(data: Json, parts: seq<Part>, o: Options)
    requires parts != [] && AllPlain(parts) && NoWildcard(parts)
    requires NavigateAndCheck(data, Texts(parts), o)
    ensures var v := Reach(data, [parts[0].Text()], o);
            v.Some? && NavigateAndCheck(v.value, Texts(parts[1..]), o) &&
            Reach(data, Texts(parts), o) == Reach(v.value, Texts(parts[1..]), o)
    ensures parts[0].Name? ==>
              data.Obj? && Reach(data, [parts[0].Text()], o) == Find(data.fields, parts[0].Text(), o)
    ensures parts[0].Bracket? ==>
              data.Arr? && parts[0].inner != "*" && Trim(parts[0].Text(), BRACKETS) == parts[0].inner &&
              Reach(data, [parts[0].Text()], o) == ElementAt(data.elems, parts[0].inner)
  {
    var part, texts := parts[0], Texts(parts);
    assert part.Plain() && part in parts;
    assert texts[0] == part.Text() && texts[1..] == Texts(parts[1..]);
    if part.Bracket? {
      TrimPlain(part.inner);
    }
  }
}
