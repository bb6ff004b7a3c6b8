/** Requests, the predicates that match them, and the predicates a proxy generates from them. */
module Requests {
  import opened JsonTree

  datatype Request = Request(verb: string, path: string, body: string,
                             query: map<string, string>, headers: map<string, string>, form: map<string, string>)

  /** A field of a request as the predicate engine sees it. */
  datatype Field = Absent | Text(text: string) | Fields(fields: map<string, string>)

  /** What an `equals` predicate asks of a field: a text, a whole map, or some keys of a map. */
  datatype Expected =
    | ExactText(text: string)
    | WholeMap(fields: map<string, string>)
    | SomeKeys(fields: map<string, string>)

  /** `Other` stands for a predicate that was not generated; it is known by its number only. */
  datatype Predicate = Equals(fields: map<string, Expected>, caseSensitive: bool) | Other(id: nat)

  /** Case folding, JSON containment of a body, and the meaning of the other predicates. */
  datatype Engine = Engine(fold: string -> string,
                           jsonContains: (string, map<string, string>) -> bool,
                           other: (nat, Request) -> bool)

  // ---------- Matching ----------

  function LowerChar(c: char): char {
    if 'A' <= c <= 'Z' then 'a' + (c - 'A') else c
  }

  function Lower(s: string): string {
    seq(|s|, i requires 0 <= i < |s| => LowerChar(s[i]))
  }

  function FieldOf(r: Request, field: string): Field {
    var f := Lower(field);
    if f == "method" then Text(r.verb)
    else if f == "path" then Text(r.path)
    else if f == "body" then Text(r.body)
    else if f == "query" then Fields(r.query)
    else if f == "headers" then Fields(r.headers)
    else if f == "form" then Fields(r.form)
    else Absent
  }

  function SameText(g: Engine, a: string, b: string, caseSensitive: bool): bool {
    if caseSensitive then a == b else g.fold(a) == g.fold(b)
  }

  /** Every expected key is found, exactly or else (unless case sensitive) folding alike, with an equal text. */
  ghost predicate HasKeys(g: Engine, actual: map<string, string>, expected: map<string, string>, caseSensitive: bool) {
    forall k :: k in expected ==>
      if k in actual then SameText(g, actual[k], expected[k], caseSensitive)
      else
        !caseSensitive &&
        var found: Option<string> := if k' :| k' in actual && g.fold(k') == g.fold(k) then Some(actual[k']) else None;
        found.Some? && SameText(g, found.value, expected[k], caseSensitive)
  }

  ghost predicate SameField(g: Engine, actual: Field, expected: Expected, caseSensitive: bool) {
    match expected
    case ExactText(t) =>
      (actual.Text? && SameText(g, actual.text, t, caseSensitive)) ||
      (actual.Absent? && SameText(g, "", t, caseSensitive))
    case WholeMap(m) =>
      actual.Fields? && |actual.fields| == |m| && HasKeys(g, actual.fields, m, caseSensitive)
    case SomeKeys(m) =>
      (actual.Fields? && HasKeys(g, actual.fields, m, caseSensitive)) ||
      (actual.Text? && g.jsonContains(actual.text, m))
  }

  ghost predicate Matches(g: Engine, p: Predicate, r: Request) {
    match p
    case Equals(fields, caseSensitive) =>
      forall f :: f in fields ==> SameField(g, FieldOf(r, f), fields[f], caseSensitive)
    case Other(id) => g.other(id, r)
  }

  ghost predicate MatchesEach(g: Engine, ps: seq<Predicate>, r: Request) {
    forall i :: 0 <= i < |ps| ==> Matches(g, ps[i], r)
  }

  /** The predicates of a stub. A list that was never made is told from an empty one, as its JSON text does. */
  datatype PredicateList = Nil | List(items: seq<Predicate>)

  function Listed(ps: seq<Predicate>): PredicateList {
    if ps == [] then Nil else List(ps)
  }

  ghost predicate MatchesAll(g: Engine, l: PredicateList, r: Request) {
    l.List? ==> MatchesEach(g, l.items, r)
  }

  // ---------- Predicates in JSON ----------

  /** In JSON a whole map reads like some keys of a map, and that is what it is decoded to. */
  function JsonExpected(e: Expected): Expected {
    if e.WholeMap? then SomeKeys(e.fields) else e
  }

  function JsonPredicate(p: Predicate): Predicate {
    match p
    case Equals(fields, caseSensitive) => Equals(map f | f in fields :: JsonExpected(fields[f]), caseSensitive)
    case Other(_) => p
  }

  /** What the JSON text of the predicates tells of them: two lists have the same text exactly when they agree in
      this. */
  function Printed(l: PredicateList): PredicateList {
    match l
    case Nil => Nil
    case List(ps) => List(seq(|ps|, i requires 0 <= i < |ps| => JsonPredicate(ps[i])))
  }

  /** What the predicates of a stub come back as when it is written as JSON, without an empty list, and read again. */
  function Reloaded(l: PredicateList): PredicateList {
    if l == List([]) then Nil else Printed(l)
  }

  lemma JsonPredicateMatches(g: Engine, p: Predicate, r: Request)
    requires Matches(g, p, r)
    ensures Matches(g, JsonPredicate(p), r)
  {
    if p.Equals? {
      forall f | f in p.fields ensures SameField(g, FieldOf(r, f), JsonExpected(p.fields[f]), p.caseSensitive) {
        assert SameField(g, FieldOf(r, f), p.fields[f], p.caseSensitive);
      }
    }
  }

  /** Reloading loses nothing that matched; it only forgets how many keys a whole map had. */
  lemma ReloadedMatches(g: Engine, l: PredicateList, r: Request)
    requires MatchesAll(g, l, r)
    ensures MatchesAll(g, Reloaded(l), r)
  {
    if l.List? {
      forall i | 0 <= i < |l.items| ensures Matches(g, Printed(l).items[i], r) {
        JsonPredicateMatches(g, l.items[i], r);
      }
    }
  }

  /** Predicates that came from JSON stay as they are. */
  lemma ReloadedStays(g: Engine, l: PredicateList, r: Request)
    requires Printed(l) == l
    ensures MatchesAll(g, Reloaded(l), r) <==> MatchesAll(g, l, r)
  {
  }

  // ---------- Generating predicates ----------

  /** What a generator keeps of a field: all of it or nothing, or the keys flagged true. */
  datatype Pattern = Flag(keep: bool) | SubKeys(keys: map<string, bool>)

  datatype Generator = Generator(matches: Option<map<string, Pattern>>, caseSensitive: bool)

  /** The fields a generator can read; a form is not one of them. */
  function SourceField(r: Request, field: string): Field {
    if Lower(field) == "form" then Absent else FieldOf(r, field)
  }

  function Kept(value: map<string, string>, keys: map<string, bool>): map<string, string> {
    map k | k in keys && keys[k] && k in value :: value[k]
  }

  function Keep(value: Field, pattern: Pattern): Option<Expected> {
    match (value, pattern)
    case (Text(t), Flag(true)) => Some(ExactText(t))
    case (Fields(m), Flag(true)) => Some(WholeMap(m))
    case (Fields(m), SubKeys(ks)) => if Kept(m, ks) == map[] then None else Some(SomeKeys(Kept(m, ks)))
    case _ => None
  }

  function KeptFields(r: Request, matches: map<string, Pattern>): map<string, Expected> {
    map f | f in matches && Keep(SourceField(r, f), matches[f]).Some? :: Keep(SourceField(r, f), matches[f]).value
  }

  /** The predicate of one generator; none when nothing is kept. */
  function GeneratedBy(r: Request, gen: Generator): seq<Predicate> {
    if gen.matches == None || KeptFields(r, gen.matches.value) == map[] then []
    else [Equals(KeptFields(r, gen.matches.value), gen.caseSensitive)]
  }

  function GeneratedByAll(r: Request, gens: seq<Generator>): seq<Predicate> {
    if gens == [] then [] else GeneratedByAll(r, gens[..|gens| - 1]) + GeneratedBy(r, gens[|gens| - 1])
  }

  /** The predicates of a recorded stub: those of the generators, or else method and path. */
  function Generated(r: Request, gens: seq<Generator>): PredicateList {
    if gens == [] then List([Equals(map["method" := ExactText(r.verb), "path" := ExactText(r.path)], false)])
    else Listed(GeneratedByAll(r, gens))
  }

  /** The loops over the generators and over the fields of each. */
  method GeneratePredicates(r: Request, gens: seq<Generator>) returns (l: PredicateList)
    ensures l == Listed(GeneratedByAll(r, gens))
  {
    l := Nil;
    for n := 0 to |gens|
      invariant l == Listed(GeneratedByAll(r, gens[..n]))
    {
      assert gens[..n + 1][..n] == gens[..n];
      var p := GeneratePredicate(r, gens[n]);
      if p.Some? {
        l := List((if l.Nil? then [] else l.items) + [p.value]);
      }
    }
    assert gens[..|gens|] == gens;
  }

  lemma KeptField(r: Request, matches: map<string, Pattern>, f: string)
    requires f in matches
    ensures var value := Keep(SourceField(r, f), matches[f]);
            if value.Some? then f in KeptFields(r, matches) && KeptFields(r, matches)[f] == value.value
            else f !in KeptFields(r, matches)
  {
    hide Keep, SourceField;
  }

  method GeneratePredicate(r: Request, gen: Generator) returns (p: Option<Predicate>)
    ensures GeneratedBy(r, gen) == if p.Some? then [p.value] else []
  {
    if gen.matches == None {
      return None;
    }
    var matches := gen.matches.value;
    ghost var kept := KeptFields(r, matches);
    var equals: map<string, Expected> := map[];
    var todo := matches.Keys;
    assert forall f :: f in kept ==> f in matches;
    hide Keep, SourceField, KeptFields;
    while todo != {}
      invariant todo <= matches.Keys
      invariant forall f :: f in equals <==> f in kept && f !in todo
      invariant forall f :: f in equals ==> equals[f] == kept[f]
      decreases |todo|
    {
      var f :| f in todo;
      todo := todo - {f};
      var value := Keep(SourceField(r, f), matches[f]);
      KeptField(r, matches, f);
      if value.Some? {
        equals := equals[f := value.value];
      }
    }
    assert equals == kept;
    if |equals| > 0 {
      assert equals != map[];
      return Some(Equals(equals, gen.caseSensitive));
    }
    p := None;
  }

  // ---------- A generated predicate matches the request it came from ----------

  lemma KeptMatches(g: Engine, r: Request, f: string, pattern: Pattern, caseSensitive: bool)
    requires Keep(SourceField(r, f), pattern).Some?
    ensures SameField(g, FieldOf(r, f), Keep(SourceField(r, f), pattern).value, caseSensitive)
  {
  }

  lemma GeneratedByMatches(g: Engine, r: Request, gen: Generator)
    ensures MatchesEach(g, GeneratedBy(r, gen), r)
  {
    if gen.matches.Some? {
      forall f | f in KeptFields(r, gen.matches.value)
        ensures SameField(g, FieldOf(r, f), KeptFields(r, gen.matches.value)[f], gen.caseSensitive)
      {
        KeptMatches(g, r, f, gen.matches.value[f], gen.caseSensitive);
      }
    }
  }

  lemma {:induction false} GeneratedByAllMatches(g: Engine, r: Request, gens: seq<Generator>)
    ensures MatchesEach(g, GeneratedByAll(r, gens), r)
  {
    if gens != [] {
      GeneratedByAllMatches(g, r, gens[..|gens| - 1]);
      GeneratedByMatches(g, r, gens[|gens| - 1]);
    }
  }

  lemma GeneratedMatchesOwn(g: Engine, r: Request, gens: seq<Generator>)
    ensures MatchesAll(g, Generated(r, gens), r)
  {
    if gens == [] {
      assert Lower("method") == "method" && Lower("path") == "path";
    } else {
      GeneratedByAllMatches(g, r, gens);
    }
  }

  // ---------- What generated predicates tell apart ----------

  /** The map has the value under the key; unless case matters, under a key and with a text that fold alike. */
  ghost predicate HasValue(g: Engine, m: map<string, string>, k: string, v: string, caseSensitive: bool) {
    exists k' :: k' in m && if caseSensitive then k' == k && m[k'] == v
                            else g.fold(k') == g.fold(k) && g.fold(m[k']) == g.fold(v)
  }

  ghost predicate KeysFoldApart(g: Engine, m: map<string, string>) {
    forall k, k' :: k in m && k' in m && g.fold(k) == g.fold(k') ==> k == k'
  }

  lemma HasKeysIs(g: Engine, actual: map<string, string>, expected: map<string, string>, caseSensitive: bool)
    requires KeysFoldApart(g, actual)
    ensures HasKeys(g, actual, expected, caseSensitive) <==>
            forall k :: k in expected ==> HasValue(g, actual, k, expected[k], caseSensitive)
  {
    if HasKeys(g, actual, expected, caseSensitive) {
      forall k | k in expected ensures HasValue(g, actual, k, expected[k], caseSensitive) {
        if k !in actual {
          var k' :| k' in actual && g.fold(k') == g.fold(k);
        }
      }
    }
  }

  /** What a generator asks of another request: the same text, the same map, or the same values under the keys flagged
      true. A field or a key that is flagged false, or that the request does not have, asks for nothing. */
  ghost predicate Agrees(g: Engine, r: Request, other: Request, f: string, pattern: Pattern, caseSensitive: bool) {
    var mine, theirs := SourceField(r, f), FieldOf(other, f);
    if mine.Text? && pattern == Flag(true) then
      theirs.Text? && if caseSensitive then theirs.text == mine.text else g.fold(theirs.text) == g.fold(mine.text)
    else if mine.Fields? && pattern == Flag(true) then
      theirs.Fields? && |theirs.fields| == |mine.fields| &&
      forall k :: k in mine.fields ==> HasValue(g, theirs.fields, k, mine.fields[k], caseSensitive)
    else if mine.Fields? && pattern.SubKeys? then
      theirs.Fields? && forall k :: k in pattern.keys && pattern.keys[k] && k in mine.fields ==>
        HasValue(g, theirs.fields, k, mine.fields[k], caseSensitive)
    else true
  }

  ghost predicate MapsFoldApart(g: Engine, r: Request) {
    KeysFoldApart(g, r.query) && KeysFoldApart(g, r.headers) && KeysFoldApart(g, r.form)
  }

  /** What is kept of a field matches exactly the requests that agree in it. */
  lemma KeptTellsApart(g: Engine, r: Request, other: Request, f: string, pattern: Pattern, caseSensitive: bool)
    requires MapsFoldApart(g, other)
    ensures var kept := Keep(SourceField(r, f), pattern);
            Agrees(g, r, other, f, pattern, caseSensitive) <==>
            (kept.None? || SameField(g, FieldOf(other, f), kept.value, caseSensitive))
  {
    hide HasKeys, HasValue, KeysFoldApart, Lower;
    var mine, theirs := SourceField(r, f), FieldOf(other, f);
    if mine.Fields? {
      assert theirs.Fields? && KeysFoldApart(g, theirs.fields);
      HasKeysIs(g, theirs.fields, mine.fields, caseSensitive);
      if pattern.SubKeys? {
        HasKeysIs(g, theirs.fields, Kept(mine.fields, pattern.keys), caseSensitive);
        assert forall k :: k in Kept(mine.fields, pattern.keys) <==>
                           k in pattern.keys && pattern.keys[k] && k in mine.fields;
      }
    }
  }

  ghost predicate AgreesWith(g: Engine, r: Request, other: Request, gen: Generator) {
    gen.matches.Some? ==>
      forall f :: f in gen.matches.value ==> Agrees(g, r, other, f, gen.matches.value[f], gen.caseSensitive)
  }

  lemma OneTellsApart(g: Engine, r: Request, other: Request, gen: Generator)
    requires MapsFoldApart(g, other)
    ensures MatchesEach(g, GeneratedBy(r, gen), other) <==> AgreesWith(g, r, other, gen)
  {
    hide Agrees, SameField, MapsFoldApart, Keep;
    if gen.matches.Some? {
      var matches, kept := gen.matches.value, KeptFields(r, gen.matches.value);
      forall f | f in matches
        ensures Agrees(g, r, other, f, matches[f], gen.caseSensitive) <==>
                (f in kept ==> SameField(g, FieldOf(other, f), kept[f], gen.caseSensitive))
      {
        KeptTellsApart(g, r, other, f, matches[f], gen.caseSensitive);
      }
      assert forall f :: f in kept ==> f in matches;
      assert kept != map[] ==>
          (MatchesEach(g, GeneratedBy(r, gen), other) <==> Matches(g, Equals(kept, gen.caseSensitive), other)) by {
        if kept != map[] {
          assert GeneratedBy(r, gen)[0] == Equals(kept, gen.caseSensitive);
        }
      }
    }
  }

  lemma {:induction false} AllTellApart(g: Engine, r: Request, other: Request, gens: seq<Generator>)
    requires MapsFoldApart(g, other)
    ensures MatchesEach(g, GeneratedByAll(r, gens), other) <==>
            forall i :: 0 <= i < |gens| ==> AgreesWith(g, r, other, gens[i])
  {
    hide AgreesWith, MapsFoldApart, GeneratedBy, Matches;
    if gens != [] {
      var n := |gens| - 1;
      var before, last := GeneratedByAll(r, gens[..n]), GeneratedBy(r, gens[n]);
      AllTellApart(g, r, other, gens[..n]);
      OneTellsApart(g, r, other, gens[n]);
      EachOfBoth(g, before, last, other);
      assert forall i :: 0 <= i < n ==> gens[..n][i] == gens[i];
    }
  }

  lemma EachOfBoth(g: Engine, a: seq<Predicate>, b: seq<Predicate>, r: Request)
    ensures MatchesEach(g, a + b, r) <==> MatchesEach(g, a, r) && MatchesEach(g, b, r)
  {
    hide Matches;
    assert forall i :: 0 <= i < |a| ==> (a + b)[i] == a[i];
    assert forall i :: 0 <= i < |b| ==> (a + b)[|a| + i] == b[i];
  }

  /** Generated predicates match exactly the requests that agree in everything their generators keep. */
  lemma GeneratedTellsApart(g: Engine, r: Request, other: Request, gens: seq<Generator>)
    requires gens != [] && MapsFoldApart(g, other)
    ensures MatchesAll(g, Generated(r, gens), other) <==>
            forall i :: 0 <= i < |gens| ==> AgreesWith(g, r, other, gens[i])
  {
    hide MapsFoldApart, AgreesWith, GeneratedByAll;
    AllTellApart(g, r, other, gens);
  }

  /** Without generators, they match exactly the requests with the same method and path, up to folding. */
  lemma DefaultTellsApart(g: Engine, r: Request, other: Request)
    ensures MatchesAll(g, Generated(r, []), other) <==>
            g.fold(r.verb) == g.fold(other.verb) && g.fold(r.path) == g.fold(other.path)
  {
    assert Lower("method") == "method" && Lower("path") == "path";
    var fields := map["method" := ExactText(r.verb), "path" := ExactText(r.path)];
    assert Generated(r, []).items[0] == Equals(fields, false);
    assert "method" in fields && "path" in fields;
    assert Matches(g, Equals(fields, false), other) <==>
           SameField(g, Text(other.verb), ExactText(r.verb), false) &&
           SameField(g, Text(other.path), ExactText(r.path), false);
  }

  /** Field names are read without regard to case. */
  lemma LowerIgnoresCase(s: string, t: string)
    requires |s| == |t|
    requires forall i :: 0 <= i < |s| ==> s[i] == t[i] || ('A' <= s[i] <= 'Z' && t[i] == 'a' + (s[i] - 'A'))
    ensures Lower(s) == Lower(t)
  {
  }

  /** A field that is flagged true is compared with the part of the request that it names; a form is not compared. */
  lemma FieldsByName(g: Engine, r: Request, other: Request, f: string)
    requires MapsFoldApart(g, other)
    ensures var same := MatchesAll(g, Generated(r, [Generator(Some(map[f := Flag(true)]), true)]), other);
            (Lower(f) == "method" ==> (same <==> r.verb == other.verb)) &&
            (Lower(f) == "path" ==> (same <==> r.path == other.path)) &&
            (Lower(f) == "body" ==> (same <==> r.body == other.body)) &&
            (Lower(f) == "query" ==> (same <==> r.query == other.query)) &&
            (Lower(f) == "headers" ==> (same <==> r.headers == other.headers)) &&
            (Lower(f) == "form" ==> same)
  {
    hide Generated, MatchesAll, Lower, MapsFoldApart, HasValue;
    var matches := map[f := Flag(true)];
    var gen := Generator(Some(matches), true);
    GeneratedTellsApart(g, r, other, [gen]);
    assert AgreesWith(g, r, other, gen) <==> Agrees(g, r, other, f, Flag(true), true) by {
      assert f in matches && matches[f] == Flag(true);
    }
    assert [gen][0] == gen;
    SameMap(g, r.query, other.query);
    SameMap(g, r.headers, other.headers);
  }

  lemma SameMap(g: Engine, mine: map<string, string>, theirs: map<string, string>)
    ensures mine == theirs <==>
            |theirs| == |mine| && forall k :: k in mine ==> HasValue(g, theirs, k, mine[k], true)
  {
    if |theirs| == |mine| && forall k :: k in mine ==> HasValue(g, theirs, k, mine[k], true) {
      assert mine.Keys <= theirs.Keys;
      assert |theirs.Keys - mine.Keys| == |theirs.Keys| - |mine.Keys|;
      assert theirs.Keys == mine.Keys;
      assert mine == theirs;
    }
  }
}
