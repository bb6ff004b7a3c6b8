/** Record-always proxying: responses are grouped under the predicates generated for them. */
module ProxyAlways {
  import opened Requests
  import opened ProxyRecord
  import opened Sequences

  /** A recorded response: the position of the stub that proxied, the predicates generated, the response. */
  datatype Entry = Entry(index: int, predicates: PredicateList, response: Response) {
    /** What decides the group: the JSON text of the predicates. */
    function Key(): PredicateList {
      Printed(predicates)
    }
  }

  function RecordAll(stubs: seq<Stub>, log: seq<Entry>): seq<Stub> {
    if log == [] then stubs
    else
      var e := log[|log| - 1];
      Recorded(RecordAll(stubs, log[..|log| - 1]), e.index, Always, Stub(e.predicates, [e.response], false))
  }

  // ---------- Grouping, independently of the recording ----------

  predicate AllIn(log: seq<Entry>, ks: seq<PredicateList>) {
    forall e :: e in log ==> e.Key() in ks
  }

  /** The distinct keys of a log, in the order of their first appearance. */
  function KeysOf(log: seq<Entry>): (ks: seq<PredicateList>)
    ensures AllIn(log, ks) && Distinct(ks)
  {
    if log == [] then []
    else
      var ks, k := KeysOf(log[..|log| - 1]), log[|log| - 1].Key();
      assert forall e :: e in log ==> e in log[..|log| - 1] || e.Key() == k;
      if k in ks then ks else ks + [k]
  }

  /** The responses recorded under a key, in the order of the log. */
  function ResponsesOf(log: seq<Entry>, key: PredicateList): seq<Response> {
    if log == [] then []
    else
      var e := log[|log| - 1];
      ResponsesOf(log[..|log| - 1], key) + if e.Key() == key then [e.response] else []
  }

  /** The predicates first recorded under a key, which are those the group keeps. */
  function FirstWith(log: seq<Entry>, key: PredicateList): PredicateList {
    if log == [] then key
    else if key in KeysOf(log[..|log| - 1]) then FirstWith(log[..|log| - 1], key)
    else if log[|log| - 1].Key() == key then log[|log| - 1].predicates
    else key
  }

  lemma {:induction false} FirstWithHasKey(log: seq<Entry>, key: PredicateList)
    requires key in KeysOf(log)
    ensures Printed(FirstWith(log, key)) == key
  {
    if key in KeysOf(log[..|log| - 1]) {
      FirstWithHasKey(log[..|log| - 1], key);
    }
  }

  function Group(log: seq<Entry>, key: PredicateList): Stub {
    Stub(FirstWith(log, key), ResponsesOf(log, key), true)
  }

  function Groups(log: seq<Entry>): seq<Stub> {
    seq(|KeysOf(log)|, i requires 0 <= i < |KeysOf(log)| => Group(log, KeysOf(log)[i]))
  }

  /** No stub but the proxying one already has the predicates of the entry. */
  predicate IsNewKey(stubs: seq<Stub>, e: Entry) {
    forall j :: 0 <= j < |stubs| && j != e.index ==> !SamePredicates(stubs[j].predicates, e.predicates)
  }

  lemma {:induction false} UnknownKeyHasNothing(log: seq<Entry>, key: PredicateList)
    requires key !in KeysOf(log)
    ensures ResponsesOf(log, key) == []
  {
    if log != [] {
      assert log[|log| - 1] in log;
      UnknownKeyHasNothing(log[..|log| - 1], key);
    }
  }

  /** What one more entry does to the keys, the responses and the predicates of the groups. */
  lemma OneMoreEntry(log: seq<Entry>, e: Entry)
    ensures KeysOf(log + [e]) == if e.Key() in KeysOf(log) then KeysOf(log) else KeysOf(log) + [e.Key()]
    ensures forall k :: ResponsesOf(log + [e], k) == ResponsesOf(log, k) + if e.Key() == k then [e.response] else []
    ensures forall k :: k in KeysOf(log) ==> FirstWith(log + [e], k) == FirstWith(log, k)
    ensures e.Key() !in KeysOf(log) ==> FirstWith(log + [e], e.Key()) == e.predicates
  {
    hide Printed;
    assert (log + [e])[..|log|] == log;
  }

  lemma GroupKey(stubs: seq<Stub>, log: seq<Entry>, i: nat)
    requires i < |KeysOf(log)|
    ensures |stubs| + i < |stubs + Groups(log)|
    ensures Printed((stubs + Groups(log))[|stubs| + i].predicates) == KeysOf(log)[i]
  {
    hide KeysOf, FirstWith, Printed, ResponsesOf;
    FirstWithHasKey(log, KeysOf(log)[i]);
  }

  /** An entry that finds no stub to join has a new key. */
  lemma NotGrouped(stubs: seq<Stub>, log: seq<Entry>, e: Entry)
    requires e.index < |stubs| && SameFrom(stubs + Groups(log), e.index, e.predicates, 0) == -1
    ensures e.Key() !in KeysOf(log)
  {
    hide KeysOf, Printed, Groups, SameFrom;
    forall m | 0 <= m < |KeysOf(log)| ensures KeysOf(log)[m] != e.Key() {
      GroupKey(stubs, log, m);
    }
  }

  /** An entry that finds a stub to join finds the group of its key. */
  lemma Grouped(stubs: seq<Stub>, log: seq<Entry>, e: Entry)
    requires e.index < |stubs| && IsNewKey(stubs, e)
    requires SameFrom(stubs + Groups(log), e.index, e.predicates, 0) != -1
    ensures var m := SameFrom(stubs + Groups(log), e.index, e.predicates, 0) - |stubs|;
            0 <= m < |KeysOf(log)| && KeysOf(log)[m] == e.Key()
  {
    hide KeysOf, Printed, FirstWith, ResponsesOf;
    var i := SameFrom(stubs + Groups(log), e.index, e.predicates, 0);
    assert i >= |stubs|;
    GroupKey(stubs, log, i - |stubs|);
  }

  /** Adding one entry to a list that is already grouped. */
  lemma GroupOne(stubs: seq<Stub>, log: seq<Entry>, e: Entry)
    requires e.index < |stubs| && IsNewKey(stubs, e)
    ensures Recorded(stubs + Groups(log), e.index, Always, Stub(e.predicates, [e.response], false)) ==
            stubs + Groups(log + [e])
  {
    hide KeysOf, FirstWith, Printed, ResponsesOf, Groups, SameFrom, IsNewKey;
    var i := SameFrom(stubs + Groups(log), e.index, e.predicates, 0);
    if i == -1 {
      NotGrouped(stubs, log, e);
      GroupOneNew(stubs, log, e);
    } else {
      Grouped(stubs, log, e);
      GroupOneKnown(stubs, log, e, i - |stubs|);
    }
  }

  lemma GroupOneKnown(stubs: seq<Stub>, log: seq<Entry>, e: Entry, m: nat)
    requires m < |KeysOf(log)| && KeysOf(log)[m] == e.Key()
    ensures var list, i := stubs + Groups(log), |stubs| + m;
            list[i := list[i].(responses := list[i].responses + [e.response], generated := true)] ==
            stubs + Groups(log + [e])
  {
    hide ResponsesOf, KeysOf, FirstWith, Printed;
    OneMoreEntry(log, e);
    forall j | 0 <= j < |KeysOf(log)| && j != m
      ensures Groups(log + [e])[j] == Groups(log)[j]
    {
      assert ResponsesOf(log, KeysOf(log)[j]) + [] == ResponsesOf(log, KeysOf(log)[j]);
    }
    assert Groups(log + [e])[m] == Group(log, e.Key()).(responses := ResponsesOf(log, e.Key()) + [e.response]);
  }

  lemma GroupsAppend(log: seq<Entry>, e: Entry)
    requires e.Key() !in KeysOf(log)
    ensures Groups(log + [e]) == Groups(log) + [Stub(e.predicates, [e.response], true)]
  {
    hide ResponsesOf, KeysOf, FirstWith, Printed;
    OneMoreEntry(log, e);
    forall j | 0 <= j < |KeysOf(log)|
      ensures Groups(log + [e])[j] == Groups(log)[j]
    {
      assert ResponsesOf(log, KeysOf(log)[j]) + [] == ResponsesOf(log, KeysOf(log)[j]);
    }
    UnknownKeyHasNothing(log, e.Key());
    assert [] + [e.response] == [e.response];
  }

  lemma GroupOneNew(stubs: seq<Stub>, log: seq<Entry>, e: Entry)
    requires e.Key() !in KeysOf(log)
    ensures stubs + Groups(log) + [Stub(e.predicates, [e.response], true)] == stubs + Groups(log + [e])
  {
    hide Groups;
    GroupsAppend(log, e);
    var made := Stub(e.predicates, [e.response], true);
    assert stubs + Groups(log) + [made] == stubs + (Groups(log) + [made]);
  }

  /** Recording a log is a stable group-by: the original stubs, then one stub for every distinct
      key in order of first appearance, each with its responses in order of arrival. */
  lemma {:induction false} RecordingGroups(stubs: seq<Stub>, log: seq<Entry>)
    requires forall e :: e in log ==> e.index < |stubs| && IsNewKey(stubs, e)
    ensures RecordAll(stubs, log) == stubs + Groups(log)
  {
    if log == [] {
      assert stubs + Groups(log) == stubs;
    } else {
      var before, e := log[..|log| - 1], log[|log| - 1];
      assert e in log && log == before + [e];
      RecordingGroups(stubs, before);
      GroupOne(stubs, before, e);
    }
  }

  // ---------- Conservation ----------

  function AllResponses(stubs: seq<Stub>): multiset<Response> {
    if stubs == [] then multiset{} else AllResponses(stubs[..|stubs| - 1]) + multiset(stubs[|stubs| - 1].responses)
  }

  function LogResponses(log: seq<Entry>): seq<Response> {
    seq(|log|, i requires 0 <= i < |log| => log[i].response)
  }

  lemma {:induction false} AllResponsesUpdate(stubs: seq<Stub>, i: nat, s: Stub, added: seq<Response>)
    requires i < |stubs| && s.responses == stubs[i].responses + added
    ensures AllResponses(stubs[i := s]) == AllResponses(stubs) + multiset(added)
  {
    var n := |stubs| - 1;
    if i == n {
      assert stubs[i := s][..n] == stubs[..n];
    } else {
      assert stubs[i := s][..n] == stubs[..n][i := s];
      AllResponsesUpdate(stubs[..n], i, s, added);
    }
  }

  lemma AllResponsesAppend(stubs: seq<Stub>, s: Stub)
    ensures AllResponses(stubs + [s]) == AllResponses(stubs) + multiset(s.responses)
  {
    assert (stubs + [s])[..|stubs|] == stubs;
  }

  lemma RecordingConservesOne(stubs: seq<Stub>, e: Entry)
    ensures AllResponses(Recorded(stubs, e.index, Always, Stub(e.predicates, [e.response], false))) ==
            AllResponses(stubs) + multiset([e.response])
  {
    hide AllResponses;
    var i := SameFrom(stubs, e.index, e.predicates, 0);
    if i == -1 {
      AllResponsesAppend(stubs, Stub(e.predicates, [e.response], true));
    } else {
      var grown := stubs[i].(responses := stubs[i].responses + [e.response], generated := true);
      AllResponsesUpdate(stubs, i, grown, [e.response]);
    }
  }

  lemma LogResponsesNext(log: seq<Entry>)
    requires log != []
    ensures var n := |log| - 1;
            multiset(LogResponses(log)) == multiset(LogResponses(log[..n])) + multiset([log[n].response])
  {
    assert LogResponses(log) == LogResponses(log[..|log| - 1]) + [log[|log| - 1].response];
  }

  /** Whatever the stubs, every recorded response is stored exactly once and none is lost. */
  lemma {:induction false} RecordingConserves(stubs: seq<Stub>, log: seq<Entry>)
    ensures AllResponses(RecordAll(stubs, log)) == AllResponses(stubs) + multiset(LogResponses(log))
  {
    hide AllResponses, Recorded;
    if log != [] {
      var n := |log| - 1;
      RecordingConserves(stubs, log[..n]);
      RecordingConservesOne(RecordAll(stubs, log[..n]), log[n]);
      LogResponsesNext(log);
    }
  }

  // ---------- Undoing ----------

  /** The first stubs keep their predicates, and every stub after them is generated. */
  ghost predicate Extends(stubs: seq<Stub>, list: seq<Stub>) {
    && |stubs| <= |list|
    && (forall j :: 0 <= j < |stubs| ==> list[j].predicates == stubs[j].predicates)
    && (forall j :: |stubs| <= j < |list| ==> list[j].generated)
  }

  lemma {:induction false} ClearedShorter(stubs: seq<Stub>, j: nat)
    requires j < |stubs| && stubs[j].generated
    ensures |Cleared(stubs)| < |stubs|
  {
    var n := |stubs| - 1;
    if j < n {
      ClearedShorter(stubs[..n], j);
    } else {
      ClearedNotLonger(stubs[..n]);
    }
  }

  lemma {:induction false} ClearedNotLonger(stubs: seq<Stub>)
    ensures |Cleared(stubs)| <= |stubs|
  {
    if stubs != [] {
      ClearedNotLonger(stubs[..|stubs| - 1]);
    }
  }

  /** A response grouped onto an original stub marks that stub as generated for good. */
  lemma {:induction false} KnownKeyMarksOriginal(stubs: seq<Stub>, log: seq<Entry>)
    ensures Extends(stubs, RecordAll(stubs, log))
    ensures (exists e :: e in log && !IsNewKey(stubs, e)) ==>
              exists j :: 0 <= j < |stubs| && RecordAll(stubs, log)[j].generated
  {
    if log != [] {
      var before, last := log[..|log| - 1], log[|log| - 1];
      KnownKeyMarksOriginal(stubs, before);
      var list := RecordAll(stubs, before);
      var i := SameFrom(list, last.index, last.predicates, 0);
      if j :| 0 <= j < |stubs| && list[j].generated {
        assert RecordAll(stubs, log)[j].generated;
      } else if !IsNewKey(stubs, last) {
        var j :| 0 <= j < |stubs| && j != last.index && SamePredicates(stubs[j].predicates, last.predicates);
        assert SamePredicates(list[j].predicates, last.predicates);
        assert 0 <= i <= j && RecordAll(stubs, log)[i].generated;
      }
    }
  }

  lemma ClearingExtended(stubs: seq<Stub>, list: seq<Stub>, j: nat)
    requires Extends(stubs, list) && j < |stubs| && list[j].generated
    ensures |Cleared(list)| < |stubs|
  {
    hide Cleared;
    var n := |stubs|;
    assert list == list[..n] + list[n..];
    ClearedConcat(list[..n], list[n..]);
    ClearedDrops(list[n..]);
    ClearedShorter(list[..n], j);
  }

  lemma ClearingGroups(stubs: seq<Stub>, log: seq<Entry>)
    requires forall s :: s in stubs ==> !s.generated
    ensures Cleared(stubs + Groups(log)) == stubs
  {
    hide Cleared, KeysOf, FirstWith, ResponsesOf;
    ClearedConcat(stubs, Groups(log));
    ClearedKeeps(stubs);
    ClearedDrops(Groups(log));
    assert stubs + [] == stubs;
  }

  /** Dropping the generated stubs gives the original ones back exactly when no response was grouped onto one of
      them. */
  lemma ClearingRestores(stubs: seq<Stub>, log: seq<Entry>)
    requires forall s :: s in stubs ==> !s.generated
    requires forall e :: e in log ==> e.index < |stubs|
    ensures Cleared(RecordAll(stubs, log)) == stubs <==> forall e :: e in log ==> IsNewKey(stubs, e)
  {
    hide Cleared, RecordAll, Groups, IsNewKey, Extends;
    if forall e :: e in log ==> IsNewKey(stubs, e) {
      RecordingGroups(stubs, log);
      ClearingGroups(stubs, log);
    } else {
      KnownKeyMarksOriginal(stubs, log);
      var j :| 0 <= j < |stubs| && RecordAll(stubs, log)[j].generated;
      ClearingExtended(stubs, RecordAll(stubs, log), j);
    }
  }
}
