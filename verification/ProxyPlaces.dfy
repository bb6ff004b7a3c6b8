/** Where record-once proxying puts its stubs, and what exactly a run of a plain proxy records. */
module ProxyPlaces {
  import opened Requests
  import opened ProxyRecord
  import opened ProxyOnce
  import opened Sequences

  // ---------- In front of the proxies nothing changes ----------

  predicate HasProxy(s: Stub) {
    exists response :: response in s.responses && response.kind.Proxy?
  }

  /** The first `p` stubs do not proxy. */
  predicate NoProxyBelow(stubs: seq<Stub>, p: nat) {
    p <= |stubs| && forall j :: 0 <= j < p ==> !HasProxy(stubs[j])
  }

  lemma ProxyIsBehind(g: Engine, stubs: seq<Stub>, default: Kind, p: nat, r: Request, choice: nat)
    requires NoProxyBelow(stubs, p) && !default.Proxy? && Answer(g, stubs, default, r, choice).Proxy?
    ensures p <= FirstMatch(g, stubs, r) < |stubs|
  {
    hide MatchesAll;
    var i := FirstMatch(g, stubs, r);
    var response := stubs[i].responses[choice % |stubs[i].responses|];
    assert response in stubs[i].responses && HasProxy(stubs[i]);
  }

  ghost predicate FrontIs(s: State, front: seq<Stub>) {
    front <= s.stubs && forall q :: q in s.pending ==> |front| <= q.index < |s.stubs| && q.mode == Once
  }

  lemma InsertBehind(stubs: seq<Stub>, front: seq<Stub>, index: int, s: Stub)
    requires front <= stubs && |front| <= index < |stubs|
    ensures front <= InsertAt(stubs, index, s) && |InsertAt(stubs, index, s)| == |stubs| + 1
  {
  }

  lemma FrontAfterFinish(g: Engine, default: Kind, front: seq<Stub>, s: State, i: nat, value: string)
    requires FrontIs(s, front) && i < |s.pending|
    ensures FrontIs(Apply(g, default, s, Finish(i, value)), front)
  {
    hide NewStub, InsertAt;
    var q := s.pending[i];
    InsertBehind(s.stubs, front, q.index, NewStub(q.request, value, q.generators).(generated := true));
    assert forall q :: q in Removed(s.pending, i) ==> q in s.pending;
  }

  lemma FrontAfterArrival(g: Engine, default: Kind, front: seq<Stub>, s: State, r: Request, choice: nat)
    requires FrontIs(s, front) && NoProxyBelow(front, |front|) && !default.Proxy? && NoAlways(s.stubs, default)
    ensures FrontIs(Apply(g, default, s, Arrive(r, choice)), front)
  {
    hide FirstMatch, MatchesAll;
    var answer := Answer(g, s.stubs, default, r, choice);
    if answer.Proxy? {
      ProxyIsBehind(g, s.stubs, default, |front|, r, choice);
      var i := FirstMatch(g, s.stubs, r);
      assert s.stubs[i].responses[choice % |s.stubs[i].responses|] in s.stubs[i].responses;
    }
  }

  /** Whatever is recorded, the stubs in front of the first proxy stay where they are. */
  lemma {:induction false} FrontStays(g: Engine, default: Kind, stubs: seq<Stub>, schedule: seq<Step>, p: nat)
    requires NoAlways(stubs, default) && NoProxyBelow(stubs, p) && !default.Proxy?
    ensures var s := After(g, default, stubs, schedule);
            p <= |s.stubs| && s.stubs[..p] == stubs[..p] && FrontIs(s, stubs[..p])
  {
    if schedule != [] {
      hide Answer, MatchesAll, Apply, NoAlways, HasProxy;
      var before, last := schedule[..|schedule| - 1], schedule[|schedule| - 1];
      FrontStays(g, default, stubs, before, p);
      InvariantHolds(g, default, stubs, before);
      FrontStep(g, default, stubs[..p], After(g, default, stubs, before), last);
    }
  }

  lemma FrontStep(g: Engine, default: Kind, front: seq<Stub>, s: State, step: Step)
    requires FrontIs(s, front) && NoProxyBelow(front, |front|) && !default.Proxy? && NoAlways(s.stubs, default)
    ensures FrontIs(Apply(g, default, s, step), front)
  {
    hide Answer, MatchesAll, NoAlways, HasProxy, NewStub;
    match step
    case Arrive(r, choice) => FrontAfterArrival(g, default, front, s, r, choice);
    case Finish(i, value) => if i < |s.pending| { FrontAfterFinish(g, default, front, s, i, value); }
    case Fail(i) =>
      if i < |s.pending| {
        assert forall q :: q in Removed(s.pending, i) ==> q in s.pending;
      }
  }

  /** A request that a stub in front of the first proxy answers keeps its answer for ever. */
  lemma FrontKeepsAnswering(g: Engine, default: Kind, stubs: seq<Stub>, schedule: seq<Step>, p: nat,
                            r: Request, choice: nat)
    requires NoAlways(stubs, default) && NoProxyBelow(stubs, p) && !default.Proxy?
    requires 0 <= FirstMatch(g, stubs, r) < p
    ensures var s := After(g, default, stubs, schedule);
            FirstMatch(g, s.stubs, r) == FirstMatch(g, stubs, r) &&
            Answer(g, s.stubs, default, r, choice) == Answer(g, stubs, default, r, choice)
  {
    hide MatchesAll, After, NoAlways;
    FrontStays(g, default, stubs, schedule, p);
    var list, i := After(g, default, stubs, schedule).stubs, FirstMatch(g, stubs, r);
    assert forall j :: 0 <= j < p ==> list[j] == list[..p][j] == stubs[j];
    FirstMatchIs(g, list, r, i);
  }

  // ---------- The place of a recorded stub ----------

  /** Served one at a time, a proxied request leaves its stub directly in front of the stub that proxied, or in front of
      all if that was the default. */
  lemma RecordedBeforeProxy(g: Engine, default: Kind, s: State, x: Exchange)
    requires s.pending == [] && Answer(g, s.stubs, default, x.request, x.choice).Proxy?
    requires Answer(g, s.stubs, default, x.request, x.choice).mode == Once
    ensures var i, stubs := FirstMatch(g, s.stubs, x.request), Serve(g, default, s, x).stubs;
            var at := if i == -1 then 0 else i;
            |stubs| == |s.stubs| + 1 && stubs[..at] == s.stubs[..at] && stubs[at + 1..] == s.stubs[at..] &&
            stubs[at].generated && stubs[at].responses == [Response(Is(x.value), 0)] &&
            MatchesAll(g, stubs[at].predicates, x.request)
  {
    hide Answer, FirstMatch, Generated, MatchesAll;
    ServeProxied(g, default, s, x);
    GeneratedMatchesOwn(g, x.request, Answer(g, s.stubs, default, x.request, x.choice).generators);
  }

  predicate OnlyTransparent(stubs: seq<Stub>, default: Kind) {
    && (default.Proxy? ==> default.mode == Transparent)
    && forall s, response ::
         s in stubs && response in s.responses && response.kind.Proxy? ==> response.kind.mode == Transparent
  }

  lemma AnswerIsTransparent(g: Engine, stubs: seq<Stub>, default: Kind, r: Request, choice: nat)
    requires OnlyTransparent(stubs, default) && Answer(g, stubs, default, r, choice).Proxy?
    ensures Answer(g, stubs, default, r, choice).mode == Transparent
  {
    hide MatchesAll, FirstMatch;
    var i := FirstMatch(g, stubs, r);
    if i != -1 {
      assert stubs[i].responses[choice % |stubs[i].responses|] in stubs[i].responses;
    }
  }

  /** Proxies that are not to record change nothing. */
  lemma {:induction false} TransparentRecordsNothing(g: Engine, default: Kind, stubs: seq<Stub>, schedule: seq<Step>)
    requires OnlyTransparent(stubs, default)
    ensures var s := After(g, default, stubs, schedule);
            s.stubs == stubs && s.pending == [] && s.recorded == {}
  {
    if schedule != [] {
      hide MatchesAll, FirstMatch, Answer, OnlyTransparent;
      var n := |schedule| - 1;
      TransparentRecordsNothing(g, default, stubs, schedule[..n]);
      if schedule[n].Arrive? && Answer(g, stubs, default, schedule[n].request, schedule[n].choice).Proxy? {
        AnswerIsTransparent(g, stubs, default, schedule[n].request, schedule[n].choice);
      }
    }
  }

  // ---------- A proxy and nothing else ----------

  const PROXY := Stub(Nil, [Response(Proxy(Once, []), 0)], false)

  /** The same method and path, up to folding. */
  ghost predicate SameCall(g: Engine, a: Request, b: Request) {
    g.fold(a.verb) == g.fold(b.verb) && g.fold(a.path) == g.fold(b.path)
  }

  ghost predicate Seen(g: Engine, log: seq<Exchange>, r: Request) {
    exists i :: 0 <= i < |log| && SameCall(g, log[i].request, r)
  }

  /** The exchanges whose method and path had not come up before. */
  ghost function Firsts(g: Engine, log: seq<Exchange>): (firsts: seq<Exchange>) {
    if log == [] then []
    else
      var before, last := Firsts(g, log[..|log| - 1]), log[|log| - 1];
      if Seen(g, before, last.request) then before else before + [last]
  }

  function RecordedAs(x: Exchange): Stub {
    Stub(List([Equals(map["method" := ExactText(x.request.verb), "path" := ExactText(x.request.path)], false)]),
         [Response(Is(x.value), 0)], true)
  }

  function Records(log: seq<Exchange>): seq<Stub> {
    seq(|log|, i requires 0 <= i < |log| => RecordedAs(log[i]))
  }

  function RequestsOf(log: seq<Exchange>): seq<Request> {
    seq(|log|, i requires 0 <= i < |log| => log[i].request)
  }

  lemma RecordMatches(g: Engine, x: Exchange, r: Request)
    ensures MatchesAll(g, RecordedAs(x).predicates, r) <==> SameCall(g, x.request, r)
  {
    DefaultTellsApart(g, x.request, r);
  }

  /** The record that answers a request, or else the proxy. */
  lemma AnsweredByRecord(g: Engine, firsts: seq<Exchange>, r: Request)
    ensures var i := FirstMatch(g, Records(firsts) + [PROXY], r);
            0 <= i <= |firsts| && (i < |firsts| <==> Seen(g, firsts, r)) &&
            (i < |firsts| ==> SameCall(g, firsts[i].request, r))
  {
    hide MatchesAll, FirstMatch, SameCall;
    var stubs := Records(firsts) + [PROXY];
    forall j | 0 <= j < |firsts| ensures MatchesAll(g, stubs[j].predicates, r) <==> SameCall(g, firsts[j].request, r) {
      RecordMatches(g, firsts[j], r);
    }
    assert MatchesAll(g, PROXY.predicates, r) by { MatchedByNil(g, r); }
    assert stubs[|firsts|] == PROXY;
  }

  lemma MatchedByNil(g: Engine, r: Request)
    ensures MatchesAll(g, PROXY.predicates, r)
  {
  }

  lemma ServeFirst(g: Engine, default: Kind, firsts: seq<Exchange>, s: State, x: Exchange)
    requires s.stubs == Records(firsts) + [PROXY] && s.pending == [] && !Seen(g, firsts, x.request)
    ensures var t := Serve(g, default, s, x);
            t.stubs == Records(firsts + [x]) + [PROXY] && t.pending == [] && t.forwarded == s.forwarded + [x.request]
  {
    hide FirstMatch, Seen, MatchesAll;
    AnsweredByRecord(g, firsts, x.request);
    var n := |firsts|;
    assert s.stubs[n] == PROXY && Answer(g, s.stubs, default, x.request, x.choice) == Proxy(Once, []);
    hide Answer;
    ServeProxied(g, default, s, x);
    assert NewStub(x.request, x.value, []).(generated := true) == RecordedAs(x);
    assert Records(firsts + [x]) == Records(firsts) + [RecordedAs(x)];
    assert s.stubs[..n] == Records(firsts) && s.stubs[n..] == [PROXY];
  }

  lemma ServeSeen(g: Engine, default: Kind, firsts: seq<Exchange>, s: State, x: Exchange)
    requires s.stubs == Records(firsts) + [PROXY] && s.pending == [] && Seen(g, firsts, x.request)
    ensures Serve(g, default, s, x) == s
  {
    hide FirstMatch, Seen, MatchesAll;
    AnsweredByRecord(g, firsts, x.request);
    var i := FirstMatch(g, s.stubs, x.request);
    assert s.stubs[i] == RecordedAs(firsts[i]);
  }

  /** Whatever is asked of a plain proxy, it forwards exactly the requests whose method and path had not come up before,
      and holds one stub for each of them, in the order in which they came. */
  lemma {:induction false} PlainProxyRun(g: Engine, default: Kind, log: seq<Exchange>)
    ensures var s, firsts := ServeAll(g, default, [PROXY], log), Firsts(g, log);
            s.stubs == Records(firsts) + [PROXY] && s.forwarded == RequestsOf(firsts) && s.pending == []
  {
    if log == [] {
      assert Records([]) + [PROXY] == [PROXY] && RequestsOf([]) == [];
    } else {
      hide Serve, Records, Seen, PROXY;
      var n := |log| - 1;
      PlainProxyRun(g, default, log[..n]);
      var s, firsts := ServeAll(g, default, [PROXY], log[..n]), Firsts(g, log[..n]);
      if Seen(g, firsts, log[n].request) {
        ServeSeen(g, default, firsts, s, log[n]);
      } else {
        ServeFirst(g, default, firsts, s, log[n]);
        assert RequestsOf(firsts + [log[n]]) == RequestsOf(firsts) + [log[n].request];
      }
    }
  }

  lemma {:induction false} EverySeen(g: Engine, log: seq<Exchange>, i: nat)
    requires i < |log|
    ensures Seen(g, Firsts(g, log), log[i].request)
    decreases |log|
  {
    var n := |log| - 1;
    var before, firsts := Firsts(g, log[..n]), Firsts(g, log);
    if i < n {
      EverySeen(g, log[..n], i);
      var j :| 0 <= j < |before| && SameCall(g, before[j].request, log[i].request);
      assert SameCall(g, firsts[j].request, log[i].request);
    } else if !Seen(g, before, log[n].request) {
      assert SameCall(g, firsts[|before|].request, log[n].request);
    }
  }

  /** A request whose method and path have come up is answered by what was recorded when they first did. */
  lemma PlainProxyAnswers(g: Engine, default: Kind, log: seq<Exchange>, i: nat, choice: nat)
    requires i < |log|
    ensures var s, firsts := ServeAll(g, default, [PROXY], log), Firsts(g, log);
            exists j :: 0 <= j < |firsts| && SameCall(g, firsts[j].request, log[i].request) &&
              Answer(g, s.stubs, default, log[i].request, choice) == Is(firsts[j].value)
  {
    hide ServeAll, Firsts, FirstMatch, SameCall;
    PlainProxyRun(g, default, log);
    EverySeen(g, log, i);
    var s, firsts := ServeAll(g, default, [PROXY], log), Firsts(g, log);
    AnsweredByRecord(g, firsts, log[i].request);
    var j := FirstMatch(g, s.stubs, log[i].request);
    assert s.stubs[j] == RecordedAs(firsts[j]);
  }
}
