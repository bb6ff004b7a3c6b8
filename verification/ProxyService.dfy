/** What clients get from an imposter in service: fixed responses in their order, and the value of a proxy that asks
    once. */
module ProxyService {
  import opened Requests
  import opened ProxyRecord
  import opened ProxySession
  import Cycling

  function RepeatsOf(responses: seq<Response>): seq<int> {
    seq(|responses|, i requires 0 <= i < |responses| => responses[i].repeat)
  }

  /** The stub at `i` is the first to match every call. */
  ghost predicate AnswersAll(g: Engine, stubs: seq<Stub>, i: nat, calls: seq<Call>) {
    i < |stubs| && forall c :: c in calls ==> FirstMatch(g, stubs, c.request) == i
  }

  predicate IsFixed(s: Stub) {
    s.responses != [] && forall r :: r in s.responses ==> r.kind.Is?
  }

  ghost predicate WithinRun(s: Stub, c: Counter)
    requires s.responses != []
  {
    c.count < Cycling.Effective(s.responses[c.index % |s.responses|].repeat)
  }

  /** The number of answers that lead from fresh counters to these. */
  function Answers(s: Stub, c: Counter): (n: int)
    requires s.responses != []
    ensures n >= 0
  {
    Cycling.Position(RepeatsOf(s.responses), c.index, c.count)
  }

  /** One answer of a stub with fixed responses: the next entry of the expanded order. */
  lemma ServeFixed(g: Engine, m: Imposter, c: Call, i: nat)
    requires i < |m.stubs| == |m.counters| && FirstMatch(g, m.stubs, c.request) == i
    requires IsFixed(m.stubs[i]) && WithinRun(m.stubs[i], m.counters[i])
    ensures var (s, (m', value)) := (m.stubs[i], Serve(g, m, c));
            var order := Cycling.Order(RepeatsOf(s.responses));
            m'.stubs == m.stubs && |m'.counters| == |m.counters| &&
            (forall j :: 0 <= j < |m.counters| && j != i ==> m'.counters[j] == m.counters[j]) &&
            WithinRun(s, m'.counters[i]) && Answers(s, m'.counters[i]) == Answers(s, m.counters[i]) + 1 &&
            order != [] && 0 <= order[Answers(s, m.counters[i]) % |order|] < |s.responses| &&
            s.responses[order[Answers(s, m.counters[i]) % |order|]].kind == Is(value)
  {
    hide FirstMatch;
    var s, at := m.stubs[i], m.counters[i];
    Cycling.NextPosition(RepeatsOf(s.responses), at.index, at.count);
    Cycling.PositionGives(RepeatsOf(s.responses), at.index, at.count);
    assert s.responses[Slot(at.index, |s.responses|)] in s.responses;
  }

  lemma OrderGives(s: Stub, k: nat)
    requires s.responses != []
    ensures var order := Cycling.Order(RepeatsOf(s.responses));
            order != [] && order[k % |order|] < |s.responses|
  {
    hide Cycling.Expanded;
    Cycling.ExpandedLength(RepeatsOf(s.responses), |s.responses|);
    var order := Cycling.Order(RepeatsOf(s.responses));
    Cycling.OrderCounts(RepeatsOf(s.responses), |s.responses|, order[k % |order|]);
    assert order[k % |order|] in order;
  }

  /** The answer of a stub to call `k`: its responses in the expanded order, over and over. */
  function Answer(s: Stub, k: nat): Kind
    requires s.responses != []
  {
    OrderGives(s, k);
    var order := Cycling.Order(RepeatsOf(s.responses));
    s.responses[order[k % |order|]].kind
  }

  /** Calls that a stub with fixed responses is the first to match get these responses in their expanded order, from
      where its counters stand. */
  lemma {:induction false} ServedFrom(g: Engine, m: Imposter, i: nat, calls: seq<Call>)
    requires |m.counters| == |m.stubs| && AnswersAll(g, m.stubs, i, calls)
    requires IsFixed(m.stubs[i]) && WithinRun(m.stubs[i], m.counters[i])
    ensures var (m', s) := (Run(g, m, calls).0, m.stubs[i]);
            m'.stubs == m.stubs && WithinRun(s, m'.counters[i]) &&
            Answers(s, m'.counters[i]) == Answers(s, m.counters[i]) + |calls|
    ensures |Run(g, m, calls).1| == |calls|
    ensures forall k :: 0 <= k < |calls| ==>
              Answer(m.stubs[i], Answers(m.stubs[i], m.counters[i]) + k) == Is(Run(g, m, calls).1[k])
  {
    hide Serve, FirstMatch, IsFixed, WithinRun, Answers;
    FixedAnswers(m.stubs[i]);
    if calls != [] {
      var n := |calls| - 1;
      assert calls[n] in calls;
      ServedFrom(g, m, i, calls[..n]);
      RunLast(g, m, calls);
      ServeFixed(g, Run(g, m, calls[..n]).0, calls[n], i);
    }
  }

  lemma ServedInOrder(g: Engine, stubs: seq<Stub>, i: nat, calls: seq<Call>)
    requires AnswersAll(g, stubs, i, calls) && IsFixed(stubs[i])
    ensures Run(g, Start(stubs), calls).0.stubs == stubs
    ensures |Run(g, Start(stubs), calls).1| == |calls|
    ensures forall k :: 0 <= k < |calls| ==> Answer(stubs[i], k) == Is(Run(g, Start(stubs), calls).1[k])
  {
    hide Serve, FirstMatch, IsFixed, WithinRun, Answers, Run, Answer;
    FixedAnswers(stubs[i]);
    FreshCounters(stubs, i);
    ServedFrom(g, Start(stubs), i, calls);
    var values := Run(g, Start(stubs), calls).1;
    forall k | 0 <= k < |calls| ensures Answer(stubs[i], k) == Is(values[k]) {
      assert Answer(stubs[i], 0 + k) == Is(values[k]);
    }
  }

  lemma FixedAnswers(s: Stub)
    requires IsFixed(s)
    ensures s.responses != []
  {
  }

  lemma FreshCounters(stubs: seq<Stub>, i: nat)
    requires i < |stubs| && IsFixed(stubs[i])
    ensures WithinRun(stubs[i], Start(stubs).counters[i]) && Answers(stubs[i], Start(stubs).counters[i]) == 0
  {
  }

  // ---------- A proxy that asks once ----------

  /** After a call was proxied once, its stub stands in front of the proxy with fresh counters, and every other stub
      keeps its own. */
  lemma OnceRecords(g: Engine, m: Imposter, c: Call, i: nat, gens: seq<Generator>)
    requires i < |m.stubs| == |m.counters| && FirstMatch(g, m.stubs, c.request) == i
    requires |m.stubs[i].responses| == 1 && m.stubs[i].responses[0].kind == Proxy(Once, gens)
    ensures var (m', value) := Serve(g, m, c);
            value == c.upstream &&
            m'.stubs == m.stubs[..i] + [NewStub(c.request, c.upstream, gens).(generated := true)] + m.stubs[i..] &&
            m'.counters[..i] == m.counters[..i] && m'.counters[i] == ZERO &&
            m'.counters[i + 2..] == m.counters[i + 1..]
  {
    hide FirstMatch, Generated;
  }

  /** A response that is grouped or appended leaves every stub its counters; a new stub comes last, with fresh ones. */
  lemma AlwaysRecords(g: Engine, m: Imposter, c: Call, i: nat, gens: seq<Generator>)
    requires i < |m.stubs| == |m.counters| && FirstMatch(g, m.stubs, c.request) == i
    requires |m.stubs[i].responses| == 1 && m.stubs[i].responses[0].kind == Proxy(Always, gens)
    ensures var (m', value) := Serve(g, m, c);
            value == c.upstream && |m'.stubs| == |m'.counters| >= |m.counters| &&
            (forall j :: 0 <= j < |m.counters| && j != i ==> m'.counters[j] == m.counters[j]) &&
            forall j :: |m.counters| <= j < |m'.counters| ==> m'.counters[j] == ZERO
  {
    hide FirstMatch, Generated;
  }

  /** From then on that value answers every request that the recorded predicates match and no earlier stub does. */
  lemma OnceAnswersAgain(g: Engine, m: Imposter, c: Call, i: nat, gens: seq<Generator>, calls: seq<Call>)
    requires i < |m.stubs| == |m.counters| && FirstMatch(g, m.stubs, c.request) == i
    requires |m.stubs[i].responses| == 1 && m.stubs[i].responses[0].kind == Proxy(Once, gens)
    requires forall c' :: c' in calls ==>
               MatchesAll(g, Generated(c.request, gens), c'.request) && FirstMatch(g, m.stubs, c'.request) >= i
    ensures var (after, values) := Run(g, Serve(g, m, c).0, calls);
            after.stubs == Serve(g, m, c).0.stubs && values == seq(|calls|, _ => c.upstream)
  {
    hide Serve, FirstMatch, Generated, Run;
    var m' := Serve(g, m, c).0;
    ServeKeepsLengths(g, m, c);
    OnceRecords(g, m, c, i, gens);
    var s := NewStub(c.request, c.upstream, gens).(generated := true);
    assert m'.stubs[i] == s && m'.counters[i] == ZERO;
    forall c' | c' in calls ensures FirstMatch(g, m'.stubs, c'.request) == i {
      FoundInFront(g, m.stubs, i, s, c'.request);
    }
    OneAnswer(g, m', i, calls);
  }

  /** A stub with one fixed response answers with it every time. */
  lemma OneAnswer(g: Engine, m: Imposter, i: nat, calls: seq<Call>)
    requires |m.counters| == |m.stubs| && AnswersAll(g, m.stubs, i, calls)
    requires |m.stubs[i].responses| == 1 && m.stubs[i].responses[0].kind.Is? && m.counters[i] == ZERO
    ensures Run(g, m, calls).0.stubs == m.stubs
    ensures Run(g, m, calls).1 == seq(|calls|, _ => m.stubs[i].responses[0].kind.value)
  {
    hide Serve, FirstMatch, Run, Answer;
    ServedFrom(g, m, i, calls);
    forall k | 0 <= k < |calls| ensures Run(g, m, calls).1[k] == m.stubs[i].responses[0].kind.value {
      OnlyAnswer(m.stubs[i], Answers(m.stubs[i], m.counters[i]) + k);
    }
  }

  lemma FoundInFront(g: Engine, stubs: seq<Stub>, i: nat, s: Stub, r: Request)
    requires i < |stubs| && FirstMatch(g, stubs, r) >= i && MatchesAll(g, s.predicates, r)
    ensures FirstMatch(g, stubs[..i] + [s] + stubs[i..], r) == i
  {
    hide MatchesAll;
    var stubs' := stubs[..i] + [s] + stubs[i..];
    assert forall j :: 0 <= j < i ==> stubs'[j] == stubs[j];
    FirstMatchIs(g, stubs', r, i);
  }

  lemma OnlyAnswer(s: Stub, k: nat)
    requires |s.responses| == 1
    ensures Answer(s, k) == s.responses[0].kind
  {
    OrderGives(s, k);
  }
}
