/** An imposter in service: requests answered one after the other, proxied values recorded on the way, and the stubs
    saved. */
module ProxySession {
  import opened Requests
  import opened ProxyRecord
  import opened ProxyAlways
  import Cycling

  /** A request and what the proxied server answers, should it be asked. */
  datatype Call = Call(request: Request, upstream: string)

  /** The counters of one stub. */
  datatype Counter = Counter(index: nat, count: nat)

  const ZERO := Counter(0, 0)

  /** An imposter in service: its stubs and their response counters. */
  datatype Imposter = Imposter(stubs: seq<Stub>, counters: seq<Counter>)

  function Advance(c: Counter, repeat: int): Counter {
    if c.count + 1 >= Cycling.Effective(repeat) then Counter(c.index + 1, 0) else Counter(c.index, c.count + 1)
  }

  /** The position in a cycle of `n` responses. */
  function Slot(index: nat, n: nat): (slot: nat)
    requires n > 0
    ensures slot < n
  {
    index % n
  }

  /** The counters once recording has changed the list: a new stub starts afresh. */
  function Recount(counters: seq<Counter>, index: int, mode: Mode, grown: bool): seq<Counter> {
    if !grown then counters
    else if mode == Once then
      if 0 <= index < |counters| then counters[..index] + [ZERO] + counters[index..] else [ZERO] + counters
    else counters + [ZERO]
  }

  /** One request served, and the value the client gets; nothing here stands for a default or an empty answer. */
  ghost function Serve(g: Engine, m: Imposter, c: Call): (Imposter, string)
    requires |m.counters| == |m.stubs|
  {
    var i := FirstMatch(g, m.stubs, c.request);
    if i == -1 || m.stubs[i].responses == [] then (m, "")
    else
      var responses, at := m.stubs[i].responses, m.counters[i];
      var response := responses[Slot(at.index, |responses|)];
      var counters := m.counters[i := Advance(at, response.repeat)];
      match response.kind
      case Is(value) => (Imposter(m.stubs, counters), value)
      case Proxy(mode, gens) =>
        var stubs := Recorded(m.stubs, i, mode, NewStub(c.request, c.upstream, gens));
        (Imposter(stubs, Recount(counters, i, mode, |stubs| != |m.stubs|)), c.upstream)
      case OtherKind(_) => (Imposter(m.stubs, counters), "")
  }

  lemma ServeKeepsLengths(g: Engine, m: Imposter, c: Call)
    requires |m.counters| == |m.stubs|
    ensures |Serve(g, m, c).0.counters| == |Serve(g, m, c).0.stubs|
  {
  }

  ghost function Run(g: Engine, m: Imposter, calls: seq<Call>): (r: (Imposter, seq<string>))
    requires |m.counters| == |m.stubs|
    ensures |r.0.counters| == |r.0.stubs|
  {
    if calls == [] then (m, [])
    else
      var (before, values) := Run(g, m, calls[..|calls| - 1]);
      var (after, value) := Serve(g, before, calls[|calls| - 1]);
      ServeKeepsLengths(g, before, calls[|calls| - 1]);
      (after, values + [value])
  }

  lemma RunLast(g: Engine, m: Imposter, calls: seq<Call>)
    requires |m.counters| == |m.stubs| && calls != []
    ensures var (before, values) := Run(g, m, calls[..|calls| - 1]);
            var (after, value) := Serve(g, before, calls[|calls| - 1]);
            Run(g, m, calls) == (after, values + [value])
  {
    hide Serve;
  }

  function Start(stubs: seq<Stub>): Imposter {
    Imposter(stubs, seq(|stubs|, _ => ZERO))
  }

  function Upstream(calls: seq<Call>): seq<string> {
    seq(|calls|, i requires 0 <= i < |calls| => calls[i].upstream)
  }

  lemma UpstreamLast(calls: seq<Call>)
    requires calls != []
    ensures Upstream(calls) == Upstream(calls[..|calls| - 1]) + [calls[|calls| - 1].upstream]
  {
  }

  // ---------- Saving without proxies ----------

  function NonProxy(responses: seq<Response>): seq<Response> {
    if responses == [] then []
    else
      var last := responses[|responses| - 1];
      NonProxy(responses[..|responses| - 1]) + if last.kind.Proxy? then [] else [last]
  }

  /** A save drops the proxy responses and no other. */
  lemma {:induction false} NonProxyIs(responses: seq<Response>, r: Response)
    ensures multiset(NonProxy(responses))[r] == if r.kind.Proxy? then 0 else multiset(responses)[r]
  {
    if responses != [] {
      var n := |responses| - 1;
      assert responses == responses[..n] + [responses[n]];
      NonProxyIs(responses[..n], r);
    }
  }

  /** What is left stands in the order it had. */
  lemma {:induction false} NonProxyConcat(a: seq<Response>, b: seq<Response>)
    ensures NonProxy(a + b) == NonProxy(a) + NonProxy(b)
  {
    if b == [] {
      assert a + b == a;
    } else {
      var n := |b| - 1;
      assert (a + b)[..|a + b| - 1] == a + b[..n] && (a + b)[|a + b| - 1] == b[n];
      NonProxyConcat(a, b[..n]);
    }
  }

  lemma {:induction false} NonProxyKeeps(responses: seq<Response>)
    requires forall r :: r in responses ==> !r.kind.Proxy?
    ensures NonProxy(responses) == responses
  {
    if responses != [] {
      var n := |responses| - 1;
      assert responses == responses[..n] + [responses[n]] && responses[n] in responses;
      NonProxyKeeps(responses[..n]);
    }
  }

  /** Stubs lose their proxy responses, and go when nothing is left of them. They are written as JSON and read again:
      that says nothing of which were generated, and takes whole maps for some keys. */
  function Saved(stubs: seq<Stub>): seq<Stub> {
    if stubs == [] then []
    else
      var last := stubs[|stubs| - 1];
      Saved(stubs[..|stubs| - 1]) +
      if NonProxy(last.responses) == [] then [] else [Stub(Reloaded(last.predicates), NonProxy(last.responses), false)]
  }

  /** The stubs as they are read from their JSON text. */
  function ReadBack(stubs: seq<Stub>): seq<Stub> {
    seq(|stubs|, i requires 0 <= i < |stubs| => Stub(Reloaded(stubs[i].predicates), stubs[i].responses, false))
  }

  /** The loop that filters the responses of one stub. */
  method RemoveProxyResponses(responses: seq<Response>) returns (kept: seq<Response>)
    ensures kept == NonProxy(responses)
    ensures forall r :: r in kept ==> !r.kind.Proxy?
  {
    kept := [];
    for j := 0 to |responses|
      invariant kept == NonProxy(responses[..j]) && forall r :: r in kept ==> !r.kind.Proxy?
    {
      assert responses[..j + 1][..j] == responses[..j];
      if !responses[j].kind.Proxy? {
        kept := kept + [responses[j]];
      }
    }
    assert responses[..|responses|] == responses;
  }

  predicate HasNoProxy(s: Stub) {
    s.responses != [] && forall r :: r in s.responses ==> !r.kind.Proxy?
  }

  /** The loop that filters the stubs before they are written. */
  method RemoveProxies(stubs: seq<Stub>) returns (filtered: seq<Stub>)
    ensures ReadBack(filtered) == Saved(stubs)
    ensures forall s :: s in filtered ==> HasNoProxy(s)
  {
    hide Reloaded, NonProxy;
    filtered := [];
    for i := 0 to |stubs|
      invariant ReadBack(filtered) == Saved(stubs[..i])
      invariant forall s :: s in filtered ==> HasNoProxy(s)
    {
      assert stubs[..i + 1][..i] == stubs[..i];
      var kept := RemoveProxyResponses(stubs[i].responses);
      if |kept| > 0 {
        filtered := filtered + [stubs[i].(responses := kept)];
      }
    }
    assert stubs[..|stubs|] == stubs;
  }

  /** Stubs that answer by themselves survive a save, whatever kind of answer that is. */
  lemma {:induction false} SavedKeepsAnswers(stubs: seq<Stub>)
    requires forall s :: s in stubs ==> HasNoProxy(s)
    ensures Saved(stubs) == ReadBack(stubs)
  {
    hide Reloaded, NonProxy;
    if stubs != [] {
      var n := |stubs| - 1;
      assert stubs[n] in stubs;
      SavedKeepsAnswers(stubs[..n]);
      NonProxyKeeps(stubs[n].responses);
    }
  }

  lemma {:induction false} SavedConcat(a: seq<Stub>, b: seq<Stub>)
    ensures Saved(a + b) == Saved(a) + Saved(b)
  {
    if b == [] {
      assert a + b == a;
    } else {
      var n := |b| - 1;
      assert (a + b)[..|a + b| - 1] == a + b[..n] && (a + b)[|a + b| - 1] == b[n];
      SavedConcat(a, b[..n]);
    }
  }

  /** Every saved stub comes from a stub that has more than proxy responses. */
  lemma {:induction false} SavedFrom(stubs: seq<Stub>, i: nat) returns (j: nat)
    requires i < |Saved(stubs)|
    ensures j < |stubs| && Saved(stubs)[i].predicates == Reloaded(stubs[j].predicates)
    ensures NonProxy(stubs[j].responses) != []
  {
    var n := |stubs| - 1;
    if i < |Saved(stubs[..n])| {
      j := SavedFrom(stubs[..n], i);
    } else {
      j := n;
    }
  }

  // ---------- Recording ----------

  /** A single proxy stub answers the calls, and no other original stub matches any of them. The originals have been
      read from JSON, as all stubs are. */
  ghost predicate Proxies(g: Engine, stubs: seq<Stub>, p: nat, gens: seq<Generator>, calls: seq<Call>) {
    && p < |stubs|
    && |stubs[p].responses| == 1 && stubs[p].responses[0].kind == Proxy(Always, gens)
    && (forall s :: s in stubs ==> Printed(s.predicates) == s.predicates)
    && forall i, j :: 0 <= i < |calls| && 0 <= j < |stubs| ==>
         (MatchesAll(g, stubs[j].predicates, calls[i].request) <==> j == p)
  }

  /** The log entry a call leaves behind. */
  function EntryOf(p: nat, gens: seq<Generator>, c: Call): Entry {
    Entry(p, Generated(c.request, gens), Response(Is(c.upstream), 0))
  }

  function Entries(p: nat, gens: seq<Generator>, calls: seq<Call>): seq<Entry> {
    seq(|calls|, i requires 0 <= i < |calls| => EntryOf(p, gens, calls[i]))
  }

  /** What the predicates generated for a request come back as from a save. */
  function Returned(r: Request, gens: seq<Generator>): PredicateList {
    Reloaded(Generated(r, gens))
  }

  /** Generated lists are never empty, so they come back as what their text tells. */
  lemma KeyIsReturned(p: nat, gens: seq<Generator>, c: Call)
    ensures EntryOf(p, gens, c).Key() == Returned(c.request, gens)
  {
  }

  lemma ReturnedMatchesOwn(g: Engine, r: Request, gens: seq<Generator>)
    ensures MatchesAll(g, Returned(r, gens), r)
  {
    GeneratedMatchesOwn(g, r, gens);
    ReloadedMatches(g, Generated(r, gens), r);
  }

  /** No original stub but the proxy has the predicates generated for a call: they match the call and its own do not. */
  lemma KeysAreNew(g: Engine, stubs: seq<Stub>, p: nat, gens: seq<Generator>, calls: seq<Call>)
    requires Proxies(g, stubs, p, gens, calls)
    ensures forall e :: e in Entries(p, gens, calls) ==> e.index < |stubs| && IsNewKey(stubs, e)
  {
    hide Printed, Generated, MatchesAll, Returned;
    forall i, j | 0 <= i < |calls| && 0 <= j < |stubs| && j != p
      ensures !SamePredicates(stubs[j].predicates, EntryOf(p, gens, calls[i]).predicates)
    {
      KeyIsReturned(p, gens, calls[i]);
      ReturnedMatchesOwn(g, calls[i].request, gens);
      assert stubs[j] in stubs;
    }
  }

  /** While recording, every call is proxied and adds its entry to the groups. */
  lemma {:induction false} RecordingRun(g: Engine, stubs: seq<Stub>, p: nat, gens: seq<Generator>, calls: seq<Call>)
    requires Proxies(g, stubs, p, gens, calls)
    ensures Run(g, Start(stubs), calls).0.stubs == stubs + Groups(Entries(p, gens, calls))
    ensures Run(g, Start(stubs), calls).1 == Upstream(calls)
  {
    hide Serve, Groups, Upstream, Entries, Generated, MatchesAll;
    if calls == [] {
      NoEntries(stubs, p, gens);
    } else {
      var before := calls[..|calls| - 1];
      RecordingRun(g, stubs, p, gens, before);
      RunLast(g, Start(stubs), calls);
      UpstreamLast(calls);
      RecordingNext(g, stubs, p, gens, calls, Run(g, Start(stubs), before).0);
    }
  }

  lemma NoEntries(stubs: seq<Stub>, p: nat, gens: seq<Generator>)
    ensures stubs + Groups(Entries(p, gens, [])) == stubs && Upstream([]) == []
  {
  }

  lemma RecordingNext(g: Engine, stubs: seq<Stub>, p: nat, gens: seq<Generator>, calls: seq<Call>, m: Imposter)
    requires Proxies(g, stubs, p, gens, calls) && calls != [] && |m.counters| == |m.stubs|
    requires m.stubs == stubs + Groups(Entries(p, gens, calls[..|calls| - 1]))
    ensures Serve(g, m, calls[|calls| - 1]).0.stubs == stubs + Groups(Entries(p, gens, calls))
    ensures Serve(g, m, calls[|calls| - 1]).1 == calls[|calls| - 1].upstream
  {
    hide Serve, Recorded, Groups, Generated, FirstMatch, MatchesAll;
    var c := calls[|calls| - 1];
    var log, e := Entries(p, gens, calls[..|calls| - 1]), EntryOf(p, gens, c);
    assert Entries(p, gens, calls) == log + [e] && e in Entries(p, gens, calls);
    KeysAreNew(g, stubs, p, gens, calls);
    GroupOne(stubs, log, e);
    assert m.stubs[p] == stubs[p] && forall j :: 0 <= j < p ==> m.stubs[j] == stubs[j];
    RecordingStep(g, m, p, gens, c);
  }

  lemma RecordingStep(g: Engine, m: Imposter, p: nat, gens: seq<Generator>, c: Call)
    requires p < |m.stubs| == |m.counters|
    requires |m.stubs[p].responses| == 1 && m.stubs[p].responses[0].kind == Proxy(Always, gens)
    requires MatchesAll(g, m.stubs[p].predicates, c.request)
    requires forall j :: 0 <= j < p ==> !MatchesAll(g, m.stubs[j].predicates, c.request)
    ensures var e := EntryOf(p, gens, c);
            Serve(g, m, c).0.stubs == Recorded(m.stubs, p, Always, Stub(e.predicates, [e.response], false)) &&
            Serve(g, m, c).1 == c.upstream
  {
    FirstMatchIs(g, m.stubs, c.request, p);
  }
}
