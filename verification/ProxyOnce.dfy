/** Record-once proxying by concurrent requests: matching happens outside the lock and recording
    inside it, so the position recorded at can be stale. */
module ProxyOnce {
  import opened Requests
  import opened ProxyRecord
  import opened Sequences

  /** A request on its way to the proxied server, with the position of the stub that sent it there. */
  datatype Pending = Pending(request: Request, index: int, mode: Mode, generators: seq<Generator>)

  /** `forwarded` lists the requests sent to a proxied server, `recorded` those whose response has been recorded. */
  datatype State = State(stubs: seq<Stub>, pending: seq<Pending>, forwarded: seq<Request>, recorded: set<Request>)

  /** A request is matched, its answer chosen anywhere in the stub's cycle; a proxied
      response arrives and is recorded; or the proxied server fails. */
  datatype Step = Arrive(request: Request, choice: nat) | Finish(i: nat, value: string) | Fail(i: nat)

  /** What answers a request: a response of the first matching stub, or else of the default. */
  ghost function Answer(g: Engine, stubs: seq<Stub>, default: Kind, r: Request, choice: nat): Kind {
    var i := FirstMatch(g, stubs, r);
    if i == -1 then default
    else if stubs[i].responses == [] then Is("")
    else stubs[i].responses[choice % |stubs[i].responses|].kind
  }

  ghost function Apply(g: Engine, default: Kind, s: State, step: Step): State {
    match step
    case Arrive(r, choice) =>
      var answer := Answer(g, s.stubs, default, r, choice);
      if answer.Proxy? then
        s.(forwarded := s.forwarded + [r],
           pending := s.pending + if answer.mode.Transparent? then []
                                  else [Pending(r, FirstMatch(g, s.stubs, r), answer.mode, answer.generators)])
      else s
    case Finish(i, value) =>
      if i < |s.pending| then
        var p := s.pending[i];
        State(Recorded(s.stubs, p.index, p.mode, NewStub(p.request, value, p.generators)),
              Removed(s.pending, i), s.forwarded, s.recorded + {p.request})
      else s
    case Fail(i) =>
      if i < |s.pending| then s.(pending := Removed(s.pending, i)) else s
  }

  ghost function After(g: Engine, default: Kind, stubs: seq<Stub>, schedule: seq<Step>): State {
    if schedule == [] then State(stubs, [], [], {})
    else Apply(g, default, After(g, default, stubs, schedule[..|schedule| - 1]), schedule[|schedule| - 1])
  }

  /** No answer proxies in the mode that groups responses. */
  predicate NoAlways(stubs: seq<Stub>, default: Kind) {
    && (default.Proxy? ==> default.mode != Always)
    && forall s, response ::
         s in stubs && response in s.responses && response.kind.Proxy? ==> response.kind.mode != Always
  }

  // ---------- The invariant ----------

  /** A stub that recording has put in place: one plain response. */
  predicate IsRecorded(s: Stub) {
    s.generated && |s.responses| == 1 && s.responses[0].kind.Is?
  }

  /** Below `n`, only recorded stubs match the request. */
  ghost predicate OnlyRecordedBelow(g: Engine, stubs: seq<Stub>, r: Request, n: int) {
    forall j :: 0 <= j < n && j < |stubs| && MatchesAll(g, stubs[j].predicates, r) ==> IsRecorded(stubs[j])
  }

  /** The request is answered by a recorded stub. */
  ghost predicate Replayed(g: Engine, stubs: seq<Stub>, r: Request) {
    exists i :: 0 <= i < |stubs| && MatchesAll(g, stubs[i].predicates, r) && OnlyRecordedBelow(g, stubs, r, i + 1)
  }

  ghost predicate PendingIsSafe(g: Engine, stubs: seq<Stub>, p: Pending) {
    p.mode == Once && p.index < |stubs| && OnlyRecordedBelow(g, stubs, p.request, p.index)
  }

  ghost predicate Invariant(g: Engine, default: Kind, s: State) {
    && NoAlways(s.stubs, default)
    && (forall p :: p in s.pending ==> PendingIsSafe(g, s.stubs, p))
    && (forall r :: r in s.recorded ==> Replayed(g, s.stubs, r))
  }

  /** Inserting a recorded stub anywhere keeps what is known about the stubs below a position. */
  lemma InsertKeepsPending(g: Engine, stubs: seq<Stub>, index: int, s: Stub, p: Pending)
    requires IsRecorded(s) && PendingIsSafe(g, stubs, p)
    ensures PendingIsSafe(g, InsertAt(stubs, index, s), p)
  {
  }

  lemma InsertKeepsReplayed(g: Engine, stubs: seq<Stub>, index: int, s: Stub, r: Request)
    requires IsRecorded(s) && Replayed(g, stubs, r)
    ensures Replayed(g, InsertAt(stubs, index, s), r)
  {
    var i :| 0 <= i < |stubs| && MatchesAll(g, stubs[i].predicates, r) && OnlyRecordedBelow(g, stubs, r, i + 1);
    var stubs' := InsertAt(stubs, index, s);
    var i' := if 0 <= index < |stubs| && i < index then i else i + 1;
    assert stubs'[i'] == stubs[i];
    assert OnlyRecordedBelow(g, stubs', r, i' + 1);
  }

  /** The inserted stub answers the request it was recorded for, even at a stale position. */
  lemma InsertReplays(g: Engine, stubs: seq<Stub>, s: Stub, p: Pending)
    requires IsRecorded(s) && MatchesAll(g, s.predicates, p.request) && PendingIsSafe(g, stubs, p)
    ensures Replayed(g, InsertAt(stubs, p.index, s), p.request)
  {
    var stubs' := InsertAt(stubs, p.index, s);
    var i := if 0 <= p.index then p.index else 0;
    assert stubs'[i] == s;
    assert OnlyRecordedBelow(g, stubs', p.request, i + 1);
  }

  lemma InsertKeepsModes(stubs: seq<Stub>, default: Kind, index: int, s: Stub)
    requires NoAlways(stubs, default) && IsRecorded(s)
    ensures NoAlways(InsertAt(stubs, index, s), default)
  {
    forall t | t in InsertAt(stubs, index, s) ensures t == s || t in stubs {}
  }

  lemma FinishKeepsInvariant(g: Engine, default: Kind, s: State, i: nat, value: string)
    requires Invariant(g, default, s) && i < |s.pending|
    ensures Invariant(g, default, Apply(g, default, s, Finish(i, value)))
  {
    var p := s.pending[i];
    var made := NewStub(p.request, value, p.generators).(generated := true);
    assert PendingIsSafe(g, s.stubs, p);
    var s' := Apply(g, default, s, Finish(i, value));
    assert s'.stubs == InsertAt(s.stubs, p.index, made);
    assert forall q :: q in s'.pending ==> q in s.pending;
    GeneratedMatchesOwn(g, p.request, p.generators);
    hide *;
    RecordingKeeps(g, default, s, p, made, s');
  }

  /** A stub recorded for a pending request keeps what is known, and adds that the request is answered by it. */
  lemma RecordingKeeps(g: Engine, default: Kind, s: State, p: Pending, made: Stub, s': State)
    requires Invariant(g, default, s) && p in s.pending && IsRecorded(made) && MatchesAll(g, made.predicates, p.request)
    requires s'.stubs == InsertAt(s.stubs, p.index, made) && s'.recorded == s.recorded + {p.request}
    requires forall q :: q in s'.pending ==> q in s.pending
    ensures Invariant(g, default, s')
  {
    hide InsertAt, MatchesAll, NoAlways, PendingIsSafe, Replayed, IsRecorded;
    InsertReplays(g, s.stubs, made, p);
    InsertKeepsModes(s.stubs, default, p.index, made);
    forall q | q in s'.pending ensures PendingIsSafe(g, s'.stubs, q) {
      InsertKeepsPending(g, s.stubs, p.index, made, q);
    }
    forall r | r in s.recorded ensures Replayed(g, s'.stubs, r) {
      InsertKeepsReplayed(g, s.stubs, p.index, made, r);
    }
  }

  lemma ArriveKeepsInvariant(g: Engine, default: Kind, s: State, r: Request, choice: nat)
    requires Invariant(g, default, s)
    ensures Invariant(g, default, Apply(g, default, s, Arrive(r, choice)))
  {
    var answer, i := Answer(g, s.stubs, default, r, choice), FirstMatch(g, s.stubs, r);
    if answer.Proxy? && !answer.mode.Transparent? {
      if i != -1 {
        assert s.stubs[i].responses[choice % |s.stubs[i].responses|] in s.stubs[i].responses;
      }
      assert PendingIsSafe(g, s.stubs, Pending(r, i, answer.mode, answer.generators));
    }
  }

  lemma {:induction false} InvariantHolds(g: Engine, default: Kind, stubs: seq<Stub>, schedule: seq<Step>)
    requires NoAlways(stubs, default)
    ensures Invariant(g, default, After(g, default, stubs, schedule))
  {
    if schedule != [] {
      var before, last := schedule[..|schedule| - 1], schedule[|schedule| - 1];
      InvariantHolds(g, default, stubs, before);
      var s := After(g, default, stubs, before);
      match last
      case Arrive(r, choice) => ArriveKeepsInvariant(g, default, s, r, choice);
      case Finish(i, value) => if i < |s.pending| { FinishKeepsInvariant(g, default, s, i, value); }
      case Fail(i) =>
    }
  }

  // ---------- What holds under every interleaving ----------

  /** Once a response for a request has been recorded, the request is answered by a
      recorded stub ever after, and never forwarded again. */
  lemma RecordedIsNotForwarded(g: Engine, default: Kind, stubs: seq<Stub>, schedule: seq<Step>, r: Request, choice: nat)
    requires NoAlways(stubs, default)
    requires r in After(g, default, stubs, schedule).recorded
    ensures var s := After(g, default, stubs, schedule);
            var i := FirstMatch(g, s.stubs, r);
            i != -1 && IsRecorded(s.stubs[i]) && Answer(g, s.stubs, default, r, choice).Is? &&
            Apply(g, default, s, Arrive(r, choice)) == s
  {
    InvariantHolds(g, default, stubs, schedule);
    ReplayedAnswer(g, After(g, default, stubs, schedule).stubs, default, r, choice);
  }

  lemma ReplayedAnswer(g: Engine, stubs: seq<Stub>, default: Kind, r: Request, choice: nat)
    requires Replayed(g, stubs, r)
    ensures var i := FirstMatch(g, stubs, r);
            i != -1 && IsRecorded(stubs[i]) && Answer(g, stubs, default, r, choice).Is?
  {
    var i :| 0 <= i < |stubs| && MatchesAll(g, stubs[i].predicates, r) && OnlyRecordedBelow(g, stubs, r, i + 1);
    assert FirstMatch(g, stubs, r) <= i;
  }

  /** Recording can be undone: without the generated stubs, the original ones are left, in their order. */
  lemma {:induction false} ClearingRestores(g: Engine, default: Kind, stubs: seq<Stub>, schedule: seq<Step>)
    requires NoAlways(stubs, default) && forall s :: s in stubs ==> !s.generated
    ensures Cleared(After(g, default, stubs, schedule).stubs) == stubs
  {
    if schedule == [] {
      ClearedKeeps(stubs);
    } else {
      var before, last := schedule[..|schedule| - 1], schedule[|schedule| - 1];
      ClearingRestores(g, default, stubs, before);
      var s := After(g, default, stubs, before);
      if last.Finish? && last.i < |s.pending| {
        var p := s.pending[last.i];
        InvariantHolds(g, default, stubs, before);
        assert PendingIsSafe(g, s.stubs, p);
        ClearedInsert(s.stubs, p.index, NewStub(p.request, last.value, p.generators).(generated := true));
      }
    }
  }

  lemma ClearedInsert(stubs: seq<Stub>, index: int, s: Stub)
    requires s.generated
    ensures Cleared(InsertAt(stubs, index, s)) == Cleared(stubs)
  {
    hide Cleared;
    ClearedOne(s);
    var k := if 0 <= index < |stubs| then index else 0;
    assert stubs == stubs[..k] + stubs[k..];
    assert InsertAt(stubs, index, s) == stubs[..k] + ([s] + stubs[k..]);
    ClearedConcat(stubs[..k], stubs[k..]);
    ClearedConcat([s], stubs[k..]);
    ClearedConcat(stubs[..k], [s] + stubs[k..]);
    assert [] + Cleared(stubs[k..]) == Cleared(stubs[k..]);
  }

  // ---------- One request after the other ----------

  /** One request served to the end: matched, and if proxied then recorded with the response it got. */
  datatype Exchange = Exchange(request: Request, choice: nat, value: string)

  ghost function Serve(g: Engine, default: Kind, s: State, x: Exchange): State {
    var arrived := Apply(g, default, s, Arrive(x.request, x.choice));
    if arrived.pending == [] then arrived else Apply(g, default, arrived, Finish(0, x.value))
  }

  ghost function ServeAll(g: Engine, default: Kind, stubs: seq<Stub>, log: seq<Exchange>): State {
    if log == [] then State(stubs, [], [], {})
    else Serve(g, default, ServeAll(g, default, stubs, log[..|log| - 1]), log[|log| - 1])
  }

  /** Every proxy response records. */
  predicate OnlyOnce(stubs: seq<Stub>, default: Kind) {
    && (default.Proxy? ==> default.mode == Once)
    && forall s, response ::
         s in stubs && response in s.responses && response.kind.Proxy? ==> response.kind.mode == Once
  }

  ghost predicate ServedInvariant(g: Engine, default: Kind, s: State) {
    && Invariant(g, default, s) && OnlyOnce(s.stubs, default) && s.pending == []
    && Distinct(s.forwarded) && forall r :: r in s.forwarded <==> r in s.recorded
  }

  lemma InsertKeepsOnce(stubs: seq<Stub>, default: Kind, index: int, s: Stub)
    requires OnlyOnce(stubs, default) && IsRecorded(s)
    ensures OnlyOnce(InsertAt(stubs, index, s), default)
  {
    forall t | t in InsertAt(stubs, index, s) ensures t == s || t in stubs {}
  }

  lemma AnswerIsOnce(g: Engine, stubs: seq<Stub>, default: Kind, r: Request, choice: nat)
    requires OnlyOnce(stubs, default) && Answer(g, stubs, default, r, choice).Proxy?
    ensures Answer(g, stubs, default, r, choice).mode == Once
  {
    var i := FirstMatch(g, stubs, r);
    if i != -1 {
      assert stubs[i].responses[choice % |stubs[i].responses|] in stubs[i].responses;
    }
  }

  /** A request that is proxied is forwarded and its response recorded. */
  lemma ServeProxied(g: Engine, default: Kind, s: State, x: Exchange)
    requires s.pending == [] && Answer(g, s.stubs, default, x.request, x.choice).Proxy?
    requires Answer(g, s.stubs, default, x.request, x.choice).mode == Once
    ensures var r, i := x.request, FirstMatch(g, s.stubs, x.request);
            var answer := Answer(g, s.stubs, default, r, x.choice);
            var made := NewStub(r, x.value, answer.generators).(generated := true);
            var arrived := Apply(g, default, s, Arrive(r, x.choice));
            arrived.pending == [Pending(r, i, Once, answer.generators)] &&
            Serve(g, default, s, x) == Apply(g, default, arrived, Finish(0, x.value)) &&
            Serve(g, default, s, x) == State(InsertAt(s.stubs, i, made), [], s.forwarded + [r], s.recorded + {r})
  {
    hide Answer, FirstMatch, InsertAt, Generated;
  }

  lemma ServeKeeps(g: Engine, default: Kind, s: State, x: Exchange)
    requires ServedInvariant(g, default, s)
    ensures ServedInvariant(g, default, Serve(g, default, s, x))
  {
    hide Answer, FirstMatch, OnlyOnce, NoAlways, InsertAt, Generated, Invariant, Recorded;
    var r := x.request;
    var answer, i := Answer(g, s.stubs, default, r, x.choice), FirstMatch(g, s.stubs, r);
    if answer.Proxy? {
      NotServedBefore(g, default, s, x);
      AnswerIsOnce(g, s.stubs, default, r, x.choice);
      ArriveKeepsInvariant(g, default, s, r, x.choice);
      ServeProxied(g, default, s, x);
      FinishKeepsInvariant(g, default, Apply(g, default, s, Arrive(r, x.choice)), 0, x.value);
      InsertKeepsOnce(s.stubs, default, i, NewStub(r, x.value, answer.generators).(generated := true));
      hide Apply, Serve;
      DistinctNext(s.forwarded, r);
    }
  }

  lemma NotServedBefore(g: Engine, default: Kind, s: State, x: Exchange)
    requires ServedInvariant(g, default, s) && Answer(g, s.stubs, default, x.request, x.choice).Proxy?
    ensures x.request !in s.recorded
  {
    if x.request in s.recorded {
      ReplayedAnswer(g, s.stubs, default, x.request, x.choice);
      assert false;
    }
  }

  /** Served one after the other, no request is forwarded twice. */
  lemma {:induction false} ForwardedAtMostOnce(g: Engine, default: Kind, stubs: seq<Stub>, log: seq<Exchange>)
    requires OnlyOnce(stubs, default)
    ensures ServedInvariant(g, default, ServeAll(g, default, stubs, log))
    ensures Distinct(ServeAll(g, default, stubs, log).forwarded)
  {
    if log != [] {
      ForwardedAtMostOnce(g, default, stubs, log[..|log| - 1]);
      ServeKeeps(g, default, ServeAll(g, default, stubs, log[..|log| - 1]), log[|log| - 1]);
    }
  }
}
