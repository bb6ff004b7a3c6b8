/** Record, save without proxies, replay: the replayed imposter answers as the recording one did. */
module ProxyReplay {
  import opened Requests
  import opened ProxyRecord
  import opened ProxyAlways
  import opened ProxySession
  import opened Sequences
  import Cycling
  import JsonTree

  // ---------- Replaying ----------

  /** How many calls have a key. */
  function Uses(log: seq<Entry>, key: PredicateList): nat {
    |ResponsesOf(log, key)|
  }

  /** The response recorded by entry `i` is found among those of its key after the ones recorded earlier. */
  lemma {:induction false} ResponseAt(log: seq<Entry>, i: nat)
    requires i < |log|
    ensures Uses(log[..i], log[i].Key()) < Uses(log, log[i].Key())
    ensures ResponsesOf(log, log[i].Key())[Uses(log[..i], log[i].Key())] == log[i].response
    decreases |log|
  {
    var n := |log| - 1;
    if i < n {
      assert log[..n][..i] == log[..i];
      ResponseAt(log[..n], i);
    }
  }

  /** Whenever the predicates generated for call `j`, once saved, match call `i` too, those of `i` itself had come up
      by then. */
  ghost predicate OwnComesFirst(g: Engine, gens: seq<Generator>, calls: seq<Call>) {
    forall i, j ::
      (0 <= i < |calls| && 0 <= j < |calls| && MatchesAll(g, Returned(calls[j].request, gens), calls[i].request)) ==>
        SeenBy(gens, calls, i, j)
  }

  predicate SeenBy(gens: seq<Generator>, calls: seq<Call>, i: nat, j: nat)
    requires i < |calls| && j < |calls|
  {
    exists k :: 0 <= k <= j && Returned(calls[k].request, gens) == Returned(calls[i].request, gens)
  }

  /** A group as it comes back from a save. */
  function SavedGroup(log: seq<Entry>, key: PredicateList): Stub {
    Stub(key, ResponsesOf(log, key), false)
  }

  function SavedGroups(log: seq<Entry>): seq<Stub> {
    seq(|KeysOf(log)|, i requires 0 <= i < |KeysOf(log)| => SavedGroup(log, KeysOf(log)[i]))
  }

  /** Single responses under generated predicates: such a list is never an empty one. */
  predicate PlainEntries(log: seq<Entry>) {
    forall e :: e in log ==> e.response.kind.Is? && e.response.repeat == 0 && e.predicates != List([])
  }

  lemma {:induction false} ResponsesArePlain(log: seq<Entry>, key: PredicateList)
    requires PlainEntries(log)
    ensures forall r :: r in ResponsesOf(log, key) ==> r.kind.Is? && r.repeat == 0
    ensures key in KeysOf(log) ==> ResponsesOf(log, key) != []
  {
    if log != [] {
      assert log[|log| - 1] in log;
      ResponsesArePlain(log[..|log| - 1], key);
    }
  }

  lemma {:induction false} FirstWithIsEntry(log: seq<Entry>, key: PredicateList) returns (i: nat)
    requires key in KeysOf(log)
    ensures i < |log| && log[i].predicates == FirstWith(log, key) && log[i].Key() == key
  {
    i := |log| - 1;
    if key in KeysOf(log[..i]) {
      i := FirstWithIsEntry(log[..i], key);
    }
  }

  /** A group comes back with its key for predicates, and all of its responses. */
  lemma GroupReloads(log: seq<Entry>, i: nat)
    requires PlainEntries(log) && i < |KeysOf(log)|
    ensures var s := Groups(log)[i];
            NonProxy(s.responses) == s.responses != [] &&
            Stub(Reloaded(s.predicates), s.responses, false) == SavedGroup(log, KeysOf(log)[i])
  {
    hide KeysOf, FirstWith, ResponsesOf, NonProxy, Printed;
    var key := KeysOf(log)[i];
    var j := FirstWithIsEntry(log, key);
    assert log[j] in log;
    ResponsesArePlain(log, key);
    NonProxyKeeps(ResponsesOf(log, key));
  }

  /** Saving keeps the groups, and of the original stubs those with something to say. */
  lemma SavedRecording(stubs: seq<Stub>, log: seq<Entry>)
    requires PlainEntries(log)
    ensures Saved(stubs + Groups(log)) == Saved(stubs) + SavedGroups(log)
  {
    hide Saved, KeysOf, NonProxy, PlainEntries, Reloaded, SavedGroup, Group;
    SavedConcat(stubs, Groups(log));
    forall i | 0 <= i < |Groups(log)| ensures ReloadsAs(Groups(log)[i], SavedGroups(log)[i]) {
      GroupReloads(log, i);
    }
    SavedPlain(Groups(log), SavedGroups(log));
  }

  predicate ReloadsAs(s: Stub, t: Stub) {
    NonProxy(s.responses) == s.responses != [] && t == Stub(Reloaded(s.predicates), s.responses, false)
  }

  lemma SavedLast(stubs: seq<Stub>, s: Stub, t: Stub)
    requires ReloadsAs(s, t)
    ensures Saved(stubs + [s]) == Saved(stubs) + [t]
  {
    hide Reloaded, NonProxy;
    assert (stubs + [s])[..|stubs|] == stubs;
  }

  lemma {:induction false} SavedPlain(stubs: seq<Stub>, saved: seq<Stub>)
    requires |stubs| == |saved| && forall i :: 0 <= i < |stubs| ==> ReloadsAs(stubs[i], saved[i])
    ensures Saved(stubs) == saved
  {
    if stubs != [] {
      hide Saved, ReloadsAs;
      var n := |stubs| - 1;
      SavedPlain(stubs[..n], saved[..n]);
      SavedLast(stubs[..n], stubs[n], saved[n]);
      assert stubs == stubs[..n] + [stubs[n]] && saved == saved[..n] + [saved[n]];
    }
  }

  predicate SameModulo(a: nat, b: nat, n: nat) {
    n > 0 && Slot(a, n) == Slot(b, n)
  }

  lemma NextModulo(a: nat, b: nat, n: nat)
    requires SameModulo(a, b, n)
    ensures SameModulo(a + 1, b + 1, n)
  {
    Cycling.DivModNext(a, n);
    Cycling.DivModNext(b, n);
  }

  lemma SmallModulo(a: nat, b: nat, n: nat)
    requires SameModulo(a, b, n) && b < n
    ensures Slot(a, n) == b
  {
    Cycling.DivModUnique(b, n, 0, b);
  }

  /** A counter is as far as the `done` first entries of the log of its key, modulo the number of all of them. */
  predicate CounterInStep(at: Counter, log: seq<Entry>, done: nat, key: PredicateList)
    requires done <= |log|
  {
    at.count == 0 && SameModulo(at.index, Uses(log[..done], key), Uses(log, key))
  }

  ghost predicate InStep(m: Imposter, saved: seq<Stub>, log: seq<Entry>, done: nat) {
    && done <= |log|
    && m.stubs == saved + SavedGroups(log) && |m.counters| == |m.stubs|
    && forall i :: 0 <= i < |KeysOf(log)| ==> CounterInStep(m.counters[|saved| + i], log, done, KeysOf(log)[i])
  }

  ghost predicate NoneMatch(g: Engine, stubs: seq<Stub>, r: Request) {
    forall j :: 0 <= j < |stubs| ==> !MatchesAll(g, stubs[j].predicates, r)
  }

  /** The group of its own key is the first to match a request. */
  ghost predicate Answers(g: Engine, log: seq<Entry>, e: Entry, r: Request) {
    && MatchesAll(g, e.Key(), r)
    && forall i, j :: 0 <= j < i < |KeysOf(log)| && KeysOf(log)[i] == e.Key() ==> !MatchesAll(g, KeysOf(log)[j], r)
  }

  lemma AnsweringGroup(g: Engine, saved: seq<Stub>, log: seq<Entry>, e: Entry, i: nat, r: Request)
    requires NoneMatch(g, saved, r) && Answers(g, log, e, r) && i < |KeysOf(log)| && KeysOf(log)[i] == e.Key()
    ensures FirstMatch(g, saved + SavedGroups(log), r) == |saved| + i
  {
    hide KeysOf, ResponsesOf, MatchesAll, FirstMatch;
    var stubs, ks, n := saved + SavedGroups(log), KeysOf(log), |saved|;
    forall j | 0 <= j < n + i ensures !MatchesAll(g, stubs[j].predicates, r) {
      assert j >= n ==> stubs[j].predicates == ks[j - n];
    }
    FirstMatchIs(g, stubs, r, n + i);
  }

  /** Serving a plain response that does not repeat moves on to the next one. */
  lemma ServePlain(g: Engine, m: Imposter, c: Call, i: nat, value: string)
    requires |m.counters| == |m.stubs| && i < |m.stubs| && FirstMatch(g, m.stubs, c.request) == i
    requires m.stubs[i].responses != [] && m.counters[i].count == 0
    requires m.stubs[i].responses[Slot(m.counters[i].index, |m.stubs[i].responses|)] == Response(Is(value), 0)
    ensures Serve(g, m, c) == (Imposter(m.stubs, m.counters[i := Counter(m.counters[i].index + 1, 0)]), value)
  {
    hide FirstMatch, Slot;
  }

  /** The group of an entry stands at the place of its key. */
  lemma GroupStub(saved: seq<Stub>, log: seq<Entry>, i: nat)
    requires i < |KeysOf(log)|
    ensures |saved| + i < |saved + SavedGroups(log)|
    ensures (saved + SavedGroups(log))[|saved| + i] == SavedGroup(log, KeysOf(log)[i])
  {
  }

  /** A counter in step points at the response recorded for the entry whose turn it is. */
  lemma CounterPoints(at: Counter, log: seq<Entry>, done: nat)
    requires done < |log| && CounterInStep(at, log, done, log[done].Key())
    ensures Uses(log, log[done].Key()) > 0
    ensures ResponsesOf(log, log[done].Key())[Slot(at.index, Uses(log, log[done].Key()))] == log[done].response
  {
    ResponseAt(log, done);
    SmallModulo(at.index, Uses(log[..done], log[done].Key()), Uses(log, log[done].Key()));
  }

  /** A call is answered by the group of its key, with the response recorded for it. */
  lemma ReplayAnswer(g: Engine, m: Imposter, saved: seq<Stub>, log: seq<Entry>, done: nat, i: nat, c: Call)
    requires InStep(m, saved, log, done) && done < |log| && log[done].response == Response(Is(c.upstream), 0)
    requires NoneMatch(g, saved, c.request) && Answers(g, log, log[done], c.request)
    requires i < |KeysOf(log)| && KeysOf(log)[i] == log[done].Key()
    ensures var at := m.counters[|saved| + i];
            Serve(g, m, c) == (Imposter(m.stubs, m.counters[|saved| + i := Counter(at.index + 1, 0)]), c.upstream)
  {
    hide SameModulo, Slot, FirstMatch, ResponsesOf, KeysOf, Serve, Answers, NoneMatch;
    var at := m.counters[|saved| + i];
    assert CounterInStep(at, log, done, log[done].Key());
    AnsweringGroup(g, saved, log, log[done], i, c.request);
    GroupStub(saved, log, i);
    CounterPoints(at, log, done);
    ServePlain(g, m, c, |saved| + i, c.upstream);
  }

  lemma UsesNext(log: seq<Entry>, done: nat, key: PredicateList)
    requires done < |log|
    ensures Uses(log[..done + 1], key) == Uses(log[..done], key) + if log[done].Key() == key then 1 else 0
  {
    assert log[..done + 1][..done] == log[..done];
  }

  lemma ReplayCounters(m: Imposter, saved: seq<Stub>, log: seq<Entry>, done: nat, i: nat)
    requires InStep(m, saved, log, done) && done < |log|
    requires i < |KeysOf(log)| && KeysOf(log)[i] == log[done].Key()
    ensures var at := m.counters[|saved| + i];
            InStep(Imposter(m.stubs, m.counters[|saved| + i := Counter(at.index + 1, 0)]), saved, log, done + 1)
  {
    hide SameModulo, Uses;
    var ks, at := KeysOf(log), m.counters[|saved| + i];
    hide KeysOf;
    var m' := Imposter(m.stubs, m.counters[|saved| + i := Counter(at.index + 1, 0)]);
    forall j | 0 <= j < |ks|
      ensures CounterInStep(m'.counters[|saved| + j], log, done + 1, ks[j])
    {
      assert CounterInStep(m.counters[|saved| + j], log, done, ks[j]);
      assert j != i ==> ks[j] != ks[i];
      UsesNext(log, done, ks[j]);
      if j == i {
        NextModulo(at.index, Uses(log[..done], ks[j]), Uses(log, ks[j]));
      }
    }
  }

  lemma ReplayStep(g: Engine, m: Imposter, saved: seq<Stub>, log: seq<Entry>, done: nat, c: Call)
    requires InStep(m, saved, log, done) && done < |log| && log[done].response == Response(Is(c.upstream), 0)
    requires NoneMatch(g, saved, c.request) && Answers(g, log, log[done], c.request)
    ensures InStep(Serve(g, m, c).0, saved, log, done + 1)
    ensures Serve(g, m, c).1 == c.upstream
  {
    assert log[done] in log;
    var i :| 0 <= i < |KeysOf(log)| && KeysOf(log)[i] == log[done].Key();
    ReplayAnswer(g, m, saved, log, done, i, c);
    ReplayCounters(m, saved, log, done, i);
  }

  /** The log of some calls, none of them matched by what is saved besides the groups. */
  ghost predicate LogOf(g: Engine, saved: seq<Stub>, log: seq<Entry>, calls: seq<Call>) {
    && |calls| == |log|
    && forall i :: 0 <= i < |log| ==>
         NoneMatch(g, saved, calls[i].request) && log[i].response == Response(Is(calls[i].upstream), 0)
  }

  lemma LogAt(g: Engine, saved: seq<Stub>, log: seq<Entry>, calls: seq<Call>, i: nat)
    requires LogOf(g, saved, log, calls) && i < |calls|
    ensures |log| == |calls| && NoneMatch(g, saved, calls[i].request)
    ensures log[i].response == Response(Is(calls[i].upstream), 0)
  {
  }

  ghost predicate AllAnswered(g: Engine, log: seq<Entry>, calls: seq<Call>, done: nat)
    requires done <= |calls| == |log|
  {
    forall i :: 0 <= i < done ==> Answers(g, log, log[i], calls[i].request)
  }

  lemma RunNext(g: Engine, m: Imposter, calls: seq<Call>, done: nat)
    requires |m.counters| == |m.stubs| && done < |calls|
    ensures var (before, values) := Run(g, m, calls[..done]);
            var (after, value) := Serve(g, before, calls[done]);
            Run(g, m, calls[..done + 1]) == (after, values + [value])
    ensures Upstream(calls[..done + 1]) == Upstream(calls[..done]) + [calls[done].upstream]
  {
    hide Run, Serve;
    var now := calls[..done + 1];
    assert now[..done] == calls[..done];
    RunLast(g, m, now);
  }

  /** One pass over the log: every call gets the value it recorded. */
  lemma {:induction false} ReplayPass(g: Engine, m: Imposter, saved: seq<Stub>, log: seq<Entry>,
                                      calls: seq<Call>, done: nat)
    requires |m.counters| == |m.stubs| && InStep(m, saved, log, 0) && LogOf(g, saved, log, calls)
    requires done <= |calls| == |log| && AllAnswered(g, log, calls, done)
    ensures InStep(Run(g, m, calls[..done]).0, saved, log, done)
    ensures Run(g, m, calls[..done]).1 == Upstream(calls[..done])
  {
    hide Serve, InStep, Answers, LogOf;
    if done == 0 {
      assert calls[..0] == [] && Upstream([]) == [];
    } else {
      hide Run, Upstream;
      ReplayPass(g, m, saved, log, calls, done - 1);
      RunNext(g, m, calls, done - 1);
      LogAt(g, saved, log, calls, done - 1);
      ReplayStep(g, Run(g, m, calls[..done - 1]).0, saved, log, done - 1, calls[done - 1]);
    }
  }

  // ---------- When a replay goes wrong ----------

  predicate DistinctAnswers(calls: seq<Call>) {
    forall i, j :: 0 <= i < j < |calls| ==> calls[i].upstream != calls[j].upstream
  }

  lemma {:induction false} ResponseHasEntry(log: seq<Entry>, key: PredicateList, n: nat) returns (i: nat)
    requires n < |ResponsesOf(log, key)|
    ensures i < |log| && log[i].Key() == key && log[i].response == ResponsesOf(log, key)[n]
  {
    i := |log| - 1;
    if n < |ResponsesOf(log[..i], key)| {
      i := ResponseHasEntry(log[..i], key, n);
    }
  }

  /** A request that an earlier group matches gets the value of another call. */
  lemma WrongGroup(g: Engine, m: Imposter, saved: seq<Stub>, log: seq<Entry>, calls: seq<Call>, done: nat)
    requires |m.counters| == |m.stubs| && InStep(m, saved, log, done) && PlainEntries(log)
    requires LogOf(g, saved, log, calls) && DistinctAnswers(calls) && done < |calls|
    requires MatchesAll(g, log[done].Key(), calls[done].request) && !Answers(g, log, log[done], calls[done].request)
    ensures Serve(g, m, calls[done]).1 != calls[done].upstream
  {
    hide MatchesAll, FirstMatch, ResponsesOf, KeysOf, Serve, PlainEntries, Uses, SameModulo, Slot;
    var c, ks, n := calls[done], KeysOf(log), |saved|;
    var i, j :| 0 <= j < i < |ks| && ks[i] == log[done].Key() && MatchesAll(g, ks[j], c.request);
    var at := FirstMatch(g, m.stubs, c.request);
    GroupStub(saved, log, j);
    assert n <= at <= n + j;
    GroupStub(saved, log, at - n);
    assert ks[at - n] != log[done].Key();
    assert CounterInStep(m.counters[at], log, done, ks[at - n]);
    hide InStep, CounterInStep, SavedGroups;
    OtherValue(log, calls, ks[at - n], done, m.counters[at].index);
    var value := m.stubs[at].responses[Slot(m.counters[at].index, |m.stubs[at].responses|)].kind.value;
    ServePlain(g, m, c, at, value);
  }

  /** The responses of another key are those of other calls. */
  lemma OtherValue(log: seq<Entry>, calls: seq<Call>, key: PredicateList, done: nat, index: nat)
    requires PlainEntries(log) && DistinctAnswers(calls) && done < |calls| == |log|
    requires forall i :: 0 <= i < |log| ==> log[i].response == Response(Is(calls[i].upstream), 0)
    requires key in KeysOf(log) && key != log[done].Key()
    ensures var responses := ResponsesOf(log, key);
            responses != [] &&
            exists v :: v != calls[done].upstream && responses[Slot(index, |responses|)] == Response(Is(v), 0)
  {
    hide ResponsesOf, KeysOf, PlainEntries, Slot;
    ResponsesArePlain(log, key);
    var k := ResponseHasEntry(log, key, Slot(index, |ResponsesOf(log, key)|));
    assert calls[k].upstream != calls[done].upstream;
  }

  /** A pass in which every call gets its own value shows that every call is answered by its own group. */
  lemma {:induction false} ReplayTells(g: Engine, m: Imposter, saved: seq<Stub>, log: seq<Entry>,
                                       calls: seq<Call>, done: nat)
    requires |m.counters| == |m.stubs| && InStep(m, saved, log, 0) && PlainEntries(log)
    requires LogOf(g, saved, log, calls) && DistinctAnswers(calls) && done <= |calls| == |log|
    requires forall i :: 0 <= i < |log| ==> MatchesAll(g, log[i].Key(), calls[i].request)
    requires Run(g, m, calls[..done]).1 == Upstream(calls[..done])
    ensures AllAnswered(g, log, calls, done)
  {
    if done > 0 {
      hide Serve, InStep, Answers, LogOf, Run, Upstream, MatchesAll, PlainEntries, DistinctAnswers;
      RunNext(g, m, calls, done - 1);
      var (before, values) := Run(g, m, calls[..done - 1]);
      var value, c := Serve(g, before, calls[done - 1]).1, calls[done - 1];
      LastEqual(values, value, Upstream(calls[..done - 1]), c.upstream);
      ReplayTells(g, m, saved, log, calls, done - 1);
      ReplayPass(g, m, saved, log, calls, done - 1);
      if !Answers(g, log, log[done - 1], c.request) {
        WrongGroup(g, before, saved, log, calls, done - 1);
      }
    }
  }

  lemma LastEqual<T>(a: seq<T>, x: T, b: seq<T>, y: T)
    requires a + [x] == b + [y]
    ensures a == b && x == y
  {
    assert (a + [x])[..|a|] == a && (b + [y])[..|b|] == b;
    assert |a + [x]| == |b + [y]|;
    assert (a + [x])[|a|] == x && (b + [y])[|b|] == y;
  }

  /** One more entry keeps the keys that have come up, and adds its own at most. */
  lemma KeysNext(log: seq<Entry>, n: nat, a: nat)
    requires n < |log| && a < |KeysOf(log[..n + 1])|
    ensures if a < |KeysOf(log[..n])| then KeysOf(log[..n + 1])[a] == KeysOf(log[..n])[a]
            else KeysOf(log[..n + 1])[a] == log[n].Key() && |KeysOf(log[..n + 1])| == a + 1
  {
    assert log[..n + 1][..n] == log[..n];
  }

  lemma NoKeys(log: seq<Entry>)
    ensures KeysOf(log[..0]) == []
  {
  }

  /** The first entry of a key, and how many keys have come up by then. */
  lemma {:induction false} FirstEntry(log: seq<Entry>, n: nat, a: nat) returns (j: nat)
    requires n <= |log| && a < |KeysOf(log[..n])|
    ensures j < n && log[j].Key() == KeysOf(log[..n])[a] && |KeysOf(log[..j + 1])| == a + 1
  {
    hide *;
    NoKeys(log);
    KeysNext(log, n - 1, a);
    j := n - 1;
    if a < |KeysOf(log[..n - 1])| {
      j := FirstEntry(log, n - 1, a);
    }
  }

  lemma {:induction false} KeysGrow(log: seq<Entry>, n: nat)
    requires n <= |log|
    ensures KeysOf(log[..n]) <= KeysOf(log)
    decreases |log|
  {
    if n < |log| {
      KeysGrow(log[..|log| - 1], n);
      assert log[..|log| - 1][..n] == log[..n];
    } else {
      assert log[..n] == log;
    }
  }

  lemma {:induction false} KeyHasEntry(log: seq<Entry>, key: PredicateList) returns (i: nat)
    requires key in KeysOf(log)
    ensures i < |log| && log[i].Key() == key
  {
    i := |log| - 1;
    if log[i].Key() != key {
      i := KeyHasEntry(log[..i], key);
    }
  }

  lemma RecordingIsLog(g: Engine, stubs: seq<Stub>, p: nat, gens: seq<Generator>, calls: seq<Call>)
    requires Proxies(g, stubs, p, gens, calls)
    ensures var log := Entries(p, gens, calls);
            LogOf(g, Saved(stubs), log, calls) &&
            forall i :: 0 <= i < |log| ==> MatchesAll(g, log[i].Key(), calls[i].request)
  {
    hide Returned, Generated, Printed, MatchesAll, Saved;
    forall i | 0 <= i < |calls|
      ensures NoneMatch(g, Saved(stubs), calls[i].request)
      ensures MatchesAll(g, Returned(calls[i].request, gens), calls[i].request)
    {
      SavedDoNotMatch(g, stubs, p, gens, calls, i);
      ReturnedMatchesOwn(g, calls[i].request, gens);
    }
    KeysReturned(p, gens, calls);
  }

  lemma KeysReturned(p: nat, gens: seq<Generator>, calls: seq<Call>)
    ensures forall i :: 0 <= i < |calls| ==> Entries(p, gens, calls)[i].Key() == Returned(calls[i].request, gens)
  {
    forall i | 0 <= i < |calls| ensures Entries(p, gens, calls)[i].Key() == Returned(calls[i].request, gens) {
      KeyIsReturned(p, gens, calls[i]);
    }
  }

  /** A call is answered by its own group exactly if no key that comes up before its own matches it. */
  lemma AnsweredByOwn(g: Engine, p: nat, gens: seq<Generator>, calls: seq<Call>)
    requires forall i :: 0 <= i < |calls| ==> MatchesAll(g, Returned(calls[i].request, gens), calls[i].request)
    ensures AllAnswered(g, Entries(p, gens, calls), calls, |calls|) <==> OwnComesFirst(g, gens, calls)
  {
    hide Returned, Generated, Printed, MatchesAll, KeysOf;
    KeysReturned(p, gens, calls);
    var log := Entries(p, gens, calls);
    var ks := KeysOf(log);
    if OwnComesFirst(g, gens, calls) {
      forall i, a, b | 0 <= i < |log| && 0 <= a < b < |ks| && ks[b] == log[i].Key()
        ensures !MatchesAll(g, ks[a], calls[i].request)
      {
        var j := NotSeenBefore(p, gens, calls, i, a, b);
      }
    } else {
      var i, j :| 0 <= i < |calls| && 0 <= j < |calls| &&
                  MatchesAll(g, Returned(calls[j].request, gens), calls[i].request) && !SeenBy(gens, calls, i, j);
      NotAnswered(g, p, gens, calls, i, j);
    }
  }

  lemma NotSeenBefore(p: nat, gens: seq<Generator>, calls: seq<Call>, i: nat, a: nat, b: nat) returns (j: nat)
    requires i < |calls| && a < b < |KeysOf(Entries(p, gens, calls))|
    requires KeysOf(Entries(p, gens, calls))[b] == Returned(calls[i].request, gens)
    ensures j < |calls| && Returned(calls[j].request, gens) == KeysOf(Entries(p, gens, calls))[a]
    ensures !SeenBy(gens, calls, i, j)
  {
    hide Returned, Generated, Printed, KeysOf;
    KeysReturned(p, gens, calls);
    var log := Entries(p, gens, calls);
    var ks := KeysOf(log);
    assert log[..|log|] == log;
    j := FirstEntry(log, |log|, a);
    KeysGrow(log, j + 1);
    assert KeysOf(log[..j + 1]) == ks[..a + 1];
    assert ks[b] !in ks[..a + 1];
    forall k | 0 <= k <= j ensures Returned(calls[k].request, gens) != ks[b] {
      assert log[..j + 1][k].Key() == Returned(calls[k].request, gens);
      assert log[..j + 1][k] in log[..j + 1];
    }
  }

  lemma NotAnswered(g: Engine, p: nat, gens: seq<Generator>, calls: seq<Call>, i: nat, j: nat)
    requires i < |calls| && j < |calls| && !SeenBy(gens, calls, i, j)
    requires MatchesAll(g, Returned(calls[j].request, gens), calls[i].request)
    ensures !Answers(g, Entries(p, gens, calls), Entries(p, gens, calls)[i], calls[i].request)
  {
    hide Returned, Generated, Printed, MatchesAll, KeysOf;
    KeysReturned(p, gens, calls);
    var log := Entries(p, gens, calls);
    var ks, early := KeysOf(log), KeysOf(log[..j + 1]);
    KeysGrow(log, j + 1);
    assert log[j] in log[..j + 1] && log[i] in log;
    var a :| 0 <= a < |early| && early[a] == log[j].Key();
    var b :| 0 <= b < |ks| && ks[b] == log[i].Key();
    forall x | 0 <= x < |early| ensures early[x] != log[i].Key() {
      var k := KeyHasEntry(log[..j + 1], early[x]);
      assert log[k].Key() == Returned(calls[k].request, gens);
    }
    assert ks[a] == log[j].Key();
  }

  /** The proxy is not saved, so nothing saved from the original stubs matches a recorded call. */
  lemma SavedDoNotMatch(g: Engine, stubs: seq<Stub>, p: nat, gens: seq<Generator>, calls: seq<Call>, i: nat)
    requires Proxies(g, stubs, p, gens, calls) && i < |calls|
    ensures NoneMatch(g, Saved(stubs), calls[i].request)
  {
    hide MatchesAll, Saved, Reloaded, Printed;
    assert NonProxy(stubs[p].responses) == [];
    forall j | 0 <= j < |Saved(stubs)| ensures !MatchesAll(g, Saved(stubs)[j].predicates, calls[i].request) {
      var j' := SavedFrom(stubs, j);
      assert j' != p && stubs[j'] in stubs;
      ReloadedStays(g, stubs[j'].predicates, calls[i].request);
    }
  }

  /** Fresh counters are in step with the beginning of any log. */
  lemma StartsInStep(saved: seq<Stub>, log: seq<Entry>)
    requires PlainEntries(log)
    ensures InStep(Start(saved + SavedGroups(log)), saved, log, 0)
  {
    hide ResponsesOf, KeysOf, PlainEntries;
    var m := Start(saved + SavedGroups(log));
    forall i | 0 <= i < |KeysOf(log)| ensures CounterInStep(m.counters[|saved| + i], log, 0, KeysOf(log)[i]) {
      ResponsesArePlain(log, KeysOf(log)[i]);
      NoUses(log, KeysOf(log)[i]);
    }
  }

  lemma NoUses(log: seq<Entry>, key: PredicateList)
    ensures Uses(log[..0], key) == 0
  {
  }

  /** After a whole pass every counter is back at the beginning of its group. */
  lemma PassReturns(m: Imposter, saved: seq<Stub>, log: seq<Entry>)
    requires InStep(m, saved, log, |log|)
    ensures InStep(m, saved, log, 0)
  {
    hide ResponsesOf, KeysOf, Slot;
    forall i | 0 <= i < |KeysOf(log)| ensures CounterInStep(m.counters[|saved| + i], log, 0, KeysOf(log)[i]) {
      var key := KeysOf(log)[i];
      GroupStub(saved, log, i);
      assert log[..|log|] == log;
      assert CounterInStep(m.counters[|saved| + i], log, |log|, key);
      NoUses(log, key);
      WholeSlot(Uses(log, key));
    }
  }

  lemma WholeSlot(n: nat)
    requires n > 0
    ensures Slot(n, n) == Slot(0, n)
  {
  }

  function Passes<T>(s: seq<T>, n: nat): seq<T> {
    if n == 0 then [] else Passes(s, n - 1) + s
  }

  lemma {:induction false} RunConcat(g: Engine, m: Imposter, a: seq<Call>, b: seq<Call>)
    requires |m.counters| == |m.stubs|
    ensures var (middle, first) := Run(g, m, a);
            var (end, second) := Run(g, middle, b);
            Run(g, m, a + b) == (end, first + second)
  {
    hide Serve;
    if b == [] {
      var first := Run(g, m, a).1;
      assert a + b == a && first + [] == first;
    } else {
      var n := |b| - 1;
      assert (a + b)[..|a + b| - 1] == a + b[..n] && (a + b)[|a + b| - 1] == b[n];
      RunConcat(g, m, a, b[..n]);
      RunLast(g, m, a + b);
      var (middle, first) := Run(g, m, a);
      RunLast(g, middle, b);
      hide Run;
      var (before, second) := Run(g, middle, b[..n]);
      var value := Serve(g, before, b[n]).1;
      assert first + second + [value] == first + (second + [value]);
    }
  }

  lemma WholePass(g: Engine, m: Imposter, saved: seq<Stub>, log: seq<Entry>, calls: seq<Call>)
    requires |m.counters| == |m.stubs| && InStep(m, saved, log, 0) && LogOf(g, saved, log, calls)
    requires |calls| == |log| && AllAnswered(g, log, calls, |calls|)
    ensures InStep(Run(g, m, calls).0, saved, log, 0) && Run(g, m, calls).1 == Upstream(calls)
  {
    hide *;
    ReplayPass(g, m, saved, log, calls, |calls|);
    assert calls[..|calls|] == calls;
    PassReturns(Run(g, m, calls).0, saved, log);
  }

  lemma NoPasses(g: Engine, m: Imposter, calls: seq<Call>)
    requires |m.counters| == |m.stubs|
    ensures Run(g, m, Passes(calls, 0)) == (m, Passes(Upstream(calls), 0))
  {
  }

  lemma PassesNext<T>(s: seq<T>, n: nat)
    requires n > 0
    ensures Passes(s, n) == Passes(s, n - 1) + s
  {
  }

  lemma {:induction false} ReplayPasses(g: Engine, m: Imposter, saved: seq<Stub>, log: seq<Entry>,
                                        calls: seq<Call>, n: nat)
    requires |m.counters| == |m.stubs| && InStep(m, saved, log, 0) && LogOf(g, saved, log, calls)
    requires |calls| == |log| && AllAnswered(g, log, calls, |calls|)
    ensures InStep(Run(g, m, Passes(calls, n)).0, saved, log, 0)
    ensures Run(g, m, Passes(calls, n)).1 == Passes(Upstream(calls), n)
  {
    hide *;
    if n == 0 {
      NoPasses(g, m, calls);
    } else {
      ReplayPasses(g, m, saved, log, calls, n - 1);
      PassesNext(calls, n);
      PassesNext(Upstream(calls), n);
      RunConcat(g, m, Passes(calls, n - 1), calls);
      WholePass(g, Run(g, m, Passes(calls, n - 1)).0, saved, log, calls);
    }
  }

  /** What is saved from a recording, loaded with fresh counters. */
  ghost function Replayer(g: Engine, stubs: seq<Stub>, calls: seq<Call>): (m: Imposter)
    ensures |m.counters| == |m.stubs|
  {
    Start(Saved(Run(g, Start(stubs), calls).0.stubs))
  }

  lemma ReplayerReady(g: Engine, stubs: seq<Stub>, p: nat, gens: seq<Generator>, calls: seq<Call>)
    requires Proxies(g, stubs, p, gens, calls)
    ensures InStep(Replayer(g, stubs, calls), Saved(stubs), Entries(p, gens, calls), 0)
    ensures PlainEntries(Entries(p, gens, calls))
    ensures Run(g, Start(stubs), calls).1 == Upstream(calls)
  {
    hide Run, Saved, Proxies, InStep, Upstream;
    var log := Entries(p, gens, calls);
    RecordingRun(g, stubs, p, gens, calls);
    assert PlainEntries(log);
    SavedRecording(stubs, log);
    StartsInStep(Saved(stubs), log);
  }

  /** Record, save without proxies, load with fresh counters: replaying the recorded calls, any number
      of times over, gives each the value it was given while recording. */
  lemma RecordThenReplay(g: Engine, stubs: seq<Stub>, p: nat, gens: seq<Generator>, calls: seq<Call>, n: nat)
    requires Proxies(g, stubs, p, gens, calls) && OwnComesFirst(g, gens, calls)
    ensures Run(g, Replayer(g, stubs, calls), Passes(calls, n)).1 == Passes(Run(g, Start(stubs), calls).1, n)
  {
    hide Run, Replayer, Saved, Proxies, OwnComesFirst, LogOf, InStep, Upstream, Passes, AllAnswered;
    RecordingIsLog(g, stubs, p, gens, calls);
    ReplayerReady(g, stubs, p, gens, calls);
    AnsweredByOwn(g, p, gens, calls);
    ReplayPasses(g, Replayer(g, stubs, calls), Saved(stubs), Entries(p, gens, calls), calls, n);
  }

  /** The condition is exact: if no two calls were given the same value, a replay that gives every one its
      own is possible only under it. */
  lemma ReplayExactlyWhen(g: Engine, stubs: seq<Stub>, p: nat, gens: seq<Generator>, calls: seq<Call>)
    requires Proxies(g, stubs, p, gens, calls) && DistinctAnswers(calls)
    ensures Run(g, Replayer(g, stubs, calls), calls).1 == Run(g, Start(stubs), calls).1 <==>
            OwnComesFirst(g, gens, calls)
  {
    hide Run, Replayer, Saved, Proxies, OwnComesFirst, LogOf, InStep, Upstream;
    hide AllAnswered, DistinctAnswers, PlainEntries;
    var m, log := Replayer(g, stubs, calls), Entries(p, gens, calls);
    RecordingIsLog(g, stubs, p, gens, calls);
    ReplayerReady(g, stubs, p, gens, calls);
    AnsweredByOwn(g, p, gens, calls);
    assert calls[..|calls|] == calls;
    if OwnComesFirst(g, gens, calls) {
      ReplayPass(g, m, Saved(stubs), log, calls, |calls|);
    } else if Run(g, m, calls).1 == Upstream(calls) {
      ReplayTells(g, m, Saved(stubs), log, calls, |calls|);
    }
  }

  // ---------- What saving forgets ----------

  /** Generate predicates that keep the whole query. */
  const WHOLE_QUERY := [Generator(JsonTree.Some(map["query" := Flag(true)]), false)]

  lemma QueryGenerated(r: Request)
    ensures Generated(r, WHOLE_QUERY) == List([Equals(map["query" := WholeMap(r.query)], false)])
    ensures Returned(r, WHOLE_QUERY) == List([Equals(map["query" := SomeKeys(r.query)], false)])
  {
    var kept, made := KeptFields(r, map["query" := Flag(true)]), Equals(map["query" := WholeMap(r.query)], false);
    assert Lower("query") == "query";
    assert kept == map["query" := WholeMap(r.query)] && "query" in kept;
    assert GeneratedBy(r, WHOLE_QUERY[0]) == [made];
    assert WHOLE_QUERY[..0] == [] && GeneratedByAll(r, WHOLE_QUERY) == [] + [made] == [made];
    assert JsonPredicate(made) == Equals(map["query" := SomeKeys(r.query)], false);
    assert Printed(List([made])) == List([JsonPredicate(made)]);
  }

  /** A single condition on the query is all there is to match. */
  lemma QueryAlone(g: Engine, expected: Expected, r: Request)
    ensures MatchesAll(g, List([Equals(map["query" := expected], false)]), r) <==>
            SameField(g, Fields(r.query), expected, false)
  {
    hide SameField;
    var fields := map["query" := expected];
    assert Lower("query") == "query" && FieldOf(r, "query") == Fields(r.query) && "query" in fields;
    assert Matches(g, Equals(fields, false), r) <==> SameField(g, Fields(r.query), expected, false);
    assert [Equals(fields, false)][0] == Equals(fields, false);
  }

  /** In memory a whole query matches only queries with as many keys; once saved it matches all that have its keys. */
  lemma QueryMatches(g: Engine, r: Request, other: Request)
    ensures MatchesAll(g, Generated(r, WHOLE_QUERY), other) <==>
            |other.query| == |r.query| && HasKeys(g, other.query, r.query, false)
    ensures MatchesAll(g, Returned(r, WHOLE_QUERY), other) <==> HasKeys(g, other.query, r.query, false)
  {
    QueryGenerated(r);
    hide HasKeys, Generated, Returned, MatchesAll;
    QueryAlone(g, WholeMap(r.query), other);
    QueryAlone(g, SomeKeys(r.query), other);
  }

  /** Although in memory the predicates of neither call match the other, a call whose query takes in the query of
      the one before it replays wrongly. */
  lemma LargerQueryReplaysWrongly(g: Engine, first: Call, second: Call)
    requires HasKeys(g, second.request.query, first.request.query, false)
    requires |second.request.query| != |first.request.query| && first.upstream != second.upstream
    ensures var stubs, calls := [Stub(Nil, [Response(Proxy(Always, WHOLE_QUERY), 0)], false)], [first, second];
            Proxies(g, stubs, 0, WHOLE_QUERY, calls) &&
            !MatchesAll(g, Generated(first.request, WHOLE_QUERY), second.request) &&
            !MatchesAll(g, Generated(second.request, WHOLE_QUERY), first.request) &&
            Run(g, Replayer(g, stubs, calls), calls).1 != Run(g, Start(stubs), calls).1
  {
    hide HasKeys, Generated, Returned, Run, Replayer, Start;
    var stubs, calls := [Stub(Nil, [Response(Proxy(Always, WHOLE_QUERY), 0)], false)], [first, second];
    QueryMatches(g, first.request, second.request);
    QueryMatches(g, second.request, first.request);
    assert !SeenBy(WHOLE_QUERY, calls, 1, 0) by {
      QueryGenerated(first.request);
      QueryGenerated(second.request);
      assert map["query" := SomeKeys(first.request.query)]["query"] !=
             map["query" := SomeKeys(second.request.query)]["query"];
    }
    ReplayExactlyWhen(g, stubs, 0, WHOLE_QUERY, calls);
  }
}
