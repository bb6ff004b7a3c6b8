/** `NextResponse` called by many requests at once: its atomic operations interleave without a lock. */
module Interleaving {
  import opened Cycling

  /** Where one call stands, with the response it has chosen. A call that must store remembers,
      for the proof only, how many stores had happened when it added. */
  datatype Phase =
    | Loaded(index: int)
    | MustStore(index: int, seen: nat)
    | MustBump(index: int)
    | Done(index: int)

  /** The two shared counters, the number of stores so far (for the proof only), and every call ever started. */
  datatype State = State(responseIndex: nat, repeatCount: nat, stores: nat, calls: seq<Phase>)

  datatype Step = Load | Add(call: nat) | Store(call: nat) | Bump(call: nat)

  /** One atomic operation of one call; a step its call is not ready for does nothing. */
  function Apply(repeats: seq<int>, s: State, step: Step): State
    requires repeats != []
  {
    match step
    case Load =>
      s.(calls := s.calls + [Loaded(s.responseIndex % |repeats|)])
    case Add(i) =>
      if i < |s.calls| && s.calls[i].Loaded? && 0 <= s.calls[i].index < |repeats| then
        var index, count := s.calls[i].index, s.repeatCount + 1;
        s.(repeatCount := count,
           calls := s.calls[i :=
             if count >= Effective(repeats[index]) then MustStore(index, s.stores) else Done(index)])
      else s
    case Store(i) =>
      if i < |s.calls| && s.calls[i].MustStore? then
        s.(repeatCount := 0, stores := s.stores + 1, calls := s.calls[i := MustBump(s.calls[i].index)])
      else s
    case Bump(i) =>
      if i < |s.calls| && s.calls[i].MustBump? then
        s.(responseIndex := s.responseIndex + 1, calls := s.calls[i := Done(s.calls[i].index)])
      else s
  }

  /** The state after a schedule of steps, from fresh counters and no calls. */
  function After(repeats: seq<int>, schedule: seq<Step>): State
    requires repeats != []
  {
    if schedule == [] then State(0, 0, 0, [])
    else Apply(repeats, After(repeats, schedule[..|schedule| - 1]), schedule[|schedule| - 1])
  }

  // ---------- Counting calls by phase ----------

  function Count(calls: seq<Phase>, f: Phase -> bool): nat {
    if calls == [] then 0
    else Count(calls[..|calls| - 1], f) + if f(calls[|calls| - 1]) then 1 else 0
  }

  lemma {:induction false} CountUpdate(calls: seq<Phase>, i: nat, phase: Phase, f: Phase -> bool)
    requires i < |calls|
    ensures Count(calls[i := phase], f) + (if f(calls[i]) then 1 else 0) ==
            Count(calls, f) + (if f(phase) then 1 else 0)
  {
    var n := |calls| - 1;
    if i == n {
      assert calls[i := phase][..n] == calls[..n];
    } else {
      CountUpdate(calls[..n], i, phase, f);
      assert calls[i := phase][..n] == calls[..n][i := phase];
    }
  }

  lemma CountAppend(calls: seq<Phase>, phase: Phase, f: Phase -> bool)
    ensures Count(calls + [phase], f) == Count(calls, f) + if f(phase) then 1 else 0
  {
    assert (calls + [phase])[..|calls|] == calls;
  }

  lemma {:induction false} CountNone(calls: seq<Phase>, f: Phase -> bool)
    requires forall i :: 0 <= i < |calls| ==> !f(calls[i])
    ensures Count(calls, f) == 0
  {
    if calls != [] {
      CountNone(calls[..|calls| - 1], f);
    }
  }

  lemma {:induction false} CountBelow(calls: seq<Phase>, f: Phase -> bool, g: Phase -> bool)
    requires forall p :: f(p) ==> g(p)
    ensures Count(calls, f) <= Count(calls, g)
  {
    if calls != [] {
      CountBelow(calls[..|calls| - 1], f, g);
    }
  }

  const IsLoaded: Phase -> bool := (p: Phase) => p.Loaded?
  const IsPending: Phase -> bool := (p: Phase) => p.MustStore?
  const IsBumping: Phase -> bool := (p: Phase) => p.MustBump?
  const IsDone: Phase -> bool := (p: Phase) => p.Done?

  /** Pending calls that added after the last store. */
  function IsRecent(stores: nat): Phase -> bool {
    (p: Phase) => p.MustStore? && p.seen == stores
  }

  // ---------- The invariant ----------

  /** The largest effective repeat. */
  function MaxRepeat(repeats: seq<int>): (r: int)
    ensures r >= 1
    ensures forall i :: 0 <= i < |repeats| ==> Effective(repeats[i]) <= r
  {
    if repeats == [] then 1
    else
      var rest, last := MaxRepeat(repeats[..|repeats| - 1]), Effective(repeats[|repeats| - 1]);
      if last > rest then last else rest
  }

  /** How many calls have added to the repeat count. */
  function Added(s: State): int {
    |s.calls| - Count(s.calls, IsLoaded)
  }

  /** Bookkeeping about single calls and about the index. */
  ghost predicate IndexInvariant(repeats: seq<int>, s: State) {
    && (forall i :: 0 <= i < |s.calls| ==> 0 <= s.calls[i].index < |repeats|)
    && (forall i :: 0 <= i < |s.calls| && s.calls[i].MustStore? ==> s.calls[i].seen <= s.stores)
    && s.stores == s.responseIndex + Count(s.calls, IsBumping)
    && s.responseIndex <= Count(s.calls, IsDone)
  }

  /** The repeat count exceeds R - 1 only by calls that added since the last store, and every
      store discards at most R adds plus one for each such call. */
  ghost predicate CountInvariant(r: int, s: State) {
    var recent := Count(s.calls, IsRecent(s.stores));
    s.repeatCount <= r - 1 + recent &&
    Added(s) - s.repeatCount <= r * s.stores + Count(s.calls, IsPending) - recent
  }

  lemma IndexStep(repeats: seq<int>, s: State, step: Step)
    requires repeats != [] && IndexInvariant(repeats, s)
    ensures IndexInvariant(repeats, Apply(repeats, s, step))
  {
    var s' := Apply(repeats, s, step);
    if step.Load? {
      var phase := Loaded(s.responseIndex % |repeats|);
      CountAppend(s.calls, phase, IsBumping);
      CountAppend(s.calls, phase, IsDone);
    } else if s' != s {
      CountUpdate(s.calls, step.call, s'.calls[step.call], IsBumping);
      CountUpdate(s.calls, step.call, s'.calls[step.call], IsDone);
    }
  }

  lemma CountStep(repeats: seq<int>, r: int, s: State, step: Step)
    requires repeats != [] && IndexInvariant(repeats, s) && CountInvariant(r, s)
    requires forall i :: 0 <= i < |repeats| ==> Effective(repeats[i]) <= r
    ensures CountInvariant(r, Apply(repeats, s, step))
  {
    var s' := Apply(repeats, s, step);
    var recent := IsRecent(s.stores);
    if step.Load? {
      var phase := Loaded(s.responseIndex % |repeats|);
      CountAppend(s.calls, phase, IsLoaded);
      CountAppend(s.calls, phase, IsPending);
      CountAppend(s.calls, phase, recent);
    } else if s' != s {
      var phase := s'.calls[step.call];
      CountUpdate(s.calls, step.call, phase, IsLoaded);
      CountUpdate(s.calls, step.call, phase, IsPending);
      if step.Store? {
        assert 1 <= Effective(repeats[0]) <= r;
        StoreStep(r, s, s');
      } else {
        CountUpdate(s.calls, step.call, phase, recent);
      }
    }
  }

  /** A store empties the repeat count and makes every pending call one that added before it. */
  lemma StoreStep(r: int, s: State, s': State)
    requires r >= 1 && CountInvariant(r, s)
    requires s'.stores == s.stores + 1 && s'.repeatCount == 0
    requires Added(s') == Added(s) && Count(s'.calls, IsPending) == Count(s.calls, IsPending) - 1
    requires forall i :: 0 <= i < |s'.calls| && s'.calls[i].MustStore? ==> s'.calls[i].seen <= s.stores
    ensures CountInvariant(r, s')
  {
    CountNone(s'.calls, IsRecent(s'.stores));
    RoundUp(r, s.stores);
  }

  lemma RoundUp(r: int, n: nat)
    ensures r * (n + 1) == r * n + r
  {
  }

  lemma {:induction false} InvariantHolds(repeats: seq<int>, schedule: seq<Step>)
    requires repeats != []
    ensures IndexInvariant(repeats, After(repeats, schedule))
    ensures CountInvariant(MaxRepeat(repeats), After(repeats, schedule))
  {
    if schedule != [] {
      var before := schedule[..|schedule| - 1];
      InvariantHolds(repeats, before);
      IndexStep(repeats, After(repeats, before), schedule[|schedule| - 1]);
      CountStep(repeats, MaxRepeat(repeats), After(repeats, before), schedule[|schedule| - 1]);
    }
  }

  // ---------- What holds under every interleaving ----------

  /** Every call chooses an existing response, and the repeat count stays below R plus the calls between add and
      store. */
  lemma AlwaysInRange(repeats: seq<int>, schedule: seq<Step>)
    requires repeats != []
    ensures var s := After(repeats, schedule);
            (forall i :: 0 <= i < |s.calls| ==> 0 <= s.calls[i].index < |repeats|) &&
            s.repeatCount <= MaxRepeat(repeats) - 1 + Count(s.calls, IsPending)
  {
    InvariantHolds(repeats, schedule);
    var s := After(repeats, schedule);
    CountBelow(s.calls, IsRecent(s.stores), IsPending);
  }

  predicate Quiet(s: State) {
    forall i :: 0 <= i < |s.calls| ==> s.calls[i].Done?
  }

  /** When no call is in progress, the index has advanced at most once a call and at least once every R calls. */
  lemma AdvancesWithCalls(repeats: seq<int>, schedule: seq<Step>)
    requires repeats != []
    requires Quiet(After(repeats, schedule))
    ensures var s, r := After(repeats, schedule), MaxRepeat(repeats);
            s.responseIndex <= |s.calls| <= r * s.responseIndex + (r - 1)
  {
    InvariantHolds(repeats, schedule);
    QuietBounds(repeats, MaxRepeat(repeats), After(repeats, schedule));
  }

  lemma QuietBounds(repeats: seq<int>, r: int, s: State)
    requires Quiet(s) && IndexInvariant(repeats, s) && CountInvariant(r, s)
    ensures s.responseIndex <= |s.calls| <= r * s.responseIndex + (r - 1)
  {
    QuietCounts(s);
    assert s.stores == s.responseIndex;
  }

  lemma QuietCounts(s: State)
    requires Quiet(s)
    ensures Count(s.calls, IsLoaded) == Count(s.calls, IsPending) == Count(s.calls, IsBumping) == 0
    ensures Count(s.calls, IsRecent(s.stores)) == 0 && Count(s.calls, IsDone) <= |s.calls|
  {
    var recent := IsRecent(s.stores);
    assert forall p: Phase :: p.Done? ==> !IsLoaded(p) && !IsPending(p) && !IsBumping(p) && !recent(p);
    CountNone(s.calls, IsLoaded);
    CountNone(s.calls, IsPending);
    CountNone(s.calls, IsBumping);
    CountNone(s.calls, recent);
    CountAtMost(s.calls, IsDone);
  }

  lemma {:induction false} CountAtMost(calls: seq<Phase>, f: Phase -> bool)
    ensures Count(calls, f) <= |calls|
  {
    if calls != [] {
      CountAtMost(calls[..|calls| - 1], f);
    }
  }

  /** Undisturbed, the steps of one call move the counters as the sequential method does. */
  lemma UndisturbedCall(repeats: seq<int>, s: State)
    requires repeats != [] && s.repeatCount < Effective(repeats[s.responseIndex % |repeats|])
    ensures var i := |s.calls|;
            var added := Apply(repeats, Apply(repeats, s, Load), Add(i));
            var s' := Apply(repeats, Apply(repeats, added, Store(i)), Bump(i));
            s'.calls == s.calls + [Done(s.responseIndex % |repeats|)] &&
            s'.repeatCount < Effective(repeats[s'.responseIndex % |repeats|]) &&
            Position(repeats, s'.responseIndex, s'.repeatCount) == Position(repeats, s.responseIndex, s.repeatCount) + 1
  {
    NextPosition(repeats, s.responseIndex, s.repeatCount);
  }

  // ---------- When the expanded order is kept ----------

  /** No call starts while another is in progress. */
  ghost predicate OneAtATime(repeats: seq<int>, schedule: seq<Step>)
    requires repeats != []
  {
    forall k :: 0 <= k < |schedule| && schedule[k] == Load ==> Quiet(After(repeats, schedule[..k]))
  }

  /** The response that the expanded order has for call `i`. */
  function InOrder(repeats: seq<int>, i: nat): int
    requires repeats != []
  {
    ExpandedLength(repeats, |repeats|);
    Order(repeats)[i % |Order(repeats)|]
  }

  /** All calls have been given their response in order. */
  ghost predicate AllInOrder(repeats: seq<int>, calls: seq<Phase>)
    requires repeats != []
  {
    forall i :: 0 <= i < |calls| ==> calls[i].index == InOrder(repeats, i)
  }

  /** The sequential counters after `n` calls. */
  predicate Settled(repeats: seq<int>, index: nat, count: nat, n: int)
    requires repeats != []
  {
    count < Effective(repeats[index % |repeats|]) && Position(repeats, index, count) == n
  }

  /** Where the counters stand when at most the last call is in progress. */
  predicate LastInProgress(repeats: seq<int>, s: State)
    requires repeats != []
  {
    var n, at := |s.calls|, s.responseIndex % |repeats|;
    (forall i :: 0 <= i < n - 1 ==> s.calls[i].Done?) &&
    if n == 0 || s.calls[n - 1].Done? then Settled(repeats, s.responseIndex, s.repeatCount, n)
    else
      s.calls[n - 1].index == at &&
      if s.calls[n - 1].Loaded? then Settled(repeats, s.responseIndex, s.repeatCount, n - 1)
      else
        Settled(repeats, s.responseIndex, Effective(repeats[at]) - 1, n - 1) &&
        (s.calls[n - 1].MustBump? ==> s.repeatCount == 0)
  }

  /** The next call to start gets the next response of the order. */
  lemma LoadInOrder(repeats: seq<int>, s: State)
    requires repeats != [] && LastInProgress(repeats, s) && Quiet(s) && AllInOrder(repeats, s.calls)
    ensures var s' := Apply(repeats, s, Load);
            LastInProgress(repeats, s') && AllInOrder(repeats, s'.calls)
  {
    PositionGives(repeats, s.responseIndex, s.repeatCount);
  }

  lemma StepInProgress(repeats: seq<int>, s: State, step: Step)
    requires repeats != [] && LastInProgress(repeats, s) && step != Load
    ensures LastInProgress(repeats, Apply(repeats, s, step))
  {
    var n := |s.calls|;
    var s' := Apply(repeats, s, step);
    if s' != s {
      assert step.call == n - 1;
      var at := s.responseIndex % |repeats|;
      if step.Bump? {
        NextPosition(repeats, s.responseIndex, Effective(repeats[at]) - 1);
      } else if step.Add? {
        NextPosition(repeats, s.responseIndex, s.repeatCount);
      }
    }
  }

  lemma StepKeepsOrder(repeats: seq<int>, s: State, step: Step)
    requires repeats != [] && step != Load
    ensures |Apply(repeats, s, step).calls| == |s.calls|
    ensures forall i :: 0 <= i < |s.calls| ==> Apply(repeats, s, step).calls[i].index == s.calls[i].index
  {
  }

  lemma NothingInProgress(repeats: seq<int>)
    requires repeats != []
    ensures LastInProgress(repeats, After(repeats, [])) && AllInOrder(repeats, After(repeats, []).calls)
  {
    assert Position(repeats, 0, 0) == 0;
  }

  lemma OneAtATimeBefore(repeats: seq<int>, schedule: seq<Step>)
    requires repeats != [] && OneAtATime(repeats, schedule) && schedule != []
    ensures var n := |schedule| - 1;
            OneAtATime(repeats, schedule[..n]) && (schedule[n] == Load ==> Quiet(After(repeats, schedule[..n]))) &&
            After(repeats, schedule) == Apply(repeats, After(repeats, schedule[..n]), schedule[n])
  {
    hide Apply, Quiet;
    var n := |schedule| - 1;
    assert forall k :: 0 <= k < n ==> schedule[..n][k] == schedule[k] && schedule[..n][..k] == schedule[..k];
  }

  lemma {:induction false} InOrderSoFar(repeats: seq<int>, schedule: seq<Step>)
    requires repeats != [] && OneAtATime(repeats, schedule)
    ensures LastInProgress(repeats, After(repeats, schedule)) && AllInOrder(repeats, After(repeats, schedule).calls)
  {
    hide LastInProgress, Apply, InOrder, Quiet, After, OneAtATime;
    if schedule == [] {
      NothingInProgress(repeats);
    } else {
      var n := |schedule| - 1;
      OneAtATimeBefore(repeats, schedule);
      InOrderSoFar(repeats, schedule[..n]);
      var s := After(repeats, schedule[..n]);
      if schedule[n] == Load {
        LoadInOrder(repeats, s);
      } else {
        StepInProgress(repeats, s, schedule[n]);
        StepKeepsOrder(repeats, s, schedule[n]);
      }
    }
  }

  /** Calls that do not overlap get the expanded order, over and over. */
  lemma OneAtATimeKeepsOrder(repeats: seq<int>, schedule: seq<Step>)
    requires repeats != [] && OneAtATime(repeats, schedule)
    ensures AllInOrder(repeats, After(repeats, schedule).calls)
  {
    InOrderSoFar(repeats, schedule);
  }

  function Loads(n: nat): (steps: seq<Step>)
    ensures |steps| == n
  {
    if n == 0 then [] else Loads(n - 1) + [Load]
  }

  lemma AfterOne(repeats: seq<int>, schedule: seq<Step>, step: Step)
    requires repeats != []
    ensures After(repeats, schedule + [step]) == Apply(repeats, After(repeats, schedule), step)
  {
    hide Apply;
    assert (schedule + [step])[..|schedule|] == schedule;
  }

  lemma {:induction false} LoadedTogether(repeats: seq<int>, n: nat)
    requires repeats != []
    ensures var s := After(repeats, Loads(n));
            s.responseIndex == 0 && |s.calls| == n && forall i :: 0 <= i < n ==> s.calls[i].index == 0
  {
    hide *;
    LoadsFrom(repeats, n);
    if n > 0 {
      LoadedTogether(repeats, n - 1);
      AfterOne(repeats, Loads(n - 1), Load);
      LoadAtStart(repeats, After(repeats, Loads(n - 1)));
    }
  }

  lemma LoadsFrom(repeats: seq<int>, n: nat)
    requires repeats != []
    ensures if n == 0 then After(repeats, Loads(n)) == State(0, 0, 0, []) else Loads(n) == Loads(n - 1) + [Load]
  {
  }

  lemma LoadAtStart(repeats: seq<int>, s: State)
    requires repeats != [] && s.responseIndex == 0
    ensures Apply(repeats, s, Load) == s.(calls := s.calls + [Loaded(0)])
  {
  }

  /** A call that has chosen sticks to its choice, whatever follows. */
  lemma {:induction false} ChoicesStay(repeats: seq<int>, schedule: seq<Step>, n: nat)
    requires repeats != [] && n <= |schedule|
    ensures var before, after := After(repeats, schedule[..n]).calls, After(repeats, schedule).calls;
            |before| <= |after| && forall i :: 0 <= i < |before| ==> after[i].index == before[i].index
    decreases |schedule|
  {
    if n == |schedule| {
      assert schedule[..n] == schedule;
    } else {
      var m := |schedule| - 1;
      assert schedule[..m][..n] == schedule[..n];
      ChoicesStay(repeats, schedule[..m], n);
      if schedule[m] != Load {
        StepKeepsOrder(repeats, After(repeats, schedule[..m]), schedule[m]);
      }
    }
  }

  /** The first copies in the order are those of the first response, the next entry is not. */
  lemma OrderStarts(repeats: seq<int>, i: nat)
    requires repeats != []
    ensures |repeats| == 1 || i < Effective(repeats[0]) ==> InOrder(repeats, i) == 0
    ensures |repeats| > 1 && i == Effective(repeats[0]) ==> InOrder(repeats, i) == 1
  {
    var n := |repeats|;
    ExpandedLength(repeats, n);
    var length := |Order(repeats)|;
    if n == 1 {
      ExpandedAt(repeats, n, 0, i % length);
    } else if i < Effective(repeats[0]) {
      ExpandedAt(repeats, n, 0, i);
      DivModUnique(i, length, 0, i);
    } else if i == Effective(repeats[0]) {
      ExpandedAt(repeats, n, 1, 0);
      DivModUnique(i, length, 0, i);
    }
  }

  ghost predicate StartsWithZeros(repeats: seq<int>, n: nat)
    requires repeats != []
  {
    forall i :: 0 <= i < n ==> InOrder(repeats, i) == 0
  }

  lemma ZerosExactlyWhen(repeats: seq<int>, n: nat)
    requires repeats != []
    ensures StartsWithZeros(repeats, n) <==> |repeats| == 1 || n <= Effective(repeats[0])
  {
    hide InOrder;
    forall i | 0 <= i < n ensures |repeats| == 1 || i < Effective(repeats[0]) ==> InOrder(repeats, i) == 0 {
      OrderStarts(repeats, i);
    }
    OrderStarts(repeats, Effective(repeats[0]));
  }

  /** Calls that all start before any of them counts get the first response, every one of them; and that is
      what the order has for them exactly when there is no other response or no more of them than the first repeats. */
  lemma TogetherKeepsOrderExactlyWhen(repeats: seq<int>, schedule: seq<Step>, n: nat)
    requires repeats != [] && n <= |schedule| && schedule[..n] == Loads(n)
    ensures var calls := After(repeats, schedule).calls;
            n <= |calls| && (forall i :: 0 <= i < n ==> calls[i].index == 0) &&
            (AllInOrder(repeats, calls[..n]) <==> |repeats| == 1 || n <= Effective(repeats[0]))
  {
    hide InOrder, After, Loads, Effective;
    LoadedTogether(repeats, n);
    ChoicesStay(repeats, schedule, n);
    ZerosExactlyWhen(repeats, n);
    var calls := After(repeats, schedule).calls[..n];
    assert forall i :: 0 <= i < n ==> calls[i].index == 0;
  }
}
