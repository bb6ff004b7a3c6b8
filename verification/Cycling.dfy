/** Response cycling with repeats: the sequential contract of `NextResponse`, and the
    expanded order that it walks through. */
module Cycling {

  /** The number of times in a row a response is given: a `repeat` below one counts as one. */
  function Effective(repeat: int): (n: int)
    ensures n >= 1
  {
    if repeat < 1 then 1 else repeat
  }

  /** How many responses the first `n` entries give in one round. */
  function Start(repeats: seq<int>, n: nat): nat
    requires n <= |repeats|
  {
    if n == 0 then 0 else Start(repeats, n - 1) + Effective(repeats[n - 1])
  }

  function Round(repeats: seq<int>): nat {
    Start(repeats, |repeats|)
  }

  function Copies(n: nat, index: nat): seq<nat> {
    seq(n, _ => index)
  }

  /** The expanded order: every index as often in a row as its response repeats. */
  function Expanded(repeats: seq<int>, n: nat): seq<nat>
    requires n <= |repeats|
  {
    if n == 0 then [] else Expanded(repeats, n - 1) + Copies(Effective(repeats[n - 1]), n - 1)
  }

  function Order(repeats: seq<int>): seq<nat> {
    Expanded(repeats, |repeats|)
  }

  /** Entry `Start(i) + c` of the expanded order is `i`, for every copy `c` of response `i`. */
  lemma {:induction false} ExpandedAt(repeats: seq<int>, n: nat, i: nat, c: nat)
    requires i < n <= |repeats| && c < Effective(repeats[i])
    ensures |Expanded(repeats, n)| == Start(repeats, n)
    ensures Start(repeats, i) + c < Start(repeats, n)
    ensures Expanded(repeats, n)[Start(repeats, i) + c] == i
  {
    ExpandedLength(repeats, n);
    ExpandedLength(repeats, n - 1);
    if i < n - 1 {
      ExpandedAt(repeats, n - 1, i, c);
    }
  }

  lemma {:induction false} ExpandedLength(repeats: seq<int>, n: nat)
    requires n <= |repeats|
    ensures |Expanded(repeats, n)| == Start(repeats, n)
    ensures n > 0 ==> Start(repeats, n) > 0
  {
    if n > 0 {
      ExpandedLength(repeats, n - 1);
    }
  }

  lemma {:induction false} CountsEffective(repeats: seq<int>, n: nat, i: nat)
    requires n <= |repeats|
    ensures multiset(Expanded(repeats, n))[i] == if i < n then Effective(repeats[i]) else 0
  {
    if n > 0 {
      hide Effective, Copies;
      var before: seq<nat>, copies: seq<nat> := Expanded(repeats, n - 1), Copies(Effective(repeats[n - 1]), n - 1);
      CountsEffective(repeats, n - 1, i);
      CopiesCount(Effective(repeats[n - 1]), n - 1, i);
      SumCounts(before, copies, i);
    }
  }

  /** One round gives response `i` as often as its `repeat` says, once if that is below one, and nothing else. */
  lemma OrderCounts(repeats: seq<int>, n: nat, i: nat)
    requires n <= |repeats|
    ensures multiset(Expanded(repeats, n))[i] ==
            if i >= n then 0 else if repeats[i] >= 1 then repeats[i] else 1
  {
    hide Expanded;
    CountsEffective(repeats, n, i);
  }

  lemma SumCounts(a: seq<nat>, b: seq<nat>, i: nat)
    ensures multiset(a + b)[i] == multiset(a)[i] + multiset(b)[i]
  {
  }

  lemma {:induction false} CopiesCount(n: nat, index: nat, i: nat)
    ensures multiset(Copies(n, index))[i] == if i == index then n else 0
  {
    if n > 0 {
      CopiesCount(n - 1, index, i);
      assert Copies(n, index) == Copies(n - 1, index) + [index];
    }
  }

  /** A count of calls that ends exactly with the last copy of a response ends where the next response starts. */
  lemma NextPosition(repeats: seq<int>, index: nat, count: nat)
    requires repeats != [] && count < Effective(repeats[index % |repeats|])
    ensures var (index', count') :=
              if count + 1 >= Effective(repeats[index % |repeats|]) then (index + 1, 0) else (index, count + 1);
            count' < Effective(repeats[index' % |repeats|]) &&
            Position(repeats, index', count') == Position(repeats, index, count) + 1
  {
    var n, i := |repeats|, index % |repeats|;
    if count + 1 >= Effective(repeats[i]) {
      DivModNext(index, n);
      if i + 1 == n {
        assert Start(repeats, n) == Start(repeats, i) + Effective(repeats[i]);
        assert (index / n + 1) * Round(repeats) == index / n * Round(repeats) + Round(repeats);
      }
    }
  }

  lemma DivModNext(a: nat, n: nat)
    requires n > 0
    ensures a % n + 1 < n ==> (a + 1) / n == a / n && (a + 1) % n == a % n + 1
    ensures a % n + 1 == n ==> (a + 1) / n == a / n + 1 && (a + 1) % n == 0
  {
    var q, r := a / n, a % n;
    assert a == q * n + r;
    if r + 1 < n {
      DivModUnique(a + 1, n, q, r + 1);
    } else {
      assert a + 1 == (q + 1) * n;
      DivModUnique(a + 1, n, q + 1, 0);
    }
  }

  lemma DivModUnique(a: nat, n: nat, q: nat, r: nat)
    requires n > 0 && r < n && a == q * n + r
    ensures a / n == q && a % n == r
  {
    var d := a / n - q;
    assert d * n == r - a % n;
    assert d > 0 ==> d * n >= n;
    assert d < 0 ==> d * n <= 0 - n;
  }

  lemma WholeRounds(a: int, n: nat, q: nat, r: nat)
    requires n > 0 && r < n && a == q * n + r
    ensures a % n == r
  {
    DivModUnique(a, n, q, r);
  }

  /** The number of calls that lead from fresh counters to these. */
  function Position(repeats: seq<int>, index: nat, count: nat): int
    requires repeats != []
  {
    index / |repeats| * Round(repeats) + Start(repeats, index % |repeats|) + count
  }

  /** The response given at a position is the entry of the expanded order at that position, round after round. */
  lemma PositionGives(repeats: seq<int>, index: nat, count: nat)
    requires repeats != [] && count < Effective(repeats[index % |repeats|])
    ensures |Order(repeats)| == Round(repeats) > 0
    ensures Order(repeats)[Position(repeats, index, count) % |Order(repeats)|] == index % |repeats|
  {
    hide Expanded, Start, Effective;
    var n, i, q := |repeats|, index % |repeats|, index / |repeats|;
    ExpandedLength(repeats, n);
    ExpandedAt(repeats, n, i, count);
    WholeRounds(Position(repeats, index, count), Round(repeats), q, Start(repeats, i) + count);
  }

  /** A response with its `repeat` setting. */
  datatype Response<R> = Response(body: R, repeat: int)

  function Repeats<R>(responses: seq<Response<R>>): seq<int> {
    seq(|responses|, i requires 0 <= i < |responses| => responses[i].repeat)
  }

  /** A stub's responses and the two counters over them. */
  class Stub<R> {
    var responses: seq<Response<R>>
    var responseIndex: int
    var repeatCount: int

    /** Inside the run of copies of one response. */
    ghost predicate Valid()
      reads this
    {
      0 <= responseIndex && 0 <= repeatCount &&
      (responses != [] ==> repeatCount < Effective(responses[responseIndex % |responses|].repeat))
    }

    /** The number of calls answered since the counters were fresh. */
    ghost function Calls(): int
      requires Valid() && responses != []
      reads this
    {
      Position(Repeats(responses), responseIndex, repeatCount)
    }

    constructor (responses: seq<Response<R>>)
      ensures Valid() && this.responses == responses
      ensures responses != [] ==> Calls() == 0
    {
      this.responses := responses;
      responseIndex, repeatCount := 0, 0;
    }

    /** Call number k returns entry k of the expanded order, modulo its length; -1 stands for no response. */
    method NextResponse() returns (index: int)
      requires Valid()
      modifies `responseIndex, `repeatCount
      ensures Valid()
      ensures responses == [] ==> index == -1 && responseIndex == old(responseIndex) && repeatCount == old(repeatCount)
      ensures responses != [] ==>
                var order := Order(Repeats(responses));
                order != [] && index == order[old(Calls()) % |order|] && 0 <= index < |responses| &&
                Calls() == old(Calls()) + 1
    {
      if |responses| == 0 {
        return -1;
      }
      index := responseIndex % |responses|;
      var repeat := responses[index].repeat;
      if repeat == 0 {
        repeat := 1;
      }
      NextPosition(Repeats(responses), responseIndex, repeatCount);
      PositionGives(Repeats(responses), responseIndex, repeatCount);
      repeatCount := repeatCount + 1;
      if repeatCount >= repeat {
        repeatCount := 0;
        responseIndex := responseIndex + 1;
      }
    }
  }

  /** From fresh counters, a run of calls returns the expanded order, over and over. */
  method Drain<R>(responses: seq<Response<R>>, calls: nat) returns (given: seq<int>)
    requires responses != []
    ensures |given| == calls
    ensures var order := Order(Repeats(responses));
            order != [] && forall k :: 0 <= k < calls ==> given[k] == order[k % |order|]
  {
    var stub := new Stub(responses);
    given := [];
    ExpandedLength(Repeats(responses), |responses|);
    for k := 0 to calls
      invariant stub.Valid() && stub.responses == responses && fresh(stub)
      invariant |given| == k == stub.Calls()
      invariant forall j :: 0 <= j < k ==>
                  given[j] == Order(Repeats(responses))[j % |Order(Repeats(responses))|]
    {
      var index := stub.NextResponse();
      given := given + [index];
    }
  }
}
