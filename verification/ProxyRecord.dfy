/** The stubs of an imposter, which of them answers a request, and how a proxied response is recorded among them. */
module ProxyRecord {
  import opened Requests

  /** `Transparent` stands for every mode that records nothing. */
  datatype Mode = Once | Always | Transparent

  datatype Kind = Is(value: string) | Proxy(mode: Mode, generators: seq<Generator>) | OtherKind(id: nat)

  datatype Response = Response(kind: Kind, repeat: int)

  datatype Stub = Stub(predicates: PredicateList, responses: seq<Response>, generated: bool)

  /** The stub a proxy generates for one request and the response it got. */
  function NewStub(r: Request, value: string, gens: seq<Generator>): Stub {
    Stub(Generated(r, gens), [Response(Is(value), 0)], false)
  }

  // ---------- Matching ----------

  /** The position of the first stub from `k` on that matches, or -1. */
  ghost function FirstFrom(g: Engine, stubs: seq<Stub>, r: Request, k: nat): (i: int)
    requires k <= |stubs|
    ensures i == -1 || (k <= i < |stubs| && MatchesAll(g, stubs[i].predicates, r))
    ensures forall j :: k <= j < (if i == -1 then |stubs| else i) ==> !MatchesAll(g, stubs[j].predicates, r)
    decreases |stubs| - k
  {
    if k == |stubs| then -1
    else if MatchesAll(g, stubs[k].predicates, r) then k
    else FirstFrom(g, stubs, r, k + 1)
  }

  ghost function FirstMatch(g: Engine, stubs: seq<Stub>, r: Request): (i: int)
    ensures i == -1 || (0 <= i < |stubs| && MatchesAll(g, stubs[i].predicates, r))
    ensures forall j :: 0 <= j < (if i == -1 then |stubs| else i) ==> !MatchesAll(g, stubs[j].predicates, r)
  {
    FirstFrom(g, stubs, r, 0)
  }

  lemma FirstMatchIs(g: Engine, stubs: seq<Stub>, r: Request, i: nat)
    requires i < |stubs| && MatchesAll(g, stubs[i].predicates, r)
    requires forall j :: 0 <= j < i ==> !MatchesAll(g, stubs[j].predicates, r)
    ensures FirstMatch(g, stubs, r) == i
  {
  }

  // ---------- Recording ----------

  /** In front of the stub that proxied, or first of all when there is none at that position. */
  function InsertAt(stubs: seq<Stub>, index: int, s: Stub): seq<Stub> {
    if 0 <= index < |stubs| then stubs[..index] + [s] + stubs[index..] else [s] + stubs
  }

  /** Predicates are compared by their JSON text. */
  predicate SamePredicates(a: PredicateList, b: PredicateList) {
    Printed(a) == Printed(b)
  }

  /** The first stub other than the proxying one with the same predicates, from `k` on, or -1. */
  function SameFrom(stubs: seq<Stub>, index: int, predicates: PredicateList, k: nat): (i: int)
    requires k <= |stubs|
    ensures i == -1 || (k <= i < |stubs| && i != index && SamePredicates(stubs[i].predicates, predicates))
    ensures forall j ::
              k <= j < (if i == -1 then |stubs| else i) && j != index ==>
                !SamePredicates(stubs[j].predicates, predicates)
    decreases |stubs| - k
  {
    if k == |stubs| then -1
    else if k != index && SamePredicates(stubs[k].predicates, predicates) then k
    else SameFrom(stubs, index, predicates, k + 1)
  }

  /** Onto the stub with the same predicates, or at the end. */
  function GroupInto(stubs: seq<Stub>, index: int, s: Stub): seq<Stub> {
    var i := SameFrom(stubs, index, s.predicates, 0);
    if i == -1 then stubs + [s]
    else stubs[i := stubs[i].(responses := stubs[i].responses + s.responses, generated := true)]
  }

  function Recorded(stubs: seq<Stub>, index: int, mode: Mode, s: Stub): seq<Stub> {
    match mode
    case Once => InsertAt(stubs, index, s.(generated := true))
    case Always => GroupInto(stubs, index, s.(generated := true))
    case Transparent => stubs
  }

  /** The stubs without those a proxy generated or added to. */
  function Cleared(stubs: seq<Stub>): seq<Stub> {
    if stubs == [] then []
    else Cleared(stubs[..|stubs| - 1]) + if stubs[|stubs| - 1].generated then [] else [stubs[|stubs| - 1]]
  }

  lemma {:induction false} ClearedConcat(a: seq<Stub>, b: seq<Stub>)
    ensures Cleared(a + b) == Cleared(a) + Cleared(b)
  {
    if b == [] {
      assert a + b == a;
    } else {
      var n := |b| - 1;
      assert (a + b)[..|a + b| - 1] == a + b[..n] && (a + b)[|a + b| - 1] == b[n];
      ClearedConcat(a, b[..n]);
    }
  }

  lemma {:induction false} ClearedKeeps(stubs: seq<Stub>)
    requires forall s :: s in stubs ==> !s.generated
    ensures Cleared(stubs) == stubs
  {
    if stubs != [] {
      ClearedKeeps(stubs[..|stubs| - 1]);
      assert stubs == stubs[..|stubs| - 1] + [stubs[|stubs| - 1]];
    }
  }

  lemma {:induction false} ClearedDrops(stubs: seq<Stub>)
    requires forall s :: s in stubs ==> s.generated
    ensures Cleared(stubs) == []
  {
    if stubs != [] {
      ClearedDrops(stubs[..|stubs| - 1]);
    }
  }

  lemma ClearedOne(s: Stub)
    ensures Cleared([s]) == if s.generated then [] else [s]
  {
    assert [s][..0] == [];
  }

  /** The stub list of a running imposter. */
  class Server {
    var stubs: seq<Stub>

    constructor (stubs: seq<Stub>)
      ensures this.stubs == stubs
    {
      this.stubs := stubs;
    }

    /** Records a generated stub for the stub at `index` that proxied. */
    method RecordProxyStub(index: int, mode: Mode, newStub: Stub)
      modifies this
      ensures stubs == Recorded(old(stubs), index, mode, newStub)
      ensures mode == Once && 0 <= index < |old(stubs)| ==>
                stubs[..index] == old(stubs)[..index] && stubs[index + 1..] == old(stubs)[index..] &&
                stubs[index] == newStub.(generated := true)
      ensures mode == Transparent ==> stubs == old(stubs)
    {
      var s := newStub.(generated := true);
      match mode
      case Once =>
        if 0 <= index < |stubs| {
          stubs := stubs[..index] + [s] + stubs[index..];
        } else {
          stubs := [s] + stubs;
        }
      case Always =>
        var i := 0;
        while i < |stubs|
          invariant i <= |stubs| && stubs == old(stubs)
          invariant SameFrom(stubs, index, s.predicates, i) == SameFrom(stubs, index, s.predicates, 0)
        {
          if i != index && SamePredicates(stubs[i].predicates, s.predicates) {
            stubs := stubs[i := stubs[i].(responses := stubs[i].responses + s.responses, generated := true)];
            return;
          }
          i := i + 1;
        }
        stubs := stubs + [s];
      case Transparent =>
    }

    /** Keeps the stubs that no proxy generated. */
    method ClearProxyStubs()
      modifies this
      ensures stubs == Cleared(old(stubs))
    {
      var filtered := [];
      for i := 0 to |stubs|
        invariant filtered == Cleared(stubs[..i]) && stubs == old(stubs)
      {
        assert stubs[..i + 1][..i] == stubs[..i];
        if !stubs[i].generated {
          filtered := filtered + [stubs[i]];
        }
      }
      assert stubs[..|stubs|] == stubs;
      stubs := filtered;
    }
  }
}
