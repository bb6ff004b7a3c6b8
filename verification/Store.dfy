/** What a repository of imposters does, whatever it keeps them in; and the repository that keeps them in memory. */
module Store {
  import Cycling
  import opened Sequences
  import Slices

  type Response = Cycling.Response<string>

  /** The parts of a stub that both repositories keep; predicates and bodies are texts here. */
  datatype Stub = Stub(predicates: seq<string>, responses: seq<Response>)

  datatype Info = Info(protocol: string, name: string, recordRequests: bool)

  datatype Imposter = Imposter(info: Info, stubs: seq<Stub>)

  /** The imposters by port. */
  type Store = map<int, Imposter>

  datatype Op =
    | Add(port: int, imposter: Imposter)
    | Get(port: int)
    | Delete(port: int)
    | UpdateStubs(port: int, stubs: seq<Stub>)
    | AddStub(port: int, stub: Stub, index: int)
    | DeleteStub(port: int, index: int)

  /** `Failed` is any error of reading but a missing imposter. */
  datatype Outcome =
    | Done
    | Found(imposter: Imposter)
    | Conflict(port: int)
    | NotFound(port: int)
    | InvalidIndex(index: int)
    | Failed

  function Inserted<T>(s: seq<T>, index: int, x: T): seq<T> {
    if 0 <= index < |s| then s[..index] + [x] + s[index..] else s + [x]
  }

  function WithStubs(s: Store, port: int, stubs: seq<Stub>): Store
    requires port in s
  {
    s[port := s[port].(stubs := stubs)]
  }

  /** One operation. A port can be `blocked`: it cannot be added to although there is no imposter on it to be read. */
  function Step(s: Store, blocked: set<int>, op: Op): (Store, Outcome) {
    if op.Add? then
      if op.port in s || op.port in blocked then (s, Conflict(op.port)) else (s[op.port := op.imposter], Done)
    else if op.port !in s then (s, NotFound(op.port))
    else
      var stubs := s[op.port].stubs;
      match op
      case Get(_) => (s, Found(s[op.port]))
      case Delete(_) => (s - {op.port}, Found(s[op.port]))
      case UpdateStubs(_, replacement) => (WithStubs(s, op.port, replacement), Done)
      case AddStub(_, stub, index) => (WithStubs(s, op.port, Inserted(stubs, index, stub)), Done)
      case DeleteStub(_, index) =>
        if 0 <= index < |stubs| then (WithStubs(s, op.port, Removed(stubs, index)), Done) else (s, InvalidIndex(index))
  }

  function Steps(s: Store, blocked: set<int>, ops: seq<Op>): (Store, seq<Outcome>) {
    if ops == [] then (s, [])
    else
      var (before, outcomes) := Steps(s, blocked, ops[..|ops| - 1]);
      var (after, outcome) := Step(before, blocked, ops[|ops| - 1]);
      (after, outcomes + [outcome])
  }

  // ---------- Laws of the operations ----------

  lemma TwoSteps(s: Store, blocked: set<int>, a: Op, b: Op)
    ensures var (middle, first) := Step(s, blocked, a);
            var (end, second) := Step(middle, blocked, b);
            Steps(s, blocked, [a, b]) == (end, [first, second])
  {
    hide Step;
    assert [a, b][..1] == [a] && [a][..0] == [];
    var (middle, first) := Step(s, blocked, a);
    var second := Step(middle, blocked, b).1;
    assert Steps(s, blocked, [a]) == (middle, [] + [first]) && [] + [first] == [first];
    assert [first] + [second] == [first, second];
  }

  /** Replacing is deleting and adding at the same index; that changes just this place, be it the last one. */
  lemma ReplaceChangesOne(s: Store, blocked: set<int>, port: int, index: int, stub: Stub)
    requires port in s && 0 <= index < |s[port].stubs|
    ensures Steps(s, blocked, [DeleteStub(port, index), AddStub(port, stub, index)]) ==
            (WithStubs(s, port, s[port].stubs[index := stub]), [Done, Done])
  {
    hide Steps;
    TwoSteps(s, blocked, DeleteStub(port, index), AddStub(port, stub, index));
    var stubs := Inserted(Removed(s[port].stubs, index), index, stub);
    assert stubs == s[port].stubs[index := stub];
    assert WithStubs(WithStubs(s, port, Removed(s[port].stubs, index)), port, stubs) == WithStubs(s, port, stubs);
  }

  lemma GetGives(s: Store, blocked: set<int>, port: int)
    ensures Step(s, blocked, Get(port)) == (s, if port in s then Found(s[port]) else NotFound(port))
  {
  }

  /** A stub added anywhere can be taken back, and where it went is told by the index alone. */
  lemma AddThenDelete(s: Store, blocked: set<int>, port: int, index: int, stub: Stub)
    requires port in s
    ensures var at := if 0 <= index < |s[port].stubs| then index else |s[port].stubs|;
            Steps(s, blocked, [AddStub(port, stub, index), DeleteStub(port, at)]) == (s, [Done, Done])
  {
    hide Steps;
    var stubs := s[port].stubs;
    var at := if 0 <= index < |stubs| then index else |stubs|;
    TwoSteps(s, blocked, AddStub(port, stub, index), DeleteStub(port, at));
    assert Removed(Inserted(stubs, index, stub), at) == stubs;
    assert WithStubs(WithStubs(s, port, Inserted(stubs, index, stub)), port, stubs) == s;
  }

  /** An operation is about its own port, and no sequence of operations touches a port that none of them is about. */
  lemma {:induction false} OtherPortsStay(s: Store, blocked: set<int>, ops: seq<Op>, port: int)
    requires forall op :: op in ops ==> op.port != port
    ensures var end := Steps(s, blocked, ops).0;
            (port in end <==> port in s) && (port in s ==> end[port] == s[port])
  {
    if ops != [] {
      var n := |ops| - 1;
      assert ops[n] in ops;
      OtherPortsStay(s, blocked, ops[..n], port);
    }
  }

  /** An imposter is on its port from its adding to its deletion, and what is read of it is what was put there. */
  lemma AddReadDelete(s: Store, blocked: set<int>, port: int, imposter: Imposter, stubs: seq<Stub>)
    requires port !in s && port !in blocked
    ensures var changed := Imposter(imposter.info, stubs);
            Steps(s, blocked, [Add(port, imposter), Add(port, changed), Get(port)]).1 ==
            [Done, Conflict(port), Found(imposter)] &&
            Steps(s, blocked, [Add(port, imposter), UpdateStubs(port, stubs), Delete(port), Get(port)]) ==
            (s, [Done, Done, Found(changed), NotFound(port)])
  {
    hide Steps;
    var changed := Imposter(imposter.info, stubs);
    var s1 := s[port := imposter];
    var read, delete := [Add(port, imposter), Add(port, changed)], [Add(port, imposter), UpdateStubs(port, stubs)];
    StepsApart(s, blocked, read, [Get(port)]);
    TwoSteps(s, blocked, Add(port, imposter), Add(port, changed));
    OneStep(s1, blocked, Get(port));
    assert read + [Get(port)] == [Add(port, imposter), Add(port, changed), Get(port)];
    StepsApart(s, blocked, delete, [Delete(port), Get(port)]);
    TwoSteps(s, blocked, Add(port, imposter), UpdateStubs(port, stubs));
    var s2 := WithStubs(s1, port, stubs);
    assert s2[port] == changed && s2 - {port} == s;
    TwoSteps(s2, blocked, Delete(port), Get(port));
    assert [Done, Done] + [Found(changed), NotFound(port)] == [Done, Done, Found(changed), NotFound(port)];
    assert delete + [Delete(port), Get(port)] ==
           [Add(port, imposter), UpdateStubs(port, stubs), Delete(port), Get(port)];
  }

  lemma OneStep(s: Store, blocked: set<int>, op: Op)
    ensures Steps(s, blocked, [op]) == (Step(s, blocked, op).0, [Step(s, blocked, op).1])
  {
    hide Step;
    assert [op][..0] == [];
    assert [] + [Step(s, blocked, op).1] == [Step(s, blocked, op).1];
  }

  lemma {:induction false} StepsApart(s: Store, blocked: set<int>, a: seq<Op>, b: seq<Op>)
    ensures var (middle, first) := Steps(s, blocked, a);
            var (end, second) := Steps(middle, blocked, b);
            Steps(s, blocked, a + b) == (end, first + second)
  {
    hide Step;
    if b == [] {
      assert a + b == a && Steps(s, blocked, a).1 + [] == Steps(s, blocked, a).1;
    } else {
      var n := |b| - 1;
      assert (a + b)[..|a + b| - 1] == a + b[..n] && (a + b)[|a + b| - 1] == b[n];
      StepsApart(s, blocked, a, b[..n]);
      var (middle, first) := Steps(s, blocked, a);
      var (before, second) := Steps(middle, blocked, b[..n]);
      var outcome := Step(before, blocked, b[n]).1;
      assert first + second + [outcome] == first + (second + [outcome]);
    }
  }

  /** Adding the stubs one after the other, each without a valid index. */
  function AddAll(port: int, stubs: seq<Stub>): seq<Op> {
    seq(|stubs|, i requires 0 <= i < |stubs| => AddStub(port, stubs[i], -1))
  }

  lemma StepsLast(s: Store, blocked: set<int>, ops: seq<Op>)
    requires ops != []
    ensures var n := |ops| - 1;
            var (before, outcomes) := Steps(s, blocked, ops[..n]);
            var (after, outcome) := Step(before, blocked, ops[n]);
            Steps(s, blocked, ops) == (after, outcomes + [outcome])
  {
  }

  function Dones(n: nat): seq<Outcome> {
    seq(n, _ => Done)
  }

  /** Stubs added one after the other stand behind the others in this order. */
  lemma {:induction false} AddedInOrder(s: Store, blocked: set<int>, port: int, stubs: seq<Stub>)
    requires port in s
    ensures Steps(s, blocked, AddAll(port, stubs)) == (WithStubs(s, port, s[port].stubs + stubs), Dones(|stubs|))
  {
    var had := s[port].stubs;
    if stubs == [] {
      assert had + stubs == had && WithStubs(s, port, had) == s && Dones(0) == [];
    } else {
      hide Steps;
      var n, ops := |stubs| - 1, AddAll(port, stubs);
      AddedInOrder(s, blocked, port, stubs[..n]);
      assert ops[..n] == AddAll(port, stubs[..n]);
      StepsLast(s, blocked, ops);
      AddedLast(s, blocked, port, had + stubs[..n], stubs[n]);
      assert had + stubs[..n] + [stubs[n]] == had + stubs;
      assert Dones(n) + [Done] == Dones(n + 1);
    }
  }

  lemma AddedLast(s: Store, blocked: set<int>, port: int, stubs: seq<Stub>, stub: Stub)
    requires port in s
    ensures Step(WithStubs(s, port, stubs), blocked, AddStub(port, stub, -1)) ==
            (WithStubs(s, port, stubs + [stub]), Done)
  {
    assert WithStubs(WithStubs(s, port, stubs), port, stubs + [stub]) == WithStubs(s, port, stubs + [stub]);
  }

  /** Stubs deleted at the front one after the other go from there; the others close up. */
  lemma {:induction false} DeletedInOrder(s: Store, blocked: set<int>, port: int, n: nat)
    requires port in s && n <= |s[port].stubs|
    ensures Steps(s, blocked, seq(n, _ => DeleteStub(port, 0))) ==
            (WithStubs(s, port, s[port].stubs[n..]), Dones(n))
  {
    if n == 0 {
      assert s[port].stubs[0..] == s[port].stubs && WithStubs(s, port, s[port].stubs) == s && Dones(0) == [];
    } else {
      hide Steps;
      var ops := seq(n, _ => DeleteStub(port, 0));
      DeletedInOrder(s, blocked, port, n - 1);
      assert ops[..n - 1] == seq(n - 1, _ => DeleteStub(port, 0));
      StepsLast(s, blocked, ops);
      var before, after := s[port].stubs[n - 1..], s[port].stubs[n..];
      assert Removed(before, 0) == after;
      assert WithStubs(WithStubs(s, port, before), port, after) == WithStubs(s, port, after);
      assert Dones(n - 1) + [Done] == Dones(n);
    }
  }

  /** No operation frees a blocked port: adding to it is a conflict, and for all else there is nothing on it. */
  lemma {:induction false} BlockedForGood(s: Store, blocked: set<int>, ops: seq<Op>, port: int)
    requires port in blocked && port !in s
    ensures var (end, outcomes) := Steps(s, blocked, ops);
            port !in end && |outcomes| == |ops| &&
            forall i :: 0 <= i < |ops| && ops[i].port == port ==>
              outcomes[i] == if ops[i].Add? then Conflict(port) else NotFound(port)
  {
    if ops != [] {
      BlockedForGood(s, blocked, ops[..|ops| - 1], port);
    }
  }

  // ---------- In memory ----------

  /** An imposter of the running server; the repository holds a reference to it. */
  class Record {
    const port: int
    const info: Info
    var stubs: seq<Stub>

    constructor (port: int, imposter: Imposter)
      ensures this.port == port && info == imposter.info && stubs == imposter.stubs
    {
      this.port, info, stubs := port, imposter.info, imposter.stubs;
    }
  }

  class InMemory {
    var imposters: map<int, Record>

    /** Every record is kept under its own port, so no record is kept twice. */
    ghost predicate Valid()
      reads this
    {
      forall p :: p in imposters ==> imposters[p].port == p
    }

    ghost function Records(): set<Record>
      reads this
    {
      imposters.Values
    }

    ghost function View(): Store
      reads this, Records()
    {
      map p | p in imposters :: Imposter(imposters[p].info, imposters[p].stubs)
    }

    constructor ()
      ensures Valid() && View() == map[] && Records() == {}
    {
      imposters := map[];
    }

    method Add(imp: Record) returns (r: Outcome)
      requires Valid()
      modifies `imposters
      ensures Valid() && Records() <= old(Records()) + {imp}
      ensures View() == Step(old(View()), {}, Op.Add(imp.port, Imposter(imp.info, imp.stubs))).0
      ensures r == Step(old(View()), {}, Op.Add(imp.port, Imposter(imp.info, imp.stubs))).1
    {
      if imp.port in imposters {
        return Conflict(imp.port);
      }
      imposters := imposters[imp.port := imp];
      assert View() == old(View())[imp.port := Imposter(imp.info, imp.stubs)];
      r := Done;
    }

    method Get(port: int) returns (r: Outcome)
      requires Valid()
      ensures View() == Step(View(), {}, Op.Get(port)).0
      ensures r == Step(View(), {}, Op.Get(port)).1
    {
      if port !in imposters {
        return NotFound(port);
      }
      r := Found(Imposter(imposters[port].info, imposters[port].stubs));
    }

    method Delete(port: int) returns (r: Outcome)
      requires Valid()
      modifies `imposters
      ensures Valid() && Records() <= old(Records())
      ensures View() == Step(old(View()), {}, Op.Delete(port)).0
      ensures r == Step(old(View()), {}, Op.Delete(port)).1
    {
      if port !in imposters {
        return NotFound(port);
      }
      r := Found(Imposter(imposters[port].info, imposters[port].stubs));
      imposters := imposters - {port};
      assert View() == old(View()) - {port};
    }

    method SetStubs(port: int, stubs: seq<Stub>)
      requires Valid() && port in imposters
      modifies imposters[port]
      ensures View() == WithStubs(old(View()), port, stubs)
    {
      imposters[port].stubs := stubs;
      forall p | p in imposters && p != port
        ensures imposters[p].stubs == old(imposters[p].stubs)
      {
        assert imposters[p].port != imposters[port].port;
      }
    }

    method UpdateStubs(port: int, stubs: seq<Stub>) returns (r: Outcome)
      requires Valid()
      modifies Records()
      ensures Valid() && Records() == old(Records())
      ensures View() == Step(old(View()), {}, Op.UpdateStubs(port, stubs)).0
      ensures r == Step(old(View()), {}, Op.UpdateStubs(port, stubs)).1
    {
      if port !in imposters {
        return NotFound(port);
      }
      SetStubs(port, stubs);
      r := Done;
    }

    method AddStub(port: int, stub: Stub, index: int) returns (r: Outcome)
      requires Valid()
      modifies Records()
      ensures Valid() && Records() == old(Records())
      ensures View() == Step(old(View()), {}, Op.AddStub(port, stub, index)).0
      ensures r == Step(old(View()), {}, Op.AddStub(port, stub, index)).1
    {
      if port !in imposters {
        return NotFound(port);
      }
      var imp := imposters[port];
      if index < 0 || index >= |imp.stubs| {
        SetStubs(port, imp.stubs + [stub]);
      } else {
        assert imp.stubs[..index] + ([stub] + imp.stubs[index..]) == Inserted(imp.stubs, index, stub);
        SetStubs(port, imp.stubs[..index] + ([stub] + imp.stubs[index..]));
      }
      r := Done;
    }

    method DeleteStub(port: int, index: int) returns (r: Outcome)
      requires Valid()
      modifies Records()
      ensures Valid() && Records() == old(Records())
      ensures View() == Step(old(View()), {}, Op.DeleteStub(port, index)).0
      ensures r == Step(old(View()), {}, Op.DeleteStub(port, index)).1
    {
      if port !in imposters {
        return NotFound(port);
      }
      var imp := imposters[port];
      if index < 0 || index >= |imp.stubs| {
        return InvalidIndex(index);
      }
      var stubs := Slices.Delete(imp.stubs, index);
      SetStubs(port, stubs);
      r := Done;
    }
  }
}
