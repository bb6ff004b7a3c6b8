/** Either repository behind one interface, and the handler that replaces a stub through it. */
module Repositories {
  import opened Store
  import DiskCrashes
  import DiskOperations
  import DiskView
  import Filesystem

  method PerformInMemory(m: InMemory, op: Op) returns (r: Outcome)
    requires m.Valid()
    modifies m, m.Records()
    ensures m.Valid() && fresh(m.Records() - old(m.Records()))
    ensures m.View() == Step(old(m.View()), {}, op).0 && r == Step(old(m.View()), {}, op).1
  {
    match op
    case Add(port, imposter) =>
      var record := new Record(port, imposter);
      r := m.Add(record);
    case Get(port) => r := m.Get(port);
    case Delete(port) => r := m.Delete(port);
    case UpdateStubs(port, stubs) => r := m.UpdateStubs(port, stubs);
    case AddStub(port, stub, index) => r := m.AddStub(port, stub, index);
    case DeleteStub(port, index) => r := m.DeleteStub(port, index);
  }

  method PerformOnDisk(f: Filesystem.Repository, op: Op) returns (r: Outcome)
    requires f.Valid() && DiskCrashes.NothingBroken(f.disk)
    modifies f
    ensures f.Valid() && DiskCrashes.NothingBroken(f.disk)
    ensures DiskView.View(f.disk) == Step(old(DiskView.View(f.disk)), old(DiskView.Blocked(f.disk)), op).0
    ensures r == Step(old(DiskView.View(f.disk)), old(DiskView.Blocked(f.disk)), op).1
    ensures DiskView.Blocked(f.disk) == old(DiskView.Blocked(f.disk))
  {
    DiskOperations.SoundPort(f.disk, op.port);
    match op {
      case Add(port, imposter) => r := f.Add(port, imposter);
      case Get(port) => r := f.Get(port);
      case Delete(port) => r := f.Delete(port);
      case UpdateStubs(port, stubs) => r := f.UpdateStubs(port, stubs);
      case AddStub(port, stub, index) => r := f.AddStub(port, stub, index);
      case DeleteStub(port, index) => r := f.DeleteStub(port, index);
    }
    DiskCrashes.NothingBreaksElsewhere(old(f.disk), f.disk, op.port);
  }

  datatype Repo = Memory(memory: InMemory) | Files(files: Filesystem.Repository) {

    ghost function Root(): set<object> {
      if Memory? then {memory} else {files}
    }

    ghost function Footprint(): set<object>
      reads Root()
    {
      if Memory? then {memory} + memory.Records() else {files}
    }

    ghost predicate Valid()
      reads Root()
    {
      if Memory? then memory.Valid() else files.Valid() && DiskCrashes.NothingBroken(files.disk)
    }

    ghost function View(): Store
      reads Footprint()
    {
      if Memory? then memory.View() else DiskView.View(files.disk)
    }

    /** Ports on which a crash has left a directory and no imposter. */
    ghost function Blocked(): set<int>
      reads Root()
    {
      if Memory? then {} else DiskView.Blocked(files.disk)
    }

    method Perform(op: Op) returns (r: Outcome)
      requires Valid()
      modifies Footprint()
      ensures Valid() && fresh(Footprint() - old(Footprint()))
      ensures View() == Step(old(View()), old(Blocked()), op).0 && Blocked() == old(Blocked())
      ensures r == Step(old(View()), old(Blocked()), op).1
    {
      hide Step;
      match this
      case Memory(m) => r := PerformInMemory(m, op);
      case Files(f) => r := PerformOnDisk(f, op);
    }

    method PerformAll(ops: seq<Op>) returns (outcomes: seq<Outcome>)
      requires Valid()
      modifies Footprint()
      ensures Valid() && fresh(Footprint() - old(Footprint()))
      ensures View() == Steps(old(View()), old(Blocked()), ops).0 && Blocked() == old(Blocked())
      ensures outcomes == Steps(old(View()), old(Blocked()), ops).1
    {
      outcomes := [];
      for i := 0 to |ops|
        invariant Valid() && fresh(Footprint() - old(Footprint())) && Blocked() == old(Blocked())
        invariant View() == Steps(old(View()), old(Blocked()), ops[..i]).0
        invariant outcomes == Steps(old(View()), old(Blocked()), ops[..i]).1
      {
        assert ops[..i + 1][..i] == ops[..i];
        var outcome := Perform(ops[i]);
        outcomes := outcomes + [outcome];
      }
      assert ops[..|ops|] == ops;
    }

    /** Replacing a stub deletes and adds; whatever the index, only this one place changes. */
    method ReplaceStub(port: int, index: int, stub: Stub) returns (r: Outcome)
      requires Valid()
      modifies Footprint()
      ensures Valid() && fresh(Footprint() - old(Footprint()))
      ensures var s := old(View());
              if port !in s then View() == s && r == NotFound(port)
              else if 0 <= index < |s[port].stubs| then
                var replaced := s[port].(stubs := s[port].stubs[index := stub]);
                View() == s[port := replaced] && r == Found(replaced)
              else View() == s && r == InvalidIndex(index)
    {
      hide Step, Steps, Valid, View, Blocked;
      ghost var s, blocked := View(), Blocked();
      GetGives(s, blocked, port);
      r := Perform(Get(port));
      if !r.Found? {
        return;
      }
      if index < 0 || index >= |r.imposter.stubs| {
        return InvalidIndex(index);
      }
      ReplaceChangesOne(s, blocked, port, index, stub);
      TwoSteps(s, blocked, DeleteStub(port, index), AddStub(port, stub, index));
      var deleted := Perform(DeleteStub(port, index));
      var added := Perform(AddStub(port, stub, index));
      GetGives(View(), blocked, port);
      r := Perform(Get(port));
    }
  }

  /** Whatever is asked of the two, they hold the same imposters and answer alike, as long as no crash has left a port
      broken or blocked. */
  method Lockstep(memory: InMemory, files: Filesystem.Repository, ops: seq<Op>)
    returns (inMemory: seq<Outcome>, onDisk: seq<Outcome>)
    requires memory.Valid() && files.Valid() && memory.View() == DiskView.View(files.disk)
    requires DiskCrashes.NothingBroken(files.disk) && DiskView.Blocked(files.disk) == {}
    modifies memory, memory.Records(), files
    ensures memory.Valid() && files.Valid() && memory.View() == DiskView.View(files.disk)
    ensures DiskCrashes.NothingBroken(files.disk) && DiskView.Blocked(files.disk) == {}
    ensures inMemory == onDisk
  {
    hide Steps, Step, InMemory.View, DiskView.View, DiskView.Blocked, DiskCrashes.NothingBroken;
    inMemory := Memory(memory).PerformAll(ops);
    onDisk := Files(files).PerformAll(ops);
  }
}
