/** Client scenarios of the registry, each proved from the Manager's contracts alone.
    A slot's status is set directly on the value (`(used := Busy)`) and appended
    with the raw PushBack, as a caller going around `add` would. */
module ClosureManagerScenarios {
  import opened ClosureManager

  const A: Closure := Fn(1)
  const B: Closure := Fn(2)
  const C: Closure := Fn(3)

  /** The first `add` on a fresh manager returns index 0. */
  method Build() returns (id1: nat)
    ensures id1 == 0
  {
    var m := new Manager(5);
    id1 := m.Add(NewSlot(A));
  }

  /** A Busy slot pushed past `add` stays Busy at index 1. */
  method Inserts() returns (second: Status)
    ensures second == Busy
  {
    var m := new Manager(5);
    var id1 := m.Add(NewSlot(A));
    m.PushBack(NewSlot(B).(used := Busy));
    second := m.list[1].used;
  }

  /** `exec` runs a Pending slot. */
  method ExecOk() returns (ran: bool)
    ensures ran
  {
    var m := new Manager(5);
    var id1 := m.Add(NewSlot(A));
    m.PushBack(NewSlot(B));
    ran := m.Exec(1);
    assert m.log == [B];
  }

  /** `exec` refuses a Busy slot and invokes nothing. */
  method ExecErr() returns (ran: bool)
    ensures !ran
  {
    var m := new Manager(5);
    var id1 := m.Add(NewSlot(A));
    m.PushBack(NewSlot(B).(used := Busy));
    ran := m.Exec(1);
    assert m.log == [];
  }

  /** `exec_all` reports the Busy slot 1 and still runs slot 0, which ends Used. */
  method ExecAllScenario() returns (r: Result<(), seq<nat>>, first: Status)
    ensures r == Err([1])
    ensures first == Used
  {
    var m := new Manager(5);
    var id1 := m.Add(NewSlot(A));
    m.PushBack(NewSlot(B).(used := Busy));
    ghost var before := m.list;
    assert before == [NewSlot(A), NewSlot(B).(used := Busy)];
    assert Scan(before, 1, false) == [] && RunLog(before, 1) == [A];
    assert Skipped(before) == [1] && RunLog(before, 2) == [A];
    r := m.ExecAll();
    first := m.list[0].used;
    assert m.log == [A];
  }

  /** `rem(0)` frees slot 0; the next `add` reuses index 0 rather than appending. */
  method RemoveThenAdd() returns (first: Status, id3: nat)
    ensures first == Empty
    ensures id3 == 0
  {
    var m := new Manager(5);
    var id1 := m.Add(NewSlot(A));
    m.PushBack(NewSlot(B).(used := Busy));
    m.Rem(0);
    first := m.list[0].used;
    id3 := m.Add(NewSlot(C));
    assert m.list == [NewSlot(C), NewSlot(B).(used := Busy)];
  }
}
