/** The closure registry: slots that each hold one callable and one status, and
    a Manager that owns an ordered, index-addressed sequence of slots and drives
    them through their lifecycle (Pending -> Busy -> Used, Empty after `rem`).

    A callable is foreign code, so it is an opaque token here; running it is
    recorded by appending its token to the manager's ghost invocation log. */
module ClosureManager {

  datatype Option<T> = None | Some(value: T)

  datatype Result<T, E> = Ok(value: T) | Err(error: E)

  /** Lifecycle tag of a slot. */
  datatype Status = Pending | Busy | Used | Empty

  /** An opaque callable: the do-nothing one that `rem` installs, or a caller's
      own, told apart by a tag. */
  datatype Closure = NoOp | Fn(tag: nat)

  /** One callable plus its status. */
  datatype Slot = Slot(closure: Closure, used: Status)

  /** A fresh slot always starts out Pending and holds the given callable. */
  function NewSlot(f: Closure): (s: Slot)
    ensures s.used == Pending && s.closure == f
  {
    Slot(f, Pending)
  }

  /** `add` may overwrite a slot in this state. */
  predicate Reusable(s: Slot)
  {
    s.used == Used || s.used == Empty
  }

  /** `exec` and `exec_all` run a slot in this state; they skip Busy and Empty. */
  predicate Runnable(s: Slot)
  {
    s.used != Busy && s.used != Empty
  }

  /** A slot as `exec`/`exec_all` leave it: a run slot ends Used, a skipped one is untouched. */
  function AfterRun(s: Slot): Slot
  {
    if Runnable(s) then s.(used := Used) else s
  }

  /** The index `add` reuses: the lowest one whose slot is Used or Empty, if any. */
  function FirstReusable(list: seq<Slot>): (r: Option<nat>)
    ensures r.Some? ==> r.value < |list| && Reusable(list[r.value])
    ensures r.Some? ==> forall j :: 0 <= j < r.value ==> !Reusable(list[j])
    ensures r.None? <==> forall j :: 0 <= j < |list| ==> !Reusable(list[j])
  {
    if list == [] then None
    else if Reusable(list[0]) then Some(0)
    else
      match FirstReusable(list[1..])
      case None => None
      case Some(k) => Some(k + 1)
  }

  ghost predicate Ascending(ix: seq<nat>)
  {
    forall a, b :: 0 <= a < b < |ix| ==> ix[a] < ix[b]
  }

  /** The indices below `n` of the slots whose runnability is `runnable`, each
      listed once, in ascending order. */
  function Scan(list: seq<Slot>, n: nat, runnable: bool): (ix: seq<nat>)
    requires n <= |list|
    ensures Ascending(ix)
    ensures forall k :: 0 <= k < |ix| ==> ix[k] < n && Runnable(list[ix[k]]) == runnable
    ensures forall i {:trigger i in ix} :: 0 <= i < n && Runnable(list[i]) == runnable ==> i in ix
    decreases n
  {
    if n == 0 then []
    else
      var prev := Scan(list, n - 1, runnable);
      var ix := prev + (if Runnable(list[n - 1]) == runnable then [n - 1] else []);
      assert forall k :: 0 <= k < |prev| ==> ix[k] == prev[k];
      ix
  }

  /** The indices `exec_all` reports: those of the Busy and Empty slots. */
  function Skipped(list: seq<Slot>): seq<nat>
  {
    Scan(list, |list|, false)
  }

  /** The callables `exec_all` invokes while visiting the first `n` slots, in the
      order it invokes them. */
  function RunLog(list: seq<Slot>, n: nat): seq<Closure>
    requires n <= |list|
    decreases n
  {
    if n == 0 then []
    else RunLog(list, n - 1) + (if Runnable(list[n - 1]) then [list[n - 1].closure] else [])
  }

  /** The callables of all slots, in index order. */
  function Closures(list: seq<Slot>): seq<Closure>
  {
    seq(|list|, i requires 0 <= i < |list| => list[i].closure)
  }

  /** Among the first `n` slots, `exec_all` invokes exactly the callables of the
      eligible ones, one invocation per slot, in increasing index order. */
  lemma {:induction false} RunLogFollowsEligible(list: seq<Slot>, n: nat)
    requires n <= |list|
    ensures |RunLog(list, n)| == |Scan(list, n, true)|
    ensures forall k :: 0 <= k < |RunLog(list, n)| ==>
      RunLog(list, n)[k] == list[Scan(list, n, true)[k]].closure
  {
    if n > 0 {
      RunLogFollowsEligible(list, n - 1);
    }
  }

  /** Among the first `n` slots, each is either run or reported by `exec_all`,
      never both and never neither. */
  lemma {:induction false} SkippedAndEligiblePartition(list: seq<Slot>, n: nat)
    requires n <= |list|
    ensures |Scan(list, n, false)| + |Scan(list, n, true)| == n
    ensures forall i :: 0 <= i < n ==> (i in Scan(list, n, false) <==> i !in Scan(list, n, true))
  {
    if n > 0 {
      SkippedAndEligiblePartition(list, n - 1);
    }
  }

  /** A second `exec_all` reports the same indices and re-runs the same callables
      as the first: run slots end Used, which is runnable again. */
  lemma {:induction false} ExecAllRepeats(list: seq<Slot>, after: seq<Slot>, n: nat)
    requires |after| == |list| && n <= |list|
    requires forall i :: 0 <= i < |list| ==> after[i] == AfterRun(list[i])
    ensures Scan(after, n, false) == Scan(list, n, false)
    ensures RunLog(after, n) == RunLog(list, n)
  {
    if n > 0 {
      ExecAllRepeats(list, after, n - 1);
    }
  }

  /** After `reload_all` nothing is skipped: `exec_all` reports no index and runs
      every callable, the no-op of an Empty slot included, in index order. */
  lemma {:induction false} ReloadAllEnablesAll(list: seq<Slot>, after: seq<Slot>, n: nat)
    requires |after| == |list| && n <= |list|
    requires forall i :: 0 <= i < |list| ==> after[i] == list[i].(used := Pending)
    ensures Scan(after, n, false) == []
    ensures RunLog(after, n) == Closures(list)[..n]
  {
    if n > 0 {
      ReloadAllEnablesAll(list, after, n - 1);
      assert Closures(list)[..n] == Closures(list)[..n - 1] + [list[n - 1].closure];
    }
  }

  /** After `rem(k)`, the next `add` reuses index k or a lower one. */
  lemma RemMakesReusable(list: seq<Slot>, k: nat)
    requires k < |list|
    ensures FirstReusable(list[k := Slot(NoOp, Empty)]).Some?
    ensures FirstReusable(list[k := Slot(NoOp, Empty)]).value <= k
  {
    var freed := list[k := Slot(NoOp, Empty)];
    assert Reusable(freed[k]);
  }

  /** `exec_all` reports nothing exactly when every slot is runnable. */
  lemma SkippedEmptyIff(list: seq<Slot>)
    ensures Skipped(list) == [] <==> forall i :: 0 <= i < |list| ==> Runnable(list[i])
  {
    if Skipped(list) != [] {
      assert !Runnable(list[Skipped(list)[0]]);
    } else {
      forall i | 0 <= i < |list| ensures Runnable(list[i]) {
        assert !Runnable(list[i]) ==> i in Skipped(list);
      }
    }
  }

  /** When `add` appended a fresh slot, the next `add` appends again, at the next index. */
  lemma AppendKeepsNoReusable(list: seq<Slot>, s: Slot)
    requires FirstReusable(list).None?
    requires !Reusable(s)
    ensures FirstReusable(list + [s]).None?
  {
  }

  /** The registry. */
  class Manager {
    /** The slots, addressed by position. */
    var list: seq<Slot>
    /** Every callable invocation made through this manager, in order. */
    ghost var log: seq<Closure>

    /** A new manager is empty whatever the capacity hint. */
    constructor (cap: nat)
      ensures list == [] && log == []
    {
      list := [];
      log := [];
    }

    /** Raw append to the underlying sequence, bypassing `add`'s reuse policy. */
    method PushBack(s: Slot)
      modifies this
      ensures list == old(list) + [s]
      ensures log == old(log)
    {
      list := list + [s];
    }

    /** Stores `s` in the first Used or Empty slot, or appends it; returns its index. */
    method Add(s: Slot) returns (id: nat)
      modifies this
      ensures FirstReusable(old(list)).Some? ==>
        id == FirstReusable(old(list)).value && list == old(list)[id := s]
      ensures FirstReusable(old(list)).None? ==>
        id == |old(list)| && list == old(list) + [s]
      ensures forall j :: 0 <= j < |old(list)| && !Reusable(old(list)[j]) ==> list[j] == old(list)[j]
      ensures log == old(log)
    {
      var n := -1;
      var i := 0;
      while i < |list|
        invariant 0 <= i <= |list|
        invariant n == -1
        invariant forall j :: 0 <= j < i ==> !Reusable(list[j])
      {
        if list[i].used == Used || list[i].used == Empty {
          n := i;
          break;
        }
        i := i + 1;
      }
      if n != -1 {
        assert Reusable(list[n]) && forall j :: 0 <= j < n ==> !Reusable(list[j]);
        list := list[n := s];
        id := n;
      } else {
        list := list + [s];
        id := |list| - 1;
      }
    }

    /** Frees slot `id`: it gets the no-op callable and becomes Empty. */
    method Rem(id: nat)
      requires id < |list|
      modifies this
      ensures list == old(list)[id := Slot(NoOp, Empty)]
      ensures log == old(log)
    {
      list := list[id := list[id].(closure := NoOp)];
      list := list[id := list[id].(used := Empty)];
    }

    /** Re-arms slot `id`, whatever its status, keeping its callable. */
    method Reload(id: nat)
      requires id < |list|
      modifies this
      ensures list == old(list)[id := old(list)[id].(used := Pending)]
      ensures log == old(log)
    {
      list := list[id := list[id].(used := Pending)];
    }

    /** Re-arms every slot, Empty ones included, keeping every callable. */
    method ReloadAll()
      modifies this
      ensures |list| == |old(list)|
      ensures forall i :: 0 <= i < |list| ==> list[i] == old(list)[i].(used := Pending)
      ensures log == old(log)
    {
      for i := 0 to |list|
        invariant |list| == |old(list)|
        invariant forall j :: 0 <= j < i ==> list[j] == old(list)[j].(used := Pending)
        invariant forall j :: i <= j < |list| ==> list[j] == old(list)[j]
        invariant log == old(log)
      {
        list := list[i := list[i].(used := Pending)];
      }
    }

    /** Runs slot `id` unless it is Busy or Empty; says whether it ran. */
    method Exec(id: nat) returns (ran: bool)
      requires id < |list|
      modifies this
      ensures ran <==> old(list)[id].used == Pending || old(list)[id].used == Used
      ensures ran ==> list == old(list)[id := old(list)[id].(used := Used)]
      ensures ran ==> log == old(log) + [old(list)[id].closure]
      ensures !ran ==> list == old(list) && log == old(log)
    {
      if list[id].used != Busy && list[id].used != Empty {
        list := list[id := list[id].(used := Busy)];
        log := log + [list[id].closure];
        list := list[id := list[id].(used := Used)];
        return true;
      }
      return false;
    }

    /** Runs every Pending or Used slot in index order and reports, in ascending
        order, the indices of the Busy and Empty slots it skipped. */
    method ExecAll() returns (r: Result<(), seq<nat>>)
      modifies this
      ensures |list| == |old(list)|
      ensures forall i :: 0 <= i < |list| ==> list[i] == AfterRun(old(list)[i])
      ensures log == old(log) + RunLog(old(list), |old(list)|)
      ensures r.Ok? <==> forall i :: 0 <= i < |old(list)| ==> Runnable(old(list)[i])
      ensures r.Err? ==> r.error == Skipped(old(list))
    {
      ghost var list0, log0 := list, log;
      var errs: seq<nat> := [];
      for id: nat := 0 to |list|
        invariant |list| == |list0|
        invariant forall j :: 0 <= j < |list| ==> list[j] == if j < id then AfterRun(list0[j]) else list0[j]
        invariant errs == Scan(list0, id, false)
        invariant log == log0 + RunLog(list0, id)
      {
        if list[id].used == Busy || list[id].used == Empty {
          errs := errs + [id];
          continue;
        }
        list := list[id := list[id].(used := Busy)];
        log := log + [list[id].closure];
        list := list[id := list[id].(used := Used)];
      }
      SkippedEmptyIff(list0);
      if |errs| != 0 {
        return Err(errs);
      }
      return Ok(());
    }
  }
}
