# closure_manager in Dafny

A model of the closure registry of `closure_manager`. The registry holds slots. A slot is one
zero-argument callable plus a status: `Pending`, `Busy`, `Used` or `Empty`. A `Manager` owns an
ordered, index-addressed sequence of slots. It can:

- add a slot, reusing the first `Used` or `Empty` one or appending;
- free a slot (`rem`);
- re-arm one slot or all slots (`reload`, `reload_all`);
- run one slot (`exec`);
- run every eligible slot and report the skipped indices (`exec_all`).

Files:

- `closure_manager.dfy`, module `ClosureManager`: the model of `lib.rs`. It holds `Status`, `Slot`,
  `NewSlot` and the class `Manager`. The class has a `list: seq<Slot>` field, which is updated in
  place, and a ghost `log` of invocations. The module also holds the functions that specify the
  scans: `FirstReusable` for `add`, and `Scan`/`Skipped`/`RunLog` for `exec_all`. The
  lemmas about these functions are in the same module.
- `scenarios.dfy`, module `ClosureManagerScenarios`: the scenarios of `tests.rs`. Each one is
  proved from the `Manager` contracts alone.

A callable is foreign code, so here it is an opaque token: `Closure` is either `NoOp`, the
do-nothing callable that `rem` installs, or `Fn(tag)`, a caller's own callable. Running a callable appends its token to `Manager.log`. That log is
how "invoked exactly once, in index order" is stated. `exec` and `exec_all` still set the
intermediate `Busy` status before the call and `Used` after it, as the source does.

Three behaviours of the code are easy to misread, and the model keeps them as written:

- `add` never overwrites a `Busy` or `Pending` slot. It only reuses `Used` or `Empty` ones. This is
  stated in `Manager.Add`'s third `ensures`.
- `reload` re-arms a slot whatever its status, `Busy` included. `reload_all` re-arms `Empty` slots
  too; one freed by `rem` then runs the no-op.
- The doc comment of `exec` (lib.rs:69) says a closure can be used only once until `reload`. The
  code does not enforce this: `exec` and `exec_all` (lib.rs:73, lib.rs:85) run a `Used` slot again.
  `Manager.Exec`'s first `ensures` and the lemma `ExecAllRepeats` both state this re-run.

## Model

| member | source | states |
|---|---|---|
| `ClosureManager.NewSlot` | lib.rs:124-127 | A new slot always starts `Pending` and holds the callable it was given. |
| `ClosureManager.FirstReusable` | lib.rs:35-41 | `add`'s scan finds the lowest index whose slot is `Used` or `Empty`. It finds none exactly when no slot is `Used` or `Empty`. |
| `ClosureManager.Scan` | lib.rs:84-88 | Lists the indices below `n` of the runnable slots (or of the `Busy`/`Empty` ones), in strictly ascending order. An index is listed exactly when its slot has the asked-for runnability. |
| `ClosureManager.RunLogFollowsEligible` | lib.rs:84-92 | Over the first `n` slots, `exec_all` invokes exactly the callables of the `Pending`/`Used` slots, one invocation per slot, in increasing index order. |
| `ClosureManager.SkippedAndEligiblePartition` | lib.rs:84-92 | Each of the first `n` slots is either run or reported by `exec_all`, never both. The two counts add up to `n`. |
| `ClosureManager.ExecAllRepeats` | lib.rs:82-97 | After `exec_all`, a second `exec_all` reports the same indices and re-invokes the same callables. A `Used` slot is runnable again. |
| `ClosureManager.ReloadAllEnablesAll` | lib.rs:62-97 | After `reload_all`, `exec_all` skips nothing. It invokes every callable, including the no-op of a freed slot, in index order. |
| `ClosureManager.RemMakesReusable` | lib.rs:34-56 | After `rem(k)`, the next `add` reuses index `k` or a lower index. It does not append. |
| `ClosureManager.SkippedEmptyIff` | lib.rs:82-97 | `exec_all`'s skipped list is empty exactly when every slot is `Pending` or `Used`. |
| `ClosureManager.AppendKeepsNoReusable` | lib.rs:42-49 | Suppose `add` appended a slot that is not `Used`/`Empty`. Then the next `add` appends too, at the next index. |
| `ClosureManager.Manager.constructor` | lib.rs:29-31 | A new manager holds no slots and has invoked nothing, whatever the capacity hint. |
| `ClosureManager.Manager.PushBack` | lib.rs:22-26 | Raw append through the underlying deque. The new slot goes at the end and nothing else changes. |
| `ClosureManager.Manager.Add` | lib.rs:34-50 | If a `Used`/`Empty` slot exists, the lowest such index is returned and only that slot is replaced; the length is unchanged. Otherwise the slot is appended and the old length is returned. A slot that is not `Used`/`Empty` is never overwritten. Nothing is invoked. |
| `ClosureManager.Manager.Rem` | lib.rs:53-56 | Slot `id` becomes `Empty` with the no-op callable, whatever it held before. Every other slot and the length are unchanged. |
| `ClosureManager.Manager.Reload` | lib.rs:59-61 | Only slot `id` changes. It becomes `Pending` whatever its status and keeps its callable. |
| `ClosureManager.Manager.ReloadAll` | lib.rs:62-66 | Every slot, `Empty` included, becomes `Pending` and keeps its callable. The length is unchanged. |
| `ClosureManager.Manager.Exec` | lib.rs:72-80 | Returns true exactly when the slot was `Pending` or `Used`. In that case its callable is invoked once and it ends `Used`. Otherwise nothing changes and nothing is invoked. Other slots never change. |
| `ClosureManager.Manager.ExecAll` | lib.rs:82-97 | Runnable slots end `Used`; skipped slots keep their status. The log grows by `RunLog`, the eligible callables in index order. The result is `Ok` exactly when no slot was `Busy`/`Empty`. Otherwise it is `Err` of exactly the ascending `Busy`/`Empty` indices. |
| `ClosureManagerScenarios.Build` | tests.rs:4-10 | The first `add` on a fresh manager of capacity 5 returns 0. |
| `ClosureManagerScenarios.Inserts` | tests.rs:12-21 | A `Busy` slot pushed after an `add` sits at index 1 and is still `Busy`. |
| `ClosureManagerScenarios.ExecOk` | tests.rs:23-31 | `exec(1)` on a `Pending` slot returns true. |
| `ClosureManagerScenarios.ExecErr` | tests.rs:33-42 | `exec(1)` on a `Busy` slot returns false. |
| `ClosureManagerScenarios.ExecAllScenario` | tests.rs:44-55 | With slot 1 `Busy`, `exec_all` returns `Err([1])`. Slot 0 still runs and ends `Used`. |
| `ClosureManagerScenarios.RemoveThenAdd` | tests.rs:57-67 | `rem(0)` leaves slot 0 `Empty`, and a following `add` reuses index 0. |

## Left out

- Callable bodies (`Box<dyn Fn()>`): they are arbitrary foreign code. A callable is a token, and calling it is an entry in the ghost log. Whatever the callable does beyond that is not modelled.
- `Deref`/`DerefMut` of `Manager` and `Slot` (lib.rs:16-26, lib.rs:118-123): only the raw `push_back` the tests use is modelled, as `Manager.PushBack`. Setting a slot's public status directly is modelled by updating the slot value before pushing it.
- The capacity hint and the deque's allocation and growth (lib.rs:30): they have no observable effect on contents or indices.
- Concurrency: the doc comments speak of preventing concurrent access, but the code has no synchronisation. The model is single-threaded.
- Machine integers: `usize` indices and the `i32` sentinel with its casts in `add` (lib.rs:35-38) are modelled as unbounded naturals and an `Option`. Overflow beyond `i32::MAX` is not modelled.
- Out-of-range indexing, which panics, is a `requires id < |list|` on `Rem`, `Reload` and `Exec`.
- `#![no_std]`, the `alloc` plumbing and the `Debug`/`PartialEq` derives.
