# Observable fan-out list, modelled in Dafny

`src/lib.rs` defines `Observable<T>`. It is an ordered list of weak handles to
shared, mutex-guarded observers. `register` appends a handle. `send_to(message, i)`
delivers to slot `i`. `send_to_all(message)` tries every slot in order and returns
how many deliveries succeeded. A delivery fails silently in three cases: the index
is out of range, the observer has been dropped, or its mutex is poisoned. The
tests define two observers, `BeforeObserver` and `AfterObserver`. Each counts its
notifications and rewrites its output string from the message.

The model has three files:

- `wrappers.dfy`: `Option`, which `send_to` returns.
- `observables.dfy`, module `Observables`:
  - **Shared allocations.** Reference counting and mutexes become an arena, the
    class `Heap`. A weak handle is a `Handle`, the name of one allocation.
  - **Cells.** An allocation is a `Cell`. It holds the mutex's poison flag, the
    observer's state, and the observer's `notify` (the entry of its vtable).
  - **Dropping.** An allocation whose last owner dropped it leaves the map, so
    `upgrade` fails on its handle. `Share` hands out handles in increasing
    order and never reuses one. Every heap operation therefore keeps a dead
    issued handle dead.
  - **Issued handles.** `Register` accepts only a handle the heap has already
    issued, and every operation keeps `Observable.IssuedBy`: each slot names an
    allocation created before it was registered. The `Weak` the test passes to
    `register` is downgraded from an existing `Arc`. A dangling `Weak` is played
    by an issued handle whose allocation was dropped. Since the heap never
    reissues a handle, a dead slot stays dead.
  - **Status.** `StatusOf` reduces a slot to `Dead`, `Unlockable` or `Live`.
  - **Pure functions.** `SendToOutcome` is one `send_to`. `SendToAllUpTo` is the
    fold of `send_to_all`; it also records which slots were notified, in order.
  - **Reference definitions.** `LiveSlots`, `Hits`, `Registrations` and
    `NotifiedTimes` are what the lemmas compare the fold against.
  - **Class `Observable`.** Its field `subscribers: seq<Handle>` is the source's
    `Vec`. `Register` appends to it in place. `SendTo` and `SendToAll` change
    only the heap, because the source's `send_to` and `send_to_all` take
    `&self`. `SendToAll` is a loop proved against the fold.
- `test_observers.dfy`, module `TestObservers`:
  - the message type and the two observers' `notify` functions;
  - lemmas on repeated notification;
  - the `test_observable` scenario, step by step;
  - the scenarios with no subscribers and with a dropped subscriber.

The model follows the code in two details:
- `send_to` returns `Option<()>`, not a boolean.
- The lock is the blocking `Mutex::lock`, which fails only when the mutex is
  poisoned. A sequential model has no contention, so a lock can fail only
  through the poison flag.

## Model

| member | source | states |
|---|---|---|
| `Observables.StatusOf` | src/lib.rs:25-29 | a slot is `Dead` iff its allocation was dropped (`upgrade` fails). It is `Unlockable` iff the allocation exists but is poisoned (`lock().ok()` fails). Otherwise it is `Live`. |
| `Observables.Notified` | src/lib.rs:29-31 | notifying the observer behind a handle changes only that observer's state, to `notify(state, m)`. Every other allocation, the poison flag and the vtable are unchanged. |
| `Observables.SendToOutcome` | src/lib.rs:24-33 | `send_to` succeeds exactly when the index is in range and the slot's allocation is alive and not poisoned. On success only that observer is notified, once. On failure nothing changes. |
| `Observables.SendToAllUpTo` | src/lib.rs:17-22 | the fold over `0..n`. Its accumulator equals the number of notifications made, is at most `n`, and every notified index is below `n`. |
| `Observables.SendToAllOutcome` | src/lib.rs:16-23 | `send_to_all` as the fold over every index. The count equals the number of notifications, is at most the number of slots, and every notified index is a slot. |
| `Observables.LiveSlots` | src/lib.rs:17-22 | the live slots below `n`, ascending. An index is in the list iff it is below `n` and live. The list has at most `n` entries, and exactly `n` iff every slot is live. |
| `Observables.SendToAllEffect` | src/lib.rs:17-22 | after the fold, the same allocations exist with the same poison flags and vtables. Each observer has been notified once per live slot naming it. |
| `Observables.StatusPreserved` | src/lib.rs:17-22 | delivering to earlier slots never changes whether a later slot is live, so one failed slot does not affect the others. This holds for a `notify` that changes only its own observer (see "## Left out"). |
| `Observables.SendToAllCalls` | src/lib.rs:17-22 | the fold notifies exactly the live slots, each once, in ascending index order, skipping failed slots without stopping. Its accumulator is their number. |
| `Observables.SendToAllCount` | src/lib.rs:16-23 | the count `send_to_all` returns is at most the number of slots, and equals it iff every slot is live. |
| `Observables.HitsCountsRegistrations` | src/lib.rs:13-22 | a live observer registered k times is notified k times (there is no deduplication). A dead or poisoned observer is notified 0 times. |
| `Observables.SendToAllPrefix` | src/lib.rs:13-22 | slots appended later do not change delivery to earlier slots, so indices are stable. |
| `Observables.SendToAllAfterRegister` | src/lib.rs:13-22 | after `register(h)`, `send_to_all` counts one more delivery exactly when `h` is live, and notifies the new last index after all earlier ones. |
| `Observables.Heap.constructor` | src/lib.rs:85 | before the test creates its first `Arc`, no allocation exists and no handle has been issued. |
| `Observables.Heap.Share` | src/lib.rs:85-90 | `Arc::new(Mutex::new(o))` followed by `Arc::downgrade`. The handle is the next unissued one, and the new allocation is unpoisoned and holds `o`. No other allocation changes, and every dead issued handle stays dead. |
| `Observables.Heap.Drop` | src/lib.rs:26-28 | the last owner drops an issued allocation. Only that allocation disappears, so `upgrade` fails on its handle from then on, and no dead handle comes back. |
| `Observables.Heap.Poison` | src/lib.rs:29 | a poisoned lock: only that allocation's flag is set, and `lock().ok()` yields nothing from then on. No dead handle comes back. |
| `Observables.Heap.LockAndNotify` | src/lib.rs:26-31 | `upgrade`, then `lock`, then `notify`. It succeeds iff the allocation is alive and not poisoned, and then notifies that observer once. Otherwise nothing changes. No dead handle comes back. |
| `Observables.Heap.Inspect` | src/lib.rs:94-95 | the test's `ob.lock().as_ref().ok()` yields the observer's state iff its allocation is alive and not poisoned. |
| `Observables.Observable.constructor` | src/lib.rs:8-12 | `new()` has no subscribers. |
| `Observables.Observable.Register` | src/lib.rs:13-15 | the handle must be one the heap has issued, and every slot stays issued. The handle is appended whether or not it is alive. The length grows by one, earlier slots are unchanged, the new slot is at the old length, and no observer state changes (the heap is not touched). |
| `Observables.Observable.SendTo` | src/lib.rs:24-33 | with every slot holding an issued handle: the new heap and the result are exactly `SendToOutcome`'s. Success iff the index is in range and the slot is live. On success only that slot's observer is notified, once. On failure, out of range included, the heap is unchanged. The subscriber list never changes. |
| `Observables.Observable.SendToAll` | src/lib.rs:16-23 | with every slot holding an issued handle: returns the number of live slots. Every observer is notified once per registration if it is live and not at all otherwise. No allocation appears or disappears, and the subscriber list is unchanged. |
| `TestObservers.Default` | src/lib.rs:51-55 | `#[derive(Default)]`: an empty output and a zero counter. |
| `TestObservers.BeforeNotify` | src/lib.rs:58-63 | `BeforeObserver::notify` raises the counter by exactly one and overwrites the output with `"{s}, World"`. |
| `TestObservers.AfterNotify` | src/lib.rs:73-78 | `AfterObserver::notify` raises the counter by exactly one and overwrites the output with `"Hello, {s}"`. |
| `TestObservers.BeforeNotifiedTimes` | src/lib.rs:57-64 | k notifications of a `BeforeObserver` add k to its counter. When k > 0 they leave the output `"{s}, World"`. |
| `TestObservers.AfterNotifiedTimes` | src/lib.rs:72-79 | k notifications of an `AfterObserver` add k to its counter. When k > 0 they leave the output `"Hello, {s}"`. |
| `TestObservers.DeliverFirst` | src/lib.rs:90-97 | with only O1 registered, `send_to_all("1")` leaves O1 at counter 1 and output "1, World". |
| `TestObservers.SecondBroadcast` | src/lib.rs:100-113 | when both observers are registered once, each is notified once by message "2". O1 becomes "2, World" / 2 and O2 becomes "Hello, 2" / 1. |
| `TestObservers.DeliverSecond` | src/lib.rs:100-114 | `send_to_all("2")` leaves O1 at 2 / "2, World" and O2 at 1 / "Hello, 2". |
| `TestObservers.DeliverThird` | src/lib.rs:116-127 | `send_to("3", 1)` updates only O2, to 2 / "Hello, 3". O1 stays at 2 / "2, World". |
| `TestObservers.TestObservable` | src/lib.rs:81-128 | the values the test reads through the locks after each of its three deliveries are exactly those the test asserts. |
| `TestObservers.EmptyScenario` | src/lib.rs:8-23 | `send_to_all` on a new observable returns 0. |
| `TestObservers.DroppedScenario` | src/lib.rs:13-28 | an observer registered and then dropped is skipped: `send_to_all` returns 0. |

## Left out

- Reference counting (`Arc`/`Weak` strong and weak counts) is left out. An
  allocation is either owned or dropped, and `Heap.Drop` stands for the last
  owner letting go.
- Threads, lock contention and blocking are left out. `Mutex` poisoning is kept
  only as a flag set by `Heap.Poison`.
- The model assumes every `notify` is total. A failure inside an observer is
  outside the observable's contract. In the source, a `notify` that panics
  would poison its mutex and unwind out of `send_to` or `send_to_all`; that
  includes a test observer's counter overflow in a debug build. This is not
  modelled.
- A dangling `Weak::new()` that was never downgraded from an allocation is not
  modelled as such. `Register` requires an issued handle, and a dropped issued
  handle plays the part of a dangling `Weak`: `upgrade` fails on both.
- `notify` is modelled as a function of its own observer's state and the
  message. A `notify` that drops, locks, poisons or mutates another allocation,
  or calls back into the observable (a re-entrant `send_to`, or one that blocks
  on its own mutex), is not modelled. The frame claims of `Notified`, `SendTo`,
  `StatusPreserved` and the final heap of `SendToAll` rely on this.
- Concurrent `register` and delivery are left out. Every operation is sequential.
- `dyn Observer<T>` dispatch is modelled as the `notify` function stored in each
  allocation. All observers in one heap share one state type. The two test
  observers have the same fields, so this loses nothing there.
- `format!` is modelled as string concatenation.
- `BeforeNotify` and `AfterNotify` model `counter: usize` as an unbounded `nat`.
  On a 64-bit target the source's `counter += 1` overflows after 2^64 - 1
  notifications. A debug build then panics, and a release build wraps to 0.
  Neither is modelled.
- `send_to_all` also accumulates in a `usize`. `SendToAllCount` shows the count never exceeds
  the number of slots, so it cannot overflow.
- Observables.Observable.SendToAll: its contract does not state the order of
  the `notify` calls, because that order is not visible in the final state of
  the heap. The loop follows the fold `SendToAllUpTo`, and `SendToAllCalls`
  proves that the fold notifies slots in ascending index order.
- The `it_works` test (src/lib.rs:130-134) is not modelled: it does not use the
  observable. The comments about unsized coercion (src/lib.rs:87-89) concern
  Rust typing only, so they are not modelled either.
