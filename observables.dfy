/**
 * The publish/subscribe fan-out list of src/lib.rs.
 *
 * An observable keeps an ordered list of weak handles to shared, lockable
 * observers and delivers a message to one slot (`send_to`) or to every slot in
 * turn (`send_to_all`). Reference counting and mutexes are replaced by an
 * arena: a weak handle is the name of one shared allocation, the allocation is
 * gone once its last owner drops it, and its lock either succeeds or is
 * poisoned.
 */
module Observables {
  import opened Wrappers

  /** A weak handle `Weak<Mutex<dyn Observer<T>>>`: it names one shared
      allocation and does not keep it alive. */
  type Handle = nat

  /** One shared allocation `Arc<Mutex<dyn Observer<T>>>`: the mutex's poison
      flag, the observer's own state, and the observer's `notify`, the entry of
      its vtable that says how the state reacts to a message. */
  datatype Cell<!S, -T> = Cell(poisoned: bool, state: S, notify: (S, T) -> S)

  /** The allocations that still have an owner. A handle missing from the map
      has been dropped, so `upgrade` on it fails. */
  type Cells<!S, -T> = map<Handle, Cell<S, T>>

  /** What a slot holding a handle offers at delivery time. */
  datatype Status = Dead | Unlockable | Live

  /** `upgrade` fails exactly on a dropped allocation; `lock` then fails
      exactly on a poisoned one. */
  function StatusOf<S, T>(cells: Cells<S, T>, h: Handle): (r: Status)
    ensures r == Dead <==> h !in cells
    ensures r == Unlockable <==> h in cells && cells[h].poisoned
    ensures r == Live <==> h in cells && !cells[h].poisoned
  {
    if h !in cells then Dead
    else if cells[h].poisoned then Unlockable
    else Live
  }

  /** The allocations after the observer behind `h` has run `notify(m)` once
      while holding its lock: only that observer's state changes. */
  function Notified<S, T>(cells: Cells<S, T>, h: Handle, m: T): (r: Cells<S, T>)
    requires h in cells
    ensures r.Keys == cells.Keys
    ensures r[h].poisoned == cells[h].poisoned && r[h].notify == cells[h].notify
    ensures r[h].state == cells[h].notify(cells[h].state, m)
    ensures forall g :: g in cells && g != h ==> r[g] == cells[g]
  {
    var c := cells[h];
    cells[h := Cell(c.poisoned, c.notify(c.state, m), c.notify)]
  }

  /** `send_to(message, i)` as a value: `get(i)`, then `upgrade`, then `lock`,
      then `notify`; the first step that fails yields `None` and no change. */
  function SendToOutcome<S, T>(cells: Cells<S, T>, subs: seq<Handle>, m: T, i: nat)
    : (r: (Cells<S, T>, Option<()>))
    ensures r.1.Some? <==> i < |subs| && StatusOf(cells, subs[i]) == Live
    ensures r.1.Some? ==> r.0 == Notified(cells, subs[i], m)
    ensures r.1.None? ==> r.0 == cells
  {
    if i >= |subs| then (cells, None)
    else if subs[i] !in cells then (cells, None)
    else if cells[subs[i]].poisoned then (cells, None)
    else (Notified(cells, subs[i], m), Some(()))
  }

  /** The running state of `send_to_all`'s fold: the allocations, the
      accumulator, and the slot indices whose observer was notified, in the
      order the notifications happened. */
  datatype Delivery<!S, -T> = Delivery(cells: Cells<S, T>, count: nat, calls: seq<nat>)

  /** The fold of `send_to_all` over the indices `0..n`. */
  function SendToAllUpTo<S, T>(cells: Cells<S, T>, subs: seq<Handle>, m: T, n: nat): (d: Delivery<S, T>)
    requires n <= |subs|
    ensures d.count == |d.calls| <= n
    ensures forall k :: 0 <= k < |d.calls| ==> d.calls[k] < n
  {
    if n == 0 then Delivery(cells, 0, [])
    else
      var d := SendToAllUpTo(cells, subs, m, n - 1);
      var (after, sent) := SendToOutcome(d.cells, subs, m, n - 1);
      match sent
      case Some(_) => Delivery(after, d.count + 1, d.calls + [n - 1])
      case None => Delivery(after, d.count, d.calls)
  }

  /** `send_to_all(message)`: the fold over every index of the list. */
  function SendToAllOutcome<S, T>(cells: Cells<S, T>, subs: seq<Handle>, m: T): (d: Delivery<S, T>)
    ensures d.count == |d.calls| <= |subs|
    ensures forall k :: 0 <= k < |d.calls| ==> d.calls[k] < |subs|
  {
    SendToAllUpTo(cells, subs, m, |subs|)
  }

  /** Reference definition: the indices below `n` whose slot is live, ascending. */
  function LiveSlots<S, T>(cells: Cells<S, T>, subs: seq<Handle>, n: nat): (r: seq<nat>)
    requires n <= |subs|
    ensures forall j :: j in r <==> 0 <= j < n && StatusOf(cells, subs[j]) == Live
    ensures forall a, b :: 0 <= a < b < |r| ==> r[a] < r[b]
    ensures |r| <= n
    ensures |r| == n <==> forall j :: 0 <= j < n ==> StatusOf(cells, subs[j]) == Live
  {
    if n == 0 then []
    else
      var r := LiveSlots(cells, subs, n - 1);
      assert forall a :: 0 <= a < |r| ==> r[a] in r;
      if StatusOf(cells, subs[n - 1]) == Live then r + [n - 1] else r
  }

  /** Reference definition: how many live slots below `n` hold handle `h`. */
  function Hits<S, T>(cells: Cells<S, T>, subs: seq<Handle>, h: Handle, n: nat): nat
    requires n <= |subs|
  {
    if n == 0 then 0
    else Hits(cells, subs, h, n - 1) + (if subs[n - 1] == h && StatusOf(cells, h) == Live then 1 else 0)
  }

  /** How many times a broadcast notifies the observer behind `h`: once per
      registration if it is live, never otherwise. */
  function Registrations<S, T>(cells: Cells<S, T>, subs: seq<Handle>, h: Handle): nat
  {
    if StatusOf(cells, h) == Live then multiset(subs)[h] else 0
  }

  /** The state reached by `k` notifications of the same message. */
  function NotifiedTimes<S, T>(notify: (S, T) -> S, s: S, m: T, k: nat): S
  {
    if k == 0 then s else notify(NotifiedTimes(notify, s, m, k - 1), m)
  }

  /** Delivering to every slot changes no allocation's liveness, lock or
      vtable, and leaves each observer notified once per live slot naming it. */
  lemma {:induction false} SendToAllEffect<S, T>(cells: Cells<S, T>, subs: seq<Handle>, m: T, n: nat)
    requires n <= |subs|
    ensures SendToAllUpTo(cells, subs, m, n).cells.Keys == cells.Keys
    ensures forall h :: h in cells ==>
      SendToAllUpTo(cells, subs, m, n).cells[h]
        == cells[h].(state := NotifiedTimes(cells[h].notify, cells[h].state, m, Hits(cells, subs, h, n)))
  {
    if n > 0 {
      SendToAllEffect(cells, subs, m, n - 1);
      var d := SendToAllUpTo(cells, subs, m, n - 1);
      assert StatusOf(d.cells, subs[n - 1]) == StatusOf(cells, subs[n - 1]);
    }
  }

  /** A slot's status is the same after any prefix of the fold. */
  lemma {:induction false} StatusPreserved<S, T>(cells: Cells<S, T>, subs: seq<Handle>, m: T, n: nat, h: Handle)
    requires n <= |subs|
    ensures StatusOf(SendToAllUpTo(cells, subs, m, n).cells, h) == StatusOf(cells, h)
  {
    SendToAllEffect(cells, subs, m, n);
  }

  /** The fold notifies exactly the live slots, once each, in ascending index
      order, and its accumulator counts them; a failed slot does not stop the
      slots after it. */
  lemma {:induction false} SendToAllCalls<S, T>(cells: Cells<S, T>, subs: seq<Handle>, m: T, n: nat)
    requires n <= |subs|
    ensures SendToAllUpTo(cells, subs, m, n).calls == LiveSlots(cells, subs, n)
    ensures SendToAllUpTo(cells, subs, m, n).count == |LiveSlots(cells, subs, n)|
  {
    if n > 0 {
      SendToAllCalls(cells, subs, m, n - 1);
      StatusPreserved(cells, subs, m, n - 1, subs[n - 1]);
    }
  }

  /** The count `send_to_all` returns is at most the number of slots, and
      equals it exactly when every slot is live. */
  lemma SendToAllCount<S, T>(cells: Cells<S, T>, subs: seq<Handle>, m: T)
    ensures SendToAllOutcome(cells, subs, m).count <= |subs|
    ensures SendToAllOutcome(cells, subs, m).count == |subs|
      <==> forall j :: 0 <= j < |subs| ==> StatusOf(cells, subs[j]) == Live
  {
    SendToAllCalls(cells, subs, m, |subs|);
  }

  /** A live observer is notified once per registration of it (no
      deduplication); an observer that is dead or unlockable is never notified. */
  lemma {:induction false} HitsCountsRegistrations<S, T>(cells: Cells<S, T>, subs: seq<Handle>, h: Handle, n: nat)
    requires n <= |subs|
    ensures Hits(cells, subs, h, n) == if StatusOf(cells, h) == Live then multiset(subs[..n])[h] else 0
  {
    if n > 0 {
      HitsCountsRegistrations(cells, subs, h, n - 1);
      assert subs[..n] == subs[..n - 1] + [subs[n - 1]];
    }
  }

  /** Slots appended later do not affect delivery to the earlier ones. */
  lemma {:induction false} SendToAllPrefix<S, T>(cells: Cells<S, T>, subs: seq<Handle>, extra: seq<Handle>, m: T, n: nat)
    requires n <= |subs|
    ensures SendToAllUpTo(cells, subs + extra, m, n) == SendToAllUpTo(cells, subs, m, n)
  {
    if n > 0 {
      SendToAllPrefix(cells, subs, extra, m, n - 1);
      assert (subs + extra)[n - 1] == subs[n - 1];
    }
  }

  /** After registering `h`, `send_to_all` delivers as before and then to the
      new last slot, which counts exactly when `h` is live. */
  lemma SendToAllAfterRegister<S, T>(cells: Cells<S, T>, subs: seq<Handle>, h: Handle, m: T)
    ensures SendToAllOutcome(cells, subs + [h], m).count
      == SendToAllOutcome(cells, subs, m).count + (if StatusOf(cells, h) == Live then 1 else 0)
    ensures SendToAllOutcome(cells, subs + [h], m).calls
      == SendToAllOutcome(cells, subs, m).calls + (if StatusOf(cells, h) == Live then [|subs|] else [])
  {
    SendToAllPrefix(cells, subs, [h], m, |subs|);
    StatusPreserved(cells, subs, m, |subs|, h);
    assert (subs + [h])[|subs|] == h;
  }

  /** The owners' side of the shared allocations: creation, the last owner
      dropping its handle, a lock being poisoned, and lock-then-notify. */
  class Heap<S, T> {
    var cells: Cells<S, T>
    /** The next handle to hand out; handles are never reused, so a dropped
        allocation is never reachable again. */
    var next: Handle

    ghost predicate Valid()
      reads this
    {
      forall h :: h in cells ==> h < next
    }

    constructor ()
      ensures Valid() && cells == map[] && next == 0
    {
      cells := map[];
      next := 0;
    }

    /** `Arc::new(Mutex::new(observer))` followed by `Arc::downgrade`. */
    method Share(state: S, notify: (S, T) -> S) returns (h: Handle)
      requires Valid()
      modifies this
      ensures Valid()
      ensures h == old(next) && next == old(next) + 1 && h !in old(cells)
      ensures cells == old(cells)[h := Cell(false, state, notify)]
      ensures forall g: Handle :: g < old(next) && StatusOf(old(cells), g) == Dead ==> StatusOf(cells, g) == Dead
    {
      h := next;
      cells := cells[h := Cell(false, state, notify)];
      next := next + 1;
    }

    /** The last owning handle of `h` is dropped; `h` was handed out by
        `Share`, since only an existing allocation has owners. */
    method Drop(h: Handle)
      requires Valid() && h < next
      modifies this
      ensures Valid() && next == old(next)
      ensures cells == old(cells) - {h}
      ensures forall g: Handle :: g < old(next) && StatusOf(old(cells), g) == Dead ==> StatusOf(cells, g) == Dead
    {
      cells := cells - {h};
    }

    /** A thread panicked while holding `h`'s lock. */
    method Poison(h: Handle)
      requires Valid()
      modifies this
      ensures Valid() && next == old(next)
      ensures cells == if h in old(cells) then old(cells)[h := old(cells)[h].(poisoned := true)] else old(cells)
      ensures forall g: Handle :: g < old(next) && StatusOf(old(cells), g) == Dead ==> StatusOf(cells, g) == Dead
    {
      if h in cells {
        cells := cells[h := cells[h].(poisoned := true)];
      }
    }

    /** `upgrade`, then `lock`, then `notify` on the guarded observer. */
    method LockAndNotify(h: Handle, m: T) returns (r: Option<()>)
      requires Valid()
      modifies this
      ensures Valid() && next == old(next)
      ensures r == if StatusOf(old(cells), h) == Live then Some(()) else None
      ensures r.Some? ==> cells == Notified(old(cells), h, m)
      ensures r.None? ==> cells == old(cells)
      ensures forall g: Handle :: g < old(next) && StatusOf(old(cells), g) == Dead ==> StatusOf(cells, g) == Dead
    {
      if h !in cells {
        r := None;
      } else if cells[h].poisoned {
        r := None;
      } else {
        var c := cells[h];
        cells := cells[h := c.(state := c.notify(c.state, m))];
        r := Some(());
      }
    }

    /** Taking `h`'s lock to read the observer's state. */
    method Inspect(h: Handle) returns (r: Option<S>)
      ensures r.Some? <==> StatusOf(cells, h) == Live
      ensures r.Some? ==> r.value == cells[h].state
    {
      if h in cells && !cells[h].poisoned {
        r := Some(cells[h].state);
      } else {
        r := None;
      }
    }
  }

  /** `Observable<T>`: the ordered list of weak handles. */
  class Observable<T> {
    var subscribers: seq<Handle>

    /** Every slot holds a handle that `heap` has handed out: a weak handle
        comes from downgrading an allocation, so it can never refer to one
        created after it. */
    ghost predicate IssuedBy<S>(heap: Heap<S, T>)
      reads this, heap
    {
      forall j :: 0 <= j < |subscribers| ==> subscribers[j] < heap.next
    }

    /** `Observable::new()`: no subscribers. */
    constructor ()
      ensures subscribers == []
    {
      subscribers := [];
    }

    /** `register`: append the handle, whether or not it is still alive. The
        handle must be one `heap` has issued: a `Weak` is downgraded from an
        allocation that already exists, so no slot can ever name a later one. */
    method Register<S>(ghost heap: Heap<S, T>, h: Handle)
      requires IssuedBy(heap) && h < heap.next
      modifies this
      ensures IssuedBy(heap)
      ensures subscribers == old(subscribers) + [h]
      ensures |subscribers| == |old(subscribers)| + 1 && subscribers[|old(subscribers)|] == h
      ensures forall j :: 0 <= j < |old(subscribers)| ==> subscribers[j] == old(subscribers)[j]
    {
      subscribers := subscribers + [h];
    }

    /** `send_to(message, i)`: deliver to slot `i` only. */
    method SendTo<S>(heap: Heap<S, T>, m: T, i: nat) returns (r: Option<()>)
      requires heap.Valid() && IssuedBy(heap)
      modifies heap
      ensures heap.Valid() && heap.next == old(heap.next) && IssuedBy(heap)
      ensures (heap.cells, r) == SendToOutcome(old(heap.cells), subscribers, m, i)
      ensures r.Some? <==> i < |subscribers| && StatusOf(old(heap.cells), subscribers[i]) == Live
      ensures r.Some? ==> heap.cells == Notified(old(heap.cells), subscribers[i], m)
      ensures r.None? ==> heap.cells == old(heap.cells)
    {
      if i < |subscribers| {
        r := heap.LockAndNotify(subscribers[i], m);
      } else {
        r := None;
      }
    }

    /** `send_to_all(message)`: try every slot in order, count the deliveries. */
    method SendToAll<S>(heap: Heap<S, T>, m: T) returns (count: nat)
      requires heap.Valid() && IssuedBy(heap)
      modifies heap
      ensures heap.Valid() && heap.next == old(heap.next) && IssuedBy(heap)
      ensures count == |LiveSlots(old(heap.cells), subscribers, |subscribers|)|
      ensures heap.cells.Keys == old(heap.cells).Keys
      ensures forall h :: h in old(heap.cells) ==>
        heap.cells[h] == old(heap.cells)[h].(state := NotifiedTimes(old(heap.cells)[h].notify,
          old(heap.cells)[h].state, m, Registrations(old(heap.cells), subscribers, h)))
    {
      count := 0;
      var i := 0;
      while i < |subscribers|
        invariant 0 <= i <= |subscribers|
        invariant heap.Valid() && heap.next == old(heap.next) && IssuedBy(heap)
        invariant heap.cells == SendToAllUpTo(old(heap.cells), subscribers, m, i).cells
        invariant count == SendToAllUpTo(old(heap.cells), subscribers, m, i).count
      {
        var sent := SendTo(heap, m, i);
        if sent.Some? {
          count := count + 1;
        }
        i := i + 1;
      }
      SendToAllCalls(old(heap.cells), subscribers, m, |subscribers|);
      SendToAllEffect(old(heap.cells), subscribers, m, |subscribers|);
      forall h | h in old(heap.cells)
        ensures Hits(old(heap.cells), subscribers, h, |subscribers|) == Registrations(old(heap.cells), subscribers, h)
      {
        HitsCountsRegistrations(old(heap.cells), subscribers, h, |subscribers|);
        assert subscribers[..|subscribers|] == subscribers;
      }
    }
  }
}
