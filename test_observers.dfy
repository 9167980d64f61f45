/**
 * The two observers of src/lib.rs's tests and the test scenario. Both observer
 * types have the same fields, an output string and a notification counter;
 * they differ only in how `notify` rewrites the output.
 */
module TestObservers {
  import opened Wrappers
  import opened Observables

  /** `MyMessage::Msg(&str)`. */
  datatype Message = Msg(text: string)

  /** The fields of `BeforeObserver` and of `AfterObserver`. */
  datatype Fields = Fields(output: string, counter: nat)

  /** `#[derive(Default)]`: empty output, counter zero. */
  function Default(): (r: Fields)
    ensures r.output == [] && r.counter == 0
  {
    Fields("", 0)
  }

  /** `BeforeObserver::notify`: counter up by one, output `"{s}, World"`. */
  function BeforeNotify(o: Fields, e: Message): (r: Fields)
    ensures r.counter == o.counter + 1
    ensures r.output == e.text + ", World"
  {
    match e
    case Msg(s) => Fields(s + ", World", o.counter + 1)
  }

  /** `AfterObserver::notify`: counter up by one, output `"Hello, {s}"`. */
  function AfterNotify(o: Fields, e: Message): (r: Fields)
    ensures r.counter == o.counter + 1
    ensures r.output == "Hello, " + e.text
  {
    match e
    case Msg(s) => Fields("Hello, " + s, o.counter + 1)
  }

  /** `k` notifications of a `BeforeObserver` add `k` to its counter and leave
      the output of the message, unless there were none. */
  lemma {:induction false} BeforeNotifiedTimes(o: Fields, e: Message, k: nat)
    ensures NotifiedTimes(BeforeNotify, o, e, k)
      == if k == 0 then o else Fields(e.text + ", World", o.counter + k)
  {
    if k > 0 {
      BeforeNotifiedTimes(o, e, k - 1);
    }
  }

  /** `k` notifications of an `AfterObserver` add `k` to its counter and leave
      the output of the message, unless there were none. */
  lemma {:induction false} AfterNotifiedTimes(o: Fields, e: Message, k: nat)
    ensures NotifiedTimes(AfterNotify, o, e, k)
      == if k == 0 then o else Fields("Hello, " + e.text, o.counter + k)
  {
    if k > 0 {
      AfterNotifiedTimes(o, e, k - 1);
    }
  }

  /** The first delivery of `test_observable`: `send_to_all(Msg("1"))` with
      only the `BeforeObserver` registered. */
  method DeliverFirst(heap: Heap<Fields, Message>, observable: Observable<Message>, ob1: Handle)
    requires heap.Valid() && heap.cells == map[ob1 := Cell(false, Default(), BeforeNotify)]
    requires observable.subscribers == [ob1]
    modifies heap
    ensures heap.Valid() && heap.next == old(heap.next)
    ensures heap.cells == map[ob1 := Cell(false, Fields("1, World", 1), BeforeNotify)]
  {
    assert "1" + ", World" == "1, World";
    assert multiset([ob1])[ob1] == 1;
    assert NotifiedTimes(BeforeNotify, Default(), Msg("1"), 1) == Fields("1, World", 1);
    assert ob1 in heap.cells;
    var _ := observable.SendToAll(heap, Msg("1"));
  }

  /** What the second broadcast of `test_observable` does to each observer:
      both are registered once, so each is notified once. */
  lemma SecondBroadcast(c: Cells<Fields, Message>, ob1: Handle, ob2: Handle)
    requires ob1 != ob2
    requires c == map[ob1 := Cell(false, Fields("1, World", 1), BeforeNotify),
                      ob2 := Cell(false, Default(), AfterNotify)]
    ensures Registrations(c, [ob1, ob2], ob1) == 1 && Registrations(c, [ob1, ob2], ob2) == 1
    ensures NotifiedTimes(c[ob1].notify, c[ob1].state, Msg("2"), 1) == Fields("2, World", 2)
    ensures NotifiedTimes(c[ob2].notify, c[ob2].state, Msg("2"), 1) == Fields("Hello, 2", 1)
  {
    assert "2" + ", World" == "2, World" && "Hello, " + "2" == "Hello, 2";
    assert multiset([ob1, ob2])[ob1] == 1 && multiset([ob1, ob2])[ob2] == 1;
  }

  /** The second delivery: `send_to_all(Msg("2"))` with both observers
      registered. */
  method DeliverSecond(heap: Heap<Fields, Message>, observable: Observable<Message>, ob1: Handle, ob2: Handle)
    requires ob1 != ob2
    requires heap.Valid()
    requires heap.cells == map[ob1 := Cell(false, Fields("1, World", 1), BeforeNotify),
                               ob2 := Cell(false, Default(), AfterNotify)]
    requires observable.subscribers == [ob1, ob2]
    modifies heap
    ensures heap.Valid() && heap.next == old(heap.next)
    ensures heap.cells == map[ob1 := Cell(false, Fields("2, World", 2), BeforeNotify),
                              ob2 := Cell(false, Fields("Hello, 2", 1), AfterNotify)]
  {
    SecondBroadcast(heap.cells, ob1, ob2);
    assert ob1 in heap.cells && ob2 in heap.cells;
    var _ := observable.SendToAll(heap, Msg("2"));
    assert heap.cells[ob1] == Cell(false, Fields("2, World", 2), BeforeNotify);
    assert heap.cells[ob2] == Cell(false, Fields("Hello, 2", 1), AfterNotify);
    assert heap.cells.Keys == {ob1, ob2};
  }

  /** The third delivery: `send_to(Msg("3"), 1)` reaches the `AfterObserver`
      only. */
  method DeliverThird(heap: Heap<Fields, Message>, observable: Observable<Message>, ob1: Handle, ob2: Handle)
    requires ob1 != ob2
    requires heap.Valid()
    requires heap.cells == map[ob1 := Cell(false, Fields("2, World", 2), BeforeNotify),
                               ob2 := Cell(false, Fields("Hello, 2", 1), AfterNotify)]
    requires observable.subscribers == [ob1, ob2]
    modifies heap
    ensures heap.Valid() && heap.next == old(heap.next)
    ensures heap.cells == map[ob1 := Cell(false, Fields("2, World", 2), BeforeNotify),
                              ob2 := Cell(false, Fields("Hello, 3", 2), AfterNotify)]
  {
    assert "Hello, " + "3" == "Hello, 3";
    assert ob1 in heap.cells && ob2 in heap.cells;
    var sent := observable.SendTo(heap, Msg("3"), 1);
    assert sent.Some?;
  }

  /** `test_observable`: what each of its three blocks of assertions reads
      through the observers' locks. */
  method TestObservable() returns (first: Option<Fields>, second1: Option<Fields>, second2: Option<Fields>,
                                   third1: Option<Fields>, third2: Option<Fields>)
    ensures first == Some(Fields("1, World", 1))
    ensures second1 == Some(Fields("2, World", 2)) && second2 == Some(Fields("Hello, 2", 1))
    ensures third1 == Some(Fields("2, World", 2)) && third2 == Some(Fields("Hello, 3", 2))
  {
    var heap := new Heap<Fields, Message>();
    var observable := new Observable<Message>();

    var ob1 := heap.Share(Default(), BeforeNotify);
    observable.Register(heap, ob1);
    assert observable.subscribers == [ob1];
    DeliverFirst(heap, observable, ob1);
    first := heap.Inspect(ob1);

    var ob2 := heap.Share(Default(), AfterNotify);
    observable.Register(heap, ob2);
    assert observable.subscribers == [ob1, ob2];
    DeliverSecond(heap, observable, ob1, ob2);
    second1 := heap.Inspect(ob1);
    second2 := heap.Inspect(ob2);

    DeliverThird(heap, observable, ob1, ob2);
    third1 := heap.Inspect(ob1);
    third2 := heap.Inspect(ob2);
  }

  /** An observable with no registrations delivers to nobody. */
  method EmptyScenario() returns (n: nat)
    ensures n == 0
  {
    var heap := new Heap<Fields, Message>();
    var observable := new Observable<Message>();
    n := observable.SendToAll(heap, Msg("m"));
  }

  /** An observer whose last owner dropped it is skipped without failure. */
  method DroppedScenario() returns (n: nat)
    ensures n == 0
  {
    var heap := new Heap<Fields, Message>();
    var observable := new Observable<Message>();
    var ob := heap.Share(Default(), BeforeNotify);
    observable.Register(heap, ob);
    heap.Drop(ob);
    n := observable.SendToAll(heap, Msg("m"));
  }
}
