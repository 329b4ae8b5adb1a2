/** Client scenarios of the dispatcher: what a caller can conclude from the
    contracts of its methods alone. */
module Example {
  import opened Registry
  import opened Event

  datatype User = User(id: int, login: string, email: string)
  datatype UserEvent = UserEvent(user: User)

  const UserCreated: EventName := "user.created"

  /** The subscriber's two methods and the inline closure of the demo program. */
  const DoSomething := ListenerId(1)
  const SendActiveEmail := ListenerId(2)
  const PrintEvent := ListenerId(3)

  /** The demo program: a subscriber attaches two listeners at the default
      priority, a closure is added at the high priority, and one event is
      dispatched. The closure runs first; the other two run after it, once
      each, in either order. */
  method UserCreatedDemo() returns (trace: seq<Call<UserEvent>>)
    ensures |trace| == 3
    ensures trace[0] == Call(PrintEvent, UserEvent(User(1, "twm", "test@example.com")), UserCreated)
    ensures multiset(trace[1..]) == multiset{
      Call(DoSomething, UserEvent(User(1, "twm", "test@example.com")), UserCreated),
      Call(SendActiveEmail, UserEvent(User(1, "twm", "test@example.com")), UserCreated)}
  {
    var d := new Dispatcher();
    var evt := UserEvent(User(1, "twm", "test@example.com"));
    var low1, low2 := Registration(DoSomething, PriorityDefault), Registration(SendActiveEmail, PriorityDefault);
    var high := Registration(PrintEvent, PriorityHigh);
    d.AddSubscriber(UserSubscriber);
    assert Lookup(d.listeners, UserCreated) == [low1, low2] by {
      UserSubscriberDeclares();
    }
    d.AddListener(UserCreated, PrintEvent, PriorityHigh);
    trace := d.Dispatch(UserCreated, evt);
    HighestFirstTrace(trace, Lookup(d.listeners, UserCreated), low1, low2, high, evt, UserCreated);
  }

  /** The demo subscriber: both of its methods under the user-created event. */
  const UserSubscriber: Subscriber := [Subscription(UserCreated, [DoSomething, SendActiveEmail])]

  lemma UserSubscriberDeclares()
    ensures Defaults(Declared(UserSubscriber, UserCreated))
         == [Registration(DoSomething, PriorityDefault), Registration(SendActiveEmail, PriorityDefault)]
  {
    assert UserSubscriber[..0] == [];
    assert Declared(UserSubscriber, UserCreated) == [DoSomething, SendActiveEmail];
  }

  /** The calls made for the sorted registrations of HighestFirst. */
  lemma HighestFirstTrace<E>(trace: seq<Call<E>>, sorted: seq<Registration>,
                             low1: Registration, low2: Registration, high: Registration, e: E, n: EventName)
    requires Sorted(sorted)
    requires multiset(sorted) == multiset{low1, low2, high}
    requires low1.priority < high.priority && low2.priority < high.priority
    requires |trace| == |sorted|
    requires forall i :: 0 <= i < |trace| ==> trace[i] == Call(sorted[i].listener, e, n)
    ensures |trace| == 3 && trace[0] == Call(high.listener, e, n)
    ensures multiset(trace[1..]) == multiset{Call(low1.listener, e, n), Call(low2.listener, e, n)}
  {
    HighestFirst(sorted, low1, low2, high);
    var c1, c2 := Call(low1.listener, e, n), Call(low2.listener, e, n);
    assert trace[1..] == [trace[1], trace[2]];
    if sorted[1] == low1 {
      assert trace[1..] == [c1, c2];
    } else {
      assert trace[1..] == [c2, c1];
    }
  }

  /** Sorting two default-priority registrations and one high-priority one puts
      the high one first and the other two after it, in either order. */
  lemma HighestFirst(sorted: seq<Registration>, low1: Registration, low2: Registration, high: Registration)
    requires Sorted(sorted)
    requires multiset(sorted) == multiset{low1, low2, high}
    requires low1.priority < high.priority && low2.priority < high.priority
    ensures |sorted| == 3 && sorted[0] == high
    ensures sorted[1..] == [low1, low2] || sorted[1..] == [low2, low1]
  {
    assert |sorted| == |multiset(sorted)| == 3;
    var a, b, c := sorted[0], sorted[1], sorted[2];
    assert sorted == [a, b, c];
    assert multiset{a, b, c} == multiset{low1, low2, high};
    // the high registration is one of the three, so the first one has at
    // least its priority, and of the three only the high one has that
    assert high in multiset{a, b, c};
    assert !Less(b, a) && !Less(c, a);
    assert a in multiset{low1, low2, high};
    assert a == high;
    Seqs.AddCancel(multiset{b, c}, multiset{low1, low2}, high);
    assert b in multiset{low1, low2};
    if b == low1 {
      Seqs.AddCancel(multiset{c}, multiset{low2}, low1);
    } else {
      Seqs.AddCancel(multiset{c}, multiset{low1}, low2);
    }
  }

  const OrderPaid: EventName := "order.paid"

  /** A subscriber declaring two listeners for one name: attaching it makes the
      name have listeners, detaching it again leaves the name without any. */
  method OrderPaidRoundTrip() returns (before: bool, attached: bool, detached: bool)
    ensures !before && attached && !detached
  {
    var d := new Dispatcher();
    var s := [Subscription(OrderPaid, [ListenerId(1), ListenerId(2)])];
    before := d.HasListeners(OrderPaid);
    d.AddSubscriber(s);
    assert Declared(s, OrderPaid) == [ListenerId(1), ListenerId(2)];
    attached := d.HasListeners(OrderPaid);
    d.RemoveSubscriber(s);
    SubscriberRoundTrip(map[], s, OrderPaid);
    detached := d.HasListeners(OrderPaid);
  }
}
