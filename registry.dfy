/** The dispatcher's registry as a value: a map from event name to the
    sequence of registrations for that name, and the pure updates that the
    dispatcher's methods perform on it. */
module Registry {
  import opened Seqs

  type EventName = string

  /** The identity of a listener function value. Removal compares listeners by
      the address of their code; this datatype stands for that address. */
  datatype ListenerId = ListenerId(address: nat)

  /** Conventional priorities; any integer is accepted. */
  const PriorityDefault: int := 0
  const PriorityLow: int := -1
  const PriorityHigh: int := 100

  /** One registration: a listener and the priority it was added with. */
  datatype Registration = Registration(listener: ListenerId, priority: int)

  type Listeners = map<EventName, seq<Registration>>

  /** Reading a name that was never registered yields the empty sequence. */
  function Lookup(m: Listeners, n: EventName): seq<Registration>
  {
    if n in m then m[n] else []
  }

  function ListenerOf(r: Registration): ListenerId
  {
    r.listener
  }

  /** The listener identities of a sequence of registrations, in order. */
  function Ids(rs: seq<Registration>): seq<ListenerId>
  {
    Map(ListenerOf, rs)
  }

  /** Ordering used by the sort: `a` goes before `b` when its priority is higher. */
  predicate Less(a: Registration, b: Registration)
  {
    a.priority > b.priority
  }

  /** Sorted with respect to Less: no later registration is Less than an earlier one. */
  predicate Sorted(s: seq<Registration>)
  {
    forall i, j :: 0 <= i < j < |s| ==> !Less(s[j], s[i])
  }

  /** Sorted with respect to Less means the priorities never increase. */
  lemma SortedIsNonIncreasing(s: seq<Registration>)
    ensures Sorted(s) <==> forall i, j :: 0 <= i < j < |s| ==> s[i].priority >= s[j].priority
  {
  }

  /** The first index whose listener is `l`, or -1 when there is none. */
  function IndexOf(s: seq<Registration>, l: ListenerId): (r: int)
    ensures -1 <= r < |s|
    ensures r == -1 <==> forall k :: 0 <= k < |s| ==> s[k].listener != l
    ensures r >= 0 ==> s[r].listener == l && forall k :: 0 <= k < r ==> s[k].listener != l
  {
    if s == [] then -1
    else if s[0].listener == l then 0
    else
      var r := IndexOf(s[1..], l);
      if r == -1 then -1 else r + 1
  }

  /** The registry after appending `r` to the sequence of `n`. */
  function AddTo(m: Listeners, n: EventName, r: Registration): Listeners
  {
    m[n := Lookup(m, n) + [r]]
  }

  /** The registry after removing the first registration of `l` under `n`
      by swap-with-last; unchanged when `l` is not registered under `n`. */
  function RemoveFrom(m: Listeners, n: EventName, l: ListenerId): Listeners
  {
    var s := Lookup(m, n);
    var i := IndexOf(s, l);
    if i == -1 then m else m[n := SwapRemove(s, i)]
  }

  lemma RemoveWithMatch(m: Listeners, n: EventName, l: ListenerId, j: nat)
    requires j < |Lookup(m, n)| && Lookup(m, n)[j].listener == l
    ensures var s, r, i := Lookup(m, n), Lookup(RemoveFrom(m, n, l), n), IndexOf(Lookup(m, n), l);
      && 0 <= i <= j
      && s[i].listener == l
      && (forall k :: 0 <= k < i ==> s[k].listener != l)
      && |r| == |s| - 1
      && (i < |r| ==> r[i] == s[|s| - 1])
      && (forall k :: 0 <= k < |r| && k != i ==> r[k] == s[k])
      && multiset(r) == multiset(s) - multiset{s[i]}
    ensures forall k :: k != n ==> Lookup(RemoveFrom(m, n, l), k) == Lookup(m, k)
  {
    SwapRemoveMultiset(Lookup(m, n), IndexOf(Lookup(m, n), l));
  }

  lemma RemoveWithoutMatch(m: Listeners, n: EventName, l: ListenerId)
    requires forall k :: 0 <= k < |Lookup(m, n)| ==> Lookup(m, n)[k].listener != l
    ensures RemoveFrom(m, n, l) == m
  {
  }

  /** Removal takes one copy of `l` out of the listener identities under `n`
      when there is one. */
  lemma RemoveFromIds(m: Listeners, n: EventName, l: ListenerId)
    ensures l in multiset(Ids(Lookup(m, n))) ==>
      multiset(Ids(Lookup(RemoveFrom(m, n, l), n))) == multiset(Ids(Lookup(m, n))) - multiset{l}
    ensures l !in multiset(Ids(Lookup(m, n))) ==> RemoveFrom(m, n, l) == m
  {
    var s := Lookup(m, n);
    var i := IndexOf(s, l);
    if l in multiset(Ids(s)) {
      var j :| 0 <= j < |Ids(s)| && Ids(s)[j] == l;
      assert s[j].listener == l;
      MapSwapRemove(ListenerOf, s, i);
      SwapRemoveMultiset(Ids(s), i);
    }
  }

  // ---------------------------------------------------------------------------
  // Subscribers

  /** One entry of a subscriber's declaration: listeners wanted under one name. */
  datatype Subscription = Subscription(name: EventName, listeners: seq<ListenerId>)

  /** What a subscriber declares: event names with the listeners it wants attached. */
  type Subscriber = seq<Subscription>

  /** The listeners a subscriber declares for name `n`, in declaration order. */
  function Declared(s: Subscriber, n: EventName): seq<ListenerId>
  {
    if s == [] then []
    else Declared(s[..|s| - 1], n) + (if s[|s| - 1].name == n then s[|s| - 1].listeners else [])
  }

  /** The (name, listener) pairs a subscription stands for, in order. */
  function PairsOf(sub: Subscription): seq<(EventName, ListenerId)>
  {
    Map((l: ListenerId) => (sub.name, l), sub.listeners)
  }

  /** All (name, listener) pairs of a subscriber, in the order the nested loops visit them. */
  function Pairs(s: Subscriber): seq<(EventName, ListenerId)>
  {
    if s == [] then [] else Pairs(s[..|s| - 1]) + PairsOf(s[|s| - 1])
  }

  /** The listeners paired with name `n` in `ps`, in order. */
  function ListenersFor(ps: seq<(EventName, ListenerId)>, n: EventName): seq<ListenerId>
  {
    if ps == [] then []
    else ListenersFor(ps[..|ps| - 1], n) + (if ps[|ps| - 1].0 == n then [ps[|ps| - 1].1] else [])
  }

  function DefaultRegistration(l: ListenerId): Registration
  {
    Registration(l, PriorityDefault)
  }

  /** The registrations a batch of default-priority additions creates. */
  function Defaults(ls: seq<ListenerId>): seq<Registration>
  {
    Map(DefaultRegistration, ls)
  }

  /** The registry after adding every pair of `ps`, in order, at the default priority. */
  function AddPairs(m: Listeners, ps: seq<(EventName, ListenerId)>): Listeners
  {
    if ps == [] then m
    else
      var p := ps[|ps| - 1];
      AddTo(AddPairs(m, ps[..|ps| - 1]), p.0, DefaultRegistration(p.1))
  }

  /** The registry after removing every pair of `ps`, in order. */
  function RemovePairs(m: Listeners, ps: seq<(EventName, ListenerId)>): Listeners
  {
    if ps == [] then m
    else
      var p := ps[|ps| - 1];
      RemoveFrom(RemovePairs(m, ps[..|ps| - 1]), p.0, p.1)
  }

  lemma {:induction false} ListenersForConcat(a: seq<(EventName, ListenerId)>, b: seq<(EventName, ListenerId)>, n: EventName)
    ensures ListenersFor(a + b, n) == ListenersFor(a, n) + ListenersFor(b, n)
    decreases |b|
  {
    if b != [] {
      var b' := b[..|b| - 1];
      assert (a + b)[..|a + b| - 1] == a + b';
      ListenersForConcat(a, b', n);
    } else {
      assert a + b == a;
    }
  }

  lemma {:induction false} ListenersForPairsOf(sub: Subscription, n: EventName)
    ensures ListenersFor(PairsOf(sub), n) == if sub.name == n then sub.listeners else []
    decreases |sub.listeners|
  {
    var ls := sub.listeners;
    if ls != [] {
      var sub' := Subscription(sub.name, ls[..|ls| - 1]);
      assert PairsOf(sub)[..|ls| - 1] == PairsOf(sub');
      ListenersForPairsOf(sub', n);
      assert ls == ls[..|ls| - 1] + [ls[|ls| - 1]];
    }
  }

  /** Flattening a subscriber into pairs keeps, for every name, the listeners it declares. */
  lemma {:induction false} PairsDeclared(s: Subscriber, n: EventName)
    ensures ListenersFor(Pairs(s), n) == Declared(s, n)
    decreases |s|
  {
    if s != [] {
      PairsDeclared(s[..|s| - 1], n);
      ListenersForConcat(Pairs(s[..|s| - 1]), PairsOf(s[|s| - 1]), n);
      ListenersForPairsOf(s[|s| - 1], n);
    }
  }

  /** Adding a batch of pairs appends, under each name, one default-priority
      registration per listener paired with that name, in order. */
  lemma {:induction false} AddPairsLookup(m: Listeners, ps: seq<(EventName, ListenerId)>, n: EventName)
    ensures Lookup(AddPairs(m, ps), n) == Lookup(m, n) + Defaults(ListenersFor(ps, n))
    decreases |ps|
  {
    if ps != [] {
      var ps' := ps[..|ps| - 1];
      var p := ps[|ps| - 1];
      AddPairsLookup(m, ps', n);
      MapConcat(DefaultRegistration, ListenersFor(ps', n), if p.0 == n then [p.1] else []);
    }
  }

  /** Removing a batch of pairs takes, under each name, one copy of every
      listener paired with that name out of the listener identities; a
      listener with no copy left is skipped, as removal does nothing then. */
  lemma {:induction false} RemovePairsIds(m: Listeners, ps: seq<(EventName, ListenerId)>, n: EventName)
    ensures multiset(Ids(Lookup(RemovePairs(m, ps), n)))
         == multiset(Ids(Lookup(m, n))) - multiset(ListenersFor(ps, n))
    decreases |ps|
  {
    if ps != [] {
      var ps' := ps[..|ps| - 1];
      var p := ps[|ps| - 1];
      ListenersForLast(ps, n);
      RemovePairsIds(m, ps', n);
      if p.0 == n {
        RemoveOneMore(RemovePairs(m, ps'), n, p.1,
          multiset(Ids(Lookup(m, n))), multiset(ListenersFor(ps', n)));
      } else {
        RemoveFromOtherName(RemovePairs(m, ps'), p.0, p.1, n);
      }
    }
  }

  /** Removal under one name leaves every other name as it was. */
  lemma RemoveFromOtherName(m: Listeners, n: EventName, l: ListenerId, k: EventName)
    requires k != n
    ensures Lookup(RemoveFrom(m, n, l), k) == Lookup(m, k)
  {
  }

  lemma ListenersForLast(ps: seq<(EventName, ListenerId)>, n: EventName)
    requires ps != []
    ensures multiset(ListenersFor(ps, n))
         == multiset(ListenersFor(ps[..|ps| - 1], n)) + if ps[|ps| - 1].0 == n then multiset{ps[|ps| - 1].1} else multiset{}
  {
  }

  lemma RemoveOneMore(before: Listeners, n: EventName, l: ListenerId, held: multiset<ListenerId>, taken: multiset<ListenerId>)
    requires multiset(Ids(Lookup(before, n))) == held - taken
    ensures multiset(Ids(Lookup(RemoveFrom(before, n, l), n))) == held - (taken + multiset{l})
  {
    MultisetTakeOne(held, taken, l);
    RemoveFromIds(before, n, l);
  }

  /** Adding a subscriber appends, under each name, one default-priority
      registration per listener it declares for that name. */
  lemma AddSubscriberLookup(m: Listeners, s: Subscriber, n: EventName)
    ensures Lookup(AddPairs(m, Pairs(s)), n) == Lookup(m, n) + Defaults(Declared(s, n))
    ensures |Lookup(AddPairs(m, Pairs(s)), n)| == |Lookup(m, n)| + |Declared(s, n)|
  {
    AddPairsLookup(m, Pairs(s), n);
    PairsDeclared(s, n);
  }

  /** Adding and then removing the same subscriber restores, under every name,
      the multiset of registered listeners, and so the number of registrations. */
  lemma SubscriberRoundTrip(m: Listeners, s: Subscriber, n: EventName)
    ensures multiset(Ids(Lookup(RemovePairs(AddPairs(m, Pairs(s)), Pairs(s)), n))) == multiset(Ids(Lookup(m, n)))
    ensures |Lookup(RemovePairs(AddPairs(m, Pairs(s)), Pairs(s)), n)| == |Lookup(m, n)|
  {
    var ps := Pairs(s);
    var added := AddPairs(m, ps);
    forall k ensures multiset(Ids(Lookup(added, k))) == multiset(Ids(Lookup(m, k))) + multiset(ListenersFor(ps, k)) {
      AddPairsLookup(m, ps, k);
      MapConcat(ListenerOf, Lookup(m, k), Defaults(ListenersFor(ps, k)));
      assert Ids(Defaults(ListenersFor(ps, k))) == ListenersFor(ps, k);
    }
    RemovePairsIds(added, ps, n);
    var final := Lookup(RemovePairs(added, ps), n);
    assert |Ids(final)| == |multiset(Ids(final))| == |multiset(Ids(Lookup(m, n)))| == |Ids(Lookup(m, n))|;
  }

  /** Removing a subscriber takes, under each name, one copy of each declared
      listener out of the registry, as far as there are copies to take. */
  lemma RemoveSubscriberIds(m: Listeners, s: Subscriber, n: EventName)
    ensures multiset(Ids(Lookup(RemovePairs(m, Pairs(s)), n))) == multiset(Ids(Lookup(m, n))) - multiset(Declared(s, n))
  {
    RemovePairsIds(m, Pairs(s), n);
    PairsDeclared(s, n);
  }

  /** The pairs the nested loops over a subscriber have visited before
      listener j of subscription i. */
  ghost function Visited(s: Subscriber, i: nat, j: nat): seq<(EventName, ListenerId)>
    requires i < |s| && j <= |s[i].listeners|
  {
    Pairs(s[..i]) + PairsOf(Subscription(s[i].name, s[i].listeners[..j]))
  }

  lemma VisitedStart(s: Subscriber, i: nat)
    requires i < |s|
    ensures Visited(s, i, 0) == Pairs(s[..i])
  {
    assert PairsOf(Subscription(s[i].name, s[i].listeners[..0])) == [];
  }

  lemma VisitedStep(s: Subscriber, i: nat, j: nat)
    requires i < |s| && j < |s[i].listeners|
    ensures Visited(s, i, j + 1) == Visited(s, i, j) + [(s[i].name, s[i].listeners[j])]
  {
    var sub := s[i];
    assert PairsOf(Subscription(sub.name, sub.listeners[..j + 1]))
        == PairsOf(Subscription(sub.name, sub.listeners[..j])) + [(sub.name, sub.listeners[j])];
  }

  lemma VisitedEnd(s: Subscriber, i: nat)
    requires i < |s|
    ensures Visited(s, i, |s[i].listeners|) == Pairs(s[..i + 1])
  {
    assert s[i].listeners[..|s[i].listeners|] == s[i].listeners;
    assert s[..i + 1][..i] == s[..i];
  }

  lemma AddPairsSnoc(m: Listeners, ps: seq<(EventName, ListenerId)>, p: (EventName, ListenerId))
    ensures AddPairs(m, ps + [p]) == AddTo(AddPairs(m, ps), p.0, Registration(p.1, PriorityDefault))
  {
    assert (ps + [p])[..|ps|] == ps;
  }

  lemma RemovePairsSnoc(m: Listeners, ps: seq<(EventName, ListenerId)>, p: (EventName, ListenerId))
    ensures RemovePairs(m, ps + [p]) == RemoveFrom(RemovePairs(m, ps), p.0, p.1)
  {
    assert (ps + [p])[..|ps|] == ps;
  }

  // ---------------------------------------------------------------------------
  // What the unstable sort leaves open

  function PriorityOf(r: Registration): int
  {
    r.priority
  }

  predicate NonIncreasing(x: seq<int>)
  {
    forall i, j :: 0 <= i < j < |x| ==> x[i] >= x[j]
  }

  /** A non-increasing sequence of integers is determined by its multiset. */
  lemma {:induction false} NonIncreasingUnique(x: seq<int>, y: seq<int>)
    requires NonIncreasing(x) && NonIncreasing(y)
    requires multiset(x) == multiset(y)
    ensures x == y
    decreases |x|
  {
    if x == [] {
      assert |y| == |multiset(y)| == 0;
    } else {
      assert y[0] >= x[0] by {
        assert x[0] in y by { assert x[0] in multiset(y); }
        var k :| 0 <= k < |y| && y[k] == x[0];
      }
      assert x[0] >= y[0] by {
        assert y[0] in x by { assert y[0] in multiset(x); }
        var k :| 0 <= k < |x| && x[k] == y[0];
      }
      assert multiset(x[1..]) == multiset(y[1..]) by {
        assert x == [x[0]] + x[1..];
        assert y == [y[0]] + y[1..];
        AddCancel(multiset(x[1..]), multiset(y[1..]), x[0]);
      }
      NonIncreasingUnique(x[1..], y[1..]);
      assert x == [x[0]] + x[1..];
    }
  }

  /** Any two sorted arrangements of the same registrations agree on the
      priority at every position: only the order among equal priorities is left open. */
  lemma SortedPrioritiesDetermined(s: seq<Registration>, t: seq<Registration>)
    requires Sorted(s) && Sorted(t)
    requires multiset(s) == multiset(t)
    ensures Map(PriorityOf, s) == Map(PriorityOf, t)
  {
    MapPermutation(PriorityOf, s, t);
    NonIncreasingUnique(Map(PriorityOf, s), Map(PriorityOf, t));
  }
}
