/** The event dispatcher: a registry of prioritised listeners per event name,
    updated in place by its methods. */
module Event {
  import opened Seqs
  import opened Registry

  /** One listener invocation made by Dispatch: the listener, the event value
      and the event name it receives. */
  datatype Call<E> = Call(listener: ListenerId, event: E, name: EventName)

  /** The calls made when the registrations `rs` are invoked in order. */
  function Calls<E>(rs: seq<Registration>, e: E, n: EventName): seq<Call<E>>
  {
    Map((r: Registration) => Call(r.listener, e, n), rs)
  }

  /** Sorts the array in place so that higher priorities come first. Equal
      priorities may end up in any order. */
  method SortByPriority(a: array<Registration>)
    modifies a
    ensures Sorted(a[..])
    ensures multiset(a[..]) == multiset(old(a[..]))
  {
    var i := 0;
    while i < a.Length
      invariant 0 <= i <= a.Length
      invariant Sorted(a[..i])
      invariant multiset(a[..]) == multiset(old(a[..]))
    {
      InsertBackward(a, i);
      i := i + 1;
    }
    assert a[..a.Length] == a[..];
  }

  /** Moves a[i] left past every registration it is Less than, so that a sorted
      prefix of length i becomes a sorted prefix of length i + 1. */
  method InsertBackward(a: array<Registration>, i: nat)
    requires i < a.Length
    requires Sorted(a[..i])
    modifies a
    ensures Sorted(a[..i + 1])
    ensures multiset(a[..]) == multiset(old(a[..]))
  {
    var j := i;
    while j > 0 && Less(a[j], a[j - 1])
      invariant 0 <= j <= i
      invariant forall p, q :: 0 <= p < q <= i && p != j && q != j ==> !Less(a[q], a[p])
      invariant forall q :: j < q <= i ==> !Less(a[q], a[j])
      invariant multiset(a[..]) == multiset(old(a[..]))
    {
      Swap(a, j - 1, j);
      j := j - 1;
    }
  }

  /** Exchanges two elements, the only step by which the sort rearranges the array. */
  method Swap(a: array<Registration>, i: nat, j: nat)
    requires i < a.Length && j < a.Length
    modifies a
    ensures a[..] == old(a[..])[i := old(a[j])][j := old(a[i])]
    ensures multiset(a[..]) == multiset(old(a[..]))
  {
    a[i], a[j] := a[j], a[i];
  }

  class Dispatcher {
    /** Event name to the registrations under it, in their current order. */
    var listeners: Listeners

    /** A dispatcher with an empty registry. */
    constructor ()
      ensures listeners == map[]
      ensures forall n :: !HasListeners(n)
    {
      listeners := map[];
    }

    /** Whether any listener is registered under `n`. */
    function HasListeners(n: EventName): (b: bool)
      reads this
      ensures b <==> Lookup(listeners, n) != []
    {
      |Lookup(listeners, n)| > 0
    }

    /** Appends one registration; the same listener may be added any number of times. */
    method AddListener(n: EventName, l: ListenerId, priority: int)
      modifies this
      ensures listeners == AddTo(old(listeners), n, Registration(l, priority))
      ensures Lookup(listeners, n) == Lookup(old(listeners), n) + [Registration(l, priority)]
      ensures forall k :: k != n ==> Lookup(listeners, k) == Lookup(old(listeners), k)
    {
      listeners := listeners[n := Lookup(listeners, n) + [Registration(l, priority)]];
    }

    /** Removes the first registration of `l` under `n`, moving the last
        registration into its place; does nothing when `l` is not registered. */
    method RemoveListener(n: EventName, l: ListenerId)
      modifies this
      ensures listeners == RemoveFrom(old(listeners), n, l)
      ensures (forall k :: 0 <= k < |Lookup(old(listeners), n)| ==> Lookup(old(listeners), n)[k].listener != l)
          ==> listeners == old(listeners)
    {
      var index := -1;
      var ls := Lookup(listeners, n);
      var i := 0;
      while i < |ls|
        invariant 0 <= i <= |ls|
        invariant forall k :: 0 <= k < i ==> ls[k].listener != l
      {
        if ls[i].listener == l {
          index := i;
          break;
        }
        i := i + 1;
      }
      assert index == IndexOf(ls, l);
      if index == -1 {
        return;
      }
      ls := ls[index := ls[|ls| - 1]];
      listeners := listeners[n := ls[..|ls| - 1]];
    }

    /** Sorts the registrations of `n` in place by descending priority and
        returns them; a name never registered stays absent. */
    method SortedListeners(n: EventName) returns (sorted: seq<Registration>)
      modifies this
      ensures Sorted(sorted)
      ensures multiset(sorted) == multiset(Lookup(old(listeners), n))
      ensures n in old(listeners) ==> listeners == old(listeners)[n := sorted]
      ensures n !in old(listeners) ==> listeners == old(listeners) && sorted == []
      ensures sorted == Lookup(listeners, n)
    {
      if n !in listeners {
        return [];
      }
      var ls := listeners[n];
      var a := new Registration[|ls|](k requires 0 <= k < |ls| => ls[k]);
      assert a[..] == ls;
      SortByPriority(a);
      sorted := a[..];
      listeners := listeners[n := sorted];
    }

    /** Invokes every registration of `n` once, highest priority first, passing
        `e` and `n`; the result is the sequence of invocations made. */
    method Dispatch<E>(n: EventName, e: E) returns (trace: seq<Call<E>>)
      modifies this
      ensures Sorted(Lookup(listeners, n))
      ensures multiset(Lookup(listeners, n)) == multiset(Lookup(old(listeners), n))
      ensures n in old(listeners) ==> listeners == old(listeners)[n := Lookup(listeners, n)]
      ensures n !in old(listeners) ==> listeners == old(listeners)
      ensures |trace| == |Lookup(listeners, n)|
      ensures forall i :: 0 <= i < |trace| ==> trace[i] == Call(Lookup(listeners, n)[i].listener, e, n)
      ensures multiset(trace) == multiset(Calls(Lookup(old(listeners), n), e, n))
    {
      var sorted := SortedListeners(n);
      ghost var after := listeners;
      trace := [];
      for i := 0 to |sorted|
        invariant listeners == after
        invariant trace == Calls(sorted[..i], e, n)
      {
        assert sorted[..i + 1] == sorted[..i] + [sorted[i]];
        MapConcat((r: Registration) => Call(r.listener, e, n), sorted[..i], [sorted[i]]);
        trace := trace + [Call(sorted[i].listener, e, n)];
      }
      assert sorted[..|sorted|] == sorted;
      MapPermutation((r: Registration) => Call(r.listener, e, n), sorted, Lookup(old(listeners), n));
    }

    /** Adds every listener the subscriber declares, at the default priority. */
    method AddSubscriber(s: Subscriber)
      modifies this
      ensures listeners == AddPairs(old(listeners), Pairs(s))
      ensures forall n :: Lookup(listeners, n) == Lookup(old(listeners), n) + Defaults(Declared(s, n))
    {
      ghost var start := listeners;
      for i := 0 to |s|
        invariant listeners == AddPairs(start, Pairs(s[..i]))
      {
        var sub := s[i];
        VisitedStart(s, i);
        for j := 0 to |sub.listeners|
          invariant listeners == AddPairs(start, Visited(s, i, j))
        {
          AddListener(sub.name, sub.listeners[j], PriorityDefault);
          VisitedStep(s, i, j);
          AddPairsSnoc(start, Visited(s, i, j), (sub.name, sub.listeners[j]));
        }
        VisitedEnd(s, i);
      }
      assert s[..|s|] == s;
      forall n ensures Lookup(listeners, n) == Lookup(start, n) + Defaults(Declared(s, n)) {
        AddSubscriberLookup(start, s, n);
      }
    }

    /** Removes, for every listener the subscriber declares, one registration of
        it; a declared listener that is not registered is skipped. */
    method RemoveSubscriber(s: Subscriber)
      modifies this
      ensures listeners == RemovePairs(old(listeners), Pairs(s))
      ensures forall n :: multiset(Ids(Lookup(listeners, n))) == multiset(Ids(Lookup(old(listeners), n))) - multiset(Declared(s, n))
    {
      ghost var start := listeners;
      for i := 0 to |s|
        invariant listeners == RemovePairs(start, Pairs(s[..i]))
      {
        var sub := s[i];
        VisitedStart(s, i);
        for j := 0 to |sub.listeners|
          invariant listeners == RemovePairs(start, Visited(s, i, j))
        {
          RemoveListener(sub.name, sub.listeners[j]);
          VisitedStep(s, i, j);
          RemovePairsSnoc(start, Visited(s, i, j), (sub.name, sub.listeners[j]));
        }
        VisitedEnd(s, i);
      }
      assert s[..|s|] == s;
      forall n ensures multiset(Ids(Lookup(listeners, n))) == multiset(Ids(Lookup(start, n))) - multiset(Declared(s, n)) {
        RemoveSubscriberIds(start, s, n);
      }
    }
  }
}
