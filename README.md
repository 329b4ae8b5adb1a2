# Event dispatcher: a verified Dafny model

This project models the in-process event dispatcher of `go-event-dispatcher`,
found in `event/dispatcher.go`. The dispatcher keeps a registry. The registry
maps each event name to a sequence of registrations. A registration is a
listener together with an integer priority. The dispatcher's operations are:

- `AddListener` appends a registration.
- `RemoveListener` finds the first registration of a listener and deletes it
  by moving the last registration into its slot.
- `SortedListeners` sorts a name's registrations in place, highest priority
  first, and returns them.
- `HasListeners` says whether a name has any registrations.
- `Dispatch` invokes the sorted listeners one after another.
- `AddSubscriber` and `RemoveSubscriber` apply `AddListener` (at the default
  priority) or `RemoveListener` to every pair of event name and listener that
  a subscriber declares.

The model has four modules:

- `Seqs` (`seqs.dfy`): element-wise mapping of sequences, swap-with-last
  removal, and their multiset facts.
- `Registry` (`registry.dfy`): the registry as a value. It holds the
  registration and listener-identity types, the priority constants
  (`PriorityDefault` = 0, `PriorityLow` = -1, `PriorityHigh` = 100), the sort
  order, the pure updates each method performs, and the lemmas about them.
- `Event` (`dispatcher.dfy`): the `Dispatcher` class. Its field `listeners`
  is updated in place by the methods. Each method's loop mirrors the Go loop,
  and its `ensures` ties the new registry to the pure update in `Registry`.
  The sort is an insertion sort over an `array`, which is rearranged only by
  swaps.
- `Example` (`example.dfy`): the demo program of `example/example.go`, plus a
  subscriber round trip, both proved from the method contracts alone.

A listener is represented by `ListenerId`, an opaque value compared by
equality. It stands for the code address that the source compares through
reflection. `Dispatch` returns the sequence of calls it makes. Each call is
written `Call(listener, event, name)`. The event type is a type parameter,
because the dispatcher never inspects the event.

The model follows the code in these respects:

- Removal is by listener identity; there is no registration handle.
- The sort is unstable. The model fixes only the priority at each position
  (`SortedPrioritiesDetermined`) and leaves the order of equal priorities
  open.
- `SortedListeners` sorts the stored sequence itself and stores the result
  back; it does not sort a copy.
- Removal by swap-with-last changes the order of the other registrations of
  that name: the last one moves into the freed slot.
- Removing a listener that is not registered does nothing. So removing a
  subscriber twice, or one never added, is accepted, and only the listeners
  still registered are taken out.

Because removal takes the first registration of a listener, removing a
subscriber can take away an older registration of the same listener that had
a different priority. For that reason the round-trip lemma promises that
every name gets back the same multiset of listeners, and so the same number
of registrations. It does not promise the same priorities.

## Model

| member | source | states |
|---|---|---|
| `Registry.SortedIsNonIncreasing` | event/dispatcher.go:39-41 | being sorted under the sorter's ordering (no later registration has a higher priority than an earlier one) is the same as having non-increasing priorities |
| `Registry.IndexOf` | event/dispatcher.go:65-72 | the result is -1 exactly when no registration has the listener; otherwise it is the index of the first registration that has it |
| `Seqs.SwapRemove` | event/dispatcher.go:76-77 | the result is one shorter than the input; the former last element sits at the removed index; every other index keeps its element |
| `Seqs.SwapRemoveMultiset` | event/dispatcher.go:76-77 | swap-remove takes exactly one copy of the removed element out of the multiset |
| `Registry.RemoveWithMatch` | event/dispatcher.go:65-77 | when some registration of `n` has `l`, removal deletes the first such index, at or before any given match; the sequence is one shorter, the last element fills that index, all other indices keep their element, the multiset loses exactly that registration, and other names are unchanged |
| `Registry.RemoveWithoutMatch` | event/dispatcher.go:73-75 | when no registration of `n` has `l`, removal leaves the whole registry unchanged |
| `Registry.RemoveFromIds` | event/dispatcher.go:62-78 | removal takes one copy of `l` out of the listeners of `n` when `l` is there; otherwise the registry is unchanged |
| `Registry.RemoveFromOtherName` | event/dispatcher.go:76-77 | removal under one name leaves every other name as it was |
| `Registry.PairsDeclared` | event/dispatcher.go:95-96 | flattening a subscriber into (name, listener) pairs, in loop order, keeps the listeners declared for every name, in order |
| `Registry.AddPairsLookup` | event/dispatcher.go:94-100 | adding a batch of pairs appends, under each name, one default-priority registration per listener paired with it, in order |
| `Registry.AddSubscriberLookup` | event/dispatcher.go:94-100 | adding a subscriber appends, under each name, one default-priority registration per declared listener, so each count grows by the number of listeners declared for that name |
| `Registry.RemovePairsIds` | event/dispatcher.go:102-108 | removing a batch of pairs takes one copy of each paired listener out of the listeners of its name, for any registry; a listener with no copy left is skipped (multiset difference stops at zero) |
| `Registry.RemoveSubscriberIds` | event/dispatcher.go:102-108 | removing any subscriber, whether or not its listeners are registered, takes one copy of each declared listener out of the listeners of its name, as far as copies remain |
| `Registry.SubscriberRoundTrip` | event/dispatcher.go:94-108 | adding and then removing the same subscriber restores the multiset of listeners under every name, and so the number of registrations |
| `Registry.NonIncreasingUnique` | event/dispatcher.go:84 | a non-increasing sequence of integers is determined by its multiset |
| `Registry.SortedPrioritiesDetermined` | event/dispatcher.go:80-86 | any two sorted arrangements of the same registrations have the same priority at every position, so only the order among equal priorities is left open |
| `Event.Swap` | event/dispatcher.go:35-37 | exchanges the elements at any two in-range indices, in either order or equal, and changes nothing else, so the multiset is kept |
| `Event.InsertBackward` | event/dispatcher.go:84 | turns a sorted prefix of length i into a sorted prefix of length i + 1 and keeps the multiset of the array |
| `Event.SortByPriority` | event/dispatcher.go:83-84 | the array ends up sorted by descending priority and is a permutation of what it held |
| `Event.Dispatcher.constructor` | event/dispatcher.go:20-24 | a new dispatcher has an empty registry, and no name has listeners |
| `Event.Dispatcher.HasListeners` | event/dispatcher.go:88-92 | true exactly when the sequence of `n` is non-empty; a name never registered has none |
| `Event.Dispatcher.AddListener` | event/dispatcher.go:53-60 | appends exactly `(l, priority)` at the end of the sequence of `n`, with no deduplication; every other name is unchanged |
| `Event.Dispatcher.RemoveListener` | event/dispatcher.go:62-78 | the new registry is the first-match swap-remove of `l` under `n`, and is unchanged when no registration of `n` has `l` |
| `Event.Dispatcher.SortedListeners` | event/dispatcher.go:80-86 | returns a permutation of the registrations of `n` with non-increasing priorities; the stored sequence of `n` becomes exactly the returned one; other names are unchanged; a name never registered stays absent and yields the empty sequence |
| `Event.Dispatcher.Dispatch` | event/dispatcher.go:47-51 | makes one call per registration of the sorted sequence, in that order, each passing the event and the name; the calls are a permutation of one call per original registration; no registrations means no calls |
| `Event.Dispatcher.AddSubscriber` | event/dispatcher.go:94-100 | the registry becomes the result of adding every declared pair in loop order; each name gets one default-priority registration per declared listener, appended in order |
| `Event.Dispatcher.RemoveSubscriber` | event/dispatcher.go:102-108 | the registry becomes the result of removing every declared pair in loop order; each name loses one copy of each listener declared for it, as far as copies remain; absent ones are skipped |
| `Example.HighestFirst` | event/dispatcher.go:39-41 | sorting two lower-priority registrations and one higher-priority one puts the higher one first and the other two after it, in either order |
| `Example.HighestFirstTrace` | event/dispatcher.go:47-51 | the dispatch of those three registrations calls the higher one first and the other two once each after it |
| `Example.UserSubscriberDeclares` | example/example.go:36-40 | the demo subscriber declares its two methods, in order, under the user-created event |
| `Example.UserCreatedDemo` | example/example.go:42-56 | in the demo, the high-priority closure is called first, and the subscriber's two listeners are called after it, once each |
| `Example.OrderPaidRoundTrip` | event/dispatcher.go:88-108 | a name has no listeners before a subscriber is attached, has some while it is attached, and has none again after it is detached |

## Left out

- The `sync.RWMutex` locking at event/dispatcher.go:16 and around each method is left out. It only serialises concurrent callers, so each method is modelled as one atomic step.
- The reflection-based comparison of function pointers at event/dispatcher.go:68 is replaced by equality on `ListenerId`. `ListenerId` stands for the code address itself, so two closures or method values that share code get the same `ListenerId`, and the model matches listeners as Go does.
- The algorithm of Go's `sort.Sort` is not modelled. `SortByPriority` is an insertion sort of the model's own that meets the same contract: sorted and a permutation, with ties in no specified order.
- What listeners do when they are called is not modelled, nor whether they panic. `Dispatch` returns only the trace of calls. A listener that changes the dispatcher while it is being dispatched is therefore not modelled either.
- The returned slice shares its backing array with the registry. In Go, a later `RemoveListener` (line 76) can overwrite an element of a slice that `SortedListeners` returned earlier, even while `Dispatch` is iterating over it. The model returns a value sequence equal to the stored one and does not capture this aliasing.
- The iteration order of the Go map returned by `SubscribedEvent` is not modelled. A subscriber is a sequence of `Subscription(name, listeners)` entries, and the batch methods visit them in sequence order. The per-name results do not depend on the order across names.
- Go's `int` is 64 bits wide. Priorities are only compared, never computed with, so the unbounded `int` of the model behaves the same.
- The printing bodies of the demo listeners in example/example.go are not modelled. The demo is modelled only as the order of its calls.

