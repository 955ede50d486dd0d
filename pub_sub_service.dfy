/**
 * The typed publish/subscribe bus `PubSubService`.
 *
 * Event types are tags and handlers are ids; a multicast delegate is the
 * ordered list of handler ids it would invoke, and a missing table entry
 * stands for a null delegate. `Publish` returns the invocation trace instead
 * of running handler code. The coroutine waiters reduce to one release
 * condition on the per-type counters, checked once per frame by every waiter.
 */
module PubSub {
  import opened Wrappers

  /** The reflection `Type` of an event struct, as a number that identifies it. */
  type TypeTag = nat
  /** A registered delegate (its target and method), as a number that identifies it. */
  type HandlerId = nat
  /** The event value handed to parameterized handlers. */
  type Payload = string

  /** A multicast delegate per event type; an absent key is a null delegate. */
  type Table = map<TypeTag, seq<HandlerId>>

  /** One handler call made by `Publish`: parameterized handlers get the
      event, parameterless ones get nothing. */
  datatype Invocation = Invoke(handler: HandlerId, data: Option<Payload>)

  /** The invocation list registered for `tag`, empty when there is none. */
  function Handlers(t: Table, tag: TypeTag): seq<HandlerId>
  {
    if tag in t then t[tag] else []
  }

  /** No entry holds an empty invocation list: removal drops an entry whose
      delegate became null. */
  ghost predicate NoEmptyLists(t: Table)
  {
    forall tag :: tag in t ==> t[tag] != []
  }

  // ---------------------------------------------------------------------------
  // Delegate.Combine and Delegate.Remove

  /** Registration: the entry is created on first use, and otherwise the
      handler is appended after the ones already registered (`+=`,
      `Delegate.Combine`); every other entry is left alone. */
  function Subscribed(t: Table, tag: TypeTag, h: HandlerId): (r: Table)
    ensures r.Keys == t.Keys + {tag}
    ensures Handlers(r, tag) == Handlers(t, tag) + [h]
    ensures forall other :: other != tag ==> Handlers(r, other) == Handlers(t, other)
    ensures NoEmptyLists(t) ==> NoEmptyLists(r)
  {
    t[tag := Handlers(t, tag) + [h]]
  }

  /** The index of the last occurrence of `h` in `s`, or -1. */
  function LastIndexOf(s: seq<HandlerId>, h: HandlerId): (k: int)
    ensures -1 <= k < |s|
    ensures k >= 0 ==> s[k] == h
    ensures forall j :: k < j < |s| ==> s[j] != h
  {
    if s == [] then -1
    else if s[|s| - 1] == h then |s| - 1
    else LastIndexOf(s[..|s| - 1], h)
  }

  /** `Delegate.Remove` of a single handler: its last occurrence leaves the
      invocation list, and a handler that is not there changes nothing. */
  function RemoveLast(s: seq<HandlerId>, h: HandlerId): (r: seq<HandlerId>)
    ensures h !in s ==> r == s
    ensures h in s ==> |r| == |s| - 1
    ensures multiset(r) == multiset(s) - multiset{h}
    ensures h in s ==> exists k {:trigger s[k]} :: 0 <= k < |s| && s[k] == h && h !in s[k + 1..] && r == s[..k] + s[k + 1..]
  {
    var k := LastIndexOf(s, h);
    if k < 0 then s
    else
      assert s == s[..k] + [s[k]] + s[k + 1..];
      s[..k] + s[k + 1..]
  }

  /** Unregistration: one registration of `h` is removed and the entry is
      dropped when its list becomes empty; an absent entry is left alone. */
  function Unsubscribed(t: Table, tag: TypeTag, h: HandlerId): (r: Table)
    ensures multiset(Handlers(r, tag)) == multiset(Handlers(t, tag)) - multiset{h}
    ensures forall other :: other != tag ==> Handlers(r, other) == Handlers(t, other)
    ensures tag !in t ==> r == t
    ensures NoEmptyLists(t) ==> NoEmptyLists(r)
    ensures tag in r ==> r[tag] != []
  {
    if tag !in t then t
    else
      var rest := RemoveLast(t[tag], h);
      if rest == [] then t - {tag} else t[tag := rest]
  }

  lemma RemoveLastOfAppended(s: seq<HandlerId>, h: HandlerId)
    ensures RemoveLast(s + [h], h) == s
  {
    assert LastIndexOf(s + [h], h) == |s|;
    assert (s + [h])[..|s|] + (s + [h])[|s| + 1..] == s;
  }

  /** Removing a handler right after registering it restores the table
      exactly, including the absence of an entry that registration created. */
  lemma UnsubscribeUndoesSubscribe(t: Table, tag: TypeTag, h: HandlerId)
    requires NoEmptyLists(t)
    ensures Unsubscribed(Subscribed(t, tag, h), tag, h) == t
  {
    RemoveLastOfAppended(Handlers(t, tag), h);
    if tag in t {
      UndoOnPresentEntry(t, tag, h);
    } else {
      UndoOnAbsentEntry(t, tag, h);
    }
  }

  lemma UndoOnPresentEntry(t: Table, tag: TypeTag, h: HandlerId)
    requires tag in t && t[tag] != [] && RemoveLast(t[tag] + [h], h) == t[tag]
    ensures Unsubscribed(Subscribed(t, tag, h), tag, h) == t
  {
    var added := t[tag := t[tag] + [h]];
    assert Subscribed(t, tag, h) == added;
    assert Unsubscribed(added, tag, h) == added[tag := t[tag]];
  }

  lemma UndoOnAbsentEntry(t: Table, tag: TypeTag, h: HandlerId)
    requires tag !in t
    ensures Unsubscribed(Subscribed(t, tag, h), tag, h) == t
  {
    var added := t[tag := [h]];
    assert Handlers(t, tag) + [h] == [h];
    assert Subscribed(t, tag, h) == added;
    assert LastIndexOf([h], h) == 0;
    assert RemoveLast([h], h) == [h][..0] + [h][1..] == [];
    assert Unsubscribed(added, tag, h) == added - {tag};
  }

  /** The number of times `h` occurs in `s`. */
  function Count(s: seq<HandlerId>, h: HandlerId): nat
  {
    multiset(s)[h]
  }

  /** Each registration adds one occurrence, each unregistration of a present
      handler takes one away: registering twice and removing once leaves one. */
  lemma RegistrationsAccumulate(t: Table, tag: TypeTag, h: HandlerId)
    ensures Count(Handlers(Subscribed(t, tag, h), tag), h) == Count(Handlers(t, tag), h) + 1
    ensures Count(Handlers(Unsubscribed(Subscribed(Subscribed(t, tag, h), tag, h), tag, h), tag), h)
         == Count(Handlers(t, tag), h) + 1
  {
    var once := Subscribed(t, tag, h);
    var twice := Subscribed(once, tag, h);
    assert multiset(Handlers(once, tag)) == multiset(Handlers(t, tag)) + multiset{h};
    assert multiset(Handlers(twice, tag)) == multiset(Handlers(once, tag)) + multiset{h};
  }

  /** A registration made under one tag and a removal made under another do
      not interfere: either order gives the same table. */
  lemma SubscribeCommutesWithUnsubscribe(t: Table, a: TypeTag, h: HandlerId, b: TypeTag, g: HandlerId)
    requires a != b
    ensures Unsubscribed(Subscribed(t, a, h), b, g) == Subscribed(Unsubscribed(t, b, g), a, h)
  {
    var list := Handlers(t, a) + [h];
    if b in t {
      var rest := RemoveLast(t[b], g);
      var removed := if rest == [] then t - {b} else t[b := rest];
      assert Unsubscribed(t, b, g) == removed;
      assert Subscribed(t, a, h) == t[a := list];
      assert Handlers(removed, a) == Handlers(t, a);
      var left := if rest == [] then t[a := list] - {b} else t[a := list][b := rest];
      assert Unsubscribed(t[a := list], b, g) == left;
      assert left == removed[a := list];
    }
  }

  // ---------------------------------------------------------------------------
  // Publish

  /** Calling a multicast delegate: every handler of `list`, in registration
      order, each with `data`. */
  function Notify(list: seq<HandlerId>, data: Option<Payload>): (r: seq<Invocation>)
    ensures |r| == |list|
    ensures forall i :: 0 <= i < |list| ==> r[i] == Invoke(list[i], data)
  {
    if list == [] then [] else [Invoke(list[0], data)] + Notify(list[1..], data)
  }

  /** The handlers named by a trace, in call order. */
  function Called(trace: seq<Invocation>): (r: seq<HandlerId>)
    ensures |r| == |trace|
    ensures forall i :: 0 <= i < |trace| ==> r[i] == trace[i].handler
  {
    if trace == [] then [] else [trace[0].handler] + Called(trace[1..])
  }

  lemma {:induction false} CalledOverConcat(a: seq<Invocation>, b: seq<Invocation>)
    ensures Called(a + b) == Called(a) + Called(b)
  {
    if a == [] {
      assert a + b == b;
    } else {
      assert (a + b)[0] == a[0] && (a + b)[1..] == a[1..] + b;
      CalledOverConcat(a[1..], b);
    }
  }

  lemma NotifyCallsList(list: seq<HandlerId>, data: Option<Payload>)
    ensures Called(Notify(list, data)) == list
  {
  }

  /** The trace of a `Publish` of `tag` with `data`. */
  function PublishTrace(parameterized: Table, parameterless: Table, tag: TypeTag, data: Payload): seq<Invocation>
  {
    Notify(Handlers(parameterized, tag), Some(data)) + Notify(Handlers(parameterless, tag), None)
  }

  /** A handler is called once per registration it holds for the published
      type, counting both tables. */
  lemma PublishCallsOncePerRegistration(parameterized: Table, parameterless: Table, tag: TypeTag, data: Payload, h: HandlerId)
    ensures Count(Called(PublishTrace(parameterized, parameterless, tag, data)), h)
         == Count(Handlers(parameterized, tag), h) + Count(Handlers(parameterless, tag), h)
  {
    var p := Notify(Handlers(parameterized, tag), Some(data));
    var q := Notify(Handlers(parameterless, tag), None);
    CalledOverConcat(p, q);
    NotifyCallsList(Handlers(parameterized, tag), Some(data));
    NotifyCallsList(Handlers(parameterless, tag), None);
  }

  /** Registering a parameterless handler and publishing calls it exactly once
      more than before; removing it again brings the count back. */
  lemma RegisterPublishUnregister(parameterized: Table, parameterless: Table, tag: TypeTag, data: Payload, h: HandlerId)
    requires NoEmptyLists(parameterless)
    ensures Count(Called(PublishTrace(parameterized, Subscribed(parameterless, tag, h), tag, data)), h)
         == Count(Called(PublishTrace(parameterized, parameterless, tag, data)), h) + 1
    ensures PublishTrace(parameterized, Unsubscribed(Subscribed(parameterless, tag, h), tag, h), tag, data)
         == PublishTrace(parameterized, parameterless, tag, data)
  {
    PublishCallsOncePerRegistration(parameterized, Subscribed(parameterless, tag, h), tag, data, h);
    PublishCallsOncePerRegistration(parameterized, parameterless, tag, data, h);
    RegistrationsAccumulate(parameterless, tag, h);
    UnsubscribeUndoesSubscribe(parameterless, tag, h);
  }

  // ---------------------------------------------------------------------------
  // Coroutine events: 32-bit counters of armed waiters

  const INT_MIN: int := -0x8000_0000
  const INT_MAX: int := 0x7FFF_FFFF

  /** `++` on a C# `int` in an unchecked context: wraps at the top. */
  function Inc32(c: int): (r: int)
    requires INT_MIN <= c <= INT_MAX
    ensures INT_MIN <= r <= INT_MAX
    ensures c < INT_MAX ==> r == c + 1
    ensures c == INT_MAX ==> r == INT_MIN
  {
    if c == INT_MAX then INT_MIN else c + 1
  }

  ghost predicate Int32Counters(events: map<TypeTag, int>)
  {
    forall tag :: tag in events ==> INT_MIN <= events[tag] <= INT_MAX
  }

  /** `RegisterCoroutineListener`: the first waiter of a type creates its
      counter at 1, each further one increments it. */
  function Armed(events: map<TypeTag, int>, tag: TypeTag): (r: map<TypeTag, int>)
    requires Int32Counters(events)
    ensures Int32Counters(r)
    ensures r.Keys == events.Keys + {tag}
    ensures tag !in events ==> r[tag] == 1
    ensures tag in events && events[tag] < INT_MAX ==> r[tag] == events[tag] + 1
    ensures forall other :: other in events && other != tag ==> r[other] == events[other]
  {
    if tag in events then events[tag := Inc32(events[tag])] else events[tag := 1]
  }

  /** `PublishCoroutineEvent`: resets an existing counter to 0 and leaves a
      never-armed type without one. */
  function Signalled(events: map<TypeTag, int>, tag: TypeTag): (r: map<TypeTag, int>)
    ensures r.Keys == events.Keys
    ensures tag in events ==> r[tag] == 0
    ensures forall other :: other in events && other != tag ==> r[other] == events[other]
  {
    if tag in events then events[tag := 0] else events
  }

  /** The exit condition of `WaitForEventCoroutine`'s polling loop: the counter
      exists and is no longer positive. Every waiter of the type checks the
      same condition on the same frame, so they are released together. */
  predicate WaitOver(events: map<TypeTag, int>, tag: TypeTag)
  {
    tag in events && !(events[tag] > 0)
  }

  /** Bus operations that touch the counters. */
  datatype CounterOp = Arm(tag: TypeTag) | Signal(tag: TypeTag)

  function Counters(events: map<TypeTag, int>, ops: seq<CounterOp>): map<TypeTag, int>
    requires Int32Counters(events)
    ensures Int32Counters(Counters(events, ops))
  {
    if ops == [] then events
    else
      var before := Counters(events, ops[..|ops| - 1]);
      match ops[|ops| - 1]
      case Arm(t) => Armed(before, t)
      case Signal(t) => Signalled(before, t)
  }

  /** The last operation in `ops` on `tag`, if any. */
  function LastOpOn(ops: seq<CounterOp>, tag: TypeTag): Option<CounterOp>
  {
    if ops == [] then None
    else if ops[|ops| - 1].tag == tag then Some(ops[|ops| - 1])
    else LastOpOn(ops[..|ops| - 1], tag)
  }

  /** Counters start non-negative and are far enough from the top that `n`
      more increments cannot wrap them. */
  ghost predicate RoomFor(events: map<TypeTag, int>, n: nat)
  {
    n < INT_MAX && forall tag :: tag in events ==> 0 <= events[tag] && events[tag] + n < INT_MAX
  }

  lemma {:induction false} RoomShrinks(events: map<TypeTag, int>, ops: seq<CounterOp>, n: nat)
    requires Int32Counters(events) && RoomFor(events, n + |ops|)
    ensures RoomFor(Counters(events, ops), n)
  {
    if ops != [] {
      RoomShrinks(events, ops[..|ops| - 1], n + 1);
    }
  }

  /** A type has a counter exactly when it had one at the start or was armed. */
  lemma {:induction false} CounterKeys(events: map<TypeTag, int>, ops: seq<CounterOp>, tag: TypeTag)
    requires Int32Counters(events)
    ensures tag in Counters(events, ops) <==> tag in events || Arm(tag) in ops
  {
    if ops != [] {
      var p := ops[..|ops| - 1];
      CounterKeys(events, p, tag);
      assert ops == p + [ops[|ops| - 1]];
    }
  }

  /**
   * What a waiter of `tag` sees when it checks on a frame: released exactly
   * when the last operation on `tag` was a publish and the type had been
   * armed at some point (or already had a counter). A waiter armed after
   * the publish therefore waits for the next one; and a publish before any
   * arming releases nobody, so a later waiter does not see a stale zero.
   * No overflow is assumed.
   */
  lemma {:induction false} ReleaseFollowsLastOperation(events: map<TypeTag, int>, ops: seq<CounterOp>, tag: TypeTag)
    requires Int32Counters(events) && RoomFor(events, |ops|)
    ensures WaitOver(Counters(events, ops), tag) <==>
      match LastOpOn(ops, tag)
      case None => WaitOver(events, tag)
      case Some(op) => op.Signal? && (tag in events || Arm(tag) in ops)
  {
    if ops != [] {
      var p := ops[..|ops| - 1];
      var last := ops[|ops| - 1];
      assert ops == p + [last];
      RoomShrinks(events, p, 1);
      CounterKeys(events, p, tag);
      if last.tag != tag {
        RoomShrinks(events, p, 0);
        ReleaseFollowsLastOperation(events, p, tag);
      }
    }
  }

  /** Arming a waiter whose counter has not reached the top keeps it waiting
      on its first check. */
  lemma ArmedWaiterWaits(events: map<TypeTag, int>, tag: TypeTag)
    requires Int32Counters(events)
    requires tag in events ==> 0 <= events[tag] < INT_MAX
    ensures !WaitOver(Armed(events, tag), tag)
  {
  }

  /** Arming the 2^31-th waiter without a publish wraps the counter negative,
      which the polling loop reads as "published": every waiter of the type is
      released. */
  lemma CounterWrapReleasesWaiters(events: map<TypeTag, int>, tag: TypeTag)
    requires Int32Counters(events)
    requires tag in events && events[tag] == INT_MAX
    ensures WaitOver(Armed(events, tag), tag)
  {
  }

  /**
   * A waiter armed before a publish is not released if another waiter of the
   * same type is armed before its next check: the publish's zero is
   * overwritten by the new waiter's 1.
   */
  lemma LateArmHoldsEarlierWaiter(events: map<TypeTag, int>, tag: TypeTag)
    requires Int32Counters(events)
    ensures WaitOver(Signalled(Armed(events, tag), tag), tag)
    ensures !WaitOver(Armed(Signalled(Armed(events, tag), tag), tag), tag)
  {
  }

  // ---------------------------------------------------------------------------
  // The service

  class PubSubService {
    /** `_parameterizedSubscribers`. */
    var parameterized: Table
    /** `_nonParameterizedSubscribers`. */
    var parameterless: Table
    /** `_events`: armed-waiter counters. */
    var events: map<TypeTag, int>

    ghost predicate Valid()
      reads this
    {
      NoEmptyLists(parameterized) && NoEmptyLists(parameterless) && Int32Counters(events)
    }

    constructor ()
      ensures Valid()
      ensures parameterized == map[] && parameterless == map[] && events == map[]
    {
      parameterized, parameterless, events := map[], map[], map[];
    }

    /** Registers a parameterless handler. */
    method RegisterListener(tag: TypeTag, action: HandlerId)
      requires Valid()
      modifies this`parameterless
      ensures Valid()
      ensures parameterless == Subscribed(old(parameterless), tag, action)
    {
      if tag !in parameterless {
        assert Handlers(parameterless, tag) + [action] == [action];
        parameterless := parameterless[tag := [action]];
      } else {
        parameterless := parameterless[tag := parameterless[tag] + [action]];
      }
    }

    /** Registers a parameterized handler. */
    method RegisterParameterizedListener(tag: TypeTag, action: HandlerId)
      requires Valid()
      modifies this`parameterized
      ensures Valid()
      ensures parameterized == Subscribed(old(parameterized), tag, action)
    {
      if tag in parameterized {
        parameterized := parameterized[tag := parameterized[tag] + [action]];
      } else {
        assert Handlers(parameterized, tag) + [action] == [action];
        parameterized := parameterized[tag := [action]];
      }
    }

    /** Arms one waiter of `tag`; the waiter itself is the polling loop whose
        exit condition is `WaitForEvent`. */
    method RegisterCoroutineListener(tag: TypeTag)
      requires Valid()
      modifies this`events
      ensures Valid()
      ensures events == Armed(old(events), tag)
    {
      if tag !in events {
        events := events[tag := 1];
      } else {
        events := events[tag := Inc32(events[tag])];
      }
    }

    /** Removes one registration of a parameterless handler. */
    method UnregisterListener(tag: TypeTag, action: HandlerId)
      requires Valid()
      modifies this`parameterless
      ensures Valid()
      ensures parameterless == Unsubscribed(old(parameterless), tag, action)
    {
      if tag in parameterless {
        var remaining := RemoveLast(parameterless[tag], action);
        if remaining == [] {
          parameterless := parameterless - {tag};
        } else {
          parameterless := parameterless[tag := remaining];
        }
      }
    }

    /** Removes one registration of a parameterized handler. */
    method UnregisterParameterizedListener(tag: TypeTag, action: HandlerId)
      requires Valid()
      modifies this`parameterized
      ensures Valid()
      ensures parameterized == Unsubscribed(old(parameterized), tag, action)
    {
      if tag in parameterized {
        var remaining := RemoveLast(parameterized[tag], action);
        if remaining == [] {
          parameterized := parameterized - {tag};
        } else {
          parameterized := parameterized[tag := remaining];
        }
      }
    }

    /** Calls every parameterized handler of `tag` with the event, then every
        parameterless one, each list in registration order. */
    method Publish(tag: TypeTag, eventToPublish: Payload) returns (trace: seq<Invocation>)
      ensures trace == PublishTrace(parameterized, parameterless, tag, eventToPublish)
      ensures |trace| == |Handlers(parameterized, tag)| + |Handlers(parameterless, tag)|
      ensures forall i :: 0 <= i < |Handlers(parameterized, tag)| ==>
        trace[i] == Invoke(Handlers(parameterized, tag)[i], Some(eventToPublish))
      ensures forall i :: 0 <= i < |Handlers(parameterless, tag)| ==>
        trace[|Handlers(parameterized, tag)| + i] == Invoke(Handlers(parameterless, tag)[i], None)
    {
      trace := [];
      if tag in parameterized {
        trace := Notify(parameterized[tag], Some(eventToPublish));
      }
      if tag in parameterless {
        trace := trace + Notify(parameterless[tag], None);
      }
    }

    /** Releases every armed waiter of `tag`; a type never armed is left
        without a counter. */
    method PublishCoroutineEvent(tag: TypeTag)
      modifies this`events
      ensures events == Signalled(old(events), tag)
      ensures Int32Counters(old(events)) ==> Int32Counters(events)
    {
      if tag !in events {
        return;
      }
      events := events[tag := 0];
    }

    /** One check of a waiter's polling loop: it stops waiting once the type
        has a counter and that counter is no longer positive. */
    predicate WaitForEvent(tag: TypeTag): (released: bool)
      reads this
      ensures released <==> tag in events && events[tag] <= 0
    {
      WaitOver(events, tag)
    }
  }
}
