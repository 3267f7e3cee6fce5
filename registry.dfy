/** The sandbox's event registry, as values: a map from event name to the
    ordered list of subscribers, what `on` does to it, and which calls `fire`
    makes.  Subscriber callbacks are opaque and seen only through an id. */
module Registry {

  /** A subscriber callback, known only by its identity. */
  type SubscriberId = nat

  /** The registry: event name to subscribers, in registration order. */
  type Events = map<string, seq<SubscriberId>>

  /** One call `fn(params)` made by `fire`: the event whose list it came from,
      the subscriber called, and the argument it was given. */
  datatype Invocation<P> = Invocation(event: string, subscriber: SubscriberId, payload: P)

  /** One `on(event, fn)` call. */
  datatype Registration = Registration(event: string, subscriber: SubscriberId)

  /** The registry after `on(event, fn)`: `fn` goes to the end of the list
      of a registered name; an unregistered name gets the list `[fn]`. */
  function Subscribe(events: Events, event: string, fn: SubscriberId): (r: Events)
    ensures r.Keys == events.Keys + {event}
    ensures event in events ==> r[event] == events[event] + [fn]
    ensures event !in events ==> r[event] == [fn]
    ensures forall e :: e in events && e != event ==> r[e] == events[e]
  {
    if event in events then events[event := events[event] + [fn]]
    else events[event := [fn]]
  }

  /** The calls `subscribers.forEach(fn => fn(payload))` makes, first subscriber first. */
  function Invocations<P>(event: string, subscribers: seq<SubscriberId>, payload: P): seq<Invocation<P>>
  {
    if subscribers == [] then []
    else [Invocation(event, subscribers[0], payload)] + Invocations(event, subscribers[1..], payload)
  }

  /** The calls `fire(event, payload)` makes: none for a name with no entry. */
  function Dispatch<P>(events: Events, event: string, payload: P): seq<Invocation<P>>
  {
    if event in events then Invocations(event, events[event], payload) else []
  }

  /** `fire` calls each subscriber once per registration, in registration
      order, each with the identical payload. */
  lemma {:induction false} InvocationsInOrder<P>(event: string, subscribers: seq<SubscriberId>, payload: P)
    ensures |Invocations(event, subscribers, payload)| == |subscribers|
    ensures forall i :: 0 <= i < |subscribers| ==>
              Invocations(event, subscribers, payload)[i] == Invocation(event, subscribers[i], payload)
  {
    if subscribers != [] {
      InvocationsInOrder(event, subscribers[1..], payload);
    }
  }

  /** Calling the subscribers of `a + b` is calling those of `a`, then those of `b`. */
  lemma {:induction false} InvocationsAppend<P>(event: string, a: seq<SubscriberId>, b: seq<SubscriberId>, payload: P)
    ensures Invocations(event, a + b, payload) == Invocations(event, a, payload) + Invocations(event, b, payload)
  {
    if a != [] {
      calc {
        Invocations(event, a + b, payload);
        { assert (a + b)[0] == a[0] && (a + b)[1..] == a[1..] + b; }
        [Invocation(event, a[0], payload)] + Invocations(event, a[1..] + b, payload);
        { InvocationsAppend(event, a[1..], b, payload); }
        Invocations(event, a, payload) + Invocations(event, b, payload);
      }
    } else {
      assert a + b == b;
    }
  }

  /** After `on(event, fn)`, `fire(event, p)` makes the calls it made before
      and then calls `fn`; firing any other name is unaffected. */
  lemma DispatchAfterSubscribe<P>(events: Events, event: string, fn: SubscriberId, other: string, payload: P)
    ensures Dispatch(Subscribe(events, event, fn), event, payload)
            == Dispatch(events, event, payload) + [Invocation(event, fn, payload)]
    ensures other != event ==>
            Dispatch(Subscribe(events, event, fn), other, payload) == Dispatch(events, other, payload)
  {
    var before := if event in events then events[event] else [];
    InvocationsAppend(event, before, [fn], payload);
    assert Subscribe(events, event, fn)[event] == before + [fn];
  }

  /** The registry after a series of `on` calls, applied in order. */
  function SubscribeAll(events: Events, registrations: seq<Registration>): Events
  {
    if registrations == [] then events
    else
      var last := registrations[|registrations| - 1];
      Subscribe(SubscribeAll(events, registrations[..|registrations| - 1]), last.event, last.subscriber)
  }

  /** The subscribers of `event` among `registrations`, in registration order. */
  function SubscribersOf(registrations: seq<Registration>, event: string): seq<SubscriberId>
  {
    if registrations == [] then []
    else
      var last := registrations[|registrations| - 1];
      SubscribersOf(registrations[..|registrations| - 1], event)
        + (if last.event == event then [last.subscriber] else [])
  }

  /** For any series of `on` calls followed by one `fire(event, p)`: the calls
      made are those made before the series, then every subscriber the series
      registered for `event`, in registration order, with payload `p`. */
  lemma {:induction false} DispatchAfterRegistrations<P>(events: Events, registrations: seq<Registration>, event: string, payload: P)
    ensures Dispatch(SubscribeAll(events, registrations), event, payload)
            == Dispatch(events, event, payload) + Invocations(event, SubscribersOf(registrations, event), payload)
  {
    if registrations == [] {
      assert Dispatch(events, event, payload) + [] == Dispatch(events, event, payload);
    } else {
      var init := registrations[..|registrations| - 1];
      var last := registrations[|registrations| - 1];
      DispatchAfterRegistrations(events, init, event, payload);
      DispatchAfterSubscribe(SubscribeAll(events, init), last.event, last.subscriber, event, payload);
      var added := if last.event == event then [last.subscriber] else [];
      InvocationsAppend(event, SubscribersOf(init, event), added, payload);
      if last.event != event {
        assert Invocations(event, added, payload) == [];
      }
    }
  }
}
