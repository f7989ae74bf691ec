/** The publish/subscribe hub of lib/EventTransmitter.ts.

    Listeners are kept per event type, in subscription order, duplicates
    allowed; `unsubscribe` removes every occurrence of a listener, and
    `dispatchEvent` calls each listener of a type in order. Listener
    functions are opaque and compared by identity, so they are identifiers
    here, and a call is recorded as a delivery. */
module Events {

  /** The identity of a listener function (`!==` compares references). */
  type ListenerId = nat

  /** The `listeners` object: event type to its array of listeners. */
  type Registry = map<string, seq<ListenerId>>

  /** A call of `listener` with the dispatched data. */
  datatype Delivery<D> = Delivery(listener: ListenerId, data: D)

  /** What `dispatchEvent` returns: `false` for a type never subscribed to,
      `undefined` once the type has an array, even an empty one. */
  datatype DispatchResult = NoListeners | Dispatched

  /** What `unsubscribe` does: replace the array, or throw the TypeError of
      calling `filter` on `undefined`. */
  datatype Removal = Replaced(registry: Registry) | TypeError

  /** The function `subscribe` returns, which unsubscribes what it subscribed. */
  datatype Unsubscriber = Unsubscriber(eventType: string, listener: ListenerId)

  /** The array under `t`, or none. */
  function ListenersOf(reg: Registry, t: string): seq<ListenerId>
  {
    if t in reg then reg[t] else []
  }

  /** `xs.filter(l => l !== listener)`. */
  function Without(xs: seq<ListenerId>, listener: ListenerId): (r: seq<ListenerId>)
    ensures listener !in r
  {
    if xs == [] then []
    else (if xs[0] == listener then [] else [xs[0]]) + Without(xs[1..], listener)
  }

  /** The filter keeps every other listener as often as it occurs, and drops
      every occurrence of `listener`. */
  lemma {:induction false} WithoutCounts(xs: seq<ListenerId>, listener: ListenerId)
    ensures multiset(Without(xs, listener)) == multiset(xs)[listener := 0]
  {
    if xs != [] {
      WithoutCounts(xs[1..], listener);
      assert xs == [xs[0]] + xs[1..];
    }
  }

  /** The filter keeps the order of what it keeps: it distributes over concatenation. */
  lemma {:induction false} WithoutConcat(a: seq<ListenerId>, b: seq<ListenerId>, listener: ListenerId)
    ensures Without(a + b, listener) == Without(a, listener) + Without(b, listener)
  {
    if a != [] {
      assert (a + b)[0] == a[0] && (a + b)[1..] == a[1..] + b;
      WithoutConcat(a[1..], b, listener);
      var head := if a[0] == listener then [] else [a[0]];
      assert Without(a + b, listener) == head + Without(a[1..] + b, listener);
      assert head + (Without(a[1..], listener) + Without(b, listener))
          == (head + Without(a[1..], listener)) + Without(b, listener);
    } else {
      assert a + b == b;
    }
  }

  /** A listener that is not there is not removed: the filter changes nothing. */
  lemma {:induction false} WithoutAbsent(xs: seq<ListenerId>, listener: ListenerId)
    requires listener !in xs
    ensures Without(xs, listener) == xs
  {
    if xs != [] {
      assert xs[0] != listener;
      WithoutAbsent(xs[1..], listener);
      assert xs == [xs[0]] + xs[1..];
    }
  }

  /** `subscribe(t, listener)`: create the array if missing, then push. */
  function Subscribed(reg: Registry, t: string, listener: ListenerId): (r: Registry)
    ensures r.Keys == reg.Keys + {t}
    ensures |r[t]| == |ListenersOf(reg, t)| + 1 && listener in r[t]
  {
    reg[t := ListenersOf(reg, t) + [listener]]
  }

  /** `unsubscribe(t, listener)`. */
  function Unsubscribed(reg: Registry, t: string, listener: ListenerId): (r: Removal)
    ensures r.TypeError? <==> t !in reg
    ensures r.Replaced? ==> r.registry.Keys == reg.Keys && listener !in r.registry[t]
  {
    if t !in reg then TypeError else Replaced(reg[t := Without(reg[t], listener)])
  }

  /** The calls `dispatchEvent(t, data)` makes, and what it returns. */
  function Dispatch<D>(reg: Registry, t: string, data: D): (r: (DispatchResult, seq<Delivery<D>>))
    ensures r.0 == NoListeners <==> t !in reg
    ensures |r.1| == |ListenersOf(reg, t)|
    ensures forall j :: 0 <= j < |r.1| ==> r.1[j] == Delivery(ListenersOf(reg, t)[j], data)
  {
    if t !in reg then (NoListeners, [])
    else (Dispatched, seq(|reg[t]|, j requires 0 <= j < |reg[t]| => Delivery(reg[t][j], data)))
  }

  /** Subscribing adds one occurrence of the listener at the end of its type's
      array and touches no other type. */
  lemma SubscribeAppends(reg: Registry, t: string, listener: ListenerId, u: string)
    ensures var r := Subscribed(reg, t, listener);
      && t in r && r[t][..|r[t]| - 1] == ListenersOf(reg, t) && r[t][|r[t]| - 1] == listener
      && (u != t ==> ListenersOf(r, u) == ListenersOf(reg, u) && (u in r <==> u in reg))
  {
  }

  /** Unsubscribing a listener that was subscribed once, just before, restores
      the registry, except that a type first created by that subscription
      stays behind with an empty array. */
  lemma SubscribeUnsubscribe(reg: Registry, t: string, listener: ListenerId)
    requires listener !in ListenersOf(reg, t)
    ensures Unsubscribed(Subscribed(reg, t, listener), t, listener)
      == Replaced(if t in reg then reg else reg[t := []])
  {
    WithoutConcat(ListenersOf(reg, t), [listener], listener);
    WithoutAbsent(ListenersOf(reg, t), listener);
    assert [listener][1..] == [];
    assert Without([listener], listener) == [];
    assert ListenersOf(reg, t) + [] == ListenersOf(reg, t);
    if t in reg {
      assert reg[t := reg[t]] == reg;
    }
  }

  /** The array left behind by the round trip makes a later dispatch return
      `undefined` and call nobody, where before it returned `false`. */
  lemma RoundTripDispatch<D>(reg: Registry, t: string, listener: ListenerId, data: D)
    requires t !in reg
    ensures Dispatch(reg, t, data) == (NoListeners, [])
    ensures var after := Unsubscribed(Subscribed(reg, t, listener), t, listener);
      after.Replaced? && Dispatch(after.registry, t, data) == (Dispatched, [])
  {
    SubscribeUnsubscribe(reg, t, listener);
    var after := Unsubscribed(Subscribed(reg, t, listener), t, listener);
    assert |Dispatch(after.registry, t, data).1| == 0;
  }

  /** One `unsubscribe` removes every occurrence of the listener from its type
      and leaves every other listener in place and in order; unsubscribing
      again changes nothing. */
  lemma UnsubscribeRemovesAll(reg: Registry, t: string, listener: ListenerId)
    requires t in reg
    ensures var r := Unsubscribed(reg, t, listener);
      && r.Replaced? && listener !in r.registry[t]
      && multiset(r.registry[t]) == multiset(reg[t])[listener := 0]
      && (forall u :: u != t ==> (u in r.registry <==> u in reg) && ListenersOf(r.registry, u) == ListenersOf(reg, u))
      && Unsubscribed(r.registry, t, listener) == r
  {
    var r := Unsubscribed(reg, t, listener);
    WithoutCounts(reg[t], listener);
    WithoutAbsent(r.registry[t], listener);
    assert r.registry[t := r.registry[t]] == r.registry;
  }

  /** A listener subscribed twice is called twice per dispatch, and a single
      unsubscribe stops both calls. */
  lemma SubscribeTwice<D>(reg: Registry, t: string, listener: ListenerId, data: D)
    requires listener !in ListenersOf(reg, t)
    ensures var twice := Subscribed(Subscribed(reg, t, listener), t, listener);
      && multiset(Dispatch(twice, t, data).1)[Delivery(listener, data)] == 2
      && var after := Unsubscribed(twice, t, listener);
         after.Replaced? && Delivery(listener, data) !in Dispatch(after.registry, t, data).1
  {
    var twice := Subscribed(Subscribed(reg, t, listener), t, listener);
    var xs := ListenersOf(reg, t);
    assert twice[t] == xs + [listener, listener];
    var ds := Dispatch(twice, t, data).1;
    var dxs := seq(|xs|, j requires 0 <= j < |xs| => Delivery(xs[j], data));
    assert ds == dxs + [Delivery(listener, data), Delivery(listener, data)];
    assert Delivery(listener, data) !in dxs;
    var after := Unsubscribed(twice, t, listener);
    assert listener !in after.registry[t];
  }

  /** The transmitter object, with its `listeners` field updated in place. */
  class EventTransmitter {
    var listeners: Registry

    constructor ()
      ensures listeners == map[]
    {
      listeners := map[];
    }

    method Subscribe(eventType: string, listener: ListenerId) returns (unsubscribe: Unsubscriber)
      modifies this
      ensures listeners == Subscribed(old(listeners), eventType, listener)
      ensures unsubscribe == Unsubscriber(eventType, listener)
    {
      if eventType !in listeners {
        listeners := listeners[eventType := []];
      }
      listeners := listeners[eventType := listeners[eventType] + [listener]];
      return Unsubscriber(eventType, listener);
    }

    /** `unsubscribe`; a `TypeError` outcome is the exception it throws, and then nothing changes. */
    method Unsubscribe(eventType: string, listener: ListenerId) returns (outcome: Removal)
      modifies this
      ensures outcome == Unsubscribed(old(listeners), eventType, listener)
      ensures outcome.Replaced? ==> listeners == outcome.registry
      ensures outcome.TypeError? ==> listeners == old(listeners)
    {
      if eventType !in listeners {
        return TypeError;
      }
      var kept: seq<ListenerId> := [];
      var all := listeners[eventType];
      var i := 0;
      while i < |all|
        invariant 0 <= i <= |all|
        invariant kept == Without(all[..i], listener)
        invariant listeners == old(listeners)
      {
        WithoutConcat(all[..i], [all[i]], listener);
        assert all[..i + 1] == all[..i] + [all[i]];
        if all[i] != listener {
          kept := kept + [all[i]];
        }
        i := i + 1;
      }
      assert all[..i] == all;
      listeners := listeners[eventType := kept];
      return Replaced(listeners);
    }

    /** Calling the function `subscribe` returned. */
    method Unsubscribing(u: Unsubscriber) returns (outcome: Removal)
      modifies this
      ensures outcome == Unsubscribed(old(listeners), u.eventType, u.listener)
      ensures outcome.Replaced? ==> listeners == outcome.registry
      ensures outcome.TypeError? ==> listeners == old(listeners)
    {
      outcome := Unsubscribe(u.eventType, u.listener);
    }

    /** `dispatchEvent(t, data)`: the listeners of `t`, each called once per
        subscription, in subscription order, with `data`. */
    method DispatchEvent<D>(eventType: string, data: D) returns (result: DispatchResult, deliveries: seq<Delivery<D>>)
      ensures eventType !in listeners ==> result == NoListeners && deliveries == []
      ensures eventType in listeners ==> result == Dispatched
      ensures eventType in listeners ==>
        |deliveries| == |listeners[eventType]|
        && forall j :: 0 <= j < |deliveries| ==> deliveries[j] == Delivery(listeners[eventType][j], data)
      ensures (result, deliveries) == Dispatch(listeners, eventType, data)
    {
      if eventType !in listeners {
        return NoListeners, [];
      }
      deliveries := [];
      var i := 0;
      while i < |listeners[eventType]|
        invariant 0 <= i <= |listeners[eventType]|
        invariant |deliveries| == i
        invariant forall j :: 0 <= j < i ==> deliveries[j] == Delivery(listeners[eventType][j], data)
      {
        deliveries := deliveries + [Delivery(listeners[eventType][i], data)];
        i := i + 1;
      }
      ghost var expected := Dispatch(listeners, eventType, data).1;
      assert deliveries == expected;
      result := Dispatched;
    }
  }
}
