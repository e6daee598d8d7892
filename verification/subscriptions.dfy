/** The client's push-message service: a registry of callbacks per endpoint, dispatch of
    incoming messages to the callbacks of their endpoint, and the reconnect rule (every close
    schedules a new connection after a fixed delay). Callbacks are opaque handles; the
    socket itself is reduced to a count of connections opened and the delays of the
    reconnect timers pending. */
module Subscriptions {

  import opened Seqs
  import J = Json

  type Callback = nat

  /** Delay before a closed socket is replaced. */
  const RECONNECT_DELAY_MS: nat := 1000

  /** A JavaScript `Set` of callbacks in insertion order, as `forEach` visits it. */
  type Registry = map<string, seq<Callback>>

  datatype Service = Service(subscribers: Registry, connections: nat, pendingReconnects: seq<nat>)

  /** One invocation `callback(data)`. */
  datatype Call = Call(callback: Callback, data: J.Json)

  const FRESH: Service := Service(map[], 0, [])

  /** The callbacks registered under an endpoint; none when it has no set yet. */
  function Registered(s: Service, endpoint: string): seq<Callback>
  {
    if endpoint in s.subscribers then s.subscribers[endpoint] else []
  }

  /** Every set holds each callback at most once. */
  predicate Valid(s: Service)
  {
    forall e :: e in s.subscribers ==> Distinct(s.subscribers[e])
  }

  /** `subscribe(endpoint, callback)`: create the endpoint's set if needed and add the
      callback; adding a callback already present changes nothing. */
  function Subscribe(s: Service, endpoint: string, cb: Callback): (r: Service)
    ensures endpoint in r.subscribers
    ensures r.subscribers.Keys == s.subscribers.Keys + {endpoint}
    ensures cb in r.subscribers[endpoint]
    ensures forall x :: x in r.subscribers[endpoint] <==> x == cb || x in Registered(s, endpoint)
    ensures cb in Registered(s, endpoint) ==> r == s
    ensures forall e :: e in s.subscribers && e != endpoint ==> r.subscribers[e] == s.subscribers[e]
    ensures r.connections == s.connections && r.pendingReconnects == s.pendingReconnects
    ensures Valid(s) ==> Valid(r)
  {
    var current := Registered(s, endpoint);
    if cb in current then s
    else s.(subscribers := s.subscribers[endpoint := current + [cb]])
  }

  /** The closure `subscribe` returns: remove that callback from that endpoint's set.
      The set exists, since `subscribe` created it and no set is ever dropped. */
  function Unsubscribe(s: Service, endpoint: string, cb: Callback): (r: Service)
    requires endpoint in s.subscribers
    ensures r.subscribers.Keys == s.subscribers.Keys
    ensures cb !in r.subscribers[endpoint]
    ensures forall x :: x in r.subscribers[endpoint] <==> x != cb && x in s.subscribers[endpoint]
    ensures IsSubsequence(r.subscribers[endpoint], s.subscribers[endpoint])
    ensures cb !in s.subscribers[endpoint] ==> r == s
    ensures forall e :: e in s.subscribers && e != endpoint ==> r.subscribers[e] == s.subscribers[e]
    ensures r.connections == s.connections && r.pendingReconnects == s.pendingReconnects
    ensures Valid(s) ==> Valid(r)
  {
    var current := s.subscribers[endpoint];
    if cb !in current then SubsequenceReflexive(current); s
    else
      var rest := Filter(current, x => x != cb);
      assert Distinct(current) ==> Distinct(rest) by {
        if Distinct(current) {
          SubsequenceOfDistinct(rest, current);
        }
      }
      s.(subscribers := s.subscribers[endpoint := rest])
  }

  /** Calling the unsubscribe closure a second time is a no-op. */
  lemma UnsubscribeTwice(s: Service, endpoint: string, cb: Callback)
    requires endpoint in s.subscribers
    ensures Unsubscribe(Unsubscribe(s, endpoint, cb), endpoint, cb) == Unsubscribe(s, endpoint, cb)
  {
  }

  /** Subscribing the same callback twice stores it once. */
  lemma SubscribeTwice(s: Service, endpoint: string, cb: Callback)
    ensures Subscribe(Subscribe(s, endpoint, cb), endpoint, cb) == Subscribe(s, endpoint, cb)
  {
  }

  /** Subscribing a new callback and calling the closure it returns gives back the callbacks
      the endpoint had before, in their order. */
  lemma SubscribeThenUnsubscribe(s: Service, endpoint: string, cb: Callback)
    requires cb !in Registered(s, endpoint)
    ensures var r := Unsubscribe(Subscribe(s, endpoint, cb), endpoint, cb);
            Registered(r, endpoint) == Registered(s, endpoint)
            && forall e :: e in s.subscribers ==> e in r.subscribers && r.subscribers[e] == s.subscribers[e]
  {
    var before := Registered(s, endpoint);
    FilterConcat(before, [cb], x => x != cb);
    FilterKeepsAll(before, x => x != cb);
    assert Filter([cb], x => x != cb) == [];
  }

  /** The endpoint a message names: `data.endpoint`, which only finds a set when it is a
      string. */
  function Endpoint(data: J.Json): Option<string>
  {
    if data.JObj? && "endpoint" in data.fields && data.fields["endpoint"].JStr? then
      Some(data.fields["endpoint"].s)
    else None
  }

  /** `notifySubscribers(data)`: each callback of the message's endpoint is called once
      with the message, in registration order; a message for an endpoint without a set
      calls nothing. */
  function Dispatch(s: Service, data: J.Json): (calls: seq<Call>)
    ensures Endpoint(data).None? ==> calls == []
    ensures Endpoint(data).Some? ==> |calls| == |Registered(s, Endpoint(data).value)|
    ensures forall i :: 0 <= i < |calls| ==> calls[i].data == data
    ensures Endpoint(data).Some? ==>
              forall i :: 0 <= i < |calls| ==> calls[i].callback == Registered(s, Endpoint(data).value)[i]
  {
    match Endpoint(data)
    case None => []
    case Some(e) => Map(Registered(s, e), (cb: Callback) => Call(cb, data))
  }

  /** In a valid registry a message reaches each subscriber of its endpoint exactly once
      and nobody else. */
  lemma DispatchExactlyOnce(s: Service, data: J.Json, cb: Callback)
    requires Valid(s) && Endpoint(data).Some?
    ensures var calls := Dispatch(s, data);
            var e := Endpoint(data).value;
            (cb in Registered(s, e) ==> exists i :: 0 <= i < |calls| && calls[i].callback == cb)
            && (forall i :: 0 <= i < |calls| && calls[i].callback == cb ==> cb in Registered(s, e))
            && (forall i, j :: 0 <= i < j < |calls| ==> calls[i].callback != calls[j].callback)
  {
    var calls := Dispatch(s, data);
    var e := Endpoint(data).value;
    if cb in Registered(s, e) {
      var i :| 0 <= i < |Registered(s, e)| && Registered(s, e)[i] == cb;
      assert calls[i].callback == cb;
    }
  }

  /** The calls `notifySubscribers` made, and whether an exception escaped it. */
  datatype Notified = Notified(calls: seq<Call>, escaped: bool)

  /** `notifySubscribers` when the callback at position `throwsAt` of the dispatch throws:
      `forEach` stops at that callback and the exception escapes to `onmessage`. With no
      throwing callback it is `Dispatch`. */
  function NotifyThrowing(s: Service, data: J.Json, throwsAt: Option<nat>): (r: Notified)
    ensures |r.calls| <= |Dispatch(s, data)| && r.calls == Dispatch(s, data)[..|r.calls|]
    ensures r.escaped <==> throwsAt.Some? && throwsAt.value < |Dispatch(s, data)|
    ensures r.escaped ==> |r.calls| == throwsAt.value + 1
    ensures !r.escaped ==> r.calls == Dispatch(s, data)
  {
    var all := Dispatch(s, data);
    match throwsAt
    case Some(k) =>
      if k < |all| then Notified(all[..k + 1], true) else Notified(all, false)
    case None => Notified(all, false)
  }

  /** A throwing subscriber is itself called, but in a valid registry no subscriber
      registered after it is called at all. */
  lemma ThrowSkipsLaterSubscribers(s: Service, data: J.Json, k: nat)
    requires Valid(s) && Endpoint(data).Some?
    requires k < |Registered(s, Endpoint(data).value)|
    ensures var r := NotifyThrowing(s, data, Some(k));
            var reg := Registered(s, Endpoint(data).value);
            r.escaped && r.calls[k].callback == reg[k]
            && forall i, j :: 0 <= i < |r.calls| && k < j < |reg| ==> r.calls[i].callback != reg[j]
  {
  }

  /** What happens to the socket: `connect()`, its `onclose`, and a reconnect timer firing. */
  datatype SocketEvent = Connect | Closed | TimerFired

  /** One socket event. Each close schedules one reconnect `RECONNECT_DELAY_MS` later,
      however many came before; a firing timer opens a new socket. */
  function OnSocket(s: Service, ev: SocketEvent): (r: Service)
    ensures r.subscribers == s.subscribers
    ensures ev.Closed? ==>
              r.pendingReconnects == s.pendingReconnects + [RECONNECT_DELAY_MS] && r.connections == s.connections
    ensures ev.Connect? ==> r.connections == s.connections + 1 && r.pendingReconnects == s.pendingReconnects
    ensures ev.TimerFired? && s.pendingReconnects != [] ==>
              r.connections == s.connections + 1 && r.pendingReconnects == s.pendingReconnects[1..]
    ensures ev.TimerFired? && s.pendingReconnects == [] ==> r == s
  {
    match ev
    case Connect => s.(connections := s.connections + 1)
    case Closed => s.(pendingReconnects := s.pendingReconnects + [RECONNECT_DELAY_MS])
    case TimerFired =>
      if s.pendingReconnects == [] then s
      else s.(connections := s.connections + 1, pendingReconnects := s.pendingReconnects[1..])
  }

  function OnSockets(s: Service, evs: seq<SocketEvent>): Service
    decreases |evs|
  {
    if evs == [] then s else OnSockets(OnSocket(s, evs[0]), evs[1..])
  }

  /** Number of closes in a run of socket events. */
  function Closes(evs: seq<SocketEvent>): nat
  {
    Count(evs, (ev: SocketEvent) => ev.Closed?)
  }

  /** Subscriptions survive any run of connects, closes and reconnects. */
  lemma {:induction false} SubscriptionsSurviveReconnects(s: Service, evs: seq<SocketEvent>)
    ensures OnSockets(s, evs).subscribers == s.subscribers
    decreases |evs|
  {
    if evs != [] {
      SubscriptionsSurviveReconnects(OnSocket(s, evs[0]), evs[1..]);
    }
  }

  /** There is no retry cap and no back-off: a run of events with no timer firing adds one
      pending reconnect per close, each with the same fixed delay. */
  lemma {:induction false} EveryCloseSchedulesAReconnect(s: Service, evs: seq<SocketEvent>)
    requires forall i :: 0 <= i < |evs| ==> evs[i] != TimerFired
    ensures |OnSockets(s, evs).pendingReconnects| == |s.pendingReconnects| + Closes(evs)
    ensures OnSockets(s, evs).pendingReconnects[..|s.pendingReconnects|] == s.pendingReconnects
    ensures forall i :: |s.pendingReconnects| <= i < |OnSockets(s, evs).pendingReconnects| ==>
              OnSockets(s, evs).pendingReconnects[i] == RECONNECT_DELAY_MS
    decreases |evs|
  {
    if evs != [] {
      EveryCloseSchedulesAReconnect(OnSocket(s, evs[0]), evs[1..]);
    }
  }
}
