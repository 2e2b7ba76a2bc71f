/** The client's push channel (frontend/src/services/websocket.js): a single
    `WebSocketService` holding the STOMP client, a `connected` flag and a map
    from subscription keys to subscription handles. The STOMP transport is
    kept abstract: the clients it has created, the set of its subscriptions
    that are still live, and the messages published through it. The
    transport's own events (`onConnect`, `onStompError`) are methods the
    environment calls. */
module WebSocket {
  import opened Wrappers
  import Js

  /** The four kinds of push topic. */
  datatype Kind = SeatUpdates | FlightStatusUpdates | FlightPriceUpdates | BookingConfirmations

  const SeatUpdatesName: string := "seat-updates"
  const FlightStatusUpdatesName: string := "flight-status-updates"
  const FlightPriceUpdatesName: string := "flight-price-updates"
  const BookingConfirmationsName: string := "booking-confirmations"

  function KindName(k: Kind): string {
    match k
    case SeatUpdates => SeatUpdatesName
    case FlightStatusUpdates => FlightStatusUpdatesName
    case FlightPriceUpdates => FlightPriceUpdatesName
    case BookingConfirmations => BookingConfirmationsName
  }

  /** The key a subscription is stored under: `<kind>-<id>`. */
  function Key(k: Kind, id: string): string {
    KindName(k) + "-" + id
  }

  /** The broker topic: `/topic/<kind>/<id>`. */
  function Topic(k: Kind, id: string): string {
    "/topic/" + KindName(k) + "/" + id
  }

  /** Distinct kinds or ids never share a key, so only a repeated
      subscription to the same topic can overwrite an entry. */
  lemma KeyInjective(k1: Kind, id1: string, k2: Kind, id2: string)
    requires Key(k1, id1) == Key(k2, id2)
    ensures k1 == k2 && id1 == id2
  {
    var a, b := Key(k1, id1), Key(k2, id2);
    assert a[0] == KindName(k1)[0] && a[7] == KindName(k1)[7];
    assert b[0] == KindName(k2)[0] && b[7] == KindName(k2)[7];
    assert k1 == k2;
    var n := |KindName(k1)| + 1;
    assert a[n..] == id1 && b[n..] == id2;
  }

  /** Each key names exactly one topic: the topic is a function of the key. */
  lemma TopicOfKey(k1: Kind, id1: string, k2: Kind, id2: string)
    requires Key(k1, id1) == Key(k2, id2)
    ensures Topic(k1, id1) == Topic(k2, id2)
  {
    KeyInjective(k1, id1, k2, id2);
  }

  /** A transport subscription, told apart by the handle the transport gave it. */
  datatype Subscription = Subscription(handle: nat, topic: string)

  /** A STOMP client the service created: whether it is activated, and whether
      `connect` was given the connect and error callbacks. */
  datatype Client = Client(active: bool, hasOnConnect: bool, hasOnError: bool)

  /** What `send*` publishes: the destination and the object that is
      serialised into the body. */
  datatype Payload =
    | SeatPayload(flightId: Js.Value, seat: Js.Value)
    | StatusPayload(flightId: Js.Value, status: Js.Value)

  datatype Message = Message(destination: string, body: Payload)

  const SeatUpdateDestination: string := "/app/seat-update"
  const FlightStatusUpdateDestination: string := "/app/flight-status-update"

  /** The handler every subscription installs: the callback runs once with the
      parsed body when the body is non-empty and parses; otherwise it does not
      run and the error is swallowed. `parse` stands for `JSON.parse`, `None`
      for a parse error. */
  function HandleMessage(body: string, parse: string -> Option<Js.Value>): (delivered: Option<Js.Value>)
    ensures delivered.Some? <==> body != "" && parse(body).Some?
    ensures delivered.Some? ==> delivered == parse(body)
  {
    if body == "" then None else parse(body)
  }

  class WebSocketService {
    /** Every STOMP client created so far, in creation order. */
    var clients: seq<Client>
    /** `this.client`, as an index into `clients`. */
    var client: Option<nat>
    var connected: bool
    /** `this.subscriptions`. */
    var subscriptions: map<string, Subscription>
    /** The transport's subscriptions that were never unsubscribed. */
    var live: set<Subscription>
    var nextHandle: nat
    /** Every message published, oldest first. */
    var published: seq<Message>

    ghost predicate Valid()
      reads this
    {
      && (client.Some? ==> client.value < |clients|)
      && (clients != [] ==> client.Some?)
      && (connected ==> client.Some?)
      && (forall s :: s in live ==> s.handle < nextHandle)
      && (forall k :: k in subscriptions ==> subscriptions[k] in live)
      && (forall k1, k2 :: k1 in subscriptions && k2 in subscriptions && k1 != k2 ==>
            subscriptions[k1].handle != subscriptions[k2].handle)
    }

    constructor ()
      ensures Valid()
      ensures clients == [] && client.None? && !connected
      ensures subscriptions == map[] && live == {} && published == []
    {
      clients := [];
      client := None;
      connected := false;
      subscriptions := map[];
      live := {};
      nextHandle := 0;
      published := [];
    }

    /** `connect(onConnect, onError)`: nothing while connected; otherwise a new
        client is created, activated and made current. A client created
        earlier is neither replaced in `clients` nor deactivated. */
    method Connect(hasOnConnect: bool, hasOnError: bool)
      requires Valid()
      modifies this
      ensures Valid()
      ensures old(connected) ==> clients == old(clients) && client == old(client)
      ensures !old(connected) ==>
        clients == old(clients) + [Client(true, hasOnConnect, hasOnError)] && client == Some(|old(clients)|)
      ensures connected == old(connected)
      ensures subscriptions == old(subscriptions) && live == old(live) && published == old(published)
    {
      if connected {
        return;
      }
      clients := clients + [Client(true, hasOnConnect, hasOnError)];
      client := Some(|clients| - 1);
    }

    /** The transport's `onConnect` for client `c`: the service becomes
        connected and the callback given to that `connect` runs if there was
        one. */
    method OnConnect(c: nat) returns (callbackRuns: bool)
      requires Valid() && c < |clients| && clients[c].active
      modifies this
      ensures Valid()
      ensures connected
      ensures clients == old(clients) && client == old(client)
      ensures callbackRuns == old(clients)[c].hasOnConnect
      ensures subscriptions == old(subscriptions) && live == old(live) && published == old(published)
    {
      connected := true;
      callbackRuns := clients[c].hasOnConnect;
    }

    /** The transport's `onStompError` for client `c`: the service is no
        longer connected; the map is kept. */
    method OnStompError(c: nat) returns (callbackRuns: bool)
      requires Valid() && c < |clients| && clients[c].active
      modifies this
      ensures Valid()
      ensures !connected
      ensures clients == old(clients) && client == old(client)
      ensures callbackRuns == old(clients)[c].hasOnError
      ensures subscriptions == old(subscriptions) && live == old(live) && published == old(published)
    {
      connected := false;
      callbackRuns := clients[c].hasOnError;
    }

    /** `disconnect()`: with a client, deactivates it, drops the connection and
        forgets every key, but unsubscribes nothing: every handle stays live.
        Without a client, nothing changes. */
    method Disconnect()
      requires Valid()
      modifies this
      ensures Valid()
      ensures old(client).None? ==>
        connected == old(connected) && clients == old(clients) && subscriptions == old(subscriptions)
      ensures old(client).Some? ==>
        && !connected && subscriptions == map[]
        && clients == old(clients)[old(client).value := old(clients)[old(client).value].(active := false)]
      ensures client == old(client) && live == old(live) && published == old(published)
    {
      if client.Some? {
        clients := clients[client.value := clients[client.value].(active := false)];
        connected := false;
        subscriptions := map[];
      }
    }

    /** `subscribeTo*(id, callback)`: refused while not connected; otherwise a
        fresh transport subscription to `Topic(kind, id)` is stored under
        `Key(kind, id)`, replacing any earlier entry, whose subscription stays
        live but can no longer be reached through the map. */
    method SubscribeTo(kind: Kind, id: string) returns (sub: Option<Subscription>)
      requires Valid()
      modifies this
      ensures Valid()
      ensures !old(connected) ==>
        sub.None? && subscriptions == old(subscriptions) && live == old(live)
      ensures old(connected) ==>
        && sub.Some? && sub.value.topic == Topic(kind, id)
        && sub.value !in old(live) && live == old(live) + {sub.value}
        && subscriptions == old(subscriptions)[Key(kind, id) := sub.value]
      ensures old(connected) && Key(kind, id) in old(subscriptions) ==>
        var earlier := old(subscriptions)[Key(kind, id)];
        earlier in live && forall k :: k in subscriptions ==> subscriptions[k] != earlier
      ensures connected == old(connected) && clients == old(clients) && client == old(client)
      ensures published == old(published)
    {
      if !connected || client.None? {
        return None;
      }
      var s := Subscription(nextHandle, Topic(kind, id));
      nextHandle := nextHandle + 1;
      live := live + {s};
      subscriptions := subscriptions[Key(kind, id) := s];
      sub := Some(s);
    }

    /** `unsubscribe(key)`: a stored handle is unsubscribed from the transport
        and its key deleted; an unknown key changes nothing. */
    method Unsubscribe(key: string)
      requires Valid()
      modifies this
      ensures Valid()
      ensures key !in old(subscriptions) ==> subscriptions == old(subscriptions) && live == old(live)
      ensures key in old(subscriptions) ==>
        subscriptions == old(subscriptions) - {key} && live == old(live) - {old(subscriptions)[key]}
      ensures key !in subscriptions
      ensures forall k :: k in subscriptions ==> subscriptions[k] in live
      ensures connected == old(connected) && clients == old(clients) && client == old(client)
      ensures published == old(published)
    {
      if key in subscriptions {
        live := live - {subscriptions[key]};
        subscriptions := subscriptions - {key};
      }
    }

    /** `sendSeatUpdate(flightId, seat)`: publishes `{flightId, seat}` to the
        seat-update destination when connected, and nothing otherwise. */
    method SendSeatUpdate(flightId: Js.Value, seat: Js.Value)
      requires Valid()
      modifies this
      ensures Valid()
      ensures !old(connected) ==> published == old(published)
      ensures old(connected) ==>
        published == old(published) + [Message(SeatUpdateDestination, SeatPayload(flightId, seat))]
      ensures connected == old(connected) && clients == old(clients) && client == old(client)
      ensures subscriptions == old(subscriptions) && live == old(live)
    {
      if !connected || client.None? {
        return;
      }
      published := published + [Message(SeatUpdateDestination, SeatPayload(flightId, seat))];
    }

    /** `sendFlightStatusUpdate(flightId, status)`: publishes
        `{flightId, status}` to the flight-status destination when connected,
        and nothing otherwise. */
    method SendFlightStatusUpdate(flightId: Js.Value, status: Js.Value)
      requires Valid()
      modifies this
      ensures Valid()
      ensures !old(connected) ==> published == old(published)
      ensures old(connected) ==>
        published == old(published) + [Message(FlightStatusUpdateDestination, StatusPayload(flightId, status))]
      ensures connected == old(connected) && clients == old(clients) && client == old(client)
      ensures subscriptions == old(subscriptions) && live == old(live)
    {
      if !connected || client.None? {
        return;
      }
      published := published + [Message(FlightStatusUpdateDestination, StatusPayload(flightId, status))];
    }
  }
}
