/** The React hook over the shared push channel
    (frontend/src/hooks/useWebSocket.js). Each hook instance has its own
    `connected` and `error` state and its own map of the subscriptions it
    made; every instance talks to the same `WebSocketService`, the `service`
    field below, which several instances may share. The connect and error
    callbacks the hook hands to `connect` are the methods `OnConnected` and
    `OnError`. */
module WebSocketHook {
  import opened Wrappers
  import opened WebSocket

  /** A STOMP error frame, as far as the hook keeps it. */
  datatype Frame = Frame(message: string, body: string)

  /** The handles among `keys` that `m` stores. */
  ghost function Handles(m: map<string, Subscription>, keys: set<string>): set<Subscription> {
    set k | k in keys && k in m :: m[k]
  }

  /** Unsubscribing one more key removes its entry and its handle. */
  lemma UnsubscribeStep(m0: map<string, Subscription>, live0: set<Subscription>, done: set<string>, key: string,
                        m: map<string, Subscription>, live: set<Subscription>)
    requires key !in done
    requires m == m0 - done && live == live0 - Handles(m0, done)
    ensures key in m ==> m - {key} == m0 - (done + {key})
    ensures key in m ==> live - {m[key]} == live0 - Handles(m0, done + {key})
    ensures key !in m ==> m == m0 - (done + {key}) && live == live0 - Handles(m0, done + {key})
  {
    assert Handles(m0, done + {key}) == Handles(m0, done) + Handles(m0, {key});
  }

  class UseWebSocket {
    const service: WebSocketService
    var connected: bool
    var error: Option<Frame>
    /** `subscriptionsRef.current`: what the service returned for each key,
        `None` when it returned `undefined`. */
    var subs: map<string, Option<Subscription>>

    ghost predicate Valid()
      reads this, service
    {
      service.Valid()
    }

    /** The first render: not connected, no error, no subscriptions. */
    constructor (service: WebSocketService)
      requires service.Valid()
      ensures Valid() && this.service == service
      ensures !connected && error.None? && subs == map[]
    {
      this.service := service;
      connected := false;
      error := None;
      subs := map[];
    }

    /** The mount effect: asks the shared service to connect, with both
        callbacks. */
    method Mount()
      requires Valid()
      modifies service
      ensures Valid()
      ensures !old(service.connected) ==>
        service.clients == old(service.clients) + [Client(true, true, true)] && service.client == Some(|old(service.clients)|)
      ensures old(service.connected) ==> service.clients == old(service.clients) && service.client == old(service.client)
      ensures service.connected == old(service.connected) && service.subscriptions == old(service.subscriptions)
      ensures service.live == old(service.live) && service.published == old(service.published)
    {
      service.Connect(true, true);
    }

    /** The connect callback: connected, and any earlier error forgotten. */
    method OnConnected()
      modifies this
      ensures connected && error.None? && subs == old(subs)
    {
      connected := true;
      error := None;
    }

    /** The error callback: not connected, and the frame kept as the error. */
    method OnError(frame: Frame)
      modifies this
      ensures !connected && error == Some(frame) && subs == old(subs)
    {
      connected := false;
      error := Some(frame);
    }

    /** `subscribeTo*(id, callback)`: refused while this instance is not
        connected. Otherwise whatever the service returns is recorded under
        the service's own key, overwriting any entry there, even when the
        service refused and returned `undefined` because the shared
        connection was dropped. */
    method SubscribeTo(kind: Kind, id: string) returns (sub: Option<Subscription>)
      requires Valid()
      modifies this, service
      ensures Valid()
      ensures connected == old(connected) && error == old(error)
      ensures !old(connected) ==>
        && sub.None? && subs == old(subs)
        && service.subscriptions == old(service.subscriptions) && service.live == old(service.live)
      ensures old(connected) ==> subs == old(subs)[Key(kind, id) := sub]
      ensures old(connected) ==> (sub.Some? <==> old(service.connected))
      ensures old(connected) && old(service.connected) ==>
        && sub.value.topic == Topic(kind, id)
        && service.subscriptions == old(service.subscriptions)[Key(kind, id) := sub.value]
        && service.live == old(service.live) + {sub.value}
      ensures old(connected) && !old(service.connected) ==>
        service.subscriptions == old(service.subscriptions) && service.live == old(service.live)
      ensures service.connected == old(service.connected) && service.published == old(service.published)
      ensures service.clients == old(service.clients) && service.client == old(service.client)
    {
      if !connected {
        return None;
      }
      sub := service.SubscribeTo(kind, id);
      subs := subs[Key(kind, id) := sub];
    }

    /** `unsubscribe(key)`: only keys this instance recorded are passed on to
        the service, and then deleted here. */
    method Unsubscribe(key: string)
      requires Valid()
      modifies this, service
      ensures Valid()
      ensures connected == old(connected) && error == old(error)
      ensures key !in old(subs) ==>
        && subs == old(subs)
        && service.subscriptions == old(service.subscriptions) && service.live == old(service.live)
      ensures key in old(subs) ==>
        && subs == old(subs) - {key}
        && service.subscriptions == old(service.subscriptions) - {key}
        && service.live == old(service.live) - Handles(old(service.subscriptions), {key})
      ensures service.connected == old(service.connected) && service.published == old(service.published)
      ensures service.clients == old(service.clients) && service.client == old(service.client)
    {
      if key in subs {
        service.Unsubscribe(key);
        subs := subs - {key};
      }
    }

    /** The unmount cleanup: every key this instance recorded is unsubscribed
        through the service, the instance's map is emptied, and then the
        shared service is disconnected, for every other instance too. The
        service's remaining entries are dropped without being unsubscribed. */
    method Cleanup()
      requires Valid()
      modifies this, service
      ensures Valid()
      ensures subs == map[] && connected == old(connected) && error == old(error)
      ensures service.live == old(service.live) - Handles(old(service.subscriptions), old(subs).Keys)
      ensures old(service.client).Some? ==> !service.connected && service.subscriptions == map[]
      ensures old(service.client).Some? ==>
        var c := old(service.client).value;
        service.clients == old(service.clients)[c := old(service.clients)[c].(active := false)]
      ensures old(service.client).None? ==>
        && service.subscriptions == old(service.subscriptions) - old(subs).Keys
        && service.clients == old(service.clients)
      ensures service.client == old(service.client) && service.published == old(service.published)
    {
      var keys := subs.Keys;
      var todo := keys;
      while todo != {}
        invariant todo <= keys
        invariant service.Valid()
        invariant service.client == old(service.client) && service.clients == old(service.clients)
        invariant service.published == old(service.published)
        invariant connected == old(connected) && error == old(error)
        invariant service.subscriptions == old(service.subscriptions) - (keys - todo)
        invariant service.live == old(service.live) - Handles(old(service.subscriptions), keys - todo)
        decreases todo
      {
        var key :| key in todo;
        UnsubscribeStep(old(service.subscriptions), old(service.live), keys - todo, key,
                        service.subscriptions, service.live);
        service.Unsubscribe(key);
        assert keys - (todo - {key}) == (keys - todo) + {key};
        todo := todo - {key};
      }
      subs := map[];
      service.Disconnect();
    }
  }
}
