/** The service runtime that a class gets by including SharedIntent: the
    class-level route list, the lazily created broker handles, and the data
    and control messages it hands to the router exchange. The broker is
    replaced by the `published` log of what was handed over. */
module Service {
  import opened RubyValues
  import opened Errors
  import opened Validator
  import opened Dispatcher

  // ---------------------------------------------------------------------
  // Names and messages
  // ---------------------------------------------------------------------

  /** A route declaration `{ intents: ..., data_types: ... }`. */
  datatype Route = Route(intents: Value, dataTypes: Value)

  /** One message handed to the router exchange: the value `JSON.dump`
      encodes, and the routing key (None: the broker's default key). */
  datatype Publication = Publication(payload: Value, routingKey: Option<string>)

  const RouterExchangeName: string := "router_exchange"
  const AddRouteKey: string := "add_route"

  /** `exchange_name`: the service's own exchange. */
  function ExchangeName(serviceName: string): (name: string)
    ensures |name| == |serviceName| + 8 && name[..|serviceName|] == serviceName
    ensures name[|serviceName|..] == "Exchange"
  {
    serviceName + "Exchange"
  }

  /** `queue_name`: the service's own queue. */
  function QueueName(serviceName: string): (name: string)
    ensures |name| == |serviceName| + 5 && name[..|serviceName|] == serviceName
    ensures name[|serviceName|..] == "Queue"
  {
    serviceName + "Queue"
  }

  /** The last `n` characters of `s`. */
  function Suffix(s: string, n: nat): string
    requires n <= |s|
  {
    s[|s| - n..]
  }

  /** The derived names never collide: a service's exchange is neither a
      queue name nor the shared router exchange, its queue is not the router
      exchange, and different services get different names. */
  lemma TopologyNamesDistinct(a: string, b: string)
    ensures ExchangeName(a) != QueueName(b)
    ensures ExchangeName(a) != RouterExchangeName && QueueName(a) != RouterExchangeName
    ensures ExchangeName(a) == ExchangeName(b) ==> a == b
    ensures QueueName(a) == QueueName(b) ==> a == b
  {
    assert Suffix(ExchangeName(a), 5) == "hange";
    assert Suffix(QueueName(b), 5) == "Queue";
    assert Suffix(RouterExchangeName, 8) == "exchange";
    if |ExchangeName(a)| >= 8 {
      assert Suffix(ExchangeName(a), 8) == "Exchange";
    }
    assert Suffix(QueueName(a), 5) == "Queue";
    assert Suffix(RouterExchangeName, 5) == "hange";
    if ExchangeName(a) == ExchangeName(b) {
      assert a == ExchangeName(a)[..|a|] == ExchangeName(b)[..|b|] == b;
    }
    if QueueName(a) == QueueName(b) {
      assert a == QueueName(a)[..|a|] == QueueName(b)[..|b|] == b;
    }
  }

  /** The route as the Ruby hash the class stored: symbol keys. */
  function RouteHash(route: Route): map<Key, Value>
  {
    map[SymKey("intents") := route.intents, SymKey("data_types") := route.dataTypes]
  }

  /** `route.merge(exchange: exchange_name)`. */
  function ControlMessage(route: Route, exchange: string): (m: Value)
    ensures m.Hash? && m.entries.Keys == {SymKey("intents"), SymKey("data_types"), SymKey("exchange")}
    ensures m.entries[SymKey("intents")] == route.intents
    ensures m.entries[SymKey("data_types")] == route.dataTypes
    ensures m.entries[SymKey("exchange")] == Text(exchange)
  {
    Hash(RouteHash(route)[SymKey("exchange") := Text(exchange)])
  }

  /** `JSON.dump` writes symbol keys by name, so the control message is the
      JSON object {"intents": ..., "data_types": ..., "exchange": ...}. */
  lemma ControlMessageAsJson(route: Route, exchange: string)
    ensures Normalized(ControlMessage(route, exchange).entries)
            == map[StrKey("intents") := route.intents,
                   StrKey("data_types") := route.dataTypes,
                   StrKey("exchange") := Text(exchange)]
  {
    var h := ControlMessage(route, exchange).entries;
    var json := map[StrKey("intents") := route.intents,
                    StrKey("data_types") := route.dataTypes,
                    StrKey("exchange") := Text(exchange)];
    NormalizedKeepsUniqueValues(h, SymKey("intents"));
    NormalizedKeepsUniqueValues(h, SymKey("data_types"));
    NormalizedKeepsUniqueValues(h, SymKey("exchange"));
    assert Normalized(h).Keys == json.Keys;
  }

  /** What `register_routes` hands to the router exchange: one control
      message per route, in declaration order, under the key "add_route". */
  function ControlPublications(routes: seq<Route>, exchange: string): (p: seq<Publication>)
    ensures |p| == |routes|
    ensures forall i | 0 <= i < |routes| ::
              p[i] == Publication(ControlMessage(routes[i], exchange), Some(AddRouteKey))
  {
    seq(|routes|, i requires 0 <= i < |routes| =>
      Publication(ControlMessage(routes[i], exchange), Some(AddRouteKey)))
  }

  /** What `responses.each { |response| publish response }` hands over:
      every response, in order, under the default key. */
  function DataPublications(responses: seq<map<Key, Value>>): (p: seq<Publication>)
    ensures |p| == |responses|
    ensures forall i | 0 <= i < |responses| :: p[i] == Publication(Hash(responses[i]), None)
  {
    seq(|responses|, i requires 0 <= i < |responses| => Publication(Hash(responses[i]), None))
  }

  // ---------------------------------------------------------------------
  // Broker handles: what each lazily created handle was declared with
  // ---------------------------------------------------------------------

  datatype ConnectionHandle = ConnectionHandle(
    host: string, port: string, ssl: bool, vhost: string, user: string, pass: string,
    serverHeartbeat: bool, frameMax: nat, authMechanism: string)
  datatype ChannelHandle = ChannelHandle(connection: ConnectionHandle)
  datatype ExchangeHandle = TopicExchange(name: string, durable: bool, autoDelete: bool)
  datatype QueueHandle = QueueHandle(name: string, autoDelete: bool, boundTo: ExchangeHandle)

  /** The settings `Bunny.new` receives; host and port come from the
      environment. */
  function ConnectionSettings(host: string, port: string): ConnectionHandle
  {
    ConnectionHandle(host, port, false, "/", "guest", "guest", true, 131072, "PLAIN")
  }

  /** The shared router exchange: a durable topic exchange that is not
      auto-deleted. */
  const RouterExchangeDecl: ExchangeHandle := TopicExchange(RouterExchangeName, true, false)

  /** The service's own queue, auto-deleted, bound to the service's own
      durable topic exchange. */
  function QueueDecl(serviceName: string): QueueHandle
  {
    QueueHandle(QueueName(serviceName), true, TopicExchange(ExchangeName(serviceName), true, false))
  }

  function Declared(routes: Option<seq<Route>>): seq<Route>
  {
    if routes.None? then [] else routes.value
  }

  // ---------------------------------------------------------------------
  // The including class: `ClassMethods`
  // ---------------------------------------------------------------------

  class ServiceClass {
    /** `self.name` */
    const name: string
    /** `@routes`: nil until the first `register_route`. */
    var routes: Option<seq<Route>>

    constructor (name: string)
      ensures this.name == name && routes == None
    {
      this.name := name;
      routes := None;
    }

    /** `register_route(intents:, data_types:)`: `@routes ||= []`, then
        append the declaration. */
    method RegisterRoute(intents: Value, dataTypes: Value)
      modifies this
      ensures routes == Some(Declared(old(routes)) + [Route(intents, dataTypes)])
    {
      if routes.None? {
        routes := Some([]);
      }
      routes := Some(routes.value + [Route(intents, dataTypes)]);
    }
  }

  // ---------------------------------------------------------------------
  // The including instance: SharedIntent's instance methods
  // ---------------------------------------------------------------------

  class IntentService {
    const klass: ServiceClass
    /** `handle_message`, if the class defines it. */
    const handler: Handler
    /** ENV['RABBIT_HOSTNAME'] and ENV['RABBIT_PORT']. */
    const host: string
    const port: string

    /** Everything handed to the router exchange so far. */
    var published: seq<Publication>
    var connection: Option<ConnectionHandle>
    var channel: Option<ChannelHandle>
    var routerExchange: Option<ExchangeHandle>
    var queue: Option<QueueHandle>
    var closed: bool

    /** Each memoised handle, once created, is the one its method declares
        and rests on the handles it was created from. */
    ghost predicate Valid()
      reads this
    {
      && (connection.Some? ==> connection.value == ConnectionSettings(host, port))
      && (channel.Some? ==> connection.Some? && channel.value == ChannelHandle(connection.value))
      && (routerExchange.Some? ==> channel.Some? && routerExchange.value == RouterExchangeDecl)
      && (queue.Some? ==> channel.Some? && queue.value == QueueDecl(klass.name))
      && (closed ==> connection.Some?)
    }

    constructor (klass: ServiceClass, handler: Handler, host: string, port: string)
      ensures Valid()
      ensures this.klass == klass && this.handler == handler
      ensures this.host == host && this.port == port
      ensures published == [] && !closed
      ensures connection.None? && channel.None? && routerExchange.None? && queue.None?
    {
      this.klass := klass;
      this.handler := handler;
      this.host := host;
      this.port := port;
      published := [];
      connection, channel, routerExchange, queue := None, None, None, None;
      closed := false;
    }

    /** `connection`: created on first use and returned unchanged after.
        The retry loop around `start` is not modelled. */
    method Connection() returns (c: ConnectionHandle)
      requires Valid()
      modifies this
      ensures Valid()
      ensures c == ConnectionSettings(host, port) && connection == Some(c)
      ensures old(connection).Some? ==> c == old(connection).value
      ensures channel == old(channel) && routerExchange == old(routerExchange)
      ensures queue == old(queue) && published == old(published) && closed == old(closed)
    {
      if connection.None? {
        connection := Some(ConnectionSettings(host, port));
      }
      c := connection.value;
    }

    /** `channel`: one channel on the connection, memoised. */
    method Channel() returns (ch: ChannelHandle)
      requires Valid()
      modifies this
      ensures Valid()
      ensures ch == ChannelHandle(ConnectionSettings(host, port)) && channel == Some(ch)
      ensures old(channel).Some? ==> ch == old(channel).value && connection == old(connection)
      ensures connection.Some? && (old(connection).Some? ==> connection == old(connection))
      ensures routerExchange == old(routerExchange) && queue == old(queue)
      ensures published == old(published) && closed == old(closed)
    {
      if channel.None? {
        var c := Connection();
        channel := Some(ChannelHandle(c));
      }
      ch := channel.value;
    }

    /** `router_exchange`, memoised. */
    method RouterExchange() returns (x: ExchangeHandle)
      requires Valid()
      modifies this
      ensures Valid()
      ensures x == RouterExchangeDecl && routerExchange == Some(x)
      ensures old(routerExchange).Some? ==> channel == old(channel) && connection == old(connection)
      ensures old(channel).Some? ==> channel == old(channel) && connection == old(connection)
      ensures queue == old(queue) && published == old(published) && closed == old(closed)
    {
      if routerExchange.None? {
        var _ := Channel();
        routerExchange := Some(RouterExchangeDecl);
      }
      x := routerExchange.value;
    }

    /** `queue`: declares the service's exchange and queue and binds them,
        once. */
    method Queue() returns (q: QueueHandle)
      requires Valid()
      modifies this
      ensures Valid()
      ensures q == QueueDecl(klass.name) && queue == Some(q)
      ensures old(queue).Some? ==> channel == old(channel) && connection == old(connection)
      ensures old(channel).Some? ==> channel == old(channel) && connection == old(connection)
      ensures routerExchange == old(routerExchange)
      ensures published == old(published) && closed == old(closed)
    {
      if queue.None? {
        var _ := Channel();
        queue := Some(QueueDecl(klass.name));
      }
      q := queue.value;
    }

    /** `publish(payload)`: a nil payload is skipped without touching the
        broker; anything else goes to the router exchange. */
    method Publish(payload: Value)
      requires Valid()
      modifies this
      ensures Valid()
      ensures published == old(published) + (if payload.Nil? then [] else [Publication(payload, None)])
      ensures payload.Nil? ==> routerExchange == old(routerExchange) && channel == old(channel)
                               && connection == old(connection)
      ensures !payload.Nil? ==> routerExchange == Some(RouterExchangeDecl)
      ensures old(channel).Some? ==> channel == old(channel) && connection == old(connection)
      ensures queue == old(queue) && closed == old(closed)
    {
      if payload.Nil? {
        return;
      }
      var exchange := RouterExchange();
      published := published + [Publication(payload, None)];
    }

    /** `responses.each { |response| publish response }`. */
    method PublishAll(responses: seq<map<Key, Value>>)
      requires Valid()
      modifies this
      ensures Valid()
      ensures published == old(published) + DataPublications(responses)
      ensures old(channel).Some? ==> channel == old(channel) && connection == old(connection)
      ensures queue == old(queue) && closed == old(closed)
    {
      var i := 0;
      while i < |responses|
        invariant 0 <= i <= |responses|
        invariant Valid()
        invariant published == old(published) + DataPublications(responses[..i])
        invariant old(channel).Some? ==> channel == old(channel) && connection == old(connection)
        invariant queue == old(queue) && closed == old(closed)
      {
        Publish(Hash(responses[i]));
        assert responses[..i + 1] == responses[..i] + [responses[i]];
        assert DataPublications(responses[..i + 1])
               == DataPublications(responses[..i]) + [Publication(Hash(responses[i]), None)];
        i := i + 1;
      }
      assert responses[..i] == responses;
    }

    /** The block `run` subscribes with: handle one delivery, then publish
        its responses in handler-return order. A delivery that raises
        publishes nothing. */
    method Deliver(payload: Payload) returns (r: Result<seq<map<Key, Value>>>)
      requires Valid()
      modifies this
      ensures Valid()
      ensures r == Dispatched(handler, payload)
      ensures published == old(published) + (if r.Ok? then DataPublications(r.value) else [])
      ensures old(channel).Some? ==> channel == old(channel) && connection == old(connection)
      ensures queue == old(queue) && closed == old(closed)
    {
      r := HandleMessage(handler, payload);
      if r.Ok? {
        PublishAll(r.value);
      } else {
        assert published == old(published) + [];
      }
    }

    /** `register_route(route)`: the route merged with the service's
        exchange name, published under "add_route". */
    method RegisterRoute(route: Route)
      requires Valid()
      modifies this
      ensures Valid()
      ensures published == old(published)
                           + [Publication(ControlMessage(route, ExchangeName(klass.name)), Some(AddRouteKey))]
      ensures routerExchange == Some(RouterExchangeDecl)
      ensures old(channel).Some? ==> channel == old(channel) && connection == old(connection)
      ensures queue == old(queue) && closed == old(closed)
    {
      var exchange := RouterExchange();
      published := published + [Publication(ControlMessage(route, ExchangeName(klass.name)), Some(AddRouteKey))];
    }

    /** `register_routes`: one control message per declared route, in
        declaration order; with no route ever declared `routes` is nil and
        `each` raises before anything is published. */
    method RegisterRoutes() returns (r: Result<()>)
      requires Valid()
      modifies this
      ensures Valid()
      ensures klass.routes.None? ==> r == Fail(WrongType("each")) && published == old(published)
      ensures klass.routes.Some? ==>
                r == Ok(()) && published == old(published)
                               + ControlPublications(klass.routes.value, ExchangeName(klass.name))
      ensures old(channel).Some? ==> channel == old(channel) && connection == old(connection)
      ensures queue == old(queue) && closed == old(closed)
    {
      if klass.routes.None? {
        return Fail(WrongType("each"));
      }
      var routes := klass.routes.value;
      var exchange := ExchangeName(klass.name);
      var i := 0;
      while i < |routes|
        invariant 0 <= i <= |routes|
        invariant Valid()
        invariant published == old(published) + ControlPublications(routes[..i], exchange)
        invariant old(channel).Some? ==> channel == old(channel) && connection == old(connection)
        invariant queue == old(queue) && closed == old(closed)
      {
        RegisterRoute(routes[i]);
        assert routes[..i + 1] == routes[..i] + [routes[i]];
        assert ControlPublications(routes[..i + 1], exchange)
               == ControlPublications(routes[..i], exchange)
                  + [Publication(ControlMessage(routes[i], exchange), Some(AddRouteKey))];
        i := i + 1;
      }
      assert routes[..i] == routes;
      return Ok(());
    }

    /** `run` up to its idle loop: subscribe to the service's queue (which
        declares it), then register the routes. */
    method Start() returns (r: Result<()>)
      requires Valid()
      modifies this
      ensures Valid()
      ensures queue == Some(QueueDecl(klass.name))
      ensures klass.routes.None? ==> r == Fail(WrongType("each")) && published == old(published)
      ensures klass.routes.Some? ==>
                r == Ok(()) && published == old(published)
                               + ControlPublications(klass.routes.value, ExchangeName(klass.name))
    {
      var _ := Queue();
      r := RegisterRoutes();
    }

    /** `kill`: close the connection only if one was created. */
    method Kill()
      requires Valid()
      modifies this
      ensures Valid()
      ensures closed == (old(closed) || old(connection).Some?)
      ensures connection == old(connection) && channel == old(channel)
      ensures routerExchange == old(routerExchange) && queue == old(queue)
      ensures published == old(published)
    {
      if connection.Some? {
        closed := true;
      }
    }
  }
}
