/** The behaviour the rspec suite exercises, stated on concrete values. */
module Scenarios {
  import opened RubyValues
  import opened Errors
  import opened Validator
  import opened Dispatcher
  import opened Service

  /** The handler response the suite uses throughout. */
  const Answer: map<Key, Value> := map[
    StrKey("intents") := Text("chime.ActionIntent"),
    StrKey("data_types") := Text("chime.string"),
    StrKey("data") := Text("This is a response")]

  /** The message the suite passes to `ensure_routing_maintained`. */
  const BareMessage: map<Key, Value> := map[StrKey("routing") := EmptyHash]

  lemma AnswerIsRoutable()
    ensures ValidatedResponse(Hash(Answer)) == Ok(Answer)
  {
    assert forall k | k in Answer :: k.StrKey?;
    NormalizedIdempotent(Answer);
    assert Normalized(Answer) == Answer;
    NothingMissing(RequiredKeys, Answer);
    PresentPlusMissing(RequiredKeys, Answer);
  }

  /** "all data normal": the response comes back with the routing block added. */
  lemma RoutingMergedIntoAnswer()
    ensures Routed(BareMessage, Hash(Answer)) == Ok(Answer[StrKey("routing") := EmptyHash])
  {
    AnswerIsRoutable();
  }

  /** "no routing provided": a valid response and a message without routing
      raise KeyError. */
  lemma MessageWithoutRouting()
    ensures Routed(map[], Hash(Answer)) == Fail(KeyNotFound("routing"))
  {
    AnswerIsRoutable();
  }

  /** "response is not a hash". */
  lemma StringResponseRefused()
    ensures Routed(BareMessage, Text("blah blah")) == Fail(NotAHash(Text("blah blah")))
  {
  }

  /** A hash holding "data" but neither "intents" nor "data_types". */
  lemma MissingFirstTwo(h: map<Key, Value>)
    requires StrKey("data") in h && StrKey("intents") !in h && StrKey("data_types") !in h
    ensures MissingKeys(RequiredKeys, h) == ["intents", "data_types"]
    ensures PresentCount(RequiredKeys, h) == 1
  {
    var rest := RequiredKeys[1..];
    var last := rest[1..];
    assert rest == ["data_types", "data"] && rest[0] == "data_types";
    assert last == ["data"] && last[0] == "data" && last[1..] == [];
    assert MissingKeys(last, h) == [] && PresentCount(last, h) == 1;
    assert MissingKeys(rest, h) == ["data_types"] && PresentCount(rest, h) == 1;
    assert RequiredKeys[0] == "intents";
  }

  /** A response whose keys are all strings is validated as it is. */
  lemma StringKeyedValidation(h: map<Key, Value>)
    requires forall k | k in h :: k.StrKey?
    ensures ValidatedResponse(Hash(h))
            == if PresentCount(RequiredKeys, h) == |RequiredKeys| then Ok(h)
               else Fail(MissingIntentKeys(MissingKeys(RequiredKeys, h)))
  {
    NormalizedIdempotent(h);
  }

  /** "response is not a routable hash": only "data" is present, so the
      report names "intents" and "data_types", in that order. */
  lemma DataOnlyResponseRefused()
    ensures Routed(BareMessage, Hash(map[StrKey("data") := Text("not a routable hash")]))
            == Fail(MissingIntentKeys(["intents", "data_types"]))
  {
    var partial := map[StrKey("data") := Text("not a routable hash")];
    StringKeyedValidation(partial);
    MissingFirstTwo(partial);
  }

  /** The payload {"this" => "is the data", "routing" => {}} that the suite
      feeds to `_handle_message` has no conversation id, so the code raises
      "Payload missing convo id" before the handler is called. */
  lemma EmptyRoutingBlockRejected(respond: Value -> Value)
    ensures Dispatched(Some(respond),
                       Json(Hash(map[StrKey("this") := Text("is the data"),
                                     StrKey("routing") := EmptyHash])))
            == Fail(MissingConvoId)
  {
  }

  /** A routing block naming a conversation and a user. */
  const Routing: Value := Hash(map[
    StrKey("conversation") := Hash(map[StrKey("id") := Text("c1")]),
    StrKey("user") := Hash(map[StrKey("id") := Text("u1")])])

  const Delivery: Payload :=
    Json(Hash(map[StrKey("this") := Text("is the data"), StrKey("routing") := Routing]))

  lemma DeliveryIsRoutable()
    ensures Decode(Delivery) == Ok(Delivery.doc)
    ensures AssertRoutingValidity(Delivery.doc) == Ok(())
    ensures Routed(Delivery.doc.entries, Hash(Answer)) == Ok(Answer[StrKey("routing") := Routing])
  {
    AnswerIsRoutable();
  }

  lemma CollectRepeated<T>(v: T)
    ensures Collect([Ok(v)]) == Ok([v])
    ensures Collect([Ok(v), Ok(v)]) == Ok([v, v])
  {
    var none: seq<Result<T>> := [];
    assert Collect(none) == Ok([]);
    assert [Ok(v)][1..] == none;
    assert [v] + [] == [v];
    assert Collect([Ok(v)]) == Prefixed([v], Collect(none));
    assert [Ok(v), Ok(v)][1..] == [Ok(v)];
    assert [v] + [v] == [v, v];
  }

  /** The payload passes every check before the handler, so what the
      delivery yields is the routing of the handler's candidates. */
  lemma DeliveryReachesHandler(respond: Value -> Value)
    ensures Dispatched(Some(respond), Delivery)
            == RouteAll(Delivery.doc.entries, Arrayify(respond(Delivery.doc)))
  {
    DeliveryIsRoutable();
  }

  /** The routed form of the suite's response for this delivery. */
  const RoutedAnswer: map<Key, Value> := Answer[StrKey("routing") := Routing]

  lemma AnswerRoutedForDelivery()
    ensures Routed(Delivery.doc.entries, Hash(Answer)) == Ok(RoutedAnswer)
  {
    AnswerIsRoutable();
  }

  lemma RouteAllRepeated(message: map<Key, Value>, c: Value, v: map<Key, Value>)
    requires Routed(message, c) == Ok(v)
    ensures RouteAll(message, [c]) == Ok([v])
    ensures RouteAll(message, [c, c]) == Ok([v, v])
  {
    CollectRepeated(v);
    assert RoutedEach(message, [c]) == [Ok(v)];
    assert RoutedEach(message, [c, c]) == [Ok(v), Ok(v)];
  }

  lemma AnswersRoutedForDelivery()
    ensures RouteAll(Delivery.doc.entries, [Hash(Answer)]) == Ok([RoutedAnswer])
    ensures RouteAll(Delivery.doc.entries, [Hash(Answer), Hash(Answer)]) == Ok([RoutedAnswer, RoutedAnswer])
  {
    AnswerRoutedForDelivery();
    RouteAllRepeated(Delivery.doc.entries, Hash(Answer), RoutedAnswer);
  }

  /** "with a single return message": one routable hash yields one response. */
  lemma SingleResponse(respond: Value -> Value)
    requires respond(Delivery.doc) == Hash(Answer)
    ensures Dispatched(Some(respond), Delivery) == Ok([RoutedAnswer])
  {
    DeliveryReachesHandler(respond);
    AnswersRoutedForDelivery();
  }

  /** "when multiple responses are returned": a list of two yields two. */
  lemma TwoResponses(respond: Value -> Value)
    requires respond(Delivery.doc) == List([Hash(Answer), Hash(Answer)])
    ensures Dispatched(Some(respond), Delivery) == Ok([RoutedAnswer, RoutedAnswer])
  {
    DeliveryReachesHandler(respond);
    AnswersRoutedForDelivery();
  }

  /** Delivering that payload to a service whose handler returns one
      routable hash publishes exactly the routed hash. */
  method SingleDeliveryScenario() returns (log: seq<Publication>)
    ensures log == [Publication(Hash(RoutedAnswer), None)]
  {
    var klass := new ServiceClass("TestSharedIntents");
    var respond := (m: Value) => Hash(Answer);
    SingleResponse(respond);
    var service := new IntentService(klass, Some(respond), "localhost", "5672");
    var r := service.Deliver(Delivery);
    log := service.published;
  }

  /** With a handler returning two copies, both are published, in order. */
  method ListDeliveryScenario() returns (log: seq<Publication>)
    ensures log == [Publication(Hash(RoutedAnswer), None), Publication(Hash(RoutedAnswer), None)]
  {
    var klass := new ServiceClass("TestSharedIntents");
    var respond := (m: Value) => List([Hash(Answer), Hash(Answer)]);
    TwoResponses(respond);
    var service := new IntentService(klass, Some(respond), "localhost", "5672");
    var r := service.Deliver(Delivery);
    log := service.published;
  }

  /** The suite's class declares one route; registering publishes exactly
      {"intents": "chime.testing", "data_types": "chime.string",
       "exchange": "TestSharedIntentsExchange"} under "add_route". */
  method RegistrationScenario() returns (log: seq<Publication>)
    ensures |log| == 1 && log[0].routingKey == Some("add_route")
    ensures log[0].payload.Hash?
    ensures Normalized(log[0].payload.entries)
            == map[StrKey("intents") := Text("chime.testing"),
                   StrKey("data_types") := Text("chime.string"),
                   StrKey("exchange") := Text("TestSharedIntentsExchange")]
  {
    var klass := new ServiceClass("TestSharedIntents");
    klass.RegisterRoute(Text("chime.testing"), Text("chime.string"));
    var service := new IntentService(klass, None, "localhost", "5672");
    var r := service.RegisterRoutes();
    log := service.published;
    var route := Route(Text("chime.testing"), Text("chime.string"));
    assert ExchangeName("TestSharedIntents") == "TestSharedIntentsExchange";
    assert log == [Publication(ControlMessage(route, "TestSharedIntentsExchange"), Some(AddRouteKey))];
    ControlMessageAsJson(route, "TestSharedIntentsExchange");
  }
}
