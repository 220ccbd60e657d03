/** The per-delivery pipeline of an intent service (`_handle_message`):
    decode, check the routing block, call the handler, turn its result into
    a list of candidate responses and route every one of them. */
module Dispatcher {
  import opened RubyValues
  import opened Errors
  import opened Validator

  /** A delivery's body: a JSON text that parses to `doc`, or one that
      `JSON.parse` rejects. The text encoding itself is not modelled. */
  datatype Payload = Json(doc: Value) | Malformed

  /** The handler a service defines (`handle_message`), applied to the
      decoded message; None when the service defines none. The delivery
      metadata it also receives is not modelled. */
  type Handler = Option<Value -> Value>

  /** `JSON.parse(payload) || {}`: a document that is nil or false becomes
      the empty hash. */
  function Decode(payload: Payload): (r: Result<Value>)
    ensures payload.Malformed? <==> r == Fail(ParseError)
    ensures payload.Json? ==> r.Ok?
    ensures r.Ok? ==> !r.value.Nil? && r.value != Bool(false)
    ensures payload.Json? && (payload.doc.Nil? || payload.doc == Bool(false)) ==> r == Ok(EmptyHash)
    ensures payload.Json? && !payload.doc.Nil? && payload.doc != Bool(false) ==> r == Ok(payload.doc)
  {
    match payload
    case Malformed => Fail(ParseError)
    case Json(doc) => if doc.Nil? || doc == Bool(false) then Ok(EmptyHash) else Ok(doc)
  }

  /** `arrayify`: a hash becomes a one-element list, nil the empty list, a
      list stays as it is, and any other value (`Array(x)`) a one-element list. */
  function Arrayify(result: Value): (candidates: seq<Value>)
    ensures result.List? ==> candidates == result.items
    ensures !result.List? ==> |candidates| <= 1
    ensures forall c | c in candidates :: c == result || (result.List? && c in result.items)
    ensures candidates == [] <==> result.Nil? || result == List([])
  {
    match result
    case Hash(_) => [result]
    case Nil => []
    case List(items) => items
    case _ => [result]
  }

  /** A list of results, or the first failure, with the results already
      gathered in front of the rest. */
  function Prefixed<T>(done: seq<T>, rest: Result<seq<T>>): Result<seq<T>>
  {
    match rest
    case Fail(e) => Fail(e)
    case Ok(later) => Ok(done + later)
  }

  lemma PrefixedNothing<T>(rest: Result<seq<T>>)
    ensures Prefixed([], rest) == rest
  {
    if rest.Ok? {
      assert [] + rest.value == rest.value;
    }
  }

  /** The values of a list of outcomes, or the first failure among them:
      what a Ruby `map` whose block may raise produces. */
  function Collect<T>(outcomes: seq<Result<T>>): (r: Result<seq<T>>)
    ensures r.Ok? ==> |r.value| == |outcomes|
    ensures r.Fail? ==> Fail(r.error) in outcomes
  {
    if outcomes == [] then Ok([])
    else match outcomes[0]
      case Fail(e) => Fail(e)
      case Ok(first) => Prefixed([first], Collect(outcomes[1..]))
  }

  /** Collecting succeeds with every value, in order, or fails with the
      error of the first failing outcome. */
  lemma {:induction false} CollectOutcomes<T>(outcomes: seq<Result<T>>)
    ensures Collect(outcomes).Ok? ==>
              |Collect(outcomes).value| == |outcomes|
              && forall j | 0 <= j < |outcomes| :: outcomes[j] == Ok(Collect(outcomes).value[j])
    ensures Collect(outcomes).Fail? ==>
              exists j | 0 <= j < |outcomes| ::
                outcomes[j] == Fail(Collect(outcomes).error)
                && forall i | 0 <= i < j :: outcomes[i].Ok?
  {
    if outcomes != [] && outcomes[0].Ok? {
      var rest := outcomes[1..];
      CollectOutcomes(rest);
      if Collect(rest).Fail? {
        var j :| 0 <= j < |rest| && rest[j] == Fail(Collect(rest).error)
                 && forall i | 0 <= i < j :: rest[i].Ok?;
        assert outcomes[j + 1] == rest[j];
        assert forall i | 0 <= i < j + 1 :: outcomes[i].Ok? by {
          forall i | 0 <= i < j + 1 ensures outcomes[i].Ok? {
            if i > 0 { assert outcomes[i] == rest[i - 1]; }
          }
        }
      }
    }
  }

  /** Collecting from position `i` either stops at a failure there or adds
      the value there to the values gathered so far. */
  lemma CollectFrom<T>(outcomes: seq<Result<T>>, i: nat, done: seq<T>)
    requires i < |outcomes|
    ensures outcomes[i].Fail? ==> Prefixed(done, Collect(outcomes[i..])) == Fail(outcomes[i].error)
    ensures outcomes[i].Ok? ==>
              Prefixed(done, Collect(outcomes[i..]))
              == Prefixed(done + [outcomes[i].value], Collect(outcomes[i + 1..]))
  {
    assert outcomes[i..][0] == outcomes[i];
    assert outcomes[i..][1..] == outcomes[i + 1..];
    if outcomes[i].Ok? {
      var rest := Collect(outcomes[i + 1..]);
      if rest.Ok? {
        assert done + ([outcomes[i].value] + rest.value) == done + [outcomes[i].value] + rest.value;
      }
    }
  }

  /** Every candidate response, routed on its own. */
  function RoutedEach(message: map<Key, Value>, candidates: seq<Value>)
    : (outcomes: seq<Result<map<Key, Value>>>)
    ensures |outcomes| == |candidates|
    ensures forall j | 0 <= j < |candidates| :: outcomes[j] == Routed(message, candidates[j])
  {
    seq(|candidates|, j requires 0 <= j < |candidates| => Routed(message, candidates[j]))
  }

  /** `responses.map { |response| ensure_routing_maintained message, response }`:
      every candidate routed in order; the first one that fails aborts the
      whole list. */
  function RouteAll(message: map<Key, Value>, candidates: seq<Value>)
    : (r: Result<seq<map<Key, Value>>>)
    ensures r.Ok? ==> |r.value| == |candidates|
    ensures r.Fail? ==> exists j | 0 <= j < |candidates| :: Routed(message, candidates[j]) == Fail(r.error)
  {
    var outcomes := RoutedEach(message, candidates);
    CollectOutcomes(outcomes);
    Collect(outcomes)
  }

  /** What `_handle_message` returns for a delivery, or what it raises. The
      missing handler is reported before the payload is even parsed; the
      handler is called only on a message that passed the routing check. */
  function Dispatched(handler: Handler, payload: Payload): (r: Result<seq<map<Key, Value>>>)
    ensures r.Ok? ==>
              && handler.Some? && payload.Json? && HasRoutingHash(Decode(payload).value)
              && |r.value| == |Arrayify(handler.value(Decode(payload).value))|
              && forall j | 0 <= j < |r.value| ::
                   && StrKey("routing") in r.value[j]
                   && r.value[j][StrKey("routing")] == Decode(payload).value.entries[StrKey("routing")]
                   && forall x | x in RequiredKeys :: StrKey(x) in r.value[j]
  {
    if handler.None? then Fail(HandlerUndefined)
    else match Decode(payload)
      case Fail(e) => Fail(e)
      case Ok(message) =>
        match AssertRoutingValidity(message)
        case Fail(e) => Fail(e)
        case Ok(_) =>
          var candidates := Arrayify(handler.value(message));
          RouteAllOutcomes(message.entries, candidates);
          RouteAll(message.entries, candidates)
  }

  /** `_handle_message(delivery_info, metadata, payload)`. */
  method HandleMessage(handler: Handler, payload: Payload)
    returns (r: Result<seq<map<Key, Value>>>)
    ensures r == Dispatched(handler, payload)
  {
    if handler.None? {
      return Fail(HandlerUndefined);
    }
    var decoded := Decode(payload);
    if decoded.Fail? {
      return Fail(decoded.error);
    }
    var message := decoded.value;
    var check := AssertRoutingValidity(message);
    if check.Fail? {
      return Fail(check.error);
    }
    var candidates := Arrayify(handler.value(message));
    ghost var outcomes := RoutedEach(message.entries, candidates);
    assert Dispatched(handler, payload) == Collect(outcomes);
    var responses: seq<map<Key, Value>> := [];
    var i := 0;
    assert outcomes[i..] == outcomes;
    PrefixedNothing(Collect(outcomes));
    while i < |candidates|
      invariant 0 <= i <= |candidates|
      invariant Collect(outcomes) == Prefixed(responses, Collect(outcomes[i..]))
    {
      var routed := EnsureRoutingMaintained(message.entries, candidates[i]);
      assert routed == outcomes[i];
      CollectFrom(outcomes, i, responses);
      if routed.Fail? {
        return Fail(routed.error);
      }
      responses := responses + [routed.value];
      i := i + 1;
      assert Collect(outcomes) == Prefixed(responses, Collect(outcomes[i..]));
    }
    assert outcomes[i..] == [];
    assert responses + [] == responses;
    return Ok(responses);
  }

  /** Routing a list of candidates: either one routed response per
      candidate, in order, each carrying the message's routing block and
      every required key under a string key; or the error of the first
      candidate that fails. */
  lemma RouteAllOutcomes(message: map<Key, Value>, candidates: seq<Value>)
    ensures RouteAll(message, candidates).Ok? ==>
              var responses := RouteAll(message, candidates).value;
              && |responses| == |candidates|
              && (forall j | 0 <= j < |candidates| :: Routed(message, candidates[j]) == Ok(responses[j]))
              && (forall j | 0 <= j < |responses| ::
                    && responses[j][StrKey("routing")] == message[StrKey("routing")]
                    && (forall x | x in RequiredKeys :: StrKey(x) in responses[j])
                    && (forall k | k in responses[j] :: k.StrKey?))
    ensures RouteAll(message, candidates).Ok? <==>
              forall j | 0 <= j < |candidates| :: Routed(message, candidates[j]).Ok?
    ensures RouteAll(message, candidates).Fail? ==>
              exists j | 0 <= j < |candidates| ::
                && Routed(message, candidates[j]) == Fail(RouteAll(message, candidates).error)
                && forall i | 0 <= i < j :: Routed(message, candidates[i]).Ok?
  {
    var outcomes := RoutedEach(message, candidates);
    CollectOutcomes(outcomes);
    forall j | 0 <= j < |candidates| {
      RoutedOutcomes(message, candidates[j]);
    }
  }

  /** The order of the pipeline's checks: a missing handler is reported
      whatever the payload, a parse failure next, then the routing check;
      in all three cases the handler's result plays no part. */
  lemma DispatchCheckOrder(handler: Handler, payload: Payload)
    ensures handler.None? ==> Dispatched(handler, payload) == Fail(HandlerUndefined)
    ensures handler.Some? && payload.Malformed? ==> Dispatched(handler, payload) == Fail(ParseError)
    ensures handler.Some? && Decode(payload).Ok?
            && AssertRoutingValidity(Decode(payload).value).Fail?
            ==> Dispatched(handler, payload) == Fail(AssertRoutingValidity(Decode(payload).value).error)
    ensures Dispatched(handler, payload).Ok? ==>
              handler.Some? && Decode(payload).Ok?
              && Identifies(Decode(payload).value, "conversation")
              && Identifies(Decode(payload).value, "user")
  {
  }

  /** How many responses one delivery yields: none for a nil result (and no
      "No response provided" error), one for a routable hash, one per item
      for a list of routable hashes; and on success always as many as
      `arrayify` gives candidates. */
  lemma ResponseCount(respond: Value -> Value, payload: Payload)
    requires Decode(payload).Ok? && AssertRoutingValidity(Decode(payload).value).Ok?
    ensures var result := respond(Decode(payload).value);
            && (result.Nil? ==> Dispatched(Some(respond), payload) == Ok([]))
            && (result.Hash? && Routable(result.entries) ==>
                  Dispatched(Some(respond), payload).Ok?
                  && |Dispatched(Some(respond), payload).value| == 1)
            && (result.List? && (forall v | v in result.items :: v.Hash? && Routable(v.entries)) ==>
                  Dispatched(Some(respond), payload).Ok?
                  && |Dispatched(Some(respond), payload).value| == |result.items|)
            && (Dispatched(Some(respond), payload).Ok? ==>
                  |Dispatched(Some(respond), payload).value| == |Arrayify(result)|)
  {
    var message := Decode(payload).value;
    var candidates := Arrayify(respond(message));
    assert StrKey("routing") in message.entries;
    RouteAllOutcomes(message.entries, candidates);
    forall j | 0 <= j < |candidates| {
      RoutedOutcomes(message.entries, candidates[j]);
    }
  }
}
