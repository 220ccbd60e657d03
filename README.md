# SharedIntent, modelled in Dafny

`SharedIntent` is a Ruby mixin that turns a class into an intent service on a
RabbitMQ broker. A class that includes it declares routes (which intents and
data types it wants) with `register_route`. An instance then:

- declares its own queue, bound to its own topic exchange;
- announces each declared route to the shared `router_exchange`, under the
  routing key `add_route`;
- for every delivery: parses the JSON payload, checks that it carries a
  routing block with a conversation id and a user id, and calls the class's
  `handle_message`;
- turns the handler's result into a list of candidate responses;
- validates each response: it must be a hash, its keys are rewritten to
  strings, and it must have `intents`, `data_types` and `data`;
- copies the inbound routing block onto each response and publishes the
  responses to the router exchange.

The Dafny project follows that structure:

| file | module | what it holds |
|---|---|---|
| `values.dfy` | `RubyValues` | decoded Ruby values; hash keys that are Strings or Symbols |
| `errors.dfy` | `Errors` | every condition the code raises, and the message text it raises with |
| `validator.dfy` | `Validator` | the inbound routing check; key normalisation (a loop over the keys, proved against a specification function); response validation; routing propagation |
| `dispatcher.dfy` | `Dispatcher` | the per-delivery pipeline `_handle_message` (a loop over the candidates, proved against a specification function) |
| `service.dfy` | `Service` | the including class (`ServiceClass`, which holds the route list) and the instance (`IntentService`) |
| `scenarios.dfy` | `Scenarios` | the behaviour the repository's rspec suite exercises, stated on concrete values |

`IntentService` keeps:

- its memoised broker handles as fields;
- a `published` log of everything handed to the router exchange.

The log stores the Ruby value that `JSON.dump` would encode. `Service.ControlMessageAsJson` shows which JSON object that value stands for.

Where the rspec suite and the code disagree, the model follows the code:

- `spec/shared_intent_spec.rb:71-77`: the test expects the "not a routable
  intent hash" message to end after the key list. The code appends
  `, but was: <response>`, and so does `Errors.Message`.
- `spec/shared_intent_spec.rb:98-122`: the tests feed `_handle_message` the
  payload `{"this" => "is the data", "routing" => {}}` and expect responses.
  The code's routing check raises "Payload missing convo id" on that payload
  before the handler is called. `Scenarios.EmptyRoutingBlockRejected`
  states this. The same two scenarios are also proved for a payload whose
  routing block names a conversation and a user: `Scenarios.SingleResponse`
  and `Scenarios.TwoResponses`.

Key normalisation runs `response[key.to_s] = response.delete(key)` over a
snapshot of the keys. For hashes with String and Symbol keys, the result does
not depend on the order the keys are visited in: when a Symbol and a String
share a name, the Symbol's value ends up under the String key.
`Validator.NormalizeKeys` visits the keys in an arbitrary order and is proved
equal to `Validator.Normalized`.

## Model

| member | source | states |
|---|---|---|
| `RubyValues.Fetch` | lib/shared_intent.rb:74-75 | `fetch(name, default)` returns the entry under the string key if there is one, the default otherwise |
| `Errors.Message` | lib/shared_intent.rb:56-96 | every raised condition has the message the code gives it; only the parser's and Ruby's own type errors have none of ours |
| `Errors.InspectNames` | lib/shared_intent.rb:90 | a key list is printed bracketed, as `Array#to_s` prints it |
| `Errors.KeyNotFoundMessage` | spec/shared_intent_spec.rb:63-69 | a message without routing raises `key not found: "routing"` |
| `Errors.MissingKeysMessage` | lib/shared_intent.rb:96 | a response with only "data" is refused with `... Missing: ["intents", "data_types"]` |
| `Errors.InspectRequiredKeys` | lib/shared_intent.rb:88-90 | `intent_keys` prints as `["intents", "data_types", "data"]` |
| `Errors.NotAHashMessage` | lib/shared_intent.rb:89-91 | a non-hash response is refused with the full key list followed by `, but was: ` and the response's `to_s` |
| `Validator.AssertRoutingValidity` | lib/shared_intent.rb:72-76 | succeeds exactly when the routing block identifies both a conversation and a user; otherwise reports missing routing, then a missing convo id, then a missing user id, in that order; a non-hash where a hash is needed raises a type error |
| `Validator.Normalized` | lib/shared_intent.rb:92-94 | after normalisation every key is a string, and a name is present exactly when it was present as a String or as a Symbol |
| `Validator.RewriteStep` | lib/shared_intent.rb:93 | one `h[k.to_s] = h.delete(k)` step takes the hash with some keys rewritten to the hash with one more key rewritten |
| `Validator.NormalizeKeys` | lib/shared_intent.rb:92-94 | the rewrite loop yields the normalised hash, whatever order the keys are visited in |
| `Validator.NormalizedKeepsUniqueValues` | lib/shared_intent.rb:92-94 | a key whose name no other key shares keeps its value under its string form |
| `Validator.NormalizedSymbolWins` | lib/shared_intent.rb:92-94 | when a Symbol and a String share a name, the Symbol's value is the one kept |
| `Validator.NormalizedIdempotent` | lib/shared_intent.rb:92-94 | a string-keyed hash is left as it is, so normalising twice equals normalising once |
| `Validator.MissingKeys` | lib/shared_intent.rb:96 | `intent_keys - keys` holds exactly the required names that are not keys, and is no longer than the required list |
| `Validator.PresentCount` | lib/shared_intent.rb:95 | `(keys & intent_keys).length` never exceeds the number of required names |
| `Validator.MissingKeysAppend` | lib/shared_intent.rb:96 | the missing-key report keeps the order of the required list |
| `Validator.PresentPlusMissing` | lib/shared_intent.rb:95-96 | present plus missing is all the required names, so the guard fails exactly when the report is non-empty |
| `Validator.NothingMissing` | lib/shared_intent.rb:95-96 | nothing is reported missing exactly when every required name is a key |
| `Validator.ValidatedResponse` | lib/shared_intent.rb:83-98 | a response that passes is a hash, and its normalised form has only string keys and every required key; a failure is "no response", "not a hash" or a missing-keys report |
| `Validator.ValidatedResponseOutcomes` | lib/shared_intent.rb:83-98 | nil is "no response" and any other non-hash is "not a hash"; a hash passes exactly when it has all three keys as String or Symbol, and then yields its normalised form; a failing hash is reported with exactly the absent keys, and that list is never empty |
| `Validator.AssertValidResponse` | lib/shared_intent.rb:83-98 | the imperative check returns exactly `Validator.ValidatedResponse` of its argument |
| `Validator.Routed` | lib/shared_intent.rb:78-81 | a routed response exists only when the message has a routing block; it carries that block under "routing" and still has every required key |
| `Validator.RoutedOutcomes` | lib/shared_intent.rb:78-81 | validation errors come first, and a missing routing block raises only for a valid response; success holds exactly when the response is routable and the message has routing; a routed response has the message's routing block, every other normalised entry unchanged, only string keys and every required key |
| `Validator.EnsureRoutingMaintained` | lib/shared_intent.rb:78-81 | the imperative method returns exactly `Validator.Routed` of its arguments |
| `Dispatcher.Decode` | lib/shared_intent.rb:57 | a malformed text is a parse error; a nil or false document becomes `{}`; anything else is kept as it is |
| `Dispatcher.Arrayify` | lib/shared_intent.rb:68-70 | a list is kept as it is; any other value yields at most one candidate, itself; the result is empty exactly for nil and for the empty list |
| `Dispatcher.Collect` | lib/shared_intent.rb:60-63 | a `map` whose block may raise yields one value per element, or an error that one of the elements raised |
| `Dispatcher.CollectOutcomes` | lib/shared_intent.rb:60-63 | a `map` whose block may raise yields every value in order, or the error of the first failing element with all before it successful |
| `Dispatcher.RoutedEach` | lib/shared_intent.rb:60-63 | each candidate is routed on its own, and the list of outcomes has one entry per candidate |
| `Dispatcher.RouteAll` | lib/shared_intent.rb:60-63 | routing the candidates yields one response per candidate, or the error that one of the candidates raised |
| `Dispatcher.RouteAllOutcomes` | lib/shared_intent.rb:60-63 | routing a candidate list succeeds exactly when every candidate routes, with one response per candidate in order, each carrying the message's routing block and the required keys; otherwise the first failing candidate's error is returned |
| `Dispatcher.Dispatched` | lib/shared_intent.rb:54-66 | a delivery yields responses only when a handler exists, the payload parses and has a routing block; there is one response per candidate of the handler's result, and each carries the inbound routing block and every required key |
| `Dispatcher.HandleMessage` | lib/shared_intent.rb:54-66 | the imperative pipeline, with its loop over the candidates, returns exactly `Dispatcher.Dispatched` of its arguments |
| `Dispatcher.DispatchCheckOrder` | lib/shared_intent.rb:56-58 | a missing handler is reported first, then a parse error, then the routing check; any success implies the message identified a conversation and a user |
| `Dispatcher.ResponseCount` | lib/shared_intent.rb:59-65 | a nil handler result yields no response and no error; a routable hash yields one response; a list of routable hashes yields one per item; any success yields one response per candidate |
| `Service.ExchangeName` | lib/shared_intent.rb:24-26 | the service's exchange name is its class name followed by "Exchange" |
| `Service.QueueName` | lib/shared_intent.rb:28-30 | the service's queue name is its class name followed by "Queue" |
| `Service.TopologyNamesDistinct` | lib/shared_intent.rb:24-30 | a service's exchange and queue names never coincide with each other or with the router exchange, and different services get different names |
| `Service.ControlMessage` | lib/shared_intent.rb:115 | the control message has exactly the keys `intents`, `data_types` and `exchange`, holding the route's intents and data types and the given exchange name |
| `Service.ControlMessageAsJson` | lib/shared_intent.rb:113-117 | the route merged with the exchange name is the JSON object with `intents`, `data_types` and `exchange` |
| `Service.ControlPublications` | lib/shared_intent.rb:109-117 | one control message per route, in order, under `add_route` |
| `Service.DataPublications` | lib/shared_intent.rb:36 | one publication per response, in order, under the default routing key |
| `Service.ServiceClass.constructor` | lib/shared_intent.rb:11 | a class starts with no route list |
| `Service.ServiceClass.RegisterRoute` | lib/shared_intent.rb:19-22 | the route list is created if absent, and the declaration is appended |
| `Service.IntentService.constructor` | lib/shared_intent.rb:119-167 | an instance starts with no broker handles and nothing published |
| `Service.IntentService.Connection` | lib/shared_intent.rb:119-131 | the connection is created once with the fixed settings, and later calls return the same one |
| `Service.IntentService.Channel` | lib/shared_intent.rb:152-154 | one channel on the connection, memoised |
| `Service.IntentService.RouterExchange` | lib/shared_intent.rb:156-158 | the shared router exchange: a durable topic exchange that is not auto-deleted, memoised |
| `Service.IntentService.Queue` | lib/shared_intent.rb:160-167 | the service's auto-deleted queue, bound to its own durable topic exchange, memoised |
| `Service.IntentService.Publish` | lib/shared_intent.rb:100-107 | a nil payload is skipped without touching the broker; anything else is appended to what the router exchange received |
| `Service.IntentService.PublishAll` | lib/shared_intent.rb:36 | every response is published, in order |
| `Service.IntentService.Deliver` | lib/shared_intent.rb:34-37 | a delivery returns the dispatch result and publishes exactly its responses; a delivery that raises publishes nothing |
| `Service.IntentService.RegisterRoute` | lib/shared_intent.rb:113-117 | the route plus the service's exchange name is published under `add_route` |
| `Service.IntentService.RegisterRoutes` | lib/shared_intent.rb:109-111 | every declared route is announced in order; with no route list `each` raises and nothing is published |
| `Service.IntentService.Start` | lib/shared_intent.rb:33-38 | the service's queue is declared before the routes are announced |
| `Service.IntentService.Kill` | lib/shared_intent.rb:169-171 | the connection is closed only if one was ever created |
| `Scenarios.AnswerIsRoutable` | spec/shared_intent_spec.rb:13-19 | the suite's response passes validation unchanged |
| `Scenarios.RoutingMergedIntoAnswer` | spec/shared_intent_spec.rb:87-92 | the response comes back merged with the message's routing block |
| `Scenarios.MessageWithoutRouting` | spec/shared_intent_spec.rb:63-69 | a valid response and a message without routing raise KeyError |
| `Scenarios.StringResponseRefused` | spec/shared_intent_spec.rb:71-77 | a string response is refused as not a hash |
| `Scenarios.DataOnlyResponseRefused` | spec/shared_intent_spec.rb:79-85 | a response holding only "data" is refused, with "intents" and "data_types" reported missing |
| `Scenarios.EmptyRoutingBlockRejected` | spec/shared_intent_spec.rb:98-99 | the suite's payload with an empty routing block is refused for its missing convo id, whatever the handler |
| `Scenarios.DeliveryIsRoutable` | lib/shared_intent.rb:57-62 | a payload that names a conversation and a user passes every check, and the suite's response is routed for it |
| `Scenarios.SingleResponse` | spec/shared_intent_spec.rb:106-112 | a handler returning one routable hash yields exactly one routed response |
| `Scenarios.TwoResponses` | spec/shared_intent_spec.rb:115-122 | a handler returning a list of two yields both, in order |
| `Scenarios.SingleDeliveryScenario` | lib/shared_intent.rb:34-37 | delivering to such a service publishes exactly the routed response |
| `Scenarios.ListDeliveryScenario` | lib/shared_intent.rb:34-37 | with a list of two, both routed responses are published, in order |
| `Scenarios.RegistrationScenario` | spec/shared_intent_spec.rb:40-48 | the suite's class announces its one route as `{"intents": "chime.testing", "data_types": "chime.string", "exchange": "TestSharedIntentsExchange"}` under `add_route` |

## Left out

- The idle loop in `run` and its handling of Interrupt (lib/shared_intent.rb:40-45) are process control with no state to model. `run!` (lib/shared_intent.rb:13-15) only builds an instance and calls `run`.
- The connection's start, its retry every half second and its 20-second timeout (lib/shared_intent.rb:133-147) are left out. They involve the network and a clock. `Service.IntentService.Connection` only records the settings the connection was created with.
- The broker itself is replaced by the `published` log. Subscription (lib/shared_intent.rb:48-52) is reduced to declaring the queue in `Start`. Messages are delivered by calling `Deliver`, one at a time. Bunny's consumer threads are not modelled.
- Logging (`logger`, lib/shared_intent.rb:173-175, and every `logger` call) has no effect on the model.
- JSON text is not modelled. A payload is either a parsed document or `Malformed`, and a publication holds the value `JSON.dump` would encode. The messages of JSON::ParserError and of Ruby's NoMethodError/TypeError are left as `None` by `Errors.Message`.
- Floats are not modelled among values. Integers are unbounded.
- Hash keys are Strings or Symbols only; `to_s` of any other key kind is not modelled. Hash insertion order is not modelled: a hash is a map. Insertion order only shows in the printed form of a hash.
- `Errors.Message` takes Ruby's `to_s` of an arbitrary value as a parameter, because Ruby's formatting of values is not part of this model.
- `assert_valid_response` rewrites the handler's hash in place, and the caller's reference then shows string keys. The model returns the normalised hash as a new value, so that aliasing is not captured.
- The handler is a total function of the decoded message. The delivery info and metadata it also receives are not modelled, and neither are exceptions it raises.
- Dispatcher.Dispatched: routes the responses against the message as it was decoded. In Ruby, `handle_message` receives the same Hash that `ensure_routing_maintained` later reads with `message.fetch("routing")` (lib/shared_intent.rb:59, 62, 80). A handler that deletes the routing block would make that read raise KeyError. A handler that edits the block would change what is copied onto every response. Neither mutation is modelled, so `Dispatcher.ResponseCount` and the `Dispatched` contract hold for handlers that leave their argument alone.
- A value that is not a Hash but responds to `key?` is not modelled. Every value that is not a Hash is treated as lacking `key?`.
