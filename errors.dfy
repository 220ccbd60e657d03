/** The conditions an intent service raises, and the text Ruby gives them. */
module Errors {
  import opened RubyValues

  datatype Error =
    | HandlerUndefined               // fail "You must define handle_message"
    | ParseError                     // JSON::ParserError from JSON.parse
    | WrongType(operation: string)   // NoMethodError / TypeError: `operation` called on a non-hash
    | MissingRouting(payload: Value) // ArgumentError "Payload missing routing ..."
    | MissingConvoId                 // ArgumentError "Payload missing convo id"
    | MissingUserId                  // ArgumentError "Payload missing user id"
    | NoResponse                     // fail "No response provided"
    | NotAHash(response: Value)      // fail "Response must be a routable intent hash with: ..."
    | MissingIntentKeys(missing: seq<string>) // fail "... Missing: [...]"
    | KeyNotFound(key: string)       // KeyError from Hash#fetch

  /** Either a value or the condition that was raised instead. */
  datatype Result<+T> = Ok(value: T) | Fail(error: Error)

  /** `intent_keys`: the keys every outbound response must carry, in order. */
  const RequiredKeys: seq<string> := ["intents", "data_types", "data"]

  /** Ruby's `inspect` of a string without quotes or backslashes in it. */
  function Quoted(s: string): string
  {
    "\"" + s + "\""
  }

  function JoinQuoted(names: seq<string>): string
  {
    if names == [] then ""
    else if |names| == 1 then Quoted(names[0])
    else Quoted(names[0]) + ", " + JoinQuoted(names[1..])
  }

  /** `Array#to_s` of a list of plain strings, e.g. `["intents", "data"]`. */
  function InspectNames(names: seq<string>): (s: string)
    ensures |s| >= 2 && s[0] == '[' && s[|s| - 1] == ']'
  {
    "[" + JoinQuoted(names) + "]"
  }

  const NotAHashPrefix := "Response must be a routable intent hash with: "
  const MissingPrefix := "Response must be a routable intent hash. Missing: "

  /** The message the raised exception carries. `toS` stands for Ruby's `to_s`
      of an arbitrary value, which is not modelled. The messages of
      JSON::ParserError and of NoMethodError/TypeError come from Ruby itself
      and are not modelled either (None). */
  function Message(e: Error, toS: Value -> string): (m: Option<string>)
    ensures m.None? <==> e.ParseError? || e.WrongType?
  {
    match e
    case HandlerUndefined => Some("You must define handle_message")
    case ParseError => None
    case WrongType(_) => None
    case MissingRouting(payload) => Some("Payload missing routing " + toS(payload))
    case MissingConvoId => Some("Payload missing convo id")
    case MissingUserId => Some("Payload missing user id")
    case NoResponse => Some("No response provided")
    case NotAHash(response) =>
      Some(NotAHashPrefix + InspectNames(RequiredKeys) + ", but was: " + toS(response))
    case MissingIntentKeys(missing) =>
      Some(MissingPrefix + InspectNames(missing))
    case KeyNotFound(key) => Some("key not found: " + Quoted(key))
  }

  /** The KeyError raised when a message lacks its routing block. */
  lemma KeyNotFoundMessage(toS: Value -> string)
    ensures Message(KeyNotFound("routing"), toS) == Some("key not found: \"routing\"")
  {
    assert "key not found: " + Quoted("routing") == "key not found: \"routing\"";
  }

  /** A response holding only "data" is reported as missing the other two
      required keys, listed in their fixed order. */
  lemma MissingKeysMessage(toS: Value -> string)
    ensures Message(MissingIntentKeys(["intents", "data_types"]), toS)
         == Some(MissingPrefix + "[\"intents\", \"data_types\"]")
  {
    assert JoinQuoted(["data_types"]) == "\"data_types\"";
    assert InspectNames(["intents", "data_types"]) == "[\"intents\", \"data_types\"]";
  }

  lemma JoinLastTwoRequired()
    ensures JoinQuoted(RequiredKeys[1..]) == "\"data_types\", \"data\""
  {
    assert RequiredKeys[1..] == ["data_types", "data"];
    assert ["data_types", "data"][1..] == ["data"];
    assert JoinQuoted(["data"]) == "\"data\"";
  }

  /** `intent_keys` as Ruby prints it inside the error messages. */
  lemma InspectRequiredKeys()
    ensures InspectNames(RequiredKeys) == "[\"intents\", \"data_types\", \"data\"]"
  {
    JoinLastTwoRequired();
    assert JoinQuoted(RequiredKeys) == "\"intents\", " + JoinQuoted(RequiredKeys[1..]);
  }

  /** A response that is not a hash is reported with the whole required key
      list, whatever the value was. */
  lemma NotAHashMessage(v: Value, toS: Value -> string)
    ensures Message(NotAHash(v), toS)
         == Some(NotAHashPrefix + "[\"intents\", \"data_types\", \"data\"]" + ", but was: " + toS(v))
  {
    InspectRequiredKeys();
  }
}
