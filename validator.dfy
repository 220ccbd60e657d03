/** The envelope contract of an intent service: the inbound routing check,
    the normalisation and validation of a handler's response, and the
    propagation of the inbound routing block onto that response. */
module Validator {
  import opened RubyValues
  import opened Errors

  // ---------------------------------------------------------------------
  // Inbound routing check (`assert_routing_validity`)
  // ---------------------------------------------------------------------

  /** The payload carries a routing block that is itself a hash. */
  predicate HasRoutingHash(payload: Value)
  {
    payload.Hash? && StrKey("routing") in payload.entries
    && payload.entries[StrKey("routing")].Hash?
  }

  /** `routing.fetch(party, {})`: the conversation or user block. */
  function Party(payload: Value, party: string): Value
    requires HasRoutingHash(payload)
  {
    Fetch(payload.entries[StrKey("routing")].entries, party, EmptyHash)
  }

  /** The routing block names `party` with an "id". */
  predicate Identifies(payload: Value, party: string)
  {
    HasRoutingHash(payload) && Party(payload, party).Hash?
    && StrKey("id") in Party(payload, party).entries
  }

  /** The three ordered presence checks on an inbound message. A value that
      is not a hash where the code calls `key?` or `fetch` on it makes Ruby
      raise (WrongType). */
  function AssertRoutingValidity(payload: Value): (r: Result<()>)
    ensures r.Ok? <==> Identifies(payload, "conversation") && Identifies(payload, "user")
    ensures payload.Hash? && StrKey("routing") !in payload.entries
            ==> r == Fail(MissingRouting(payload))
    ensures HasRoutingHash(payload) && Party(payload, "conversation").Hash?
            && !Identifies(payload, "conversation")
            ==> r == Fail(MissingConvoId)
    ensures Identifies(payload, "conversation") && Party(payload, "user").Hash?
            && !Identifies(payload, "user")
            ==> r == Fail(MissingUserId)
    ensures r.Fail? ==> r.error.MissingRouting? || r.error.MissingConvoId?
                        || r.error.MissingUserId? || r.error.WrongType?
    ensures !payload.Hash? ==> r == Fail(WrongType("key?"))
    ensures payload.Hash? && StrKey("routing") in payload.entries && !HasRoutingHash(payload)
            ==> r == Fail(WrongType("fetch"))
    ensures HasRoutingHash(payload) && !Party(payload, "conversation").Hash?
            ==> r == Fail(WrongType("key?"))
    ensures Identifies(payload, "conversation") && !Party(payload, "user").Hash?
            ==> r == Fail(WrongType("key?"))
  {
    if !payload.Hash? then Fail(WrongType("key?"))
    else if StrKey("routing") !in payload.entries then Fail(MissingRouting(payload))
    else if !payload.entries[StrKey("routing")].Hash? then Fail(WrongType("fetch"))
    else
      var convo := Party(payload, "conversation");
      if !convo.Hash? then Fail(WrongType("key?"))
      else if StrKey("id") !in convo.entries then Fail(MissingConvoId)
      else
        var user := Party(payload, "user");
        if !user.Hash? then Fail(WrongType("key?"))
        else if StrKey("id") !in user.entries then Fail(MissingUserId)
        else Ok(())
  }

  // ---------------------------------------------------------------------
  // Key normalisation (the loop in `assert_valid_response`)
  // ---------------------------------------------------------------------

  /** The hash after every key has been rewritten to its `to_s`. String
      entries keep their value unless a symbol of the same name exists:
      the symbol's value then wins, whatever order the keys are visited in. */
  function Normalized(h: map<Key, Value>): (r: map<Key, Value>)
    ensures forall k | k in r :: k.StrKey?
    ensures forall name :: StrKey(name) in r <==> StrKey(name) in h || SymKey(name) in h
  {
    var strings := map k | k in h && k.StrKey? :: h[k];
    var symbols := map k | k in h && k.SymKey? :: StrKey(k.name) := h[k];
    assert forall name :: StrKey(name) in symbols <==> SymKey(name) in h;
    strings + symbols
  }

  /** The hash once the keys in `done` have been rewritten: a rewritten
      symbol has left and its string twin carries the symbol's value. */
  function Rewritten(h: map<Key, Value>, done: set<Key>): map<Key, Value>
  {
    (map k | k in h && !(k.SymKey? && k in done) :: h[k])
    + (map k | k in h && k.SymKey? && k in done :: StrKey(k.name) := h[k])
  }

  lemma RewrittenNone(h: map<Key, Value>)
    ensures Rewritten(h, {}) == h
  {
  }

  lemma RewrittenAll(h: map<Key, Value>)
    ensures Rewritten(h, h.Keys) == Normalized(h)
  {
  }

  /** `m` is what the hash `h` has become once the keys in `done` were rewritten. */
  ghost predicate IsRewriting(h: map<Key, Value>, done: set<Key>, m: map<Key, Value>)
  {
    && (forall x :: x in m <==>
          (x in h && !(x.SymKey? && x in done))
          || (x.StrKey? && SymKey(x.name) in h && SymKey(x.name) in done))
    && (forall x | x in m ::
          m[x] == if x.StrKey? && SymKey(x.name) in h && SymKey(x.name) in done
                  then h[SymKey(x.name)] else h[x])
  }

  lemma RewrittenAt(h: map<Key, Value>, done: set<Key>)
    ensures IsRewriting(h, done, Rewritten(h, done))
  {
    var symbols := map k | k in h && k.SymKey? && k in done :: StrKey(k.name) := h[k];
    assert forall x :: x in symbols <==> x.StrKey? && SymKey(x.name) in h && SymKey(x.name) in done;
  }

  /** Rewriting one more key turns the state for `done` into the state for
      `done + {k}`. */
  lemma RewriteOne(h: map<Key, Value>, done: set<Key>, k: Key,
                   before: map<Key, Value>, after: map<Key, Value>)
    requires k in h && k !in done
    requires IsRewriting(h, done, before) && IsRewriting(h, done + {k}, after)
    ensures k in before
    ensures (before - {k})[StrKey(k.name) := before[k]] == after
  {
    var stepped := (before - {k})[StrKey(k.name) := before[k]];
    if k.SymKey? {
      assert forall x :: x in stepped <==> x in after;
    } else {
      assert forall x :: x in before <==> x in after;
    }
  }

  /** One iteration of the loop: `response[key.to_s] = response.delete(key)`. */
  lemma RewriteStep(h: map<Key, Value>, done: set<Key>, k: Key)
    requires k in h && k !in done
    ensures k in Rewritten(h, done)
    ensures (Rewritten(h, done) - {k})[StrKey(k.name) := Rewritten(h, done)[k]]
            == Rewritten(h, done + {k})
  {
    RewrittenAt(h, done);
    RewrittenAt(h, done + {k});
    RewriteOne(h, done, k, Rewritten(h, done), Rewritten(h, done + {k}));
  }

  /** `response.keys.each { |key| response[key.to_s] = response.delete(key) }`,
      visiting the keys in any order. */
  method NormalizeKeys(response: map<Key, Value>) returns (r: map<Key, Value>)
    ensures r == Normalized(response)
  {
    r := response;
    var pending := response.Keys;
    ghost var done: set<Key> := {};
    RewrittenNone(response);
    while pending != {}
      invariant done + pending == response.Keys && done !! pending
      invariant r == Rewritten(response, done)
      decreases pending
    {
      var key :| key in pending;
      RewriteStep(response, done, key);
      var value := r[key];
      r := r - {key};
      r := r[StrKey(key.name) := value];
      done := done + {key};
      pending := pending - {key};
    }
    RewrittenAll(response);
  }

  /** Where no two keys share a name, every value stays under its key's
      string form. */
  lemma NormalizedKeepsUniqueValues(h: map<Key, Value>, k: Key)
    requires k in h
    requires k.StrKey? ==> SymKey(k.name) !in h
    ensures StrKey(k.name) in Normalized(h) && Normalized(h)[StrKey(k.name)] == h[k]
  {
  }

  /** Where a symbol and a string share a name, the symbol's value is kept. */
  lemma NormalizedSymbolWins(h: map<Key, Value>, name: string)
    requires SymKey(name) in h
    ensures Normalized(h)[StrKey(name)] == h[SymKey(name)]
  {
  }

  /** A hash whose keys are all strings is left as it is; so normalising
      twice is the same as normalising once. */
  lemma NormalizedIdempotent(h: map<Key, Value>)
    ensures (forall k | k in h :: k.StrKey?) ==> Normalized(h) == h
    ensures Normalized(Normalized(h)) == Normalized(h)
  {
    forall g: map<Key, Value> | forall k | k in g :: k.StrKey?
      ensures Normalized(g) == g
    {
      RewrittenAll(g);
      assert forall x :: x in Normalized(g) <==> x in g;
    }
  }

  // ---------------------------------------------------------------------
  // Required keys (`intent_keys`, `&` and `-` in `assert_valid_response`)
  // ---------------------------------------------------------------------

  /** `required - hash.keys`: the required names with no string key, in the
      order of `required`. */
  function MissingKeys(required: seq<string>, h: map<Key, Value>): (m: seq<string>)
    ensures forall x :: x in m <==> x in required && StrKey(x) !in h
    ensures |m| <= |required|
  {
    if required == [] then []
    else (if StrKey(required[0]) in h then [] else [required[0]]) + MissingKeys(required[1..], h)
  }

  /** `(hash.keys & required).length` for a list of distinct names: how many
      of them the hash has as string keys. */
  function PresentCount(required: seq<string>, h: map<Key, Value>): (n: nat)
    ensures n <= |required|
  {
    if required == [] then 0
    else (if StrKey(required[0]) in h then 1 else 0) + PresentCount(required[1..], h)
  }

  /** Taking the missing names commutes with splitting the required list:
      the report keeps the required list's order. */
  lemma {:induction false} MissingKeysAppend(a: seq<string>, b: seq<string>, h: map<Key, Value>)
    ensures MissingKeys(a + b, h) == MissingKeys(a, h) + MissingKeys(b, h)
  {
    if a == [] {
      assert a + b == b;
    } else {
      assert (a + b)[1..] == a[1..] + b;
      MissingKeysAppend(a[1..], b, h);
    }
  }

  /** Every required name is either present or reported missing, so the
      `&` guard fails exactly when the missing list is not empty. */
  lemma {:induction false} PresentPlusMissing(required: seq<string>, h: map<Key, Value>)
    ensures PresentCount(required, h) + |MissingKeys(required, h)| == |required|
    ensures PresentCount(required, h) == |required| <==> MissingKeys(required, h) == []
  {
    if required != [] {
      PresentPlusMissing(required[1..], h);
    }
  }

  /** Nothing is reported missing exactly when every required name is a key. */
  lemma {:induction false} NothingMissing(required: seq<string>, h: map<Key, Value>)
    ensures MissingKeys(required, h) == [] <==> forall x | x in required :: StrKey(x) in h
  {
    if required != [] {
      NothingMissing(required[1..], h);
      assert forall x | x in required :: x == required[0] || x in required[1..];
    }
  }

  // ---------------------------------------------------------------------
  // Outbound response validation (`assert_valid_response`)
  // ---------------------------------------------------------------------

  /** What `assert_valid_response` does to a handler's response: the
      normalised hash, or the condition it raises. */
  function ValidatedResponse(response: Value): (r: Result<map<Key, Value>>)
    ensures r.Ok? ==> response.Hash? && (forall k | k in r.value :: k.StrKey?)
                      && forall x | x in RequiredKeys :: StrKey(x) in r.value
    ensures r.Fail? ==> r.error.NoResponse? || r.error.NotAHash? || r.error.MissingIntentKeys?
  {
    match response
    case Nil => Fail(NoResponse)
    case Hash(h) =>
      var n := Normalized(h);
      PresentPlusMissing(RequiredKeys, n);
      NothingMissing(RequiredKeys, n);
      if PresentCount(RequiredKeys, n) == |RequiredKeys| then Ok(n)
      else Fail(MissingIntentKeys(MissingKeys(RequiredKeys, n)))
    case _ => Fail(NotAHash(response))
  }

  /** The response carries every required key, as a string or a symbol. */
  predicate Routable(h: map<Key, Value>)
  {
    forall x | x in RequiredKeys :: StrKey(x) in h || SymKey(x) in h
  }

  /** The outcomes of validation: nil is "no response"; any other non-hash
      is "not a hash"; a hash passes exactly when it is routable, and then
      yields its normalised form; otherwise the report lists exactly the
      absent required keys and is never empty. */
  lemma ValidatedResponseOutcomes(response: Value)
    ensures response.Nil? ==> ValidatedResponse(response) == Fail(NoResponse)
    ensures !response.Nil? && !response.Hash?
            ==> ValidatedResponse(response) == Fail(NotAHash(response))
    ensures response.Hash? ==>
              (ValidatedResponse(response).Ok? <==> Routable(response.entries))
    ensures ValidatedResponse(response).Ok?
            ==> response.Hash? && ValidatedResponse(response).value == Normalized(response.entries)
    ensures ValidatedResponse(response).Fail? && response.Hash? ==>
              var missing := ValidatedResponse(response).error;
              missing.MissingIntentKeys? && missing.missing != []
              && forall x :: x in missing.missing <==>
                   x in RequiredKeys && StrKey(x) !in response.entries && SymKey(x) !in response.entries
  {
    if response.Hash? {
      var n := Normalized(response.entries);
      var missing := MissingKeys(RequiredKeys, n);
      PresentPlusMissing(RequiredKeys, n);
      NothingMissing(RequiredKeys, n);
    }
  }

  /** `assert_valid_response`: rejects nil and non-hash responses, rewrites
      every key to a string, then checks the required keys. */
  method AssertValidResponse(response: Value) returns (r: Result<map<Key, Value>>)
    ensures r == ValidatedResponse(response)
  {
    if response.Nil? {
      return Fail(NoResponse);
    }
    if !response.Hash? {
      return Fail(NotAHash(response));
    }
    var normalized := NormalizeKeys(response.entries);
    if PresentCount(RequiredKeys, normalized) != |RequiredKeys| {
      return Fail(MissingIntentKeys(MissingKeys(RequiredKeys, normalized)));
    }
    return Ok(normalized);
  }

  // ---------------------------------------------------------------------
  // Routing propagation (`ensure_routing_maintained`)
  // ---------------------------------------------------------------------

  /** The validated response with "routing" overwritten by the message's
      routing block; `message.fetch("routing")` raises KeyError when the
      message has none, but only after the response passed validation. */
  function Routed(message: map<Key, Value>, response: Value): (r: Result<map<Key, Value>>)
    ensures r.Ok? ==> StrKey("routing") in message && StrKey("routing") in r.value
                      && r.value[StrKey("routing")] == message[StrKey("routing")]
    ensures r.Ok? ==> forall x | x in RequiredKeys :: StrKey(x) in r.value
  {
    match ValidatedResponse(response)
    case Fail(e) => Fail(e)
    case Ok(n) =>
      if StrKey("routing") in message then Ok(n[StrKey("routing") := message[StrKey("routing")]])
      else Fail(KeyNotFound("routing"))
  }

  /** A routed response carries the message's routing block, keeps every
      other normalised key and value, has only string keys and every
      required key. Validation errors come first; a missing routing block
      is reported only for a valid response. */
  lemma RoutedOutcomes(message: map<Key, Value>, response: Value)
    ensures response.Nil? ==> Routed(message, response) == Fail(NoResponse)
    ensures ValidatedResponse(response).Fail?
            ==> Routed(message, response) == Fail(ValidatedResponse(response).error)
    ensures ValidatedResponse(response).Ok? && StrKey("routing") !in message
            ==> Routed(message, response) == Fail(KeyNotFound("routing"))
    ensures Routed(message, response).Ok? <==>
              response.Hash? && Routable(response.entries) && StrKey("routing") in message
    ensures Routed(message, response).Ok? ==>
              var r := Routed(message, response).value;
              var n := Normalized(response.entries);
              && r.Keys == n.Keys + {StrKey("routing")}
              && r[StrKey("routing")] == message[StrKey("routing")]
              && (forall k | k in n && k != StrKey("routing") :: r[k] == n[k])
              && (forall k | k in r :: k.StrKey?)
              && (forall x | x in RequiredKeys :: StrKey(x) in r)
  {
    ValidatedResponseOutcomes(response);
  }

  /** `ensure_routing_maintained(message, response)`. */
  method EnsureRoutingMaintained(message: map<Key, Value>, response: Value)
    returns (r: Result<map<Key, Value>>)
    ensures r == Routed(message, response)
  {
    var valid := AssertValidResponse(response);
    if valid.Fail? {
      return Fail(valid.error);
    }
    if StrKey("routing") !in message {
      return Fail(KeyNotFound("routing"));
    }
    return Ok(valid.value[StrKey("routing") := message[StrKey("routing")]]);
  }
}
