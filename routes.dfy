/** The three smaller routes of the router (src/routes/index.ts): the
    whitelist lookup, reading one token, and creating a token. Each is a
    function from the request and the store's outcomes to the trace the
    handler produces. */
module Routes {
  import opened Js
  import opened Trace

  /** The addresses allowed to mint, compared exactly as written (mixed case). */
  const WhiteList: seq<string> := [
    "0x6BbEF4ce6Fa65d1f009918B00240AB009b40552a",
    "0x7C5CC6d1dC1a297CFbb71A37e1c7a72F519204C1",
    "0x10836d93f39CC896651C210084f98b63E1055529"
  ]

  const AddressMissingMessage: string := "address property not found."

  /** `list.find(addr => addr === address)`: the first element equal to
      `address`, if any. */
  function Find(list: seq<string>, address: string): (r: Option<string>)
    ensures r.Some? <==> address in list
    ensures r.Some? ==> r.value == address
    decreases |list|
  {
    if list == [] then None
    else if list[0] == address then Some(list[0])
    else Find(list[1..], address)
  }

  /** `GET /whitelisted/:address`. An empty address is refused; otherwise
      the reply is whether `find` returned a truthy string. */
  function WhitelistResponse(address: string): Response
  {
    if address == [] then Response(BadRequest, Text(AddressMissingMessage))
    else
      var found := Find(WhiteList, address);
      Response(Ok, JsonBool(found.Some? && found.value != []))
  }

  /** The route answers 400 exactly for the empty address, and `true`
      exactly for an address spelled as one of the listed ones. */
  lemma WhitelistIff(address: string)
    ensures WhitelistResponse(address).status == BadRequest <==> address == []
    ensures WhitelistResponse(address).status == Ok <==> address != []
    ensures WhitelistResponse(address) == Response(Ok, JsonBool(true)) <==> address in WhiteList
    ensures WhitelistResponse(address) == Response(Ok, JsonBool(false)) <==> address != [] && address !in WhiteList
  {
    if address in WhiteList {
      assert address != [] by {
        assert forall a :: a in WhiteList ==> |a| == 42;
      }
    }
  }

  /** The comparison is exact: the same address in lower case is not
      whitelisted. */
  lemma WhitelistIsCaseSensitive()
    ensures WhitelistResponse("0x6bbef4ce6fa65d1f009918b00240ab009b40552a") == Response(Ok, JsonBool(false))
  {
    var lower := "0x6bbef4ce6fa65d1f009918b00240ab009b40552a";
    assert lower[3] != WhiteList[0][3];
    assert lower[2] != WhiteList[1][2];
    assert lower[2] != WhiteList[2][2];
    assert lower !in WhiteList;
    WhitelistIff(lower);
  }

  /** What `doc(tokenId).get()` does for `GET /tokens/:tokenId`. It is
      awaited outside any try block, so a failure rejects the handler. */
  datatype TokenLookup = LookupFailed | NoSuchToken | TokenFound(data: map<string, JsValue>)

  const ParamsMissingMessage: string := "Please provider params"

  function NoSuchTokenMessage(tokenId: string): string
  {
    "The token with the id " + tokenId + " doesn't exists."
  }

  /** `GET /tokens/:tokenId`. */
  function GetTokenRun(tokenId: string, lookup: TokenLookup): seq<Event>
  {
    if tokenId == [] then [Respond(Response(BadRequest, Text(ParamsMissingMessage)))]
    else
      [StoreRead(tokenId)] +
      match lookup
      case LookupFailed => [Reject]
      case NoSuchToken => [Respond(Response(NotFound, Text(NoSuchTokenMessage(tokenId))))]
      case TokenFound(data) => [Respond(Response(Ok, TokenDocument(data, tokenId)))]
  }

  /** An empty id is refused before the store is read; any other id reads
      exactly that document, and the run ends in one response or one
      rejection, a rejection exactly when the read throws. */
  lemma GetTokenGated(tokenId: string, lookup: TokenLookup)
    ensures var t := GetTokenRun(tokenId, lookup);
      && EndsOnce(t)
      && (tokenId == [] <==> t == [Respond(Response(BadRequest, Text(ParamsMissingMessage)))])
      && (tokenId == [] <==> !Occurs(t, KStoreRead))
      && (tokenId != [] ==> t[0] == StoreRead(tokenId))
      && (Occurs(t, KReject) <==> tokenId != [] && lookup.LookupFailed?)
      && (tokenId != [] && lookup.NoSuchToken? ==>
            t == [StoreRead(tokenId), Respond(Response(NotFound, Text(NoSuchTokenMessage(tokenId))))])
      && (tokenId != [] && lookup.TokenFound? ==> t[|t| - 1] == Respond(Response(Ok, TokenDocument(lookup.data, tokenId))))
  {
    var t := GetTokenRun(tokenId, lookup);
    if tokenId != [] {
      assert KindOf(t[0]) == KStoreRead;
      if lookup.LookupFailed? {
        assert KindOf(t[1]) == KReject;
      }
    }
  }

  /** The five properties `POST /token` requires, in the order it lists them. */
  const TokenFields: seq<string> := ["description", "external_url", "image", "name", "attributes"]

  const CreateFieldsMessage: string :=
    "Please pass these following properties with the body: description, external_url, image, name, attributes"
  const CreateFailedMessage: string := "Failed to create a token"

  /** The check of line 100: every required property is truthy. */
  predicate HasTokenFields(body: Body)
  {
    Truthy(Field(body, "description")) && Truthy(Field(body, "external_url")) && Truthy(Field(body, "image"))
    && Truthy(Field(body, "name")) && Truthy(Field(body, "attributes"))
  }

  /** The record added to the collection: the five properties, and nothing
      else from the body. */
  function NewToken(body: Body): (record: map<string, JsValue>)
    ensures record.Keys == set k | k in TokenFields
    ensures forall k :: k in record ==> record[k] == Field(body, k)
  {
    map["description" := Field(body, "description"),
        "external_url" := Field(body, "external_url"),
        "image" := Field(body, "image"),
        "name" := Field(body, "name"),
        "attributes" := Field(body, "attributes")]
  }

  /** What the store does with the `add` and the `get` of the new document,
      both inside one try block. */
  datatype CreateOutcome = AddFailed | ReadBackFailed | Created(data: map<string, JsValue>)

  /** `POST /token`. */
  function CreateTokenRun(body: Body, outcome: CreateOutcome): seq<Event>
  {
    if !HasTokenFields(body) then [Respond(Response(BadRequest, Text(CreateFieldsMessage)))]
    else
      [StoreAdd(NewToken(body))] +
      match outcome
      case AddFailed => [Respond(Response(InternalError, Text(CreateFailedMessage)))]
      case ReadBackFailed => [ReadBack, Respond(Response(InternalError, Text(CreateFailedMessage)))]
      case Created(data) => [ReadBack, Respond(Response(Ok, Document(data)))]
  }

  /** 400 with no write exactly when some required property is falsy;
      otherwise the first effect adds exactly the five properties, and the
      reply is 200 with the stored document or 500 on any store failure. */
  lemma CreateTokenGated(body: Body, outcome: CreateOutcome)
    ensures var t := CreateTokenRun(body, outcome);
      && EndsOnce(t)
      && (!HasTokenFields(body) <==> t == [Respond(Response(BadRequest, Text(CreateFieldsMessage)))])
      && (!HasTokenFields(body) <==> !Occurs(t, KStoreAdd))
      && (HasTokenFields(body) ==> t[0] == StoreAdd(NewToken(body)))
      && (HasTokenFields(body) ==>
            t[|t| - 1] == Respond(if outcome.Created? then Response(Ok, Document(outcome.data))
                                  else Response(InternalError, Text(CreateFailedMessage))))
      && (Occurs(t, KReadBack) <==> HasTokenFields(body) && !outcome.AddFailed?)
  {
    var t := CreateTokenRun(body, outcome);
    if HasTokenFields(body) {
      assert KindOf(t[0]) == KStoreAdd;
      if !outcome.AddFailed? {
        assert KindOf(t[1]) == KReadBack;
      }
    }
  }

  /** Each required property on its own decides the 400: dropping any one of
      them from a complete body is refused. */
  lemma EachFieldRequired(body: Body, key: string)
    requires HasTokenFields(body)
    requires key in TokenFields
    ensures !HasTokenFields(body - {key})
    ensures CreateTokenRun(body - {key}, AddFailed) == [Respond(Response(BadRequest, Text(CreateFieldsMessage)))]
  {
  }
}
