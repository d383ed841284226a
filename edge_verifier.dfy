/** The edge handler (`slashbotLambda/app.py`): it reads the bot's public key and
    the command backend's ARN from the parameter store, checks the Ed25519
    signature over `timestamp ++ rawBody`, answers a ping with `{"type": 1}`, and
    otherwise answers `{"type": 5}` after handing the interaction to the backend
    with one fire-and-forget invocation.

    The parameter store, hex decoding and Ed25519 are foreign code and appear
    here as function-valued parameters; the backend invocation is an append to
    the log of a `LambdaClient`. */
module EdgeVerifier {
  import opened Py
  import opened Json
  import Utf8

  const PublicKeySSMName := "/discord/discordApiBotPublicKey"
  const CommandApiArnSSMName := "/discord/discordCommandLambdaArn"
  const SignatureHeader := "x-signature-ed25519"
  const TimestampHeader := "x-signature-timestamp"

  /** The interaction type of a ping, which is also the response type of its answer. */
  const PingType := 1
  /** The response type meaning "acknowledged, a follow-up message will come". */
  const DeferredType := 5
  /** The invocation type of a one-way Lambda call whose result nobody reads. */
  const EventInvocation := "Event"

  type Bytes = seq<Utf8.Byte>

  /** One entry of the `Parameters` list of an SSM `get_parameters` answer. */
  datatype SsmParameter = SsmParameter(name: string, value: string)

  /** The parameter store: given the names asked for and whether to decrypt,
      the `Parameters` list it answers with. */
  type ParameterStore = (seq<string>, bool) -> seq<SsmParameter>

  /** The foreign cryptography. `fromHex` is `bytes.fromhex` (`None` when it
      raises) and `verify(key, message, signature)` says whether
      `VerifyKey(key).verify(message, signature)` returns rather than raises. */
  datatype Verifier = Verifier(fromHex: string -> Option<Bytes>, verify: (Bytes, Bytes, Bytes) -> bool)

  /** A synchronous answer to the platform: exactly the object `{"type": ackType}`. */
  datatype Ack = Ack(ackType: int)

  /** One call of the Lambda `invoke` API; the payload is recorded as the JSON
      value that `json.dumps` serialises. */
  datatype Invocation = Invocation(functionName: string, invocationType: string, payload: Json)

  /** What one run of the handler does: what it returns (or raises), and the
      invocations it makes, in order. */
  datatype EdgeRun = EdgeRun(response: Result<Ack>, dispatches: seq<Invocation>)

  /** The Lambda client: every `invoke` call it is asked to make, in order. */
  class LambdaClient {
    var invocations: seq<Invocation>

    constructor ()
      ensures invocations == []
    {
      invocations := [];
    }

    method Invoke(functionName: string, invocationType: string, payload: Json)
      modifies this
      ensures invocations == old(invocations) + [Invocation(functionName, invocationType, payload)]
    {
      invocations := invocations + [Invocation(functionName, invocationType, payload)];
    }
  }

  // ---------------------------------------------------------------------------
  // Secrets

  const ParameterNames: seq<string> := [PublicKeySSMName, CommandApiArnSSMName]

  /** The list the store answers with when asked for both parameters, decrypted. */
  function StoreAnswer(store: ParameterStore): seq<SsmParameter> {
    store(ParameterNames, true)
  }

  /** `GetSSMParams`: asks for both names with decryption and returns the values
      of the first two entries of the answer, by position and without looking at
      their names, as (public key, commands ARN). A short answer raises. */
  function GetSSMParams(store: ParameterStore): (r: Result<(string, string)>)
    ensures r.Ok? <==> |StoreAnswer(store)| >= 2
    ensures r.Ok? ==> r.value.0 == StoreAnswer(store)[0].value && r.value.1 == StoreAnswer(store)[1].value
    ensures r.Raise? ==> r.exc == IndexError
  {
    var parameters := store(ParameterNames, true);
    if |parameters| < 2 then Raise(IndexError) else Ok((parameters[0].value, parameters[1].value))
  }

  /** The store is asked one question only: two stores that answer it alike give the same secrets. */
  lemma GetSSMParamsAsksOnlyForBoth(s1: ParameterStore, s2: ParameterStore)
    requires s1(ParameterNames, true) == s2(ParameterNames, true)
    ensures GetSSMParams(s1) == GetSSMParams(s2)
  {
  }

  // ---------------------------------------------------------------------------
  // Signature

  /** The signed message: the bytes of the timestamp followed by the bytes of the
      raw body, which is the encoding of the two texts joined. */
  function SignedMessage(timestamp: string, rawBody: string): (m: Bytes)
    ensures m == Utf8.Encode(timestamp + rawBody)
    ensures |Utf8.Encode(timestamp)| <= |m| && m[..|Utf8.Encode(timestamp)|] == Utf8.Encode(timestamp)
  {
    Utf8.EncodeConcat(timestamp, rawBody);
    Utf8.Encode(timestamp) + Utf8.Encode(rawBody)
  }

  /** The signature covers the whole body: for one timestamp, distinct raw bodies
      give distinct signed messages. */
  lemma SignedMessageDeterminesBody(timestamp: string, body1: string, body2: string)
    requires SignedMessage(timestamp, body1) == SignedMessage(timestamp, body2)
    ensures body1 == body2
  {
    var t := Utf8.Encode(timestamp);
    var m1, m2 := SignedMessage(timestamp, body1), SignedMessage(timestamp, body2);
    assert m1[|t|..] == Utf8.Encode(body1);
    assert m2[|t|..] == Utf8.Encode(body2);
    Utf8.EncodeInjective(body1, body2);
  }

  /** A signed message determines the text `timestamp + rawBody` it was built from. */
  lemma SignedMessageDeterminesText(t1: string, b1: string, t2: string, b2: string)
    requires SignedMessage(t1, b1) == SignedMessage(t2, b2)
    ensures t1 + b1 == t2 + b2
  {
    Utf8.EncodeInjective(t1 + b1, t2 + b2);
  }

  /** The three values the signature check reads from the mapped event. */
  datatype Envelope = Envelope(signature: Json, timestamp: Json, rawBody: Json)

  /** `event['params']['header'][...]` for both headers and `event.get("rawBody")`. */
  function ReadEnvelope(event: Json): (r: Result<Envelope>)
    ensures r.Ok? <==>
      event.JObject? && "params" in event.fields && event.fields["params"].JObject?
      && "header" in event.fields["params"].fields && event.fields["params"].fields["header"].JObject?
      && SignatureHeader in event.fields["params"].fields["header"].fields
      && TimestampHeader in event.fields["params"].fields["header"].fields
    ensures r.Ok? ==>
      var header := event.fields["params"].fields["header"].fields;
      r.value.signature == header[SignatureHeader] && r.value.timestamp == header[TimestampHeader]
      && r.value.rawBody == (if "rawBody" in event.fields then event.fields["rawBody"] else JNull)
  {
    var params :- Subscript(event, "params");
    var header :- Subscript(params, "header");
    var signature :- Subscript(header, SignatureHeader);
    var timestamp :- Subscript(header, TimestampHeader);
    var rawBody := Get(event, "rawBody").value;  // `event` is a dict here: `.get` cannot raise
    Ok(Envelope(signature, timestamp, rawBody))
  }

  /** Ed25519 accepts `signatureHex` for `message` under `publicKeyHex`, both hex-decoded. */
  predicate Accepts(verifier: Verifier, publicKeyHex: string, message: Bytes, signatureHex: string) {
    verifier.fromHex(publicKeyHex).Some? && verifier.fromHex(signatureHex).Some?
    && verifier.verify(verifier.fromHex(publicKeyHex).value, message, verifier.fromHex(signatureHex).value)
  }

  /** `VerifySignature`: returns exactly when the envelope is present, the
      timestamp, raw body and signature are strings, and the verifier accepts
      the signature over the encoded `timestamp + rawBody` with the public key. */
  function VerifySignature(event: Json, publicKeyHex: string, verifier: Verifier): (r: Result<()>)
    ensures r.Ok? <==>
      ReadEnvelope(event).Ok?
      && ReadEnvelope(event).value.timestamp.JString? && ReadEnvelope(event).value.rawBody.JString?
      && ReadEnvelope(event).value.signature.JString?
      && Accepts(verifier, publicKeyHex,
                 Utf8.Encode(ReadEnvelope(event).value.timestamp.s + ReadEnvelope(event).value.rawBody.s),
                 ReadEnvelope(event).value.signature.s)
  {
    var envelope :- ReadEnvelope(event);
    if !envelope.timestamp.JString? || !envelope.rawBody.JString? then
      Raise(AttributeError)  // `.encode()` of something that is not a string
    else
      var message := SignedMessage(envelope.timestamp.s, envelope.rawBody.s);
      match verifier.fromHex(publicKeyHex)
      case None => Raise(ValueError)
      case Some(key) =>
        if !envelope.signature.JString? then Raise(TypeError)
        else
          match verifier.fromHex(envelope.signature.s)
          case None => Raise(ValueError)
          case Some(signature) =>
            if verifier.verify(key, message, signature) then Ok(()) else Raise(BadSignatureError)
  }

  // ---------------------------------------------------------------------------
  // Ping

  /** `HandleDiscordPing`: `event.get("body-json").get("type") == 1`. It raises
      unless `body-json` is an object; otherwise it is true exactly when that
      object's `type` equals 1 in Python's sense (which includes `true`). */
  function HandleDiscordPing(event: Json): (r: Result<bool>)
    ensures r.Ok? <==> event.JObject? && "body-json" in event.fields && event.fields["body-json"].JObject?
    ensures r.Ok? ==>
      (r.value <==> "type" in event.fields["body-json"].fields
                    && EqualsInt(event.fields["body-json"].fields["type"], PingType))
    ensures r.Raise? ==> r.exc == AttributeError
  {
    var body :- Get(event, "body-json");
    var interactionType :- Get(body, "type");
    Ok(EqualsInt(interactionType, PingType))
  }

  // ---------------------------------------------------------------------------
  // The handler

  /** Both secrets were read and the signature checked out. */
  predicate Authenticated(event: Json, store: ParameterStore, verifier: Verifier) {
    GetSSMParams(store).Ok? && VerifySignature(event, GetSSMParams(store).value.0, verifier).Ok?
  }

  /** What `lambda_handler` does, step by step: secrets, then signature (any
      failure re-raised as `Unverified`), then the ping check, then the one
      dispatch of `body-json` to the commands ARN. */
  function Handle(event: Json, store: ParameterStore, verifier: Verifier): (run: EdgeRun)
    ensures |run.dispatches| <= 1
    ensures |run.dispatches| == 1 <==> run.response == Ok(Ack(DeferredType))
    ensures run.response.Ok? ==> run.response.value.ackType == PingType || run.response.value.ackType == DeferredType
    ensures run.response.Ok? || |run.dispatches| > 0 ==> Authenticated(event, store, verifier)
    ensures run.response == Ok(Ack(PingType)) <==>
      Authenticated(event, store, verifier) && HandleDiscordPing(event) == Ok(true)
    ensures forall d :: d in run.dispatches ==>
      d.invocationType == EventInvocation && d.functionName == StoreAnswer(store)[1].value
      && event.JObject? && "body-json" in event.fields && d.payload == event.fields["body-json"]
  {
    match GetSSMParams(store)
    case Raise(e) => EdgeRun(Raise(e), [])
    case Ok((publicKey, commandsArn)) =>
      if VerifySignature(event, publicKey, verifier).Raise? then EdgeRun(Raise(Unverified), [])
      else
        match HandleDiscordPing(event)
        case Raise(e) => EdgeRun(Raise(e), [])
        case Ok(isPing) =>
          if isPing then EdgeRun(Ok(Ack(PingType)), [])
          else EdgeRun(Ok(Ack(DeferredType)), [Invocation(commandsArn, EventInvocation, event.fields["body-json"])])
  }

  /** A failed signature check raises `Unverified`, and nothing is answered or
      dispatched; this holds for pings too, since the check comes first. */
  lemma UnverifiedRaises(event: Json, store: ParameterStore, verifier: Verifier)
    requires GetSSMParams(store).Ok?
    requires VerifySignature(event, StoreAnswer(store)[0].value, verifier).Raise?
    ensures Handle(event, store, verifier) == EdgeRun(Raise(Unverified), [])
  {
  }

  /** An authenticated ping is answered with exactly `{"type": 1}` and dispatches nothing. */
  lemma VerifiedPing(event: Json, store: ParameterStore, verifier: Verifier)
    requires Authenticated(event, store, verifier)
    requires HandleDiscordPing(event) == Ok(true)
    ensures Handle(event, store, verifier) == EdgeRun(Ok(Ack(PingType)), [])
  {
  }

  /** An authenticated non-ping is answered with exactly `{"type": 5}` and makes
      exactly one `Event` invocation of the second parameter's ARN, carrying
      `body-json` (not the raw body). */
  lemma VerifiedNonPing(event: Json, store: ParameterStore, verifier: Verifier)
    requires Authenticated(event, store, verifier)
    requires HandleDiscordPing(event) == Ok(false)
    ensures event.JObject? && "body-json" in event.fields
    ensures Handle(event, store, verifier) ==
      EdgeRun(Ok(Ack(DeferredType)), [Invocation(StoreAnswer(store)[1].value, EventInvocation, event.fields["body-json"])])
  {
  }

  /** `InvokeDiscordCommandsApi`: one one-way invocation of the given ARN with the payload. */
  method InvokeDiscordCommandsApi(client: LambdaClient, payloadData: Json, lambdaToInvokeArn: string)
    modifies client
    ensures client.invocations == old(client.invocations) + [Invocation(lambdaToInvokeArn, EventInvocation, payloadData)]
  {
    client.Invoke(lambdaToInvokeArn, EventInvocation, payloadData);
  }

  /** `lambda_handler`: returns (or raises) what `Handle` says and appends to the
      client's log exactly the invocations `Handle` lists: none, or one. */
  method LambdaHandler(event: Json, store: ParameterStore, verifier: Verifier, client: LambdaClient)
    returns (response: Result<Ack>)
    modifies client
    ensures response == Handle(event, store, verifier).response
    ensures client.invocations == old(client.invocations) + Handle(event, store, verifier).dispatches
    ensures |client.invocations| == |old(client.invocations)| + (if response == Ok(Ack(DeferredType)) then 1 else 0)
  {
    var secrets := GetSSMParams(store);
    if secrets.Raise? {
      return Raise(secrets.exc);
    }
    var (apiBotPublicKey, commandsApiArn) := secrets.value;

    var verified := VerifySignature(event, apiBotPublicKey, verifier);
    if verified.Raise? {
      return Raise(Unverified);
    }

    var ping := HandleDiscordPing(event);
    if ping.Raise? {
      return Raise(ping.exc);
    }
    if ping.value {
      return Ok(Ack(PingType));
    }

    response := Ok(Ack(DeferredType));
    var lambdaData := event.fields["body-json"];
    InvokeDiscordCommandsApi(client, lambdaData, commandsApiArn);
  }
}
