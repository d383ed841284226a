# Discord slash-command bot on AWS Lambda: a Dafny model of its decision logic

This project models the deterministic logic of a Discord bot built from AWS Lambda
functions, and proves properties of it.

- **Edge verifier** (`slashbotLambda/app.py`). It reads the bot's public key and the
  command backend's ARN from the SSM parameter store. It checks the Ed25519 signature
  over `timestamp ++ rawBody`. A ping (`body-json.type == 1`) is answered `{"type": 1}`.
  Any other interaction is answered `{"type": 5}`, after exactly one one-way
  (`InvocationType='Event'`) invocation of the backend carrying `body-json`.
- **Command backend** (`slashbotCommandsLambda/app.py` and its near-duplicate
  copy `slachbotCommandsLambda/commandHandler.py`). It reads `data.name` and `token`. It
  picks a reply by exact match on the name: `wave`, `getvotes`, or a fixed fallback.
  It POSTs the reply once to `https://discord.com/api/webhooks/{appId}/{token}`.
- **Vote command** (`slashbotCommandsLambda/commands/getVotes.py`). It sends the first
  option's `value` as `{"question": ...}` to a lookup function. It takes "no" from the
  first item of vote type 0 and "yes" from the first item of vote type 1, and raises
  when either is missing. The reply has the constant title and one embed with the
  fields Yes, No and a disclaimer, in that order.

How the foreign code appears:

- Ed25519 and `bytes.fromhex` are the function-valued fields of `EdgeVerifier.Verifier`.
- The SSM parameter store is a function from (names, decrypt) to the returned `Parameters` list.
- The vote lookup (Lambda invoke, `json.loads`, `.get('Items')`) is a function from the
  payload to a list of `VoteItem`s.
- The backend invocation and the urllib3 POST are appends to the log of a class
  (`EdgeVerifier.LambdaClient`, `Webhook.HttpClient`), so "no dispatch" and "exactly one
  dispatch" can be stated.
- JSON serialisation is the identity: logs hold the `Json` or `Reply` value that is serialised.
- Python exceptions are the `Raise` case of `Py.Result`. `Json.Get`, `Json.Subscript`,
  `Json.Index` and `Json.Str` give `.get`, `[key]`, `[i]` and `str()` their Python
  behaviour, including which of them raise on which values.
- `str.encode()` is UTF-8 (module `Utf8`). `f"{n}"` for an int is `Decimal.FromInt`.

Modules: `Py`, `Json`, `Decimal`, `Utf8` and `Webhook` are shared building blocks.
`EdgeVerifier`, `CommandsApp`, `GetVotes` and `CommandHandler` model one source file each.

Behaviour of the code worth noting:

- A failed signature check is an exception raised by the handler. The 401 status comes from the API gateway that maps it.
- The backend is invoked before `{"type": 5}` is returned. So a failing invoke call
  would stop the acknowledgement too; this is not a strict fire-and-forget.
- The dispatched payload is `json.dumps(event['body-json'])`, a re-serialisation. It is not the raw body verbatim.
- The ping test is Python's `== 1`, so `"type": true` also counts as a ping.
- The vote command raises `IndexError` on a missing vote type; it does not default to zero.
- A missing `token` is interpolated as `None`, giving `.../{appId}/None`.

## Model

| member | source | states |
|---|---|---|
| `EdgeVerifier.GetSSMParams` | slashbotLambda/app.py:91-106 | Succeeds exactly when the store's answer has at least two entries, and then gives the values of entries 0 and 1, by position, as (public key, commands ARN). Otherwise it raises `IndexError`. |
| `EdgeVerifier.GetSSMParamsAsksOnlyForBoth` | slashbotLambda/app.py:97-104 | The result depends only on the store's answer to the one request for both parameter names with decryption on. |
| `EdgeVerifier.SignedMessage` | slashbotLambda/app.py:85-87 | The signed message is the UTF-8 encoding of `timestamp + rawBody`. Its first bytes are the encoding of the timestamp. |
| `EdgeVerifier.SignedMessageDeterminesBody` | slashbotLambda/app.py:86-87 | For one timestamp, distinct raw bodies give distinct signed messages, so the signature covers the whole body. |
| `EdgeVerifier.SignedMessageDeterminesText` | slashbotLambda/app.py:87 | Equal signed messages come from equal `timestamp + rawBody` texts. |
| `EdgeVerifier.ReadEnvelope` | slashbotLambda/app.py:84-86 | Reading the envelope succeeds exactly when `params.header` holds both signature headers. `rawBody` is read with `.get`, so a missing one gives `None`. |
| `EdgeVerifier.VerifySignature` | slashbotLambda/app.py:76-89 | Returns exactly when the envelope is present, timestamp, raw body and signature are strings, both hex texts decode, and Ed25519 accepts the signature over the encoded `timestamp + rawBody` under the decoded key. |
| `EdgeVerifier.HandleDiscordPing` | slashbotLambda/app.py:62-73 | Raises unless `body-json` is an object. Otherwise true exactly when its `type` equals 1 in Python's sense. |
| `EdgeVerifier.Handle` | slashbotLambda/app.py:12-45 | At most one dispatch, and one exactly when the answer is `{"type": 5}`. Any answer or dispatch implies secrets were read and the signature verified. The answer is `{"type": 1}` exactly for an authenticated ping. Every dispatch is an `Event` invocation of the second parameter's ARN carrying `body-json`. |
| `EdgeVerifier.UnverifiedRaises` | slashbotLambda/app.py:28-33 | With secrets read, a failed signature check raises `Unverified` with no dispatch. This holds for pings too. |
| `EdgeVerifier.VerifiedPing` | slashbotLambda/app.py:30-36 | An authenticated ping gets exactly `{"type": 1}` and no dispatch. |
| `EdgeVerifier.VerifiedNonPing` | slashbotLambda/app.py:38-45 | An authenticated non-ping gets exactly `{"type": 5}` and the single invocation (commands ARN, `Event`, `body-json`). |
| `EdgeVerifier.LambdaClient.Invoke` | slashbotLambda/app.py:57-60 | Appends one invocation record to the client's log and changes nothing else. |
| `EdgeVerifier.InvokeDiscordCommandsApi` | slashbotLambda/app.py:47-60 | Appends exactly one `Event` invocation of the given ARN with the given payload. |
| `EdgeVerifier.LambdaHandler` | slashbotLambda/app.py:12-45 | Returns or raises what `Handle` says. It appends exactly `Handle`'s dispatches to the log: one when it answers `{"type": 5}`, none otherwise. |
| `Utf8.Encode` | slashbotLambda/app.py:87 | `str.encode()`: between one and four bytes per character. |
| `Utf8.EncodeConcat` | slashbotLambda/app.py:87 | Encoding a concatenation is concatenating the encodings. |
| `Utf8.DecodeEncode` | slashbotLambda/app.py:87 | Decoding the encoding of a string gives the string back. |
| `Utf8.EncodeInjective` | slashbotLambda/app.py:87 | Distinct strings have distinct encodings. |
| `Decimal.FromInt` | slashbotCommandsLambda/commands/getVotes.py:47-54 | `f"{n}"` for an int is a minus sign exactly for negatives, then digits with no leading zero. |
| `Decimal.ParseFromInt` | slashbotCommandsLambda/commands/getVotes.py:47-54 | Reading back the text of a count gives the count, so the formatting loses nothing. |
| `GetVotes.Question` | slashbotCommandsLambda/commands/getVotes.py:20 | The question is `data.options[0].value`, or `None` when that option has no `value`. It raises unless the first option exists and is an object, and raises `IndexError` on an empty `options`. |
| `GetVotes.LookupPayload` | slashbotCommandsLambda/commands/getVotes.py:21-27 | The lookup payload has exactly one key, `question`, bound to the question. |
| `GetVotes.MatchingItems` | slashbotCommandsLambda/commands/getVotes.py:29-32 | The comprehension keeps exactly the items of the vote type. Its first element is the first such item of the list. |
| `GetVotes.FirstVotes` | slashbotCommandsLambda/commands/getVotes.py:29-32 | Raises `IndexError` exactly when no item has the vote type; never defaults to zero. Otherwise it returns the `votes` of the first item of that type. |
| `GetVotes.FirstVotesIgnoresLaterItems` | slashbotCommandsLambda/commands/getVotes.py:29-32 | Once a vote type is found, appended items, later duplicates included, do not change the count. |
| `GetVotes.FirstVotesIgnoresOtherTypes` | slashbotCommandsLambda/commands/getVotes.py:29-32 | Inserting an item of another vote type anywhere does not change the result. |
| `GetVotes.VotesReply` | slashbotCommandsLambda/commands/getVotes.py:33-71 | The content is the constant title. There is one embed with three fields in the order Yes (inline, yes count as text), No (inline, no count as text), disclaimer (no `inline` key). |
| `GetVotes.ReadCountsOfVotesReply` | slashbotCommandsLambda/commands/getVotes.py:45-55 | Reading the Yes and No fields of the reply gives back the two counts. |
| `GetVotes.GetDebugRoomVotes` | slashbotCommandsLambda/commands/getVotes.py:10-73 | Succeeds exactly when the question is read and the lookup's items contain both vote types. The reply is then exactly `VotesReply` of the first type-1 count and the first type-0 count, so its Yes and No fields read back as those counts. |
| `GetVotes.WorkedExample` | slashbotCommandsLambda/commands/getVotes.py:29-55 | Items `[{0, 3}, {1, 7}]` give Yes = "7" and No = "3". |
| `GetVotes.MissingNoVotesRaises` | slashbotCommandsLambda/commands/getVotes.py:29-30 | Without a type-0 item the command raises `IndexError`, whatever type-1 items exist. |
| `CommandsApp.CreateFullUrl` | slashbotCommandsLambda/app.py:53-54 | The URL starts with the webhook base. When `appId` has no `/`, reading the URL back gives `(appId, token)`. |
| `CommandsApp.CreateFullUrlInjective` | slashbotCommandsLambda/app.py:53-54 | With ids free of `/`, distinct (id, token) pairs give distinct URLs. |
| `CommandsApp.GetCommandResponseDataSwitch` | slashbotCommandsLambda/app.py:56-71 | `"wave"` gives exactly `{"content": "Hello, world!"}`. `"getvotes"` gives exactly the vote command on the unchanged event. Any other value gives the fallback content. Only `"getvotes"` can raise. |
| `CommandsApp.UnknownCommandFallsBack` | slashbotCommandsLambda/app.py:70-71 | A name that is not the value of an enum member is answered with the fallback, never an error. |
| `CommandsApp.CommandValuesInjective` | slashbotCommandsLambda/app.py:25-32 | `CommandEnum`'s members `wave` and `getvotes` have distinct values, so a name selects at most one command. |
| `CommandsApp.Token` | slashbotCommandsLambda/app.py:41 | The token is Python's `eventjson.get('token')`: the top-level `token` field, or `None` when it is missing. |
| `CommandsApp.CommandName` | slashbotCommandsLambda/app.py:40 | The command is `data.name`, `None` when missing. It raises unless `data` is an object. |
| `CommandsApp.FollowUp` | slashbotCommandsLambda/app.py:34-50 | The single request is a POST to `createFullUrl(str(token))`, with the switch's reply as body and header `Content-Type: application/json`. |
| `CommandsApp.WaveFollowUp` | slashbotCommandsLambda/app.py:40-67 | A `wave` interaction with token `t` is answered by a POST of exactly `{"content": "Hello, world!"}` to `https://discord.com/api/webhooks/{appId}/{t}`. |
| `CommandsApp.HandleIncomingCommand` | slashbotCommandsLambda/app.py:34-51 | Appends exactly the one request `FollowUp` describes, or nothing when it raises, and returns or raises accordingly. |
| `Webhook.HttpClient.Request` | slashbotCommandsLambda/app.py:46-50 | Appends one request record to the client's log and changes nothing else. |
| `CommandHandler.CreateFullUrl` | slachbotCommandsLambda/commandHandler.py:25-26 | The URL uses the hard-coded id `907269239184949269`, and reading it back gives that id and the token. |
| `CommandHandler.GetCommandResponseDataSwitch` | slachbotCommandsLambda/commandHandler.py:28-34 | `"wave"` gives the greeting, `"getvotes"` the vote command on the unchanged event, anything else the fallback. |
| `CommandHandler.FollowUp` | slachbotCommandsLambda/commandHandler.py:12-23 | The single request is a POST with the JSON header to the URL that reads back as (hard-coded id, `str(token)`). |
| `CommandHandler.SwitchAgrees` | slachbotCommandsLambda/commandHandler.py:28-34 | This copy's switch agrees with the backend's switch on every input. |
| `CommandHandler.FollowUpAgrees` | slachbotCommandsLambda/commandHandler.py:12-26 | This copy sends the same request as the backend configured with its hard-coded id. |
| `CommandHandler.HandleIncomingCommand` | slachbotCommandsLambda/commandHandler.py:12-23 | Appends exactly the one request `FollowUp` describes, or nothing when it raises. |

## Left out

- Ed25519 and `bytes.fromhex` are foreign: `Verifier.verify` and `Verifier.fromHex` are parameters. The key-length check in `VerifyKey(...)` is folded into `verify`.
- Failures of the network calls themselves (SSM `get_parameters`, both Lambda `invoke` calls, the urllib3 POST) are not modelled; the model takes each call's answer as given. An SSM answer lacking a `Value` is not represented.
- JSON parsing and serialisation are the identity. JSON floats and the key order of objects are not represented.
- The backend's own `lambda_handler` (`slashbotCommandsLambda/app.py:14-23`) only parses its JSON argument and calls `HandleIncomingCommand`, which is modelled.
- Logging, `print` and `os.environ`: `SLASHBOTAPPID` is the `appId` parameter. `GETVOTESLAMBDAARN` is folded into the `lookup` parameter.
- `Decimal` comparison: `voteType` and `votes` are integers. Lookup items that lack either key are not represented.
- Asynchrony, timing and the 3-second response budget.
- The static embed decoration (author, URLs, colour, footer) is constants only.
- `str.encode()` of a lone surrogate raises in Python. Dafny's `char` cannot hold one, so that case does not arise in the model.
- `slachbotCommandsLambda/commands/getVotes.py` is not part of this model. `CommandHandler` uses the `GetVotes` module of `slashbotCommandsLambda`.
- CommandsApp.FollowUp: for a `token` that is a JSON array or object, Python would put its `repr` into the URL. The model raises `NotModelled` instead, because key order (and so `repr`) is not represented.
- CommandsApp.HandleIncomingCommand: sends nothing and raises `NotModelled` for an array or object `token`, for the reason above.
- CommandHandler.FollowUp: the same restriction on array or object tokens.
- CommandHandler.HandleIncomingCommand: the same restriction on array or object tokens.
