/** The command backend (`slashbotCommandsLambda/app.py`): it reads the command
    name and the token from the forwarded interaction, picks the reply by an
    exact match on the name, and posts the reply once to the interaction's
    follow-up URL. The application id comes from the environment and is a
    parameter here. */
module CommandsApp {
  import opened Py
  import opened Json
  import opened Webhook
  import GetVotes

  /** The commands the bot knows, with the names they are invoked by. */
  datatype CommandEnum = Wave | Getvotes {
    function Value(): string {
      match this
      case Wave => "wave"
      case Getvotes => "getvotes"
    }
  }

  /** The enum's values tell its members apart: a command name selects at most one member. */
  lemma CommandValuesInjective(c: CommandEnum, d: CommandEnum)
    requires c.Value() == d.Value()
    ensures c == d
  {
  }

  const HelloContent := "Hello, world!"
  const FallbackContent := "Somehow this command doesn't have a switch for it yet, oops!"

  /** `createFullUrl`: `{baseurl}/{appId}/{token}`. Reading the URL back gives
      the id and the token whenever the id has no `/`. */
  function CreateFullUrl(appId: string, token: string): (url: string)
    ensures '/' !in appId ==> ParseFollowUpUrl(url) == Some((appId, token))
    ensures |url| == |BaseUrl| + |appId| + |token| + 2 && url[..|BaseUrl|] == BaseUrl
  {
    var url := BaseUrl + "/" + appId + "/" + token;
    var prefix := BaseUrl + "/";
    assert url[..|prefix|] == prefix;
    var rest := url[|prefix|..];
    assert rest == appId + "/" + token;
    if '/' !in appId then
      assert FirstIndex(rest, '/') == Some(|appId|) by {
        assert rest[|appId|] == '/';
        assert rest[..|appId|] == appId;
      }
      assert rest[..|appId|] == appId && rest[|appId| + 1..] == token;
      url
    else url
  }

  /** With an id free of `/`, distinct (id, token) pairs give distinct URLs, so a
      reply never goes to another interaction's follow-up channel. */
  lemma CreateFullUrlInjective(appId1: string, token1: string, appId2: string, token2: string)
    requires '/' !in appId1 && '/' !in appId2
    requires CreateFullUrl(appId1, token1) == CreateFullUrl(appId2, token2)
    ensures appId1 == appId2 && token1 == token2
  {
  }

  /** `GetCommandResponseDataSwitch`: `wave` gives the greeting, `getvotes` is
      exactly the vote command on the unchanged event, and every other value of
      the name (compared exactly, so case matters) gives the fallback. Only the
      vote command can raise. */
  function GetCommandResponseDataSwitch(command: Json, event: Json, lookup: GetVotes.VoteLookup): (r: Result<Reply>)
    ensures command == JString(Wave.Value()) ==> r == Ok(Reply(HelloContent, None))
    ensures command == JString(Getvotes.Value()) ==> r == GetVotes.GetDebugRoomVotes(event, lookup)
    ensures command != JString(Wave.Value()) && command != JString(Getvotes.Value()) ==>
      r == Ok(Reply(FallbackContent, None))
    ensures r.Raise? ==> command == JString(Getvotes.Value())
  {
    if command == JString(CommandEnum.Wave.Value()) then Ok(Reply(HelloContent, None))
    else if command == JString(CommandEnum.Getvotes.Value()) then GetVotes.GetDebugRoomVotes(event, lookup)
    else Ok(Reply(FallbackContent, None))
  }

  /** Unknown names never raise: a name that is not one of the enum's values is
      answered with the fallback. */
  lemma UnknownCommandFallsBack(command: Json, event: Json, lookup: GetVotes.VoteLookup)
    requires forall c: CommandEnum :: command != JString(c.Value())
    ensures GetCommandResponseDataSwitch(command, event, lookup) == Ok(Reply(FallbackContent, None))
  {
    assert command != JString(Wave.Value()) && command != JString(Getvotes.Value());
  }

  /** `eventjson.get('data').get('name')`: `None` when the name is missing; raises
      unless `data` is an object. */
  function CommandName(event: Json): (r: Result<Json>)
    ensures r.Ok? <==> event.JObject? && "data" in event.fields && event.fields["data"].JObject?
    ensures r.Ok? ==>
      r.value == if "name" in event.fields["data"].fields then event.fields["data"].fields["name"] else JNull
  {
    var data :- Get(event, "data");
    Get(data, "name")
  }

  /** `eventjson.get('token')`, for an event that is an object: the top-level
      `token` field, `None` when there is none. */
  function Token(event: Json): (r: Json)
    requires event.JObject?
    ensures Get(event, "token") == Ok(r)
    ensures "token" in event.fields ==> r == event.fields["token"]
    ensures "token" !in event.fields ==> r == JNull
  {
    if "token" in event.fields then event.fields["token"] else JNull
  }

  /** The one request `HandleIncomingCommand` sends, or the exception it raises
      before sending anything: a POST to `createFullUrl(token)` whose body is the
      switch's reply, with the JSON content type. */
  function FollowUp(event: Json, appId: string, lookup: GetVotes.VoteLookup): (r: Result<HttpRequest>)
    ensures r.Ok? ==>
      CommandName(event).Ok? && Str(Token(event)).Ok?
      && GetCommandResponseDataSwitch(CommandName(event).value, event, lookup).Ok?
      && r.value == HttpRequest(PostMethod, CreateFullUrl(appId, Str(Token(event)).value),
                                GetCommandResponseDataSwitch(CommandName(event).value, event, lookup).value,
                                JsonHeaders)
    ensures r.Raise? ==>
      CommandName(event).Raise? || GetCommandResponseDataSwitch(CommandName(event).value, event, lookup).Raise?
      || Str(Token(event)).Raise?
  {
    var command :- CommandName(event);
    var token := Token(event);
    var responseData :- GetCommandResponseDataSwitch(command, event, lookup);
    var tokenText :- Str(token);
    Ok(HttpRequest(PostMethod, CreateFullUrl(appId, tokenText), responseData, JsonHeaders))
  }

  /** A `wave` interaction with a string token is answered by one POST of exactly
      `{"content": "Hello, world!"}` to `baseurl/appId/token`. */
  lemma WaveFollowUp(event: Json, appId: string, token: string, lookup: GetVotes.VoteLookup)
    requires CommandName(event) == Ok(JString("wave"))
    requires Token(event) == JString(token)
    ensures FollowUp(event, appId, lookup) ==
      Ok(HttpRequest("POST", BaseUrl + "/" + appId + "/" + token, Reply("Hello, world!", None),
                     map["Content-Type" := "application/json"]))
  {
  }

  /** `HandleIncomingCommand`: sends exactly the request `FollowUp` describes, or
      nothing when it raises. */
  method HandleIncomingCommand(event: Json, appId: string, lookup: GetVotes.VoteLookup, http: HttpClient)
    returns (r: Result<()>)
    modifies http
    ensures r.Ok? <==> FollowUp(event, appId, lookup).Ok?
    ensures r.Raise? ==> r.exc == FollowUp(event, appId, lookup).exc
    ensures http.requests == old(http.requests) +
      (if FollowUp(event, appId, lookup).Ok? then [FollowUp(event, appId, lookup).value] else [])
  {
    var command := CommandName(event);
    if command.Raise? {
      return Raise(command.exc);
    }
    var token := Token(event);
    var responseData := GetCommandResponseDataSwitch(command.value, event, lookup);
    if responseData.Raise? {
      return Raise(responseData.exc);
    }
    var body := responseData.value;
    var tokenText := Str(token);
    if tokenText.Raise? {
      return Raise(tokenText.exc);
    }
    http.Request(PostMethod, CreateFullUrl(appId, tokenText.value), body, JsonHeaders);
    r := Ok(());
  }
}
