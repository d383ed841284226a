/** A near-duplicate copy of the command backend (`slachbotCommandsLambda/commandHandler.py`).
    It has the same switch and the same single POST as `CommandsApp`, but its
    application id is written into the file rather than read from the
    environment. The lemmas at the end show that it behaves exactly like
    `CommandsApp` configured with that id. */
module CommandHandler {
  import opened Py
  import opened Json
  import opened Webhook
  import GetVotes
  import CommandsApp

  const AppId := "907269239184949269"

  /** `createFullUrl`: `{baseurl}/907269239184949269/{token}`; reading it back
      gives the hard-coded id and the token. */
  function CreateFullUrl(token: string): (url: string)
    ensures ParseFollowUpUrl(url) == Some((AppId, token))
    ensures url == CommandsApp.CreateFullUrl(AppId, token)
  {
    var url := BaseUrl + "/" + AppId + "/" + token;
    assert '/' !in AppId && url == CommandsApp.CreateFullUrl(AppId, token);
    url
  }

  /** `GetCommandResponseDataSwitch`: greeting for `wave`, the vote command on the
      unchanged event for `getvotes`, the fallback for anything else. */
  function GetCommandResponseDataSwitch(command: Json, event: Json, lookup: GetVotes.VoteLookup): (r: Result<Reply>)
    ensures command == JString("wave") ==> r == Ok(Reply("Hello, world!", None))
    ensures command == JString("getvotes") ==> r == GetVotes.GetDebugRoomVotes(event, lookup)
    ensures command != JString("wave") && command != JString("getvotes") ==>
      r == Ok(Reply("Somehow this command doesn't have a switch for it yet, oops!", None))
  {
    if command == JString(CommandsApp.CommandEnum.Wave.Value()) then Ok(Reply(CommandsApp.HelloContent, None))
    else if command == JString(CommandsApp.CommandEnum.Getvotes.Value()) then GetVotes.GetDebugRoomVotes(event, lookup)
    else Ok(Reply(CommandsApp.FallbackContent, None))
  }

  /** The one request `HandleIncomingCommand` sends, or what it raises first. */
  function FollowUp(event: Json, lookup: GetVotes.VoteLookup): (r: Result<HttpRequest>)
    ensures r.Ok? ==> r.value.httpMethod == PostMethod && r.value.headers == JsonHeaders
    ensures r.Ok? ==>
      event.JObject? && Str(CommandsApp.Token(event)).Ok?
      && ParseFollowUpUrl(r.value.url) == Some((AppId, Str(CommandsApp.Token(event)).value))
  {
    var data :- Get(event, "data");
    var command :- Get(data, "name");
    var token := CommandsApp.Token(event);
    var responseData :- GetCommandResponseDataSwitch(command, event, lookup);
    var tokenText :- Str(token);
    Ok(HttpRequest(PostMethod, CreateFullUrl(tokenText), responseData, JsonHeaders))
  }

  /** The two switches agree on every input. */
  lemma SwitchAgrees(command: Json, event: Json, lookup: GetVotes.VoteLookup)
    ensures GetCommandResponseDataSwitch(command, event, lookup)
         == CommandsApp.GetCommandResponseDataSwitch(command, event, lookup)
  {
  }

  /** This copy is the environment-configured backend with `SLASHBOTAPPID` set to the hard-coded id. */
  lemma FollowUpAgrees(event: Json, lookup: GetVotes.VoteLookup)
    ensures FollowUp(event, lookup) == CommandsApp.FollowUp(event, AppId, lookup)
  {
  }

  /** `HandleIncomingCommand`: sends exactly the request `FollowUp` describes, or
      nothing when it raises. */
  method HandleIncomingCommand(event: Json, lookup: GetVotes.VoteLookup, http: HttpClient) returns (r: Result<()>)
    modifies http
    ensures r.Ok? <==> FollowUp(event, lookup).Ok?
    ensures r.Raise? ==> r.exc == FollowUp(event, lookup).exc
    ensures http.requests == old(http.requests) +
      (if FollowUp(event, lookup).Ok? then [FollowUp(event, lookup).value] else [])
  {
    var data := Get(event, "data");
    if data.Raise? {
      return Raise(data.exc);
    }
    var command := Get(data.value, "name");
    if command.Raise? {
      return Raise(command.exc);
    }
    var token := CommandsApp.Token(event);
    var responseData := GetCommandResponseDataSwitch(command.value, event, lookup);
    if responseData.Raise? {
      return Raise(responseData.exc);
    }
    var body := responseData.value;
    var tokenText := Str(token);
    if tokenText.Raise? {
      return Raise(tokenText.exc);
    }
    http.Request(PostMethod, CreateFullUrl(tokenText.value), body, JsonHeaders);
    r := Ok(());
  }
}
