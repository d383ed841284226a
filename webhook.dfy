/** What the command backend sends back to the chat platform: the reply
    message (plain content and optional rich embeds), the follow-up URL it is
    posted to, and the log of HTTP requests made through urllib3. */
module Webhook {
  import opened Py

  const BaseUrl := "https://discord.com/api/webhooks"
  const PostMethod := "POST"
  const JsonHeaders: map<string, string> := map["Content-Type" := "application/json"]

  datatype Author = Author(name: string, url: string, iconUrl: string)
  datatype Footer = Footer(text: string, iconUrl: string)

  /** One embed field; `inline` is `None` when the field has no `inline` key. */
  datatype Field = Field(name: string, value: string, inline: Option<bool>)

  datatype Embed = Embed(author: Author, title: string, url: string, description: string,
                         color: int, fields: seq<Field>, footer: Footer)

  /** The response data a command produces: `{"content": ...}` when `embeds` is
      `None`, `{"content": ..., "embeds": [...]}` otherwise. */
  datatype Reply = Reply(content: string, embeds: Option<seq<Embed>>)

  /** One `http.request(...)` call; the body is recorded as the reply that
      `json.dumps` serialises. */
  datatype HttpRequest = HttpRequest(httpMethod: string, url: string, body: Reply, headers: map<string, string>)

  /** The urllib3 pool manager: every request it is asked to send, in order. */
  class HttpClient {
    var requests: seq<HttpRequest>

    constructor ()
      ensures requests == []
    {
      requests := [];
    }

    method Request(httpMethod: string, url: string, body: Reply, headers: map<string, string>)
      modifies this
      ensures requests == old(requests) + [HttpRequest(httpMethod, url, body, headers)]
    {
      requests := requests + [HttpRequest(httpMethod, url, body, headers)];
    }
  }

  /** The position of the first `c` in `s`, if there is one. */
  function FirstIndex(s: string, c: char): (r: Option<nat>)
    ensures r.None? <==> c !in s
    ensures r.Some? ==> r.value < |s| && s[r.value] == c && c !in s[..r.value]
    decreases |s|
  {
    if s == [] then None
    else if s[0] == c then Some(0)
    else match FirstIndex(s[1..], c)
      case None => None
      case Some(i) =>
        assert s[..i + 1] == [s[0]] + s[1..][..i];
        Some(i + 1)
  }

  /** Reads a follow-up URL `BaseUrl/appId/token` back into `(appId, token)`,
      splitting at the first `/` after the base. */
  function ParseFollowUpUrl(url: string): Option<(string, string)> {
    var prefix := BaseUrl + "/";
    if |url| < |prefix| || url[..|prefix|] != prefix then None
    else
      var rest := url[|prefix|..];
      match FirstIndex(rest, '/')
      case None => None
      case Some(i) => Some((rest[..i], rest[i + 1..]))
  }
}
