/** The `getvotes` command (`slashbotCommandsLambda/commands/getVotes.py`): it
    takes the question from the interaction's first option, asks the vote-lookup
    function for the items stored for that question, takes the "no" and "yes"
    counts from the first item of vote type 0 and of vote type 1, and formats a
    reply with one embed. A missing vote type makes the command raise. */
module GetVotes {
  import opened Py
  import opened Json
  import Decimal
  import opened Webhook

  /** One item of the lookup's `Items` list. */
  datatype VoteItem = VoteItem(voteType: int, votes: int)

  /** The vote-lookup function configured by `GETVOTESLAMBDAARN`: given the
      payload it is invoked with, the `Items` list of its answer. */
  type VoteLookup = Json -> seq<VoteItem>

  const NoVoteType := 0
  const YesVoteType := 1

  const TitleText := "The votes for the debug room are currently...."
  const DisclaimerName :=
    "These votes were placed by all players who had an active internet connection and chose a value."
  const DisclaimerValue := "okay..."

  // The static decoration of the embed.
  const VotesAuthor := Author("Supergoon\U{E2}\U{2122}\U{AB}", "https://jrpg.supergoon.com", "https://i.imgur.com/R66g1Pe.jpg")
  const EmbedTitle := "The votes are in!!!"
  const EmbedUrl := "https://google.com/"
  const EmbedDescription := "The votes for the debug room are as follows....."
  const EmbedColor := 15258703
  const VotesFooter := Footer("This notification will self-destruct", "https://i.imgur.com/fKL31aD.jpg")

  /** The list `event.data.options` when there is one. */
  function Options(event: Json): Option<seq<Json>> {
    if event.JObject? && "data" in event.fields && event.fields["data"].JObject?
       && "options" in event.fields["data"].fields && event.fields["data"].fields["options"].JArray?
    then Some(event.fields["data"].fields["options"].items)
    else None
  }

  /** `event.get('data').get('options')[0].get('value')`: the `value` of the first
      option (`None` when that option has no `value`); it raises when there is no
      first option that is an object, in particular when `options` is empty. */
  function Question(event: Json): (r: Result<Json>)
    ensures r.Ok? <==> Options(event).Some? && |Options(event).value| > 0 && Options(event).value[0].JObject?
    ensures r.Ok? ==>
      var first := Options(event).value[0].fields;
      r.value == if "value" in first then first["value"] else JNull
    ensures Options(event) == Some([]) ==> r == Raise(IndexError)
  {
    var data :- Get(event, "data");
    var options :- Get(data, "options");
    var first :- Index(options, 0);
    Get(first, "value")
  }

  /** The payload the lookup is invoked with: an object whose one key is `question`. */
  function LookupPayload(question: Json): (p: Json)
    ensures p.JObject? && p.fields.Keys == {"question"} && p.fields["question"] == question
  {
    JObject(map["question" := question])
  }

  /** `[item for item in items if item.get('voteType') == voteType]`: the items of
      that vote type, in their original order. */
  function MatchingItems(items: seq<VoteItem>, voteType: int): (r: seq<VoteItem>)
    ensures |r| <= |items|
    ensures forall x :: x in r ==> x in items && x.voteType == voteType
    ensures forall i :: 0 <= i < |items| && items[i].voteType == voteType ==> items[i] in r
    ensures |r| > 0 ==> exists i :: 0 <= i < |items| && items[i] == r[0] && FirstOfType(items, voteType, i)
    decreases |items|
  {
    if items == [] then []
    else
      var rest := MatchingItems(items[1..], voteType);
      if items[0].voteType == voteType then
        assert FirstOfType(items, voteType, 0);
        assert forall i :: 1 <= i < |items| ==> items[i] == items[1..][i - 1];
        [items[0]] + rest
      else
        assert forall i :: 1 <= i < |items| ==> items[i] == items[1..][i - 1];
        assert |rest| > 0 ==> exists i :: 0 <= i < |items| && items[i] == rest[0] && FirstOfType(items, voteType, i) by {
          if |rest| > 0 {
            var k :| 0 <= k < |items[1..]| && items[1..][k] == rest[0] && FirstOfType(items[1..], voteType, k);
            assert items[k + 1] == rest[0] && FirstOfType(items, voteType, k + 1);
          }
        }
        rest
  }

  /** Position `i` holds the first item of the given vote type. */
  predicate FirstOfType(items: seq<VoteItem>, voteType: int, i: nat) {
    i < |items| && items[i].voteType == voteType && forall j :: 0 <= j < i ==> items[j].voteType != voteType
  }

  /** `[...][0].get('votes')`: the votes of the first item of the vote type, and
      `IndexError` rather than a default when there is none. */
  function FirstVotes(items: seq<VoteItem>, voteType: int): (r: Result<int>)
    ensures r.Raise? <==> forall i :: 0 <= i < |items| ==> items[i].voteType != voteType
    ensures r.Raise? ==> r.exc == IndexError
    ensures r.Ok? ==> exists i: nat :: FirstOfType(items, voteType, i) && r.value == items[i].votes
  {
    var matching := MatchingItems(items, voteType);
    if |matching| == 0 then Raise(IndexError) else Ok(matching[0].votes)
  }

  /** The first item of a vote type decides: items after it, whatever their
      type, change nothing. */
  lemma FirstVotesIgnoresLaterItems(items: seq<VoteItem>, later: seq<VoteItem>, voteType: int)
    requires FirstVotes(items, voteType).Ok?
    ensures FirstVotes(items + later, voteType) == FirstVotes(items, voteType)
  {
    var i: nat :| FirstOfType(items, voteType, i) && FirstVotes(items, voteType).value == items[i].votes;
    assert FirstOfType(items + later, voteType, i);
    var j: nat :| FirstOfType(items + later, voteType, j) && FirstVotes(items + later, voteType).value == (items + later)[j].votes;
    FirstOfTypeUnique(items + later, voteType, i, j);
  }

  /** Items of other vote types change nothing, wherever they stand. */
  lemma FirstVotesIgnoresOtherTypes(before: seq<VoteItem>, other: VoteItem, after: seq<VoteItem>, voteType: int)
    requires other.voteType != voteType
    ensures FirstVotes(before + [other] + after, voteType) == FirstVotes(before + after, voteType)
  {
    var with, without := before + [other] + after, before + after;
    assert forall i :: 0 <= i < |before| ==> with[i] == without[i];
    assert forall i :: |before| < i < |with| ==> with[i] == without[i - 1];
    if FirstVotes(without, voteType).Ok? {
      var i: nat :| FirstOfType(without, voteType, i) && FirstVotes(without, voteType).value == without[i].votes;
      var i' := if i < |before| then i else i + 1;
      assert FirstOfType(with, voteType, i');
      var j: nat :| FirstOfType(with, voteType, j) && FirstVotes(with, voteType).value == with[j].votes;
      FirstOfTypeUnique(with, voteType, i', j);
    } else {
      assert forall i :: 0 <= i < |with| && i != |before| ==> with[i].voteType != voteType by {
        forall i | 0 <= i < |with| && i != |before| ensures with[i].voteType != voteType {
          if i < |before| { assert with[i] == without[i]; } else { assert with[i] == without[i - 1]; }
        }
      }
    }
  }

  lemma FirstOfTypeUnique(items: seq<VoteItem>, voteType: int, i: nat, j: nat)
    requires FirstOfType(items, voteType, i) && FirstOfType(items, voteType, j)
    ensures i == j
  {
  }

  /** The reply: the constant title as content and one embed whose fields are,
      in order, "Yes" and "No" (inline, holding the counts as text) and the
      disclaimer (no `inline` key). */
  function VotesReply(yes: int, no: int): (r: Reply)
    ensures r.content == TitleText
    ensures r.embeds.Some? && |r.embeds.value| == 1
    ensures var fields := r.embeds.value[0].fields;
      |fields| == 3
      && fields[0] == Field("Yes", Decimal.FromInt(yes), Some(true))
      && fields[1] == Field("No", Decimal.FromInt(no), Some(true))
      && fields[2] == Field(DisclaimerName, DisclaimerValue, None)
  {
    var fields := [
      Field("Yes", Decimal.FromInt(yes), Some(true)),
      Field("No", Decimal.FromInt(no), Some(true)),
      Field(DisclaimerName, DisclaimerValue, None)
    ];
    Reply(TitleText, Some([Embed(VotesAuthor, EmbedTitle, EmbedUrl, EmbedDescription, EmbedColor, fields, VotesFooter)]))
  }

  /** What a reader of the reply sees: the counts in the "Yes" and "No" fields of
      its only embed, read back as numbers. */
  function ReadCounts(reply: Reply): Option<(int, int)> {
    if reply.embeds.None? || |reply.embeds.value| != 1 then None
    else
      var fields := reply.embeds.value[0].fields;
      if |fields| != 3 || fields[0].name != "Yes" || fields[1].name != "No" then None
      else match (Decimal.Parse(fields[0].value), Decimal.Parse(fields[1].value))
        case (Some(yes), Some(no)) => Some((yes, no))
        case _ => None
  }

  /** The reply carries both counts faithfully: nothing is lost in formatting. */
  lemma ReadCountsOfVotesReply(yes: int, no: int)
    ensures ReadCounts(VotesReply(yes, no)) == Some((yes, no))
  {
    Decimal.ParseFromInt(yes);
    Decimal.ParseFromInt(no);
  }

  /** `GetDebugRoomVotes`: question, lookup, "no" count, "yes" count, reply. */
  function GetDebugRoomVotes(event: Json, lookup: VoteLookup): (r: Result<Reply>)
    ensures r.Ok? ==> r.value.content == TitleText
    ensures r.Ok? <==>
      Question(event).Ok?
      && FirstVotes(lookup(LookupPayload(Question(event).value)), NoVoteType).Ok?
      && FirstVotes(lookup(LookupPayload(Question(event).value)), YesVoteType).Ok?
    ensures r.Ok? ==>
      var items := lookup(LookupPayload(Question(event).value));
      ReadCounts(r.value) == Some((FirstVotes(items, YesVoteType).value, FirstVotes(items, NoVoteType).value))
    ensures r.Ok? ==>
      var items := lookup(LookupPayload(Question(event).value));
      r.value == VotesReply(FirstVotes(items, YesVoteType).value, FirstVotes(items, NoVoteType).value)
  {
    var question :- Question(event);
    var items := lookup(LookupPayload(question));
    var falseValues :- FirstVotes(items, NoVoteType);
    var trueValues :- FirstVotes(items, YesVoteType);
    ReadCountsOfVotesReply(trueValues, falseValues);
    Ok(VotesReply(trueValues, falseValues))
  }

  /** The worked example: items `[{0: 3 votes}, {1: 7 votes}]` give "Yes" = "7" and "No" = "3". */
  lemma WorkedExample(event: Json, lookup: VoteLookup)
    requires Question(event).Ok?
    requires lookup(LookupPayload(Question(event).value)) == [VoteItem(0, 3), VoteItem(1, 7)]
    ensures GetDebugRoomVotes(event, lookup).Ok?
    ensures GetDebugRoomVotes(event, lookup).value.embeds.value[0].fields[0].value == "7"
    ensures GetDebugRoomVotes(event, lookup).value.embeds.value[0].fields[1].value == "3"
  {
    var items := [VoteItem(0, 3), VoteItem(1, 7)];
    assert FirstOfType(items, 0, 0) && FirstOfType(items, 1, 1);
    assert Decimal.FromInt(7) == "7" && Decimal.FromInt(3) == "3";
  }

  /** Without an item of vote type 0 the command raises, even when "yes" votes exist:
      a missing count is not taken to be zero. */
  lemma MissingNoVotesRaises(event: Json, lookup: VoteLookup)
    requires Question(event).Ok?
    requires forall item :: item in lookup(LookupPayload(Question(event).value)) ==> item.voteType != NoVoteType
    ensures GetDebugRoomVotes(event, lookup) == Raise(IndexError)
  {
  }
}
