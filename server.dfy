/**
 * The two routes of the backend. A handler's reply is a status and a JSON
 * body; the request body's fields are optional strings, and a field counts
 * as given when it is present and not empty (JavaScript truthiness).
 */
module Server {
  import opened Wrappers
  import opened Types
  import opened GenAI
  import opened TrendParser
  import opened Grounding
  import GeminiService

  datatype Body =
    | ErrorBody(error: string)
    | InsightsJson(json: string)
    | TrendingJson(data: TrendingData)

  datatype Reply = Reply(status: int, body: Body)

  const InsightsFieldsMissing := "Missing industry or timezone"
  const IndustryMissing := "Missing industry"
  const InsightsFailed := "Failed to fetch insights"
  const TrendingFailed := "Failed to fetch trending topics"

  /** `!!field`: present and not the empty string. */
  predicate Given(field: Option<string>) {
    field.Some? && field.value != ""
  }

  /**
   * `POST /api/insights`. 400 when the industry or the timezone is missing
   * or empty. Then the current day and time are formatted in the requested
   * time zone; `zoneKnown` is the date library's verdict on the zone's name,
   * and an unknown zone makes the formatting throw a `RangeError`, which the
   * handler answers with 500 before the upstream call is made. 500 with the
   * same generic message when the call throws or returns no text; otherwise
   * 200 with the reply's JSON text.
   */
  function Insights(industry: Option<string>, timezone: Option<string>, zoneKnown: bool, call: Call): (reply: Reply)
    ensures reply.status == 400 <==> !Given(industry) || !Given(timezone)
    ensures reply.status == 400 ==> reply.body == ErrorBody(InsightsFieldsMissing)
    ensures reply.status == 500 <==>
      Given(industry) && Given(timezone) && (!zoneKnown || call.Threw? || ReplyText(call.response) == "")
    ensures reply.status == 500 ==> reply.body == ErrorBody(InsightsFailed)
    ensures reply.status == 200 ==>
      zoneKnown && call.Returned? && reply.body == InsightsJson(ReplyText(call.response))
    ensures reply.status in {200, 400, 500}
  {
    if !Given(industry) || !Given(timezone) then
      Reply(400, ErrorBody(InsightsFieldsMissing))
    else if !zoneKnown then
      Reply(500, ErrorBody(InsightsFailed))
    else
      match call
      case Threw(_) => Reply(500, ErrorBody(InsightsFailed))
      case Returned(response) =>
        match response.text
        case Some(json) =>
          if json != "" then Reply(200, InsightsJson(json)) else Reply(500, ErrorBody(InsightsFailed))
        case None => Reply(500, ErrorBody(InsightsFailed))
  }

  /**
   * `POST /api/trending`. 400 when the industry is missing or empty; 500
   * with a generic message when the call throws; otherwise 200 with the
   * parsed items, the reply's text and the cited sources.
   */
  function Trending(industry: Option<string>, call: Call): (reply: Reply)
    ensures reply.status == 400 <==> !Given(industry)
    ensures reply.status == 400 ==> reply.body == ErrorBody(IndustryMissing)
    ensures reply.status == 500 <==> Given(industry) && call.Threw?
    ensures reply.status == 500 ==> reply.body == ErrorBody(TrendingFailed)
    ensures reply.status == 200 ==>
      && call.Returned?
      && reply.body == TrendingJson(TrendingData(
           ParseTrends(ReplyText(call.response)),
           ReplyText(call.response),
           ExtractSources(GroundingChunks(call.response))))
    ensures reply.status in {200, 400, 500}
  {
    if !Given(industry) then
      Reply(400, ErrorBody(IndustryMissing))
    else
      match call
      case Threw(_) => Reply(500, ErrorBody(TrendingFailed))
      case Returned(response) =>
        var text := ReplyText(response);
        Reply(200, TrendingJson(TrendingData(ParseTrends(text), text, ExtractSources(GroundingChunks(response)))))
  }

  /**
   * The field checks, and on the insights route the time-zone formatting,
   * come before the upstream call: a request rejected by them gets a reply
   * that does not depend on the call, and a missing field is reported
   * whatever the zone.
   */
  lemma ValidationPrecedesCall(
    industry: Option<string>, timezone: Option<string>, zoneKnown: bool, otherZone: bool, call: Call, other: Call)
    ensures !Given(industry) || !Given(timezone) ==>
      Insights(industry, timezone, zoneKnown, call) == Insights(industry, timezone, otherZone, other)
    ensures !zoneKnown ==>
      Insights(industry, timezone, zoneKnown, call) == Insights(industry, timezone, zoneKnown, other)
    ensures !Given(industry) ==> Trending(industry, call) == Trending(industry, other)
  {
  }

  /** The server's trending route and the browser's service parse and filter a reply identically. */
  lemma ServerMatchesClient(industry: Option<string>, response: GenerateResponse)
    requires Given(industry)
    ensures Trending(industry, Returned(response))
         == Reply(200, TrendingJson(GeminiService.FetchTrendingTopics(Returned(response))))
  {
  }
}
