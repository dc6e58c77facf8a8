/**
 * The browser-side service: the two calls to the generative-AI service with
 * the handling of their replies. The request itself (prompt, model, schema)
 * is the `Call` outcome handed in.
 */
module GeminiService {
  import opened Wrappers
  import opened Types
  import opened GenAI
  import opened TrendParser
  import opened Grounding

  /** The text shown instead of the trends when the call failed. */
  const TrendingFallbackText := "Could not fetch trending topics."

  /** The message of the error raised when the insights call returns no text. */
  const NoDataMessage := "No data received from Gemini"

  /** A call that either yields a value or raises an error with a message. */
  datatype Outcome<T> = Ok(value: T) | Raised(message: string)

  /**
   * `fetchTrendingTopics`: never raises. A failed call gives no items, the
   * fallback text and no sources; a reply gives its parsed items, its text
   * unchanged as `rawText`, and the cited pages of its first candidate.
   */
  function FetchTrendingTopics(call: Call): (data: TrendingData)
    ensures call.Threw? ==> data == TrendingData([], TrendingFallbackText, [])
    ensures call.Returned? ==> data.rawText == ReplyText(call.response)
    ensures call.Returned? ==> data.items == ParseTrends(ReplyText(call.response))
    ensures call.Returned? ==> data.sources == ExtractSources(GroundingChunks(call.response))
    ensures call.Returned? ==> |data.sources| <= |GroundingChunks(call.response)|
    ensures forall item <- data.items :: WellFormed(item)
  {
    match call
    case Threw(_) => TrendingData([], TrendingFallbackText, [])
    case Returned(response) =>
      var text := ReplyText(response);
      TrendingData(ParseTrends(text), text, ExtractSources(GroundingChunks(response)))
  }

  /**
   * `fetchSocialInsights`: the reply's JSON text, or an error. A missing or
   * empty text is an error of its own; an error of the call is raised again
   * unchanged.
   */
  function FetchSocialInsights(call: Call): (result: Outcome<string>)
    ensures result.Ok? <==> call.Returned? && call.response.text.Some? && call.response.text.value != ""
    ensures result.Ok? ==> result.value == ReplyText(call.response)
    ensures call.Threw? ==> result == Raised(call.error)
    ensures call.Returned? && result.Raised? ==> result.message == NoDataMessage
  {
    match call
    case Threw(error) => Raised(error)
    case Returned(response) =>
      match response.text
      case Some(json) => if json != "" then Ok(json) else Raised(NoDataMessage)
      case None => Raised(NoDataMessage)
  }
}
