/**
 * The part of the generative-AI service's reply that the application reads:
 * the generated text and, when search grounding is on, the citations of the
 * first candidate. Every property is optional, as in the service's SDK.
 */
module GenAI {
  import opened Wrappers

  /** The cited page; the SDK declares both of its fields optional. */
  datatype Web = Web(title: Option<string>, uri: Option<string>)
  datatype GroundingChunk = GroundingChunk(web: Option<Web>)
  datatype GroundingMetadata = GroundingMetadata(groundingChunks: Option<seq<GroundingChunk>>)
  datatype Candidate = Candidate(groundingMetadata: Option<GroundingMetadata>)
  datatype GenerateResponse = GenerateResponse(text: Option<string>, candidates: Option<seq<Candidate>>)

  /** How a call to the service ended: it threw, or it returned a response. */
  datatype Call = Threw(error: string) | Returned(response: GenerateResponse)

  /** `response.text || ""`. */
  function ReplyText(response: GenerateResponse): string {
    response.text.GetOr("")
  }

  /** `response.candidates?.[0]?.groundingMetadata?.groundingChunks || []`. */
  function GroundingChunks(response: GenerateResponse): seq<GroundingChunk> {
    match response.candidates
    case None => []
    case Some(candidates) =>
      if candidates == [] then []
      else
        match candidates[0].groundingMetadata
        case None => []
        case Some(metadata) => metadata.groundingChunks.GetOr([])
  }
}
