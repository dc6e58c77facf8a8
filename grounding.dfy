/** The citation filter: grounding chunks that carry a web page become sources. */
module Grounding {
  import opened Wrappers
  import opened Types
  import opened GenAI

  /** What one chunk contributes: its page when it has one, nothing otherwise. */
  function SourcesOf(chunk: GroundingChunk): seq<Source> {
    match chunk.web
    case Some(w) => [Source(w.title, w.uri)]
    case None => []
  }

  /**
   * `chunks.map(c => c.web ? {title, uri} : null).filter(s => s !== null)`.
   * There is one source per chunk with a web page and no other; nothing is
   * deduplicated, so the list is as long as the chunks exactly when every
   * chunk has a page.
   */
  function ExtractSources(chunks: seq<GroundingChunk>): (sources: seq<Source>)
    ensures |sources| <= |chunks|
    ensures |sources| == |chunks| <==> forall i :: 0 <= i < |chunks| ==> chunks[i].web.Some?
    ensures forall s <- sources :: exists i :: 0 <= i < |chunks| && chunks[i].web == Some(Web(s.title, s.uri))
  {
    if chunks == [] then []
    else
      var rest := ExtractSources(chunks[1..]);
      assert forall i :: 1 <= i < |chunks| ==> chunks[i] == chunks[1..][i - 1];
      SourcesOf(chunks[0]) + rest
  }

  /** The filter keeps the order of the chunks: it maps concatenation to concatenation. */
  lemma {:induction false} ExtractSourcesAppend(a: seq<GroundingChunk>, b: seq<GroundingChunk>)
    ensures ExtractSources(a + b) == ExtractSources(a) + ExtractSources(b)
  {
    if a == [] {
      assert a + b == b;
    } else {
      assert (a + b)[1..] == a[1..] + b;
      ExtractSourcesAppend(a[1..], b);
    }
  }

  /** Together with the append law this pins the filter down: one chunk gives its page or nothing. */
  lemma ExtractSourcesSingle(chunk: GroundingChunk)
    ensures ExtractSources([chunk]) == SourcesOf(chunk)
  {
  }

  /** No deduplication: the same chunks cited twice give every source twice. */
  lemma DuplicatesKept(chunks: seq<GroundingChunk>)
    ensures ExtractSources(chunks + chunks) == ExtractSources(chunks) + ExtractSources(chunks)
    ensures |ExtractSources(chunks + chunks)| == 2 * |ExtractSources(chunks)|
  {
    ExtractSourcesAppend(chunks, chunks);
  }
}
