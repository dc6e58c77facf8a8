/** The records the trending gateway produces and the dashboard renders. */
module Types {
  import opened Wrappers

  /** One trending topic, built only by the trend parser. */
  datatype TrendingItem = TrendingItem(
    topic: string,
    description: string,
    hashtags: seq<string>,
    keywords: seq<string>)

  /**
   * A web page the model cited while answering with search grounding. The
   * fields are copied from the chunk as they are, so a title or address the
   * service left out stays missing here.
   */
  datatype Source = Source(title: Option<string>, uri: Option<string>)

  /** What the trending call returns: the parsed items, the unparsed reply and the cited sources. */
  datatype TrendingData = TrendingData(items: seq<TrendingItem>, rawText: string, sources: seq<Source>)
}
