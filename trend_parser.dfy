/**
 * The trend-text parser: it turns the model's free-text reply, written with
 * the line prefixes `TREND:`, `DESC:`, `TAGS:` and `KEYS:`, into an ordered
 * list of trending items. The client (`fetchTrendingTopics`) and the server
 * (`/api/trending`) run the same loop; this module models it once.
 */
module TrendParser {
  import opened Text
  import opened Types

  /**
   * The loop's state: the items pushed so far and the item being filled in.
   * An accumulator whose topic is empty stands for the initial `{}` as well
   * as for a `TREND:` line with nothing after the prefix; the loop reads only
   * the topic of such an accumulator and never pushes it.
   */
  datatype ParseState = ParseState(items: seq<TrendingItem>, current: TrendingItem)

  const TrendPrefix := "TREND:"
  const DescPrefix := "DESC:"
  const TagsPrefix := "TAGS:"
  const KeysPrefix := "KEYS:"

  const Blank := TrendingItem("", "", [], [])
  const Start := ParseState([], Blank)

  /** A tag or keyword entry as the parser emits it. */
  predicate IsEntry(e: string) {
    e != "" && IsTrimmed(e) && ',' !in e
  }

  /** What every emitted item satisfies. */
  predicate WellFormed(item: TrendingItem) {
    && item.topic != ""
    && IsTrimmed(item.topic)
    && IsTrimmed(item.description)
    && (forall e <- item.hashtags :: IsEntry(e))
    && (forall e <- item.keywords :: IsEntry(e))
  }

  /** `parts.map(s => s.trim())`. */
  function TrimEach(parts: seq<string>): (r: seq<string>)
    ensures |r| == |parts|
    ensures forall i :: 0 <= i < |parts| ==> r[i] == Trim(parts[i])
  {
    if parts == [] then [] else [Trim(parts[0])] + TrimEach(parts[1..])
  }

  /** `parts.filter(s => s)`: keeps the non-empty strings, in order. */
  function DropEmpty(parts: seq<string>): (r: seq<string>)
    ensures |r| <= |parts|
    ensures forall e <- r :: e != "" && e in parts
    ensures forall e <- parts :: e != "" ==> e in r
    ensures (forall i :: 0 <= i < |parts| ==> parts[i] != "") ==> r == parts
  {
    if parts == [] then []
    else if parts[0] == "" then
      assert parts[0] in parts;
      DropEmpty(parts[1..])
    else
      assert [parts[0]] + parts[1..] == parts;
      [parts[0]] + DropEmpty(parts[1..])
  }

  /** The value of a `TAGS:` or `KEYS:` line: split on commas, trim each entry, drop the empty ones. */
  function Entries(s: string): (r: seq<string>)
    ensures forall e <- r :: IsEntry(e)
  {
    var parts := Split(s, ',');
    var trimmed := TrimEach(parts);
    assert forall e <- trimmed :: ',' !in e by {
      forall e <- trimmed ensures ',' !in e {
        var i :| 0 <= i < |trimmed| && trimmed[i] == e;
        assert ',' !in parts[i];
        TrimAddsNothing(parts[i], ',');
      }
    }
    DropEmpty(trimmed)
  }

  /** One iteration of the loop over the reply's lines. */
  function Step(st: ParseState, line: string): ParseState
  {
    var l := Trim(line);
    if StartsWith(l, TrendPrefix) then
      ParseState(
        if st.current.topic != "" then st.items + [st.current] else st.items,
        TrendingItem(Trim(l[|TrendPrefix|..]), "", [], []))
    else if StartsWith(l, DescPrefix) && st.current.topic != "" then
      st.(current := st.current.(description := Trim(l[|DescPrefix|..])))
    else if StartsWith(l, TagsPrefix) && st.current.topic != "" then
      st.(current := st.current.(hashtags := Entries(l[|TagsPrefix|..])))
    else if StartsWith(l, KeysPrefix) && st.current.topic != "" then
      st.(current := st.current.(keywords := Entries(l[|KeysPrefix|..])))
    else
      st
  }

  /** The loop, run from state `st` over `lines` in order. */
  function RunFrom(st: ParseState, lines: seq<string>): ParseState
    decreases |lines|
  {
    if lines == [] then st else RunFrom(Step(st, lines[0]), lines[1..])
  }

  /** The push after the loop: the pending item is emitted when its topic is set. */
  function Flush(st: ParseState): seq<TrendingItem>
  {
    if st.current.topic != "" then st.items + [st.current] else st.items
  }

  /**
   * The parser. It is total: any text gives a list of items, each of them
   * with a non-empty trimmed topic and well-formed tag and keyword lists.
   */
  function ParseTrends(text: string): (items: seq<TrendingItem>)
    ensures forall item <- items :: WellFormed(item)
  {
    var lines := Split(text, '\n');
    RunKeepsWellFormed(Start, lines);
    Flush(RunFrom(Start, lines))
  }

  /**
   * The loop as the source writes it: a mutable accumulator `current`,
   * an output list `items` that is pushed onto, and a final flush.
   */
  method ParseTrendText(text: string) returns (items: seq<TrendingItem>)
    ensures items == ParseTrends(text)
  {
    items := [];
    var lines := Split(text, '\n');
    var current := Blank;
    var i := 0;
    while i < |lines|
      invariant 0 <= i <= |lines|
      invariant Flush(RunFrom(ParseState(items, current), lines[i..])) == ParseTrends(text)
    {
      ghost var before := ParseState(items, current);
      RunFromNext(before, lines, i);
      var l := Trim(lines[i]);
      if StartsWith(l, TrendPrefix) {
        if current.topic != "" {
          items := items + [current];
        }
        current := TrendingItem(Trim(l[6..]), "", [], []);
      } else if StartsWith(l, DescPrefix) && current.topic != "" {
        current := current.(description := Trim(l[5..]));
      } else if StartsWith(l, TagsPrefix) && current.topic != "" {
        current := current.(hashtags := Entries(l[5..]));
      } else if StartsWith(l, KeysPrefix) && current.topic != "" {
        current := current.(keywords := Entries(l[5..]));
      }
      assert ParseState(items, current) == Step(before, lines[i]);
      i := i + 1;
    }
    assert lines[i..] == [];
    if current.topic != "" {
      items := items + [current];
    }
  }

  /** One more turn of the loop. */
  lemma RunFromNext(st: ParseState, lines: seq<string>, i: nat)
    requires i < |lines|
    ensures RunFrom(st, lines[i..]) == RunFrom(Step(st, lines[i]), lines[i + 1..])
  {
    assert lines[i..][0] == lines[i] && lines[i..][1..] == lines[i + 1..];
  }

  // ---------------------------------------------------------------------
  // Well-formedness of what is emitted

  ghost predicate GoodState(st: ParseState) {
    && (forall item <- st.items :: WellFormed(item))
    && (st.current.topic != "" ==> WellFormed(st.current))
  }

  lemma StepKeepsWellFormed(st: ParseState, line: string)
    requires GoodState(st)
    ensures GoodState(Step(st, line))
  {
  }

  lemma {:induction false} RunKeepsWellFormed(st: ParseState, lines: seq<string>)
    requires GoodState(st)
    ensures GoodState(RunFrom(st, lines))
    ensures forall item <- Flush(RunFrom(st, lines)) :: WellFormed(item)
    decreases |lines|
  {
    if lines != [] {
      StepKeepsWellFormed(st, lines[0]);
      RunKeepsWellFormed(Step(st, lines[0]), lines[1..]);
    }
  }
}
