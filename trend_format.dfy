/**
 * The reply format the trend prompt asks the model for, written out, and
 * the round trip: a reply written in that format parses back to exactly the
 * items it was written from, in order and field by field.
 */
module TrendFormat {
  import opened Text
  import opened Types
  import opened TrendParser
  import opened TrendProperties

  /** An item the format can carry: what the parser emits, with no line break inside a field. */
  predicate Renderable(item: TrendingItem) {
    && WellFormed(item)
    && '\n' !in item.topic
    && '\n' !in item.description
    && (forall e <- item.hashtags :: '\n' !in e)
    && (forall e <- item.keywords :: '\n' !in e)
  }

  /** `PREFIX value`, or the bare prefix when there is no value. */
  function Field(prefix: string, value: string): string {
    if value == "" then prefix else prefix + " " + value
  }

  /** `PREFIX a, b, c`: the list separated by a comma and a space. */
  function ListField(prefix: string, entries: seq<string>): string {
    prefix + Join(Padded(entries), ',')
  }

  /** The four lines of one item. */
  function ItemLines(item: TrendingItem): seq<string> {
    [ Field(TrendPrefix, item.topic),
      Field(DescPrefix, item.description),
      ListField(TagsPrefix, item.hashtags),
      ListField(KeysPrefix, item.keywords) ]
  }

  function ReplyLines(items: seq<TrendingItem>): seq<string> {
    if items == [] then [] else ItemLines(items[0]) + ReplyLines(items[1..])
  }

  /** A whole reply: the items' lines, one per line. */
  function RenderReply(items: seq<TrendingItem>): string {
    Join(ReplyLines(items), '\n')
  }

  // ---------------------------------------------------------------------
  // The lines of one item, one at a time

  /** A prefix followed by a trimmed value is a trimmed line with that prefix, whose remainder trims to the value. */
  lemma FieldLine(prefix: string, value: string)
    requires prefix != [] && IsTrimmed(prefix) && IsTrimmed(value)
    ensures Trim(Field(prefix, value)) == Field(prefix, value)
    ensures StartsWith(Field(prefix, value), prefix)
    ensures Trim(Field(prefix, value)[|prefix|..]) == value
  {
    var line := Field(prefix, value);
    if value == "" {
      assert line[|prefix|..] == "";
      assert Trim("") == "";
    } else {
      assert line[|prefix|..] == " " + value;
      TrimLeadingSpace(value);
      assert line[0] == prefix[0] && line[|line| - 1] == value[|value| - 1];
    }
    assert line[..|prefix|] == prefix;
  }

  lemma ListLine(prefix: string, entries: seq<string>)
    requires prefix != [] && IsTrimmed(prefix)
    requires forall e <- entries :: IsEntry(e)
    ensures Trim(ListField(prefix, entries)) == ListField(prefix, entries)
    ensures StartsWith(ListField(prefix, entries), prefix)
    ensures Entries(ListField(prefix, entries)[|prefix|..]) == entries
  {
    ListLineTrimmed(prefix, entries);
    ListLineValue(prefix, entries);
  }

  /** A list line starts with its prefix and ends with its last entry, so it has no whitespace at either end. */
  lemma ListLineTrimmed(prefix: string, entries: seq<string>)
    requires prefix != [] && IsTrimmed(prefix)
    requires forall e <- entries :: IsEntry(e)
    ensures IsTrimmed(ListField(prefix, entries))
    ensures StartsWith(ListField(prefix, entries), prefix)
  {
    hide Entries, Trim;
    var line := ListField(prefix, entries);
    assert line[..|prefix|] == prefix;
    if entries == [] {
      assert line == prefix;
    } else {
      var last := entries[|entries| - 1];
      assert last in entries;
      JoinPaddedEnds(entries);
      assert line[0] == prefix[0] && line[|line| - 1] == last[|last| - 1];
    }
  }

  /** What follows the prefix of a list line reads back as the entries. */
  lemma ListLineValue(prefix: string, entries: seq<string>)
    requires forall e <- entries :: IsEntry(e)
    ensures Entries(ListField(prefix, entries)[|prefix|..]) == entries
  {
    assert ListField(prefix, entries)[|prefix|..] == Join(Padded(entries), ',');
    if entries == [] {
      assert Split("", ',') == [""];
      assert Trim("") == "";
    } else {
      PaddedEntriesRoundTrip(entries);
    }
  }

  /** The joined list ends with the last character of its last entry. */
  lemma {:induction false} JoinPaddedEnds(entries: seq<string>)
    requires entries != []
    requires entries[|entries| - 1] != ""
    ensures var s := Join(Padded(entries), ','); var last := entries[|entries| - 1];
      s != [] && s[|s| - 1] == last[|last| - 1]
  {
    if |entries| > 1 {
      assert Padded(entries)[1..] == Padded(entries[1..]);
      JoinPaddedEnds(entries[1..]);
    }
  }

  /** The `TREND:` line of an item pushes the pending item and starts this one. */
  lemma TrendLineStep(st: ParseState, item: TrendingItem)
    requires Renderable(item)
    ensures Step(st, Field(TrendPrefix, item.topic))
         == ParseState(Flush(st), TrendingItem(item.topic, "", [], []))
  {
    hide Entries, Trim;
    FieldLine(TrendPrefix, item.topic);
  }

  lemma DescLineStep(st: ParseState, item: TrendingItem)
    requires Renderable(item) && st.current.topic != ""
    ensures Step(st, Field(DescPrefix, item.description))
         == st.(current := st.current.(description := item.description))
  {
    hide Entries, Trim;
    FieldLine(DescPrefix, item.description);
  }

  lemma TagsLineStep(st: ParseState, item: TrendingItem)
    requires Renderable(item) && st.current.topic != ""
    ensures Step(st, ListField(TagsPrefix, item.hashtags))
         == st.(current := st.current.(hashtags := item.hashtags))
  {
    hide Entries, Trim;
    var line := ListField(TagsPrefix, item.hashtags);
    ListLine(TagsPrefix, item.hashtags);
    assert line[..|TagsPrefix|] == TagsPrefix;
    assert line[0] != DescPrefix[0] && line[1] != TrendPrefix[1];
  }

  lemma KeysLineStep(st: ParseState, item: TrendingItem)
    requires Renderable(item) && st.current.topic != ""
    ensures Step(st, ListField(KeysPrefix, item.keywords))
         == st.(current := st.current.(keywords := item.keywords))
  {
    hide Entries, Trim;
    var line := ListField(KeysPrefix, item.keywords);
    ListLine(KeysPrefix, item.keywords);
    assert line[..|KeysPrefix|] == KeysPrefix;
    assert line[0] != DescPrefix[0] && line[0] != TrendPrefix[0] && line[0] != TagsPrefix[0];
  }

  /** The other three lines of an item fill in its fields. */
  lemma FieldLinesStep(st: ParseState, item: TrendingItem)
    requires Renderable(item)
    requires st.current == TrendingItem(item.topic, "", [], [])
    ensures RunFrom(st, ItemLines(item)[1..]) == ParseState(st.items, item)
  {
    var lines := ItemLines(item)[1..];
    hide Step, Renderable;
    DescLineStep(st, item);
    var s1 := Step(st, lines[0]);
    TagsLineStep(s1, item);
    var s2 := Step(s1, lines[1]);
    KeysLineStep(s2, item);
    var s3 := Step(s2, lines[2]);
    assert s3 == ParseState(st.items, item);
    assert lines[1..][1..] == lines[2..] && lines[2..][1..] == [];
    assert RunFrom(st, lines) == RunFrom(s1, lines[1..]);
    assert RunFrom(s1, lines[1..]) == RunFrom(s2, lines[2..]);
    assert RunFrom(s2, lines[2..]) == s3;
  }

  lemma ItemLinesStep(st: ParseState, item: TrendingItem)
    requires Renderable(item)
    ensures RunFrom(st, ItemLines(item)) == ParseState(Flush(st), item)
  {
    TrendLineStep(st, item);
    var s1 := Step(st, Field(TrendPrefix, item.topic));
    FieldLinesStep(s1, item);
    hide Step;
    assert RunFrom(st, ItemLines(item)) == RunFrom(s1, ItemLines(item)[1..]);
  }

  // ---------------------------------------------------------------------
  // Whole replies

  /** The first item's block of a reply leaves that item pending, after the earlier ones. */
  lemma RunFirstBlock(st: ParseState, items: seq<TrendingItem>)
    requires items != [] && Renderable(items[0])
    ensures RunFrom(st, ReplyLines(items)) == RunFrom(ParseState(Flush(st), items[0]), ReplyLines(items[1..]))
  {
    hide Step, Renderable, Flush;
    assert ReplyLines(items) == ItemLines(items[0]) + ReplyLines(items[1..]);
    RunFromAppend(st, ItemLines(items[0]), ReplyLines(items[1..]));
    ItemLinesStep(st, items[0]);
  }

  lemma PendingItemFlushed(st: ParseState, item: TrendingItem)
    requires Renderable(item)
    ensures Flush(ParseState(Flush(st), item)) == Flush(st) + [item]
  {
  }

  lemma {:induction false} RunReply(st: ParseState, items: seq<TrendingItem>)
    requires forall item <- items :: Renderable(item)
    ensures Flush(RunFrom(st, ReplyLines(items))) == Flush(st) + items
    decreases |items|
  {
    hide Step, Renderable, ItemLines;
    if items == [] {
      assert Flush(st) + items == Flush(st);
    } else {
      var item, rest := items[0], items[1..];
      var next := ParseState(Flush(st), item);
      assert item in items;
      assert forall other <- rest :: other in items;
      PendingItemFlushed(st, item);
      RunFirstBlock(st, items);
      hide Flush, ReplyLines;
      RunReply(next, rest);
      assert Flush(st) + [item] + rest == Flush(st) + items;
    }
  }

  lemma {:induction false} ReplyLinesUnbroken(items: seq<TrendingItem>)
    requires forall item <- items :: Renderable(item)
    ensures forall line <- ReplyLines(items) :: '\n' !in line
  {
    if items != [] {
      var item := items[0];
      assert item in items;
      assert forall other <- items[1..] :: other in items;
      ReplyLinesUnbroken(items[1..]);
      forall line <- ItemLines(item) ensures '\n' !in line {
        LinesOfListField(item.hashtags);
        LinesOfListField(item.keywords);
      }
    }
  }

  lemma {:induction false} LinesOfListField(entries: seq<string>)
    requires forall e <- entries :: '\n' !in e
    ensures '\n' !in Join(Padded(entries), ',')
  {
    if |entries| > 1 {
      assert entries[0] in entries;
      assert forall e <- entries[1..] :: e in entries;
      assert Padded(entries)[1..] == Padded(entries[1..]);
      LinesOfListField(entries[1..]);
    } else if |entries| == 1 {
      assert entries[0] in entries;
    }
  }

  /**
   * Round trip: a reply written in the requested format parses back to
   * exactly its items, as many as there are `TREND:` blocks, in their
   * order, each with its description, hashtags and keywords.
   */
  lemma ParseRenderedReply(items: seq<TrendingItem>)
    requires forall item <- items :: Renderable(item)
    ensures ParseTrends(RenderReply(items)) == items
  {
    if items == [] {
      EmptyReplyNoItems();
    } else {
      assert |ReplyLines(items)| >= 1 by {
        assert ReplyLines(items) == ItemLines(items[0]) + ReplyLines(items[1..]);
      }
      ReplyLinesUnbroken(items);
      SplitJoin(ReplyLines(items), '\n');
      RunReply(Start, items);
    }
  }
}
