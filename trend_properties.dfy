/**
 * What the trend parser promises, proved of `TrendParser.ParseTrends`:
 * one item per non-empty `TREND:` line and in their order, stray field lines
 * before the first `TREND:` ignored, the last field line of a block winning,
 * and tag lists that round-trip through a comma-joined line.
 */
module TrendProperties {
  import opened Text
  import opened Types
  import opened TrendParser

  /** A line that starts a new item once trimmed. */
  predicate IsTrendLine(line: string) {
    StartsWith(Trim(line), TrendPrefix)
  }

  /** The topic a line announces, if it is a `TREND:` line with something after the prefix. */
  function HeadingOf(line: string): seq<string> {
    var l := Trim(line);
    if StartsWith(l, TrendPrefix) && Trim(l[|TrendPrefix|..]) != "" then [Trim(l[|TrendPrefix|..])] else []
  }

  /** The announced topics of the lines, in order: the reference the parser is measured against. */
  function Headings(lines: seq<string>): seq<string> {
    if lines == [] then [] else HeadingOf(lines[0]) + Headings(lines[1..])
  }

  function Topics(items: seq<TrendingItem>): (topics: seq<string>)
    ensures |topics| == |items|
  {
    if items == [] then [] else [items[0].topic] + Topics(items[1..])
  }

  lemma {:induction false} TopicsAppend(a: seq<TrendingItem>, b: seq<TrendingItem>)
    ensures Topics(a + b) == Topics(a) + Topics(b)
  {
    if a == [] {
      assert a + b == b;
    } else {
      assert (a + b)[1..] == a[1..] + b;
      TopicsAppend(a[1..], b);
    }
  }

  /** One line adds its heading, and nothing else, to the topics that would be emitted. */
  lemma StepTopics(st: ParseState, line: string)
    ensures Topics(Flush(Step(st, line))) == Topics(Flush(st)) + HeadingOf(line)
  {
    var next := Step(st, line);
    if IsTrendLine(line) {
      TopicsAppend(Flush(st), if next.current.topic != "" then [next.current] else []);
    } else {
      assert next.items == st.items && next.current.topic == st.current.topic;
      if st.current.topic != "" {
        TopicsAppend(st.items, [st.current]);
        TopicsAppend(st.items, [next.current]);
      }
    }
  }

  lemma {:induction false} RunTopics(st: ParseState, lines: seq<string>)
    ensures Topics(Flush(RunFrom(st, lines))) == Topics(Flush(st)) + Headings(lines)
    decreases |lines|
  {
    hide Step, HeadingOf;
    if lines != [] {
      StepTopics(st, lines[0]);
      RunTopics(Step(st, lines[0]), lines[1..]);
    }
  }

  /**
   * The items are exactly the non-empty `TREND:` lines, in the order of those
   * lines: as many items as such lines, the k-th item carrying the k-th topic.
   */
  lemma TopicsFollowHeadings(text: string)
    ensures Topics(ParseTrends(text)) == Headings(Split(text, '\n'))
    ensures |ParseTrends(text)| == |Headings(Split(text, '\n'))|
  {
    RunTopics(Start, Split(text, '\n'));
  }

  /** A reply without a non-empty `TREND:` line, whatever else it holds, gives no item. */
  lemma NoHeadingsNoItems(text: string)
    requires Headings(Split(text, '\n')) == []
    ensures ParseTrends(text) == []
  {
    TopicsFollowHeadings(text);
  }

  /** An empty reply (`response.text || ""` with no text) gives no item. */
  lemma EmptyReplyNoItems()
    ensures ParseTrends("") == []
  {
    assert Split("", '\n') == [""];
    assert Trim("") == "";
  }

  // ---------------------------------------------------------------------
  // Lines before the first TREND:

  lemma {:induction false} RunFromAppend(st: ParseState, a: seq<string>, b: seq<string>)
    ensures RunFrom(st, a + b) == RunFrom(RunFrom(st, a), b)
    decreases |a|
  {
    if a == [] {
      assert a + b == b;
    } else {
      assert (a + b)[1..] == a[1..] + b;
      RunFromAppend(Step(st, a[0]), a[1..], b);
    }
  }

  /** Without a current topic, lines other than `TREND:` change nothing. */
  lemma {:induction false} IdleLinesChangeNothing(st: ParseState, lines: seq<string>)
    requires st.current.topic == ""
    requires forall line <- lines :: !IsTrendLine(line)
    ensures RunFrom(st, lines) == st
    decreases |lines|
  {
    if lines != [] {
      assert lines[0] in lines;
      assert Step(st, lines[0]) == st;
      IdleLinesChangeNothing(st, lines[1..]);
    }
  }

  /** `DESC:`, `TAGS:`, `KEYS:` and other lines before the first `TREND:` line are ignored. */
  lemma PreambleIgnored(preamble: string, rest: string)
    requires forall line <- Split(preamble, '\n') :: !IsTrendLine(line)
    ensures ParseTrends(preamble + "\n" + rest) == ParseTrends(rest)
  {
    SplitConcat(preamble, rest, '\n');
    RunFromAppend(Start, Split(preamble, '\n'), Split(rest, '\n'));
    IdleLinesChangeNothing(Start, Split(preamble, '\n'));
  }

  // ---------------------------------------------------------------------
  // Last write wins inside a block

  /** The value of the last `DESC:` line of `body`, or `default` when there is none. */
  function LastDescription(body: seq<string>, default: string): string
  {
    if body == [] then default
    else
      var l := Trim(body[|body| - 1]);
      if StartsWith(l, DescPrefix) then Trim(l[|DescPrefix|..])
      else LastDescription(body[..|body| - 1], default)
  }

  /** The value of the last line of `body` with the given list prefix, or `default` when there is none. */
  function LastEntries(body: seq<string>, prefix: string, default: seq<string>): seq<string>
  {
    if body == [] then default
    else
      var l := Trim(body[|body| - 1]);
      if StartsWith(l, prefix) then Entries(l[|prefix|..])
      else LastEntries(body[..|body| - 1], prefix, default)
  }

  /**
   * Inside one block (the lines after a `TREND:` line up to the next one),
   * the item holds the value of the LAST `DESC:`, `TAGS:` and `KEYS:` line:
   * a repeated line overwrites, it does not append. Nothing is pushed.
   */
  lemma {:induction false} BlockLastWriteWins(st: ParseState, body: seq<string>)
    requires st.current.topic != ""
    requires forall line <- body :: !IsTrendLine(line)
    ensures RunFrom(st, body) == ParseState(st.items, TrendingItem(
      st.current.topic,
      LastDescription(body, st.current.description),
      LastEntries(body, TagsPrefix, st.current.hashtags),
      LastEntries(body, KeysPrefix, st.current.keywords)))
    decreases |body|
  {
    hide Entries, Trim;
    if body != [] {
      var n := |body| - 1;
      var init, last := body[..n], body[n];
      assert body == init + [last];
      assert forall line <- init :: line in body;
      assert last in body;
      BlockLastWriteWins(st, init);
      RunFromAppend(st, init, [last]);
      var mid := RunFrom(st, init);
      assert RunFrom(mid, [last]) == Step(mid, last);
    }
  }

  // ---------------------------------------------------------------------
  // Tag and keyword lists

  lemma {:induction false} TrimEachTrimmed(parts: seq<string>)
    requires forall p <- parts :: IsTrimmed(p)
    ensures TrimEach(parts) == parts
  {
    if parts != [] {
      assert parts[0] in parts;
      TrimEachTrimmed(parts[1..]);
    }
  }

  /** `filter(s => s)` keeps order: it maps concatenation to concatenation. */
  lemma {:induction false} DropEmptyAppend(a: seq<string>, b: seq<string>)
    ensures DropEmpty(a + b) == DropEmpty(a) + DropEmpty(b)
  {
    if a == [] {
      assert a + b == b;
    } else {
      assert (a + b)[1..] == a[1..] + b;
      DropEmptyAppend(a[1..], b);
    }
  }

  /** Together with the append law this pins the filter down: one string is kept iff it is not empty. */
  lemma DropEmptySingle(s: string)
    ensures DropEmpty([s]) == (if s == "" then [] else [s])
  {
  }

  lemma {:induction false} TrimEachAppend(a: seq<string>, b: seq<string>)
    ensures TrimEach(a + b) == TrimEach(a) + TrimEach(b)
  {
    if a == [] {
      assert a + b == b;
    } else {
      assert (a + b)[1..] == a[1..] + b;
      TrimEachAppend(a[1..], b);
    }
  }

  /**
   * A comma splits a list value into two independent halves: the entries of
   * `a, b` are the entries of `a` followed by those of `b`, so every entry
   * keeps its place.
   */
  lemma EntriesAppend(a: string, b: string)
    ensures Entries(a + [','] + b) == Entries(a) + Entries(b)
  {
    SplitConcat(a, b, ',');
    TrimEachAppend(Split(a, ','), Split(b, ','));
    DropEmptyAppend(TrimEach(Split(a, ',')), TrimEach(Split(b, ',')));
  }

  /**
   * A comma-free piece of a list value contributes its trimmed text when
   * that is not blank, and nothing otherwise; a leading `#` is kept.
   */
  lemma EntriesSingle(a: string)
    requires ',' !in a
    ensures Entries(a) == (if Trim(a) == "" then [] else [Trim(a)])
  {
    SplitWithoutSeparator(a, ',');
    assert TrimEach([a]) == [Trim(a)];
  }

  /** Each entry with one space in front, as the prompt writes lists (`#AI, #TechTrends`). */
  function Padded(entries: seq<string>): (r: seq<string>)
    ensures |r| == |entries|
  {
    if entries == [] then [] else [" " + entries[0]] + Padded(entries[1..])
  }

  lemma {:induction false} TrimEachPadded(entries: seq<string>)
    requires forall e <- entries :: IsEntry(e)
    ensures TrimEach(Padded(entries)) == entries
    ensures forall p <- Padded(entries) :: ',' !in p
  {
    if entries != [] {
      assert entries[0] in entries;
      TrimLeadingSpace(entries[0]);
      TrimEachPadded(entries[1..]);
    }
  }

  /**
   * A list written as the prompt asks, `TAGS: #a, #b, #c`, is read back as
   * its entries, in order and with their `#`.
   */
  lemma PaddedEntriesRoundTrip(entries: seq<string>)
    requires entries != []
    requires forall e <- entries :: IsEntry(e)
    ensures Entries(Join(Padded(entries), ',')) == entries
  {
    TrimEachPadded(entries);
    SplitJoin(Padded(entries), ',');
    assert forall i :: 0 <= i < |entries| ==> entries[i] in entries;
  }

  /**
   * A list of entries written out comma-separated is read back unchanged:
   * same entries, same order, a leading `#` kept.
   */
  lemma EntriesRoundTrip(entries: seq<string>)
    requires forall e <- entries :: IsEntry(e)
    ensures Entries(Join(entries, ',')) == entries
  {
    if entries == [] {
      assert Split("", ',') == [""];
      assert Trim("") == "";
    } else {
      SplitJoin(entries, ',');
      TrimEachTrimmed(entries);
      assert forall i :: 0 <= i < |entries| ==> entries[i] in entries;
    }
  }
}
