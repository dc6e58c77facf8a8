# SocialPulse trend parser, in Dafny

SocialPulse asks a generative-AI service for two things. The first is posting-time insights, returned as JSON. The second is trending topics, returned as plain text in a fixed line format:

```
TREND: Artificial Intelligence
DESC: New models are breaking benchmarks.
TAGS: #AI, #TechTrends, #MachineLearning
KEYS: LLM, generative ai, tech news
```

The browser service (`fetchTrendingTopics`) and the backend route (`POST /api/trending`) both contain the same loop. It turns that text into an ordered list of trending items. The loop:

- splits the reply on `'\n'` and trims each line;
- dispatches on the prefix;
- keeps one accumulator item, which it pushes when the next `TREND:` line arrives and once more after the last line;
- splits `TAGS:`/`KEYS:` values on `','`, trims every entry and drops the empty ones.

Next to the loop sit:

- a filter that turns the reply's grounding chunks into cited sources;
- the browser's fallback when the call fails;
- the backend's request-field checks;
- the backend's empty-reply check on the insights route.

The project models all of these:

- `Text`: JavaScript `split` with a one-character separator, `trim` with the ECMAScript WhiteSpace and LineTerminator set, and `startsWith`.
- `TrendParser`: the loop, written twice.
  - `ParseTrendText` is the imperative loop, with a mutable accumulator and an output sequence that it pushes onto.
  - `ParseTrends` is the specification: a left fold of one loop turn (`Step`) over the lines, followed by the final push (`Flush`).
  - The method is proved to compute the function.
- `TrendProperties` proves what the parser promises:
  - the item count and order;
  - that stray lines before the first `TREND:` are ignored;
  - last write wins inside a block;
  - the shape of tag and keyword entries.
- `TrendFormat` writes items out in the format above and proves that parsing such a reply gives back exactly those items.
- `Grounding`: the sources filter.
- `GenAI`: the parts of the service's reply that the application reads.
- `GeminiService`: the browser-side functions around the call.
- `Server`: the two backend routes, each reduced to a status and a body.
- `TrendExamples`: a worked tag line with an empty entry.

Both copies of the parser are modelled once. The rows below cite both copies: the browser copy at services/geminiService.ts:118-151 and the backend copy at server/index.js:152-183. The gateways call `ParseTrends`, and `ParseTrendText` is proved equal to it.

## Model

| member | source | states |
|---|---|---|
| `Text.TrimStart` | services/geminiService.ts:125 | the result is no longer than the input and does not start with whitespace |
| `Text.TrimEnd` | services/geminiService.ts:125 | the result is no longer than the input, keeps its first character and does not end with whitespace |
| `Text.Trim` | services/geminiService.ts:125 | `trim` yields a string with no whitespace at either end and leaves an already trimmed string unchanged |
| `Text.TrimStartDropsWhitespace` | services/geminiService.ts:125 | the leading trim removes only a whitespace prefix and keeps the rest of the string as it was |
| `Text.TrimEndDropsWhitespace` | services/geminiService.ts:125 | the trailing trim removes only a whitespace suffix and keeps the rest of the string as it was |
| `Text.TrimAddsNothing` | services/geminiService.ts:142 | trimming cannot introduce a character, so a trimmed comma-split part still holds no comma |
| `Text.TrimLeadingSpace` | services/geminiService.ts:142 | `" " + e` trims back to `e` for a non-empty trimmed `e`, as in the entries of `#AI, #TechTrends` |
| `Text.Split` | services/geminiService.ts:121 | `split` always yields at least one part (`"".split(c)` is `[""]`) and no part holds the separator |
| `Text.SplitConcat` | services/geminiService.ts:121 | splitting `a + c + b` gives the parts of `a` followed by the parts of `b` |
| `Text.SplitWithoutSeparator` | services/geminiService.ts:121 | a string without the separator splits into itself alone |
| `Text.JoinSplit` | services/geminiService.ts:121 | joining the parts of a split with the separator gives the original string back |
| `Text.SplitJoin` | services/geminiService.ts:142 | splitting a join of separator-free parts gives back exactly those parts |
| `TrendParser.TrimEach` | services/geminiService.ts:142 | `map(s => s.trim())` keeps the length and trims the i-th part into the i-th result |
| `TrendParser.DropEmpty` | services/geminiService.ts:142 | `filter(s => s)` keeps exactly the non-empty strings of the input: every result is a non-empty input string, every non-empty input string is in the result, and a list without empty strings is unchanged |
| `TrendParser.Entries` | services/geminiService.ts:141-144 | every tag or keyword entry is non-empty, trimmed and comma-free |
| `TrendParser.ParseTrends` | services/geminiService.ts:118-151 | parsing is total, and every emitted item has a non-empty trimmed topic, a trimmed description and well-formed tag and keyword lists |
| `TrendParser.ParseTrendText` | server/index.js:152-183 | the loop with its mutable accumulator, its pushes and its final flush computes exactly `ParseTrends(text)` |
| `TrendParser.RunFromNext` | services/geminiService.ts:124-146 | running the rest of the lines from one loop turn on is the same as taking that turn and then running the remaining lines |
| `TrendParser.StepKeepsWellFormed` | server/index.js:162-178 | one loop turn keeps every pushed item well formed, and keeps the accumulator well formed whenever its topic is set; nothing with an empty topic is pushed |
| `TrendParser.RunKeepsWellFormed` | server/index.js:159-183 | the whole loop plus the final flush emits only well-formed items with non-empty topics |
| `TrendProperties.StepTopics` | services/geminiService.ts:127-145 | one line adds to the emitted topics exactly the topic it announces (a `TREND:` line with a non-empty remainder), and nothing else |
| `TrendProperties.RunTopics` | services/geminiService.ts:124-151 | running lines from any state appends exactly their announced topics, in order, to the topics that state would emit |
| `TrendProperties.TopicsFollowHeadings` | services/geminiService.ts:124-151 | the items' topics are exactly the non-empty `TREND:` headings of the lines, in the order of those lines, and there are as many items as headings |
| `TrendProperties.NoHeadingsNoItems` | services/geminiService.ts:127-151 | a reply without a non-empty `TREND:` line yields no item, so an empty `TREND:` line produces none |
| `TrendProperties.EmptyReplyNoItems` | services/geminiService.ts:118-121 | an empty reply (a missing text read as the empty string) yields zero items |
| `TrendProperties.RunFromAppend` | services/geminiService.ts:124-146 | the loop over `a + b` is the loop over `a` followed by the loop over `b` |
| `TrendProperties.IdleLinesChangeNothing` | server/index.js:172-178 | while no topic is set, lines that are not `TREND:` lines leave the state unchanged |
| `TrendProperties.PreambleIgnored` | services/geminiService.ts:139-145 | `DESC:`, `TAGS:`, `KEYS:` and other lines before the first `TREND:` line do not change the result |
| `TrendProperties.BlockLastWriteWins` | services/geminiService.ts:139-144 | inside one block the item holds the value of the last `DESC:`, `TAGS:` and `KEYS:` line (overwrite, not append), and nothing is pushed |
| `TrendProperties.DropEmptyAppend` | services/geminiService.ts:142 | `filter(s => s)` keeps order: the result for `a + b` is the result for `a` followed by the result for `b` |
| `TrendProperties.DropEmptySingle` | services/geminiService.ts:142 | one string is kept iff it is not empty; with the append law this fixes the filter on every list |
| `TrendProperties.TrimEachAppend` | services/geminiService.ts:142 | `map(s => s.trim())` maps concatenation to concatenation |
| `TrendProperties.EntriesAppend` | services/geminiService.ts:141-144 | for any list value, the entries of `a,b` are the entries of `a` followed by those of `b`, so every entry keeps its place |
| `TrendProperties.EntriesSingle` | server/index.js:175-177 | a comma-free piece of a list value contributes its trimmed text, `#` included, when that is not blank, and nothing otherwise; with the append law this fixes the entries of every value, including blank entries and irregular spacing |
| `TrendProperties.TrimEachTrimmed` | services/geminiService.ts:142 | trimming every part of a list of trimmed parts changes nothing |
| `TrendProperties.TrimEachPadded` | services/geminiService.ts:142 | entries with one space in front of each trim back to the entries, and the padded entries hold no comma |
| `TrendProperties.PaddedEntriesRoundTrip` | services/geminiService.ts:141-144 | a list written `#a, #b, #c` is read back as its entries, in order, with the `#` kept |
| `TrendProperties.EntriesRoundTrip` | server/index.js:174-177 | well-formed entries joined by commas are read back unchanged and in order |
| `TrendExamples.SplitTagLine` | services/geminiService.ts:142 | `" #AI, , #ML"` splits on commas into `" #AI"`, `" "` and `" #ML"` |
| `TrendExamples.TrimTagParts` | services/geminiService.ts:142 | those parts trim to `"#AI"`, `""` and `"#ML"` |
| `TrendExamples.BlankTagDropped` | services/geminiService.ts:141-142 | the tag value `" #AI, , #ML"` yields `["#AI", "#ML"]`: the blank entry is dropped and the order and the `#` are kept |
| `TrendFormat.FieldLine` | services/geminiService.ts:127-140 | a line `PREFIX value` is already trimmed, starts with its prefix, and its remainder trims back to the value |
| `TrendFormat.ListLine` | services/geminiService.ts:141-144 | a line `PREFIX a, b` is already trimmed, starts with its prefix, and its remainder is read back as the entries |
| `TrendFormat.ListLineTrimmed` | services/geminiService.ts:141 | a line `PREFIX a, b` starts with its prefix and has no whitespace at either end |
| `TrendFormat.ListLineValue` | services/geminiService.ts:142 | the remainder of a line `PREFIX a, b` after its prefix is read back as the entries |
| `TrendFormat.JoinPaddedEnds` | services/geminiService.ts:97-98 | a written list ends with the last character of its last entry |
| `TrendFormat.TrendLineStep` | services/geminiService.ts:127-138 | an item's `TREND:` line pushes the pending item if it has a topic and starts a fresh item with that topic |
| `TrendFormat.DescLineStep` | services/geminiService.ts:139-140 | under a set topic, an item's `DESC:` line sets the description and nothing else |
| `TrendFormat.TagsLineStep` | services/geminiService.ts:141-142 | under a set topic, an item's `TAGS:` line sets the hashtags and nothing else |
| `TrendFormat.KeysLineStep` | services/geminiService.ts:143-144 | under a set topic, an item's `KEYS:` line sets the keywords and nothing else |
| `TrendFormat.FieldLinesStep` | services/geminiService.ts:139-144 | the `DESC:`, `TAGS:` and `KEYS:` lines of an item fill in exactly that item's fields |
| `TrendFormat.ItemLinesStep` | services/geminiService.ts:124-145 | an item's four lines push what was pending and leave exactly that item pending |
| `TrendFormat.RunFirstBlock` | server/index.js:159-179 | the first block of a written reply leaves its item pending after the earlier ones |
| `TrendFormat.RunReply` | services/geminiService.ts:124-151 | the blocks of a written reply, run from any state and flushed, emit the state's items followed by the written items |
| `TrendFormat.ReplyLinesUnbroken` | services/geminiService.ts:121 | no written line contains a line break, so splitting on `'\n'` recovers the lines |
| `TrendFormat.LinesOfListField` | services/geminiService.ts:121 | a written list contains no line break when its entries contain none |
| `TrendFormat.ParseRenderedReply` | services/geminiService.ts:94-151 | a reply written in the requested `TREND:`/`DESC:`/`TAGS:`/`KEYS:` format parses back to exactly its items, in order and field by field |
| `Grounding.ExtractSources` | services/geminiService.ts:154-157 | one source per chunk with a `web` page and no other, taken from those chunks; there are no more sources than chunks, and exactly as many iff every chunk has a page |
| `Grounding.ExtractSourcesAppend` | server/index.js:186-189 | the filter keeps the chunks' order: the sources of `a + b` are those of `a` followed by those of `b` |
| `Grounding.ExtractSourcesSingle` | services/geminiService.ts:156 | a single chunk gives its page as a source, or nothing when it has no page |
| `Grounding.DuplicatesKept` | services/geminiService.ts:155-157 | nothing is deduplicated: chunks cited twice give every source twice |
| `GeminiService.FetchTrendingTopics` | services/geminiService.ts:109-169 | a failed call gives no items, `"Could not fetch trending topics."` and no sources; a reply gives as items exactly the parse of its text, as `rawText` its unparsed text, and as sources exactly the filtered chunks of its first candidate (at most one per chunk); the items are well formed |
| `GeminiService.FetchSocialInsights` | services/geminiService.ts:72-79 | succeeds iff the call returns a non-empty text, and then yields that text; an error of the call is raised again unchanged, and a missing or empty text raises `"No data received from Gemini"` |
| `Server.Insights` | server/index.js:28-106 | 400 with `"Missing industry or timezone"` iff a field is missing or empty; 500 with `"Failed to fetch insights"` iff the fields are given and the time zone is unknown to the date library, or the call throws, or it returns no text; otherwise 200 with the reply's text |
| `Server.Trending` | server/index.js:111-201 | 400 with `"Missing industry"` iff the industry is missing or empty; 500 with `"Failed to fetch trending topics"` iff it is given and the call throws; otherwise 200 with the parse of the reply's text, the unparsed text as `rawText` and the filtered chunks as sources |
| `Server.ValidationPrecedesCall` | server/index.js:32-150 | a request rejected for a missing field gets the same reply whatever the time zone and the upstream call would have done, on both routes; an unknown time zone gets the same reply whatever the call would have done |
| `Server.ServerMatchesClient` | server/index.js:152-189 | for a given industry, the backend's trending reply carries exactly the data the browser service computes from the same response |

## Left out

- Strings are sequences of Unicode scalar values. JavaScript strings are UTF-16 code units, so a surrogate pair counts as two units there. The parser's prefixes, separators and whitespace are all in the Basic Multilingual Plane, so this does not change which lines match or what is trimmed.
- The call to the generative-AI service is not modelled: the prompt text, the model name, the response schema and the search tool. Each gateway is given the call's outcome (`GenAI.Call`): it threw, or it returned a response.
- The text of the day and time formatted with `toLocaleDateString`/`toLocaleTimeString` is not modelled. It feeds only the prompt and depends on the platform's date library. Whether that library accepts the requested time zone does change the reply of the insights route: an unknown zone throws a `RangeError` before the upstream call, which the handler answers with 500. This verdict is an input of `Server.Insights` (`zoneKnown`); the IANA time-zone database behind it is not modelled.
- `console.error` logging is left out. It has no effect on any result.
- GeminiService.FetchSocialInsights: returns the reply's JSON text rather than the parsed object, because `JSON.parse` is not modelled. A non-empty text that is not valid JSON raises a `SyntaxError` in the source; the model returns it.
- Server.Insights: a non-empty reply that is not valid JSON gets 500 in the source, because `JSON.parse` throws inside the `try`. The model answers 200 with the text, since `JSON.parse` is not modelled.
- Server.Insights, Server.Trending: a request field is modelled as an optional string. A truthy non-string JSON value (a number, an object) is not modelled.
- Express wiring, CORS, JSON serialisation of replies, static files and the catch-all route are not modelled. A handler is reduced to the status and body it sends.
- The gateways call `TrendParser.ParseTrends`, not `TrendParser.ParseTrendText`. Functions cannot call methods, and the method is proved to return `ParseTrends(text)`.
- The accumulator `{}` and a `TREND:` line with an empty remainder are both modelled as an item with an empty topic. The loop reads only the topic of such an accumulator and never pushes it.
- Each pushed object is a fresh one, because the accumulator is reassigned right after a push. So value semantics loses no aliasing here.
- App.tsx orchestration with `Promise.allSettled` is not modelled, and neither are the React components or their display-time `#` stripping. This is UI and concurrency.
- The sorts in the scheduled-post and history lists are not modelled. Each is a single library `Array.sort` call that feeds rendering.
- vite.config.ts is not modelled. It is build configuration.
