# Mneme memory store, modelled in Dafny

Mneme ("Personal Memory Lighthouse") is a set of MCP tool servers. They keep
a personal memory in JSON files in the user's home directory. This project
models the store those servers keep and the tools that read and change it.

**The hybrid memory server.** It has two versions:
`src/hybrid_memory_mcp_fixed.py`, which has error handling, and
`installation/hybrid_memory_mcp.py`, which has none. The server keeps three
JSON objects:

- **memories**: record id to record;
- **index**: three dimensions, `notion_imports`, `tags` and `topics`, each
  mapping a key to the ids filed under it;
- **serendipity cache**: date to the batch of discoveries cached that day.

Each tool loads the files, changes what it loaded, and saves it back:

- `save_from_notion` builds a record, with a summary cut at 200 characters.
  It stores the record, then appends its id to the index.
- `link_claude_conversation` does the same for a conversation, filing it under
  its topics.
- `cache_serendipity` replaces today's batch.
- `get_random_memory` draws a record with probability proportional to its age
  in days plus one, and counts the access.
- `search_by_context` scores each record against the keywords of a query. It
  ranks the records by a stable descending sort and returns at most `limit`
  copies, each annotated with its score.
- `get_memory_stats` counts records per type and reports the index sizes and
  the span between the oldest and newest timestamp.

**The simple memory server.** It also has two versions:
`src/simple_memory_mcp_fixed.py` (guarded) and `src/simple_memory_mcp.py`.
It keeps one JSON list of entries numbered 1, 2, 3, ... in saving order, with
tools to append an entry, list all entries and clear the list.

**How the model is built.**

- A Python dict is a sequence of `(key, value)` pairs (`OrderedMap.Dict`).
  Assignment to a key replaces the entry in place or appends a new one, so the
  iteration order the search's tie-breaking depends on is kept.
- A file is a value of `Storage.JsonFile`. It can be missing, unreadable, not
  JSON, JSON of the wrong kind, or hold a value.
- Each server is a `class` whose fields are its files. Each tool is a method
  that changes those fields, and its `ensures` states the new files and the
  reply as functions of the old files.
- The loops (weights, scoring, tallying, index filing, timestamp collection)
  are methods with invariants. Each is proved equal to a specification
  function, and the lemmas state what the source promises about that function.
- The following are parameters:
  - the clock: the id stamp, today's date and the current time in seconds;
  - timestamps: seconds, or None when a timestamp does not parse;
  - the uniform draw of `random.random()`;
  - the outcome of each write;
  - the serialisation `json.dumps`.

Where the two versions of a server differ, each has its own module:

- `HybridMemory` and `HybridMemoryUnguarded`;
- `SimpleMemory` and `SimpleMemoryUnguarded`.

Lemmas state where the two versions agree.

## Model

| member | source | states |
|---|---|---|
| `OrderedMap.Keys` | src/hybrid_memory_mcp_fixed.py:245 | the keys of a dict, one per entry, in iteration order |
| `OrderedMap.Get` | src/hybrid_memory_mcp_fixed.py:424 | `d.get(k)` is present exactly when `k` is a key, and then it is the value of one of `k`'s entries |
| `OrderedMap.Put` | src/hybrid_memory_mcp_fixed.py:104 | `d[k] = v` keeps the keys and their order when `k` is present, and appends `(k, v)` at the end otherwise |
| `OrderedMap.PutGet` | src/hybrid_memory_mcp_fixed.py:104 | after `d[k] = v`, `k` looks up `v` and every other key looks up what it did before |
| `OrderedMap.PutEntries` | src/hybrid_memory_mcp_fixed.py:386 | after `d[k] = v`, every entry is `(k, v)` or was there before |
| `OrderedMap.PutKeepsKeys` | src/hybrid_memory_mcp_fixed.py:324 | `d[k] = v` keeps every key and adds `k` |
| `OrderedMap.PutUnique` | src/hybrid_memory_mcp_fixed.py:203 | `d[k] = v` never creates a repeated key |
| `OrderedMap.GetAt` | src/hybrid_memory_mcp_fixed.py:393 | in a dict without repeated keys, the key of entry `i` looks up entry `i`'s value |
| `OrderedMap.GetMember` | src/hybrid_memory_mcp_fixed.py:393 | in a dict without repeated keys, each entry is what its key looks up |
| `OrderedMap.GetAppend` | src/hybrid_memory_mcp_fixed.py:104 | a lookup in a dict with one new entry at its end |
| `Storage.AfterSave` | src/hybrid_memory_mcp_fixed.py:48-56 | a completed write leaves the file holding the value; a write refused at opening leaves it as it was; a write cut short leaves text that is not JSON |
| `Storage.LoadOrEmpty` | src/hybrid_memory_mcp_fixed.py:38-45 | a missing file, text that is not JSON and JSON of the wrong kind load as empty; a file that holds a value loads it; only an unreadable file raises |
| `Storage.LoadStrict` | installation/hybrid_memory_mcp.py:32-35 | without recovery, only a file that holds a value loads, and anything else raises |
| `Storage.LoadAfterSave` | src/hybrid_memory_mcp_fixed.py:38-56 | a saved value loads back unchanged, under either loading policy |
| `Records.Summary` | src/hybrid_memory_mcp_fixed.py:91 | content of at most 200 characters is its own summary; longer content gives its first 200 characters followed by `...`, 203 characters in all |
| `Records.SummaryIdempotent` | installation/hybrid_memory_mcp.py:75 | the summary of a summary is the summary itself |
| `Records.NotionRecord` | src/hybrid_memory_mcp_fixed.py:82-101 | the imported note has the given id and type `notion_import`, keeps the content and title with a summary of at most 203 characters, is stamped now, has never been accessed, and is tagged with the given tags or none |
| `Records.ConversationRecord` | src/hybrid_memory_mcp_fixed.py:306-321 | the conversation has the given id and type `conversation`, holds the summary, insights and topics as given, is stamped now, has never been accessed, and has no tags and no URL |
| `Records.Accessed` | src/hybrid_memory_mcp_fixed.py:271 | one more access raises the count by exactly 1, a missing count counting as 0, and changes nothing else in the record |
| `MemoryIndex.EnsureDim` | src/hybrid_memory_mcp_fixed.py:112-113 | after it, the dimension is present |
| `MemoryIndex.AppendId` | src/hybrid_memory_mcp_fixed.py:114-116 | filing one id adds the key to the dimension's keys if absent, and adds no other key |
| `MemoryIndex.AppendEach` | src/hybrid_memory_mcp_fixed.py:119-124 | after filing under a list of keys, the dimension is present |
| `MemoryIndex.AppendEachIds` | src/hybrid_memory_mcp_fixed.py:121-124 | filing under a list of keys appends the id to each key's list once per occurrence of the key, so a repeated tag files it twice; the earlier ids keep their order |
| `MemoryIndex.AppendEachKeys` | src/hybrid_memory_mcp_fixed.py:121-123 | after filing, a key is present exactly when it was before or is one of the keys filed under |
| `MemoryIndex.AppendEachOtherDims` | src/hybrid_memory_mcp_fixed.py:119-124 | filing in one dimension leaves every other dimension as it was |
| `MemoryIndex.FileUnderEach` | src/hybrid_memory_mcp_fixed.py:332-337 | the filing loop (create the dimension and each missing list, then append) computes the filing function |
| `MemoryIndex.IndexNotion` | src/hybrid_memory_mcp_fixed.py:112-124 | after filing a notion import the imports and tags dimensions exist, with the source database among the imports' keys, even when there are no tags |
| `MemoryIndex.FileNotion` | src/hybrid_memory_mcp_fixed.py:112-124 | the two filing loops of a notion import, first by source database and then by tag, compute the notion filing |
| `MemoryIndex.IndexNotionEffect` | installation/hybrid_memory_mcp.py:92-104 | a notion import's id is appended once to its source database's list and once per tag occurrence to that tag's list; existing lists keep their ids, and every other dimension, the topics among them, is untouched |
| `MemoryIndex.IndexConversation` | src/hybrid_memory_mcp_fixed.py:332-337 | after filing a conversation the topics dimension exists, even when there are no topics |
| `MemoryIndex.IndexConversationEffect` | installation/hybrid_memory_mcp.py:277-282 | a conversation's id is appended once per topic occurrence to that topic's list; every other dimension is untouched |
| `MemoryIndex.AppendEachRefersOnlyTo` | src/hybrid_memory_mcp_fixed.py:119-124 | filing the id of a stored record keeps the index referring only to stored records |
| `MemoryIndex.IndexingRefersOnlyTo` | src/hybrid_memory_mcp_fixed.py:112-124 | filing a stored record as a notion import or a conversation keeps the index referring only to stored records |
| `MemoryIndex.RefersOnlyToMore` | src/hybrid_memory_mcp_fixed.py:104 | an index that refers only to a store's ids still does after the store gains records |
| `Sampling.DaysOld` | src/hybrid_memory_mcp_fixed.py:263 | `(now - created).days` is the number of whole days elapsed rounded down: `d` when `now - t` lies in `[d, d + 1)` days, negative for a future time |
| `Sampling.Weight` | src/hybrid_memory_mcp_fixed.py:261-266 | a record weighs 1 when its timestamp does not parse, at least 1 when it is stamped no later than now, and at most 1 when it is stamped in the future |
| `Sampling.PastWeightPositive` | src/hybrid_memory_mcp_fixed.py:262-264 | a record stamped no later than now weighs at least 1 |
| `Sampling.OlderWeighsMore` | src/hybrid_memory_mcp_fixed.py:263-264 | an older record never weighs less than a newer one |
| `Sampling.DayOlderWeighsOneMore` | src/hybrid_memory_mcp_fixed.py:263-264 | a record one day older weighs exactly one more |
| `Sampling.OfType` | src/hybrid_memory_mcp_fixed.py:244-247 | the type filter keeps exactly the entries whose type is the requested one |
| `Sampling.OfTypeUnique` | src/hybrid_memory_mcp_fixed.py:244-247 | filtering keeps keys unique |
| `Sampling.CandidatesSpec` | src/hybrid_memory_mcp_fixed.py:242-253 | the candidates are stored records, of the requested type when a non-empty type is given; there are none exactly when the store is empty or no record has that type |
| `Sampling.Weights` | src/hybrid_memory_mcp_fixed.py:258-266 | one weight per candidate: its age in days plus one, or 1 when its timestamp does not parse |
| `Sampling.ComputeWeights` | src/hybrid_memory_mcp_fixed.py:258-266 | the weights loop computes the weights |
| `Sampling.TotalZero` | src/hybrid_memory_mcp_fixed.py:268 | weights that are none negative and add up to 0 are all 0 |
| `Sampling.TotalMonotone` | src/hybrid_memory_mcp_fixed.py:268 | with no negative weight, the running totals never decrease |
| `Sampling.ChooseFrom` | src/hybrid_memory_mcp_fixed.py:268 | the reference pick, the first index from `i` on whose running total exceeds the point (the last index if none does), is an index from `i` on |
| `Sampling.ChooseFromFirst` | src/hybrid_memory_mcp_fixed.py:268 | every index before the reference pick has a running total at most the point, and the pick's own running total exceeds it unless the pick is the last index |
| `Sampling.Bisect` | src/hybrid_memory_mcp_fixed.py:268 | `bisect_right` over the running totals between `lo` and `hi` returns an index in `[lo, hi]` |
| `Sampling.BisectFindsFirst` | src/hybrid_memory_mcp_fixed.py:268 | with no negative weight, the binary search over any range holding the reference pick returns it |
| `Sampling.Choose` | src/hybrid_memory_mcp_fixed.py:268 | `random.choices` bisects the running totals from the first index to the last, and returns an index of the population |
| `Sampling.ChooseIsFirst` | src/hybrid_memory_mcp_fixed.py:268 | with no negative weight, `random.choices` picks the first index whose running total exceeds the point |
| `Sampling.NegativeWeightPick` | src/hybrid_memory_mcp_fixed.py:263-268 | with weights 3, -2 and 5 (a record stamped three days ahead in the middle) and the point 1.5, `random.choices` picks the last index although the first index's running total already exceeds the point |
| `Sampling.ChooseFromInInterval` | src/hybrid_memory_mcp_fixed.py:268 | the index found is the one whose slice of the running totals holds the point |
| `Sampling.ChooseInInterval` | src/hybrid_memory_mcp_fixed.py:268 | the pick is the index whose slice `[total before, total through)` holds the point, so each index is picked with probability weight / total, and a weight-0 index never is |
| `Sampling.ChooseExactly` | src/hybrid_memory_mcp_fixed.py:268 | conversely, an index whose slice holds the point is the one picked, because the slices do not overlap |
| `Sampling.Selection` | src/hybrid_memory_mcp_fixed.py:256-268 | the selected index is a candidate's |
| `Sampling.SelectionIsWeighted` | src/hybrid_memory_mcp_fixed.py:258-268 | with `u` in [0, 1) scaled by the total weight, the selected candidate weighs at least 1 and the point lies in its slice |
| `Sampling.ScaledDraw` | src/hybrid_memory_mcp_fixed.py:268 | `random() * total` lies in `[0, total)` |
| `Text.LowerChar` | src/hybrid_memory_mcp_fixed.py:367 | a lower-cased character is not upper case, and is whitespace exactly when the original was |
| `Text.Lower` | src/hybrid_memory_mcp_fixed.py:367 | `lower()` keeps the length and maps each character |
| `Text.WordLength` | src/hybrid_memory_mcp_fixed.py:367 | the first word runs up to the first whitespace or to the end |
| `Text.Split` | src/hybrid_memory_mcp_fixed.py:367 | `split()` yields only non-empty words without whitespace |
| `Text.SplitLeadingWord` | src/hybrid_memory_mcp_fixed.py:367 | a word followed by whitespace or by nothing is the first word of the split |
| `Text.WordLengthOfWord` | src/hybrid_memory_mcp_fixed.py:367 | the first word of a word followed by whitespace is that word |
| `Text.SplitJoinWords` | src/hybrid_memory_mcp_fixed.py:367 | splitting words joined by single spaces gives the words back |
| `Text.SplitWordsOccur` | src/hybrid_memory_mcp_fixed.py:367 | every word of a split occurs in the split string |
| `Text.ContainedIsLowerCase` | src/hybrid_memory_mcp_fixed.py:377 | a piece of a lower-case string is lower case |
| `Text.SplitLowerIsLowerCase` | src/hybrid_memory_mcp_fixed.py:367 | the words of a lower-cased query are lower case |
| `Search.Keywords` | src/hybrid_memory_mcp_fixed.py:367 | the keywords are non-empty lower-case words without whitespace |
| `Search.ContentMatches` | src/hybrid_memory_mcp_fixed.py:376-378 | the content count is at most the number of keywords; it is 0 exactly when no keyword occurs, and full exactly when all occur |
| `Search.TagMatches` | src/hybrid_memory_mcp_fixed.py:381-383 | the tag count is at most the number of tags; it is 0 exactly when no tag contains a keyword, and full exactly when all do |
| `Search.CountContentMatches` | src/hybrid_memory_mcp_fixed.py:376-378 | the content loop adds 1 per keyword found in the content |
| `Search.CountTagMatches` | src/hybrid_memory_mcp_fixed.py:381-383 | the tag loop counts the tags containing some keyword |
| `Search.ScoreMemory` | src/hybrid_memory_mcp_fixed.py:372-383 | a record's score is its content count plus 2 per matching tag |
| `Search.ScoreZeroIff` | src/hybrid_memory_mcp_fixed.py:372-385 | a record scores 0 exactly when no keyword is in its content and no tag contains one |
| `Search.ScoreBounds` | src/hybrid_memory_mcp_fixed.py:372-383 | a score is at most the number of keywords plus twice the number of tags, with equality exactly when every keyword and every tag matches |
| `Search.LowerOfLowerCase` | src/hybrid_memory_mcp_fixed.py:382 | lower-casing a lower-case string changes nothing |
| `Search.ContainsItself` | src/hybrid_memory_mcp_fixed.py:382 | every string contains itself |
| `Search.SingleKeywordTagged` | src/hybrid_memory_mcp_fixed.py:372-383 | a one-word query matching a record's only tag scores 2, or 3 when the content also mentions it |
| `Search.SingleKeywordUntagged` | src/hybrid_memory_mcp_fixed.py:372-378 | a one-word query against an untagged record scores 1 when the content mentions it, otherwise 0 |
| `Search.ScoreAndKeep` | src/hybrid_memory_mcp_fixed.py:371-386 | one turn of the store loop scores the record and keeps its id when the score is positive |
| `Search.ScoreMemories` | src/hybrid_memory_mcp_fixed.py:370-386 | the store loop computes the scores of all records, keeping those above 0 |
| `Search.ScoredEntry` | src/hybrid_memory_mcp_fixed.py:370-386 | a pair is scored exactly when it is some record's id with that record's positive score |
| `Search.ScoredEntries` | src/hybrid_memory_mcp_fixed.py:370-386 | the scored pairs are exactly the records' ids with their positive scores |
| `Search.ScoredKeys` | src/hybrid_memory_mcp_fixed.py:385-386 | scored ids are store ids |
| `Search.RecordScore` | src/hybrid_memory_mcp_fixed.py:370-384 | a record scores at most 1 per keyword and 2 per tag |
| `Search.ScoreAllPositive` | src/hybrid_memory_mcp_fixed.py:366-386 | the scoring loop keeps only records that score above 0 |
| `Search.ScoreAllIsScored` | src/hybrid_memory_mcp_fixed.py:370-386 | with unique ids, the loop's dict lists the scored records in store order |
| `Search.Annotated` | src/hybrid_memory_mcp_fixed.py:391-395 | one result per ranked id: the stored record with `relevance_score` set to its score and nothing else changed |
| `Search.AnnotateRanked` | src/hybrid_memory_mcp_fixed.py:391-395 | the copying loop computes the annotated results |
| `Search.SearchResults` | src/hybrid_memory_mcp_fixed.py:389 | a non-negative `limit` bounds the number of results |
| `Search.ScoredKeysOfScoreAll` | src/hybrid_memory_mcp_fixed.py:385-386 | every id the loop scores is a store id, even with repeated ids |
| `Search.SearchResultsSpec` | src/hybrid_memory_mcp_fixed.py:367-395 | every result carries a score; scores do not increase along the results; each result is a stored record annotated with its own positive score |
| `Ranking.Insert` | src/hybrid_memory_mcp_fixed.py:389 | inserting adds exactly one entry; which entries and where are stated by the lemmas below |
| `Ranking.SortByScore` | src/hybrid_memory_mcp_fixed.py:389 | the sort keeps the number of entries |
| `Ranking.InsertPermutes` | src/hybrid_memory_mcp_fixed.py:389 | inserting adds the entry and loses nothing |
| `Ranking.SortByScorePermutes` | src/hybrid_memory_mcp_fixed.py:389 | the sort is a permutation of the scored entries |
| `Ranking.WithScoreCons` | src/hybrid_memory_mcp_fixed.py:389 | filtering by score distributes over a leading entry |
| `Ranking.InsertNonIncreasing` | src/hybrid_memory_mcp_fixed.py:389 | inserting into a non-increasing list keeps it non-increasing |
| `Ranking.InsertWithScore` | src/hybrid_memory_mcp_fixed.py:389 | an inserted entry goes before the entries of equal score |
| `Ranking.SortByScoreNonIncreasing` | src/hybrid_memory_mcp_fixed.py:389 | the sorted entries go from the highest score to the lowest |
| `Ranking.SortByScoreStable` | src/hybrid_memory_mcp_fixed.py:389 | the sort is stable: entries of equal score keep their store order |
| `Ranking.SliceTo` | src/hybrid_memory_mcp_fixed.py:389 | `s[:stop]` is a prefix of the length Python gives, counting a negative stop from the end |
| `Ranking.Ranked` | src/hybrid_memory_mcp_fixed.py:389 | the ranked entries are a prefix of the sorted ones |
| `Ranking.RankedNonIncreasing` | installation/hybrid_memory_mcp.py:328 | the ranked entries go from the highest score to the lowest |
| `Ranking.RankedFromScores` | installation/hybrid_memory_mcp.py:328 | every ranked entry is a scored one, and a non-negative limit bounds how many there are |
| `Ranking.RankedStable` | installation/hybrid_memory_mcp.py:328 | among equal scores, the ranked entries are the first ones in store order |
| `Ranking.RankedTopScores` | installation/hybrid_memory_mcp.py:328 | no entry left out scores more than any entry returned |
| `Ranking.WithScorePrefix` | src/hybrid_memory_mcp_fixed.py:389 | filtering a prefix gives a prefix of the filtered list |
| `Stats.TypeCounts` | src/hybrid_memory_mcp_fixed.py:421-424 | the distribution has no more types than there are records |
| `Stats.CountTypes` | src/hybrid_memory_mcp_fixed.py:421-424 | the tally loop computes the type counts, a missing type counting as `unknown` |
| `Stats.PutSum` | src/hybrid_memory_mcp_fixed.py:424 | setting a count changes the sum of the counts by the difference |
| `Stats.TypeCountsSum` | src/hybrid_memory_mcp_fixed.py:421-424 | the type counts add up to the number of records |
| `Stats.CountOfType` | src/hybrid_memory_mcp_fixed.py:421-424 | the number of records of a type is positive exactly when some record has it |
| `Stats.TypeCountsExact` | src/hybrid_memory_mcp_fixed.py:421-424 | each type maps to the number of its records, and only types that occur appear |
| `Stats.TypeCountsUnique` | src/hybrid_memory_mcp_fixed.py:421-424 | the distribution has no repeated type |
| `Stats.ParsedTimestamps` | src/hybrid_memory_mcp_fixed.py:428-434 | the collected timestamps are exactly those of the records whose timestamps parse |
| `Stats.CollectTimestamps` | src/hybrid_memory_mcp_fixed.py:428-434 | the collecting loop, which skips timestamps that do not parse, computes them |
| `Stats.MinOf` | src/hybrid_memory_mcp_fixed.py:437 | `min` is one of the timestamps and at most each of them |
| `Stats.MaxOf` | src/hybrid_memory_mcp_fixed.py:438 | `max` is one of the timestamps and at least each of them |
| `Stats.Span` | src/hybrid_memory_mcp_fixed.py:436-445 | oldest is present exactly when there is a timestamp, and newest with it; the span is never negative, and 0 when there is no timestamp |
| `Stats.SpanSpec` | src/hybrid_memory_mcp_fixed.py:427-445 | the span is never negative; oldest and newest are present exactly when some timestamp parses, are parsed timestamps, and bound all of them; the span is 0 when none parses and otherwise the whole days from oldest to newest |
| `Stats.StatsOf` | src/hybrid_memory_mcp_fixed.py:447-457 | the total is the number of records, there are no more types than records, the span is never negative, and the dates are present exactly when some timestamp parses |
| `Stats.StatsCounts` | src/hybrid_memory_mcp_fixed.py:449-450 | the total is the number of records and the sum of the type counts, and the distribution has no repeated type |
| `Stats.EmptyStats` | installation/hybrid_memory_mcp.py:368-383 | an empty store and index give zero counts, a span of 0 and no dates |
| `HybridMemory.RandomDraw` | src/hybrid_memory_mcp_fixed.py:232-280 | a draw reports "no memories" exactly on an empty store, and a successful draw returns the key of a candidate |
| `HybridMemory.RandomDrawFailures` | src/hybrid_memory_mcp_fixed.py:235-253 | a draw fails with "no memories" exactly on an empty store, and with "no memories of type" exactly when a non-empty type matches nothing; it raises only when every candidate weighs 0 |
| `HybridMemory.RandomDrawSuccess` | src/hybrid_memory_mcp_fixed.py:258-277 | a successful draw picks a candidate of weight at least 1 whose slice holds the scaled draw; it returns that record with its access count one higher and `days_old` equal to the weight minus 1 |
| `HybridMemory.RandomDrawChangesOnlyDrawn` | src/hybrid_memory_mcp_fixed.py:268-272 | the drawn id is a stored one, and saving the bumped record changes that record only |
| `HybridMemory.NotionStored` | src/hybrid_memory_mcp_fixed.py:82-104 | the new record is a `notion_import` with access count 0, the given tags or none, and source `Notion:` plus the database; storing it replaces its id's record and leaves every other id's record as it was |
| `HybridMemory.CacheReplacesToday` | src/hybrid_memory_mcp_fixed.py:202-207 | today's entry becomes the discoveries with nothing accessed, replacing any earlier batch of the day; every other date's entry is unchanged |
| `HybridMemory.FilterByType` | src/hybrid_memory_mcp_fixed.py:242-247 | the filter keeps the whole store, or the records of the requested non-empty type |
| `HybridMemory.StoringThenFiling` | src/hybrid_memory_mcp_fixed.py:104-124 | storing a record and then filing its id keeps the index referring only to stored records |
| `HybridMemory.Draw` | src/hybrid_memory_mcp_fixed.py:235-277 | the draw (filter, weights loop, `random.choices`, access count) computes the specified draw |
| `HybridMemory.SavesKeepConsistent` | src/hybrid_memory_mcp_fixed.py:103-126 | when the memories write is not cut short, saving the store and then the index keeps every filed id a stored one |
| `HybridMemory.SaveFromNotionKeepsConsistent` | src/hybrid_memory_mcp_fixed.py:77-126 | `save_from_notion` keeps every filed id a stored one, unless its memories write is cut short |
| `HybridMemory.LinkConversationKeepsConsistent` | src/hybrid_memory_mcp_fixed.py:302-339 | `link_claude_conversation` keeps every filed id a stored one, unless its memories write is cut short |
| `HybridMemory.Server.constructor` | src/hybrid_memory_mcp_fixed.py:31-35 | the server starts over the three files as they are |
| `HybridMemory.Server.SaveMemories` | src/hybrid_memory_mcp_fixed.py:48-56 | `save_json` of the memories returns true exactly when the write completes, and changes only that file |
| `HybridMemory.Server.SaveIndex` | src/hybrid_memory_mcp_fixed.py:48-56 | `save_json` of the index returns true exactly when the write completes, and changes only that file |
| `HybridMemory.Server.SaveCache` | src/hybrid_memory_mcp_fixed.py:48-56 | `save_json` of the cache returns true exactly when the write completes, and changes only that file |
| `HybridMemory.Server.SaveFromNotion` | src/hybrid_memory_mcp_fixed.py:77-138 | stores the record under `notion_<stamp>`; a failed save reports failure and leaves the index alone; otherwise the index gains the filing and the reply is success with the summary, whatever the index save does |
| `HybridMemory.Server.CacheSerendipity` | src/hybrid_memory_mcp_fixed.py:199-224 | saves the cache with today's entry set, and reports the number of discoveries, or failure when the save fails |
| `HybridMemory.Server.GetRandomMemory` | src/hybrid_memory_mcp_fixed.py:232-284 | fails as the draw does and leaves the store alone; otherwise saves the store with the drawn record bumped and returns it with `days_old`, whether or not that save succeeds |
| `HybridMemory.Server.LinkClaudeConversation` | src/hybrid_memory_mcp_fixed.py:301-351 | stores the conversation under `conv_<stamp>`; a failed save reports failure and leaves the index alone; otherwise files it under its topics and reports the number of insights |
| `HybridMemory.Server.SearchByContext` | src/hybrid_memory_mcp_fixed.py:362-408 | returns the ranked, annotated results and changes no file |
| `HybridMemory.Server.GetMemoryStats` | src/hybrid_memory_mcp_fixed.py:416-463 | returns the statistics of the loaded store and index and changes no file |
| `HybridMemoryUnguarded.ComputeWeightsStrict` | installation/hybrid_memory_mcp.py:216-221 | the weights loop without `try` gives the weights when every timestamp parses, and raises otherwise |
| `HybridMemoryUnguarded.ScoreMemoriesStrict` | installation/hybrid_memory_mcp.py:309-325 | scoring with `memory["content"]` succeeds exactly when every record has content, and then gives the guarded scores |
| `HybridMemoryUnguarded.CollectTimestampsStrict` | installation/hybrid_memory_mcp.py:361-364 | the timestamp list gives every record's timestamp when all parse, and raises otherwise |
| `HybridMemoryUnguarded.StrictRandomDraw` | installation/hybrid_memory_mcp.py:191-234 | an unguarded draw reports "no memories" exactly on an empty store, and succeeds only when every candidate's timestamp parses and the drawn record has an access count |
| `HybridMemoryUnguarded.StrictDrawAgrees` | installation/hybrid_memory_mcp.py:216-226 | a candidate timestamp that does not parse makes the unguarded draw raise; a successful unguarded draw equals the guarded one; when all timestamps parse, the two fail alike |
| `HybridMemoryUnguarded.DrawStrict` | installation/hybrid_memory_mcp.py:193-232 | the unguarded draw (raising on a bad timestamp or a missing access count) computes its specification |
| `HybridMemoryUnguarded.StrictSavesKeepConsistent` | installation/hybrid_memory_mcp.py:88-106 | when the memories write is not cut short, saving the store and then the index keeps every filed id a stored one |
| `HybridMemoryUnguarded.StrictSaveFromNotionKeepsConsistent` | installation/hybrid_memory_mcp.py:62-106 | the unguarded `save_from_notion` keeps every filed id a stored one, unless its memories write is cut short |
| `HybridMemoryUnguarded.StrictLinkConversationKeepsConsistent` | installation/hybrid_memory_mcp.py:251-284 | the unguarded `link_claude_conversation` keeps every filed id a stored one, unless its memories write is cut short |
| `HybridMemoryUnguarded.Server.constructor` | installation/hybrid_memory_mcp.py:25-29 | the server starts over the three files as they are |
| `HybridMemoryUnguarded.Server.SaveMemories` | installation/hybrid_memory_mcp.py:38-41 | `save_json` of the memories raises unless the write completes, and changes only that file |
| `HybridMemoryUnguarded.Server.SaveIndex` | installation/hybrid_memory_mcp.py:38-41 | `save_json` of the index raises unless the write completes, and changes only that file |
| `HybridMemoryUnguarded.Server.SaveCache` | installation/hybrid_memory_mcp.py:38-41 | `save_json` of the cache raises unless the write completes, and changes only that file |
| `HybridMemoryUnguarded.Server.SaveFromNotion` | installation/hybrid_memory_mcp.py:62-113 | a memories file that does not hold an object, or an index file that is not JSON, raises with nothing changed; otherwise the record is stored; a failed memories save raises before the index is touched; an index that is JSON but not an object raises after the record is stored; a failed index save raises after the record is stored |
| `HybridMemoryUnguarded.Server.CacheSerendipity` | installation/hybrid_memory_mcp.py:168-183 | replaces only today's entry and reports the number of discoveries; a failed save raises |
| `HybridMemoryUnguarded.Server.GetRandomMemory` | installation/hybrid_memory_mcp.py:191-234 | fails as the unguarded draw does; otherwise saves the store with the drawn record bumped, and raises when that save fails |
| `HybridMemoryUnguarded.Server.LinkClaudeConversation` | installation/hybrid_memory_mcp.py:251-291 | a memories file that does not hold an object, or an index file that is not JSON, raises with nothing changed; otherwise the conversation is stored and then filed under its topics; a failed memories save raises before the index is touched; an index that is JSON but not an object, or a failed index save, raises after the record is stored |
| `HybridMemoryUnguarded.Server.SearchByContext` | installation/hybrid_memory_mcp.py:302-342 | raises when the memories file does not hold an object, the index file is not JSON, or a record has no content; otherwise returns the guarded results, and no file changes although the loaded records are annotated in place |
| `HybridMemoryUnguarded.Server.GetMemoryStats` | installation/hybrid_memory_mcp.py:350-383 | raises when a timestamp does not parse; otherwise returns the guarded statistics |
| `SimpleMemory.NumberedUnique` | src/simple_memory_mcp_fixed.py:60 | entries numbered by position have distinct ids |
| `SimpleMemory.NextEntry` | src/simple_memory_mcp_fixed.py:59-63 | the new entry is numbered one past the number of entries, so from 1, and holds the content and the clock's stamp |
| `SimpleMemory.NextEntryNumbered` | src/simple_memory_mcp_fixed.py:60-65 | appending the next entry keeps entry `i` numbered `i + 1`, and its id is the new length |
| `SimpleMemory.SaveEachNumbers` | src/simple_memory_mcp_fixed.py:57-65 | saving a series of entries keeps the earlier entries in front and numbers each new entry one past its predecessor, with its own content and timestamp |
| `SimpleMemory.LoadAfterClearOrFailure` | src/simple_memory_mcp_fixed.py:104-121 | after a clear, or a write cut short, the list loads as empty, so the next id is 1; a write refused at opening leaves the list as it was |
| `SimpleMemory.Server.constructor` | src/simple_memory_mcp_fixed.py:27-29 | the server starts over the file as it is |
| `SimpleMemory.Server.SaveMemories` | src/simple_memory_mcp_fixed.py:42-50 | `save_memories` returns true exactly when the write completes |
| `SimpleMemory.Server.SaveSimpleMemory` | src/simple_memory_mcp_fixed.py:54-82 | appends an entry numbered one past the loaded count with the content as given, and reports that id, or failure when the save fails |
| `SimpleMemory.Server.GetAllMemories` | src/simple_memory_mcp_fixed.py:86-100 | returns the loaded list and a count equal to its length |
| `SimpleMemory.Server.ClearAllMemories` | src/simple_memory_mcp_fixed.py:104-121 | saves the empty list, and reports failure when the save fails |
| `SimpleMemoryUnguarded.Server.constructor` | src/simple_memory_mcp.py:20-23 | the server starts over the file as it is |
| `SimpleMemoryUnguarded.Server.SaveSimpleMemory` | src/simple_memory_mcp.py:27-43 | appends an entry numbered one past the count with the content as given, and reports that id; a file that does not hold a list, or a failed write, raises |
| `SimpleMemoryUnguarded.Server.GetAllMemories` | src/simple_memory_mcp.py:47-52 | returns the list read and a count equal to its length; a file that does not hold a list raises |
| `SimpleMemoryUnguarded.ServersAgree` | src/simple_memory_mcp.py:29-30 | where the unguarded server reads a list, the guarded one reads the same list; where it raises on a readable file, the guarded one reads the empty list |

## Left out

- File I/O, the creation of missing files when a module is loaded, FastMCP
  registration, the `async` handlers and `mcp.run()`. A file is a value. Each
  write's outcome is a parameter: completed, refused at opening, or cut short
  after the file was truncated.
- `get_daily_inspiration_prompt`: a constant dictionary and clock arithmetic,
  with nothing in the store it reads or changes.
- The `importance` constants (0.7 and 0.8), which are floats. No tool reads
  them back.
- `datetime.now()`, `strftime` and `isoformat` are replaced by the clock
  parameters. ISO-8601 parsing is replaced by a timestamp that is either
  seconds or None ("does not parse"), and timestamps are kept as seconds.
  Mixing zone-aware and naive timestamps, which raises in Python, is not modelled.
- `json.dumps` of a record's content is a parameter. Its escaping of non-ASCII
  text is therefore not modelled.
- `str.lower()` maps only the ASCII letters. `str.split()` splits on the
  characters Python counts as whitespace.
- `random.choices` works in floating point. The model scales the draw `u` by
  the total weight exactly, with no rounding.
- HybridMemory.RandomDrawFailures: the failure cases are stated only for
  candidates of non-negative weight. A record stamped more than a day in the
  future gets a weight of 0 or less, and the code does not guard against it.
  The draw itself is modelled for any weights: `Sampling.Choose` is the
  binary search of `random.choices`, and `Sampling.NegativeWeightPick` shows
  where it parts from the first running total above the point.
- HybridMemory.RandomDrawSuccess: stated only for candidates of non-negative
  weight, for the same reason. With a negative weight the running totals dip,
  and the pick need not be the index whose slice holds the point.
- HybridMemory.Server.GetRandomMemory: it requires the draw `u` to lie in
  `[0, 1)`, as `random.random()` guarantees.
- Records are modelled as having a `metadata` object and values of the types
  the tools write, and the index's dimensions as objects from key to a list of
  ids. The model does not represent other files. In Python, such files make
  some tools raise or read defaults:
  - a record without `metadata`, or a field of another JSON type;
  - an index dimension of another kind, such as `{"tags": []}`. The guarded
    `save_from_notion` then reports failure after the record has been stored.
- In the unguarded variants, a file that holds JSON of another kind than the
  tool expects raises. Python does not raise in every case: in
  `get_random_memory`, `not memories` on an empty list answers "no memories";
  in the simple server's `get_all_memories`, `len` of a dict or a string
  succeeds.
- HybridMemoryUnguarded.Server.LinkClaudeConversation: an index that is a list
  or a string containing `"topics"`, given an empty topic list, is written back
  unchanged and success is reported. The model raises for every index that is
  not an object, which is what Python does in all other cases.
- HybridMemoryUnguarded.ScoreMemoriesStrict: checks every record for content
  before scoring any of them, instead of raising part way through. Scoring
  changes nothing, so the outcome is the same.
- HybridMemory.SaveFromNotionKeepsConsistent: index consistency is proved only
  when the memories write is not cut short. A cut-short write leaves a file
  that loads as empty, while the index still names the lost records.
- HybridMemory.LinkConversationKeepsConsistent: the same restriction to
  memories writes that are not cut short.
- Search.SearchResultsSpec: states the order and annotation of the results
  record by record. The stable order of ties is stated on the score lists, by
  `Ranking.RankedStable` and `Ranking.RankedTopScores`.
- Concurrency: two tools running at once can lose an update between load and
  save. Each tool is modelled as one atomic step.
