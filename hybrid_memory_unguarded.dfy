/**
  The installed copy of the hybrid memory server: the same six tools without
  error handling. Loading a file that is missing, not JSON or not an object
  raises; a failed save raises after the file has been opened (and, for an
  interrupted write, truncated); a record whose timestamp does not parse, whose
  access count is absent, or that has no content raises where the guarded
  server carries on.
 */
module HybridMemoryUnguarded {
  import opened Wrappers
  import opened OrderedMap
  import opened Storage
  import opened Records
  import opened MemoryIndex
  import opened Sampling
  import opened Ranking
  import opened Search
  import opened Stats
  import opened HybridMemory

  /** The record's timestamp parses. */
  predicate Stamped(m: Memory) {
    m.metadata.timestamp.Some?
  }

  /** Every record's timestamp parses. */
  predicate AllStamped(ms: Memories) {
    forall i :: 0 <= i < |ms| ==> Stamped(ms[i].1)
  }

  /** The record has a `"content"` key. */
  predicate HasContent(m: Memory) {
    m.content.Some?
  }

  /** Every record has a `"content"` key. */
  predicate AllHaveContent(ms: Memories) {
    forall i :: 0 <= i < |ms| ==> HasContent(ms[i].1)
  }

  /** The weights loop without `try`: the first timestamp that does not parse raises (None). */
  method ComputeWeightsStrict(cands: Memories, now: int) returns (w: Option<seq<int>>)
    ensures w == if AllStamped(cands) then Some(Weights(cands, now)) else None
  {
    var weights := [];
    var i := 0;
    while i < |cands|
      invariant 0 <= i <= |cands|
      invariant forall j :: 0 <= j < i ==> Stamped(cands[j].1)
      invariant |weights| == i && forall j :: 0 <= j < i ==> weights[j] == Weight(now, cands[j].1.metadata.timestamp)
    {
      match cands[i].1.metadata.timestamp {
        case None =>
          assert !Stamped(cands[i].1);
          return None;
        case Some(created) =>
          var daysOld := DaysOld(now, created);
          weights := weights + [daysOld + 1];
      }
      i := i + 1;
    }
    assert AllStamped(cands);
    assert weights == Weights(cands, now);
    w := Some(weights);
  }

  /**
    The scoring loop with `memory["content"]`: a record without content
    raises (None). Scoring changes nothing, so checking every record for
    content before scoring them gives the same outcome as raising part way.
   */
  method ScoreMemoriesStrict(keywords: seq<string>, dumps: Content -> string, ms: Memories) returns (scores: Option<Scores>)
    ensures scores.Some? <==> AllHaveContent(ms)
    ensures scores.Some? ==> scores.value == ScoreAll(Scorer(keywords, dumps), ms)
  {
    var i := 0;
    while i < |ms|
      invariant 0 <= i <= |ms|
      invariant forall j :: 0 <= j < i ==> HasContent(ms[j].1)
    {
      if ms[i].1.content.None? {
        assert !HasContent(ms[i].1);
        return None;
      }
      i := i + 1;
    }
    var found := ScoreMemories(keywords, dumps, ms);
    scores := Some(found);
  }

  /** The timestamps list comprehension: every record's timestamp, raising (None) on one that does not parse. */
  method CollectTimestampsStrict(ms: Memories) returns (ts: Option<seq<int>>)
    ensures ts == if AllStamped(ms) then Some(ParsedTimestamps(ms)) else None
  {
    var stamps := [];
    var i := 0;
    while i < |ms|
      invariant 0 <= i <= |ms|
      invariant forall j :: 0 <= j < i ==> Stamped(ms[j].1)
      invariant stamps == ParsedTimestamps(ms[..i])
    {
      if ms[i].1.metadata.timestamp.None? {
        assert !Stamped(ms[i].1);
        return None;
      }
      stamps := stamps + [ms[i].1.metadata.timestamp.value];
      assert ms[..i + 1][..i] == ms[..i];
      i := i + 1;
    }
    assert ms[..i] == ms;
    ts := Some(stamps);
  }

  /**
    What the unguarded `get_random_memory` decides over the loaded records:
    the same failures as the guarded one, except that a candidate whose
    timestamp does not parse, or a drawn record without an access count, raises.
   */
  function StrictRandomDraw(ms: Memories, memoryType: Option<string>, now: int, u: real): (r: Reply<(string, Drawn)>)
    ensures r == Err(NoMemories) <==> ms == []
    ensures r.Ok? ==> AllStamped(Candidates(ms, memoryType)) && r.value.1.memory.metadata.accessCount.Some?
  {
    if ms == [] then Err(NoMemories)
    else
      var cands := Candidates(ms, memoryType);
      if cands == [] then Err(NoMatchingType(memoryType.GetOr("")))
      else if !AllStamped(cands) then Err(Raised)
      else
        var w := Weights(cands, now);
        if Total(w) <= 0 then Err(Raised)
        else
          var k := Selection(cands, now, DrawPoint(u, Total(w)));
          if cands[k].1.metadata.accessCount.None? then Err(Raised)
          else Ok((cands[k].0, Drawn(Accessed(cands[k].1), w[k] - 1)))
  }

  /**
    The two servers draw alike: where every candidate's timestamp parses and
    the drawn record has an access count, the unguarded draw is the guarded
    one; a candidate timestamp that does not parse makes only the unguarded one raise.
   */
  lemma StrictDrawAgrees(ms: Memories, memoryType: Option<string>, now: int, u: real)
    ensures var cands := Candidates(ms, memoryType);
      ms != [] && cands != [] && !AllStamped(cands) ==> StrictRandomDraw(ms, memoryType, now, u) == Err(Raised)
    ensures StrictRandomDraw(ms, memoryType, now, u).Ok? ==> StrictRandomDraw(ms, memoryType, now, u) == RandomDraw(ms, memoryType, now, u)
    ensures RandomDraw(ms, memoryType, now, u).Err? && AllStamped(Candidates(ms, memoryType)) ==>
      StrictRandomDraw(ms, memoryType, now, u) == RandomDraw(ms, memoryType, now, u)
  {
  }

  /**
    The draw of the unguarded `get_random_memory` over the loaded records: the
    type filter, the weights loop that raises on a timestamp that does not
    parse, `random.choices`, and the access count that raises when absent.
   */
  method DrawStrict(memories: Memories, memoryType: Option<string>, now: int, u: real) returns (r: Reply<(string, Drawn)>)
    ensures r == StrictRandomDraw(memories, memoryType, now, u)
  {
    if memories == [] {
      return Err(NoMemories);
    }
    var filtered := FilterByType(memories, memoryType);
    if filtered == [] {
      return Err(NoMatchingType(memoryType.GetOr("")));
    }
    var computed := ComputeWeightsStrict(filtered, now);
    if computed.None? {
      return Err(Raised);
    }
    var weights := computed.value;
    if Total(weights) <= 0 {
      return Err(Raised);
    }
    var k := Choose(weights, DrawPoint(u, Total(weights)));
    StrictDrawPicks(memories, memoryType, now, u);
    var (selectedKey, selected) := filtered[k];
    if selected.metadata.accessCount.None? {
      return Err(Raised);
    }
    r := Ok((selectedKey, Drawn(Accessed(selected), weights[k] - 1)));
  }

  /** Past the checks that can fail before it, the unguarded draw is decided by the selected candidate. */
  lemma StrictDrawPicks(ms: Memories, memoryType: Option<string>, now: int, u: real)
    requires ms != [] && Candidates(ms, memoryType) != [] && AllStamped(Candidates(ms, memoryType))
    requires Total(Weights(Candidates(ms, memoryType), now)) > 0
    ensures var cands := Candidates(ms, memoryType);
      var w := Weights(cands, now);
      var k := Choose(w, DrawPoint(u, Total(w)));
      StrictRandomDraw(ms, memoryType, now, u) ==
        if cands[k].1.metadata.accessCount.None? then Err(Raised)
        else Ok((cands[k].0, Drawn(Accessed(cands[k].1), w[k] - 1)))
  {
  }

  /** Every id the index files under some key is the id of a stored record, when both files load. */
  ghost predicate StrictConsistent(mf: JsonFile<Memories>, xf: JsonFile<Index>) {
    mf.Holds? && xf.Holds? ==> RefersOnlyTo(xf.value, Keys(mf.value))
  }

  /**
    Saving a record and then filing it keeps the files consistent, unless the
    memories write is interrupted: when that save fails the index is left
    alone and the store keeps its records; when it succeeds the index either
    gains the filed id, stays as it was, or is lost to an interrupted write.
   */
  lemma StrictSavesKeepConsistent(mf: JsonFile<Memories>, xf: JsonFile<Index>, id: string, m: Memory, filed: Index,
                            wMem: WriteOutcome, wIdx: WriteOutcome)
    requires StrictConsistent(mf, xf) && !wMem.WriteInterrupted?
    requires LoadStrict(mf).Some? && LoadStrict(xf).Some?
    requires var ms, ix := LoadStrict(mf).value, LoadStrict(xf).value;
      RefersOnlyTo(ix, Keys(ms)) ==> RefersOnlyTo(filed, Keys(Put(ms, id, m)))
    ensures var ms := LoadStrict(mf).value;
      StrictConsistent(AfterSave(mf, Put(ms, id, m), wMem), if wMem.Written? then AfterSave(xf, filed, wIdx) else xf)
  {
    var ms, ix := LoadStrict(mf).value, LoadStrict(xf).value;
    PutKeepsKeys(ms, id, m);
    if RefersOnlyTo(ix, Keys(ms)) {
      RefersOnlyToMore(ix, Keys(ms), Keys(Put(ms, id, m)));
    }
  }

  /** `save_from_notion` keeps the files consistent unless its memories write is interrupted. */
  lemma StrictSaveFromNotionKeepsConsistent(mf: JsonFile<Memories>, xf: JsonFile<Index>, content: string, title: string,
                                      sourceDb: string, notionUrl: Option<string>, tags: Option<seq<string>>,
                                      clock: Clock, wMem: WriteOutcome, wIdx: WriteOutcome)
    requires StrictConsistent(mf, xf) && !wMem.WriteInterrupted?
    requires LoadStrict(mf).Some? && LoadStrict(xf).Some?
    ensures var ms, ix, id := LoadStrict(mf).value, LoadStrict(xf).value, NotionId(clock.stamp);
      StrictConsistent(AfterSave(mf, Put(ms, id, NewNotion(content, title, sourceDb, notionUrl, tags, clock)), wMem),
                 if wMem.Written? then AfterSave(xf, IndexNotion(ix, sourceDb, TagList(tags), id), wIdx) else xf)
  {
    var ms, ix, id := LoadStrict(mf).value, LoadStrict(xf).value, NotionId(clock.stamp);
    var m := NewNotion(content, title, sourceDb, notionUrl, tags, clock);
    if RefersOnlyTo(ix, Keys(ms)) {
      StoringThenFiling(ms, ix, id, m, sourceDb, TagList(tags));
    }
    StrictSavesKeepConsistent(mf, xf, id, m, IndexNotion(ix, sourceDb, TagList(tags), id), wMem, wIdx);
  }

  /** `link_claude_conversation` keeps the files consistent unless its memories write is interrupted. */
  lemma StrictLinkConversationKeepsConsistent(mf: JsonFile<Memories>, xf: JsonFile<Index>, summary: string,
                                        insights: seq<string>, topics: seq<string>,
                                        clock: Clock, wMem: WriteOutcome, wIdx: WriteOutcome)
    requires StrictConsistent(mf, xf) && !wMem.WriteInterrupted?
    requires LoadStrict(mf).Some? && LoadStrict(xf).Some?
    ensures var ms, ix, id := LoadStrict(mf).value, LoadStrict(xf).value, ConversationId(clock.stamp);
      StrictConsistent(AfterSave(mf, Put(ms, id, NewConversation(summary, insights, topics, clock)), wMem),
                 if wMem.Written? then AfterSave(xf, IndexConversation(ix, topics, id), wIdx) else xf)
  {
    var ms, ix, id := LoadStrict(mf).value, LoadStrict(xf).value, ConversationId(clock.stamp);
    var m := NewConversation(summary, insights, topics, clock);
    if RefersOnlyTo(ix, Keys(ms)) {
      StoringThenFiling(ms, ix, id, m, "", topics);
    }
    StrictSavesKeepConsistent(mf, xf, id, m, IndexConversation(ix, topics, id), wMem, wIdx);
  }

  class Server {
    var memoriesFile: JsonFile<Memories>
    var indexFile: JsonFile<Index>
    var serendipityFile: JsonFile<Cache>

    /** The objects the files hold have no repeated key, as every parsed JSON object. */
    ghost predicate Valid()
      reads this
    {
      && (memoriesFile.Holds? ==> UniqueKeys(memoriesFile.value))
      && (serendipityFile.Holds? ==> UniqueKeys(serendipityFile.value))
    }

    constructor (memories: JsonFile<Memories>, index: JsonFile<Index>, cache: JsonFile<Cache>)
      requires memories.Holds? ==> UniqueKeys(memories.value)
      requires cache.Holds? ==> UniqueKeys(cache.value)
      ensures Valid()
      ensures memoriesFile == memories && indexFile == index && serendipityFile == cache
    {
      memoriesFile := memories;
      indexFile := index;
      serendipityFile := cache;
    }

    /** `save_json(MEMORIES_FILE, memories)`: `saved` is false when it raises. */
    method SaveMemories(ms: Memories, w: WriteOutcome) returns (saved: bool)
      requires Valid() && UniqueKeys(ms)
      modifies this
      ensures Valid()
      ensures memoriesFile == AfterSave(old(memoriesFile), ms, w) && saved == w.Written?
      ensures indexFile == old(indexFile) && serendipityFile == old(serendipityFile)
    {
      memoriesFile := AfterSave(memoriesFile, ms, w);
      saved := w.Written?;
    }

    /** `save_json(INDEX_FILE, index)`: `saved` is false when it raises. */
    method SaveIndex(ix: Index, w: WriteOutcome) returns (saved: bool)
      requires Valid()
      modifies this
      ensures Valid()
      ensures indexFile == AfterSave(old(indexFile), ix, w) && saved == w.Written?
      ensures memoriesFile == old(memoriesFile) && serendipityFile == old(serendipityFile)
    {
      indexFile := AfterSave(indexFile, ix, w);
      saved := w.Written?;
    }

    /** `save_json(SERENDIPITY_CACHE, cache)`: `saved` is false when it raises. */
    method SaveCache(cache: Cache, w: WriteOutcome) returns (saved: bool)
      requires Valid() && UniqueKeys(cache)
      modifies this
      ensures Valid()
      ensures serendipityFile == AfterSave(old(serendipityFile), cache, w) && saved == w.Written?
      ensures memoriesFile == old(memoriesFile) && indexFile == old(indexFile)
    {
      serendipityFile := AfterSave(serendipityFile, cache, w);
      saved := w.Written?;
    }

    /**
      `save_from_notion` without error handling: a failed memories save raises
      before the index is touched; an index that is JSON but not an object
      loads, and raises at `index["notion_imports"]` after the record has been
      stored; a failed index save raises after the record has been stored.
     */
    method SaveFromNotion(content: string, title: string, sourceDb: string, notionUrl: Option<string>,
                          tags: Option<seq<string>>, clock: Clock, wMem: WriteOutcome, wIdx: WriteOutcome)
      returns (r: Reply<Saved>)
      requires Valid()
      modifies this
      ensures Valid()
      ensures serendipityFile == old(serendipityFile)
      ensures var ms := LoadStrict(old(memoriesFile));
        if ms.None? || !Parses(old(indexFile)) then
          r == Err(Raised) && memoriesFile == old(memoriesFile) && indexFile == old(indexFile)
        else
          var id := NotionId(clock.stamp);
          && memoriesFile == AfterSave(old(memoriesFile), Put(ms.value, id, NewNotion(content, title, sourceDb, notionUrl, tags, clock)), wMem)
          && (wMem.Written? && old(indexFile).Holds? ==>
                && indexFile == AfterSave(old(indexFile), IndexNotion(old(indexFile).value, sourceDb, TagList(tags), id), wIdx)
                && r == if wIdx.Written? then Ok(Saved(id, Summary(content))) else Err(Raised))
          && (!wMem.Written? || old(indexFile).WrongShape? ==> indexFile == old(indexFile) && r == Err(Raised))
    {
      var loaded := LoadStrict(memoriesFile);
      var loadedIndex := indexFile;
      if loaded.None? || !Parses(loadedIndex) {
        return Err(Raised);
      }
      var memories := loaded.value;
      var memoryId := NotionId(clock.stamp);
      var memory := NotionRecord(memoryId, content, title, sourceDb, notionUrl, tags, clock.now);
      memories := Put(memories, memoryId, memory);
      assert UniqueKeys(memories) by { PutUnique(loaded.value, memoryId, memory); }
      var saved := SaveMemories(memories, wMem);
      if !saved || !loadedIndex.Holds? {
        return Err(Raised);
      }
      var index := FileNotion(loadedIndex.value, sourceDb, TagList(tags), memoryId);
      saved := SaveIndex(index, wIdx);
      if !saved {
        return Err(Raised);
      }
      r := Ok(Saved(memoryId, memory.content.value.summary));
    }

    /** `cache_serendipity` without error handling: a failed save raises. */
    method CacheSerendipity(discoveries: seq<map<string, string>>, clock: Clock, w: WriteOutcome)
      returns (r: Reply<nat>)
      requires Valid()
      modifies this
      ensures Valid()
      ensures memoriesFile == old(memoriesFile) && indexFile == old(indexFile)
      ensures var cache := LoadStrict(old(serendipityFile));
        if cache.None? then r == Err(Raised) && serendipityFile == old(serendipityFile)
        else
          && serendipityFile == AfterSave(old(serendipityFile), Put(cache.value, clock.today, CacheEntry(clock.now, discoveries, 0)), w)
          && r == if w.Written? then Ok(|discoveries|) else Err(Raised)
    {
      var loaded := LoadStrict(serendipityFile);
      if loaded.None? {
        return Err(Raised);
      }
      var entry := CacheEntry(clock.now, discoveries, 0);
      var cache := Put(loaded.value, clock.today, entry);
      assert UniqueKeys(cache) by { PutUnique(loaded.value, clock.today, entry); }
      var saved := SaveCache(cache, w);
      if !saved {
        return Err(Raised);
      }
      r := Ok(|discoveries|);
    }

    /**
      `get_random_memory` without error handling: a timestamp that does not
      parse, a missing access count or a failed save raises.
     */
    method GetRandomMemory(memoryType: Option<string>, now: int, u: real, w: WriteOutcome)
      returns (r: Reply<Drawn>)
      requires Valid()
      requires 0.0 <= u < 1.0
      modifies this
      ensures Valid()
      ensures indexFile == old(indexFile) && serendipityFile == old(serendipityFile)
      ensures var loaded := LoadStrict(old(memoriesFile));
        if loaded.None? then r == Err(Raised) && memoriesFile == old(memoriesFile)
        else match StrictRandomDraw(loaded.value, memoryType, now, u)
          case Err(reason) => r == Err(reason) && memoriesFile == old(memoriesFile)
          case Ok((key, drawn)) =>
            && memoriesFile == AfterSave(old(memoriesFile), Put(loaded.value, key, drawn.memory), w)
            && r == if w.Written? then Ok(drawn) else Err(Raised)
    {
      var loaded := LoadStrict(memoriesFile);
      if loaded.None? {
        return Err(Raised);
      }
      var memories := loaded.value;
      var drawn := DrawStrict(memories, memoryType, now, u);
      if drawn.Err? {
        return Err(drawn.reason);
      }
      var (selectedKey, result) := drawn.value;
      memories := Put(memories, selectedKey, result.memory);
      assert UniqueKeys(memories) by { PutUnique(loaded.value, selectedKey, result.memory); }
      var saved := SaveMemories(memories, w);
      if !saved {
        return Err(Raised);
      }
      r := Ok(result);
    }

    /**
      `link_claude_conversation` without error handling: a failed memories save
      raises before the index is touched; an index that is JSON but not an
      object loads, and raises at `index["topics"]` after the record has been
      stored; a failed index save raises after the record has been stored.
     */
    method LinkClaudeConversation(summary: string, insights: seq<string>, topics: seq<string>,
                                  clock: Clock, wMem: WriteOutcome, wIdx: WriteOutcome)
      returns (r: Reply<Linked>)
      requires Valid()
      modifies this
      ensures Valid()
      ensures serendipityFile == old(serendipityFile)
      ensures var ms := LoadStrict(old(memoriesFile));
        if ms.None? || !Parses(old(indexFile)) then
          r == Err(Raised) && memoriesFile == old(memoriesFile) && indexFile == old(indexFile)
        else
          var id := ConversationId(clock.stamp);
          && memoriesFile == AfterSave(old(memoriesFile), Put(ms.value, id, NewConversation(summary, insights, topics, clock)), wMem)
          && (wMem.Written? && old(indexFile).Holds? ==>
                && indexFile == AfterSave(old(indexFile), IndexConversation(old(indexFile).value, topics, id), wIdx)
                && r == if wIdx.Written? then Ok(Linked(id, |insights|)) else Err(Raised))
          && (!wMem.Written? || old(indexFile).WrongShape? ==> indexFile == old(indexFile) && r == Err(Raised))
    {
      var loaded := LoadStrict(memoriesFile);
      var loadedIndex := indexFile;
      if loaded.None? || !Parses(loadedIndex) {
        return Err(Raised);
      }
      var memories := loaded.value;
      var conversationId := ConversationId(clock.stamp);
      var memory := ConversationRecord(conversationId, summary, insights, topics, clock.now);
      memories := Put(memories, conversationId, memory);
      assert UniqueKeys(memories) by { PutUnique(loaded.value, conversationId, memory); }
      var saved := SaveMemories(memories, wMem);
      if !saved || !loadedIndex.Holds? {
        return Err(Raised);
      }
      var index := FileUnderEach(loadedIndex.value, Topics, topics, conversationId);
      saved := SaveIndex(index, wIdx);
      if !saved {
        return Err(Raised);
      }
      r := Ok(Linked(conversationId, |insights|));
    }

    /**
      `search_by_context` without error handling: a record without content
      raises. The index is loaded but never used, so any JSON will do. The
      score is written onto the loaded record itself, which is never saved, so
      the files and the results are as with copies.
     */
    method SearchByContext(context: string, limit: int, dumps: Content -> string) returns (r: Reply<seq<Memory>>)
      ensures var ms := LoadStrict(memoriesFile);
        r == if ms.None? || !Parses(indexFile) || !AllHaveContent(ms.value) then Err(Raised)
             else Ok(SearchResults(ms.value, context, limit, dumps))
    {
      var loaded := LoadStrict(memoriesFile);
      if loaded.None? || !Parses(indexFile) {
        return Err(Raised);
      }
      var memories := loaded.value;
      var keywords := Keywords(context);
      var scored := ScoreMemoriesStrict(keywords, dumps, memories);
      if scored.None? {
        return Err(Raised);
      }
      var scores := scored.value;
      var sortedResults := Ranked(scores, limit);
      ScoredKeysOfScoreAll(Scorer(keywords, dumps), memories);
      RankedFromScores(scores, limit);
      var results := AnnotateRanked(memories, sortedResults);
      r := Ok(results);
    }

    /**
      `get_memory_stats` without error handling: with any record stored, a
      timestamp that does not parse raises.
     */
    method GetMemoryStats() returns (r: Reply<Statistics>)
      ensures var ms, ix := LoadStrict(memoriesFile), LoadStrict(indexFile);
        r == if ms.None? || ix.None? || !AllStamped(ms.value) then Err(Raised)
             else Ok(StatsOf(ms.value, ix.value))
    {
      var loaded := LoadStrict(memoriesFile);
      var loadedIndex := LoadStrict(indexFile);
      if loaded.None? || loadedIndex.None? {
        return Err(Raised);
      }
      var memories, index := loaded.value, loadedIndex.value;
      var typeCounts := CountTypes(memories);
      var daysSpan, oldest, newest := 0, None, None;
      if memories != [] {
        var collected := CollectTimestampsStrict(memories);
        if collected.None? {
          return Err(Raised);
        }
        var timestamps := collected.value;
        assert memories[0].1.metadata.timestamp.value in timestamps;
        oldest, newest := Some(MinOf(timestamps)), Some(MaxOf(timestamps));
        daysSpan := DaysOld(newest.value, oldest.value);
      }
      r := Ok(Statistics(|memories|, typeCounts, DimSize(index, Tags), DimSize(index, Topics),
                         DimSize(index, NotionImports), daysSpan, oldest, newest));
    }
  }
}
