/**
  The hybrid memory server with error handling: six tools, each a
  load-mutate-save cycle over the memories, index and serendipity files. A
  file that is missing, not JSON, or not an object loads as empty; a failed
  save is reported as `"success": False`; any exception is caught and
  reported as a failure.
 */
module HybridMemory {
  import opened Wrappers
  import opened OrderedMap
  import opened Storage
  import opened Records
  import opened MemoryIndex
  import opened Sampling
  import opened Ranking
  import opened Search
  import opened Stats

  /**
    The clock readings a tool takes: the `%Y%m%d_%H%M%S` stamp of new ids,
    today's `%Y-%m-%d` date, and the current time in seconds.
   */
  datatype Clock = Clock(stamp: string, today: string, now: int)

  /** One day's entry in the serendipity cache. */
  datatype CacheEntry = CacheEntry(createdAt: int, discoveries: seq<map<string, string>>, accessed: int)

  /** The serendipity file: a JSON object from date to that day's batch. */
  type Cache = Dict<string, CacheEntry>

  /** The payload of a successful `save_from_notion`. */
  datatype Saved = Saved(memoryId: string, summary: string)

  /** The payload of a successful `link_claude_conversation`. */
  datatype Linked = Linked(conversationId: string, insightsCount: nat)

  /** The payload of a successful `get_random_memory`. */
  datatype Drawn = Drawn(memory: Memory, daysOld: int)

  /** The record `save_from_notion` builds. */
  function NewNotion(content: string, title: string, sourceDb: string, notionUrl: Option<string>,
                     tags: Option<seq<string>>, clock: Clock): Memory {
    NotionRecord(NotionId(clock.stamp), content, title, sourceDb, notionUrl, tags, clock.now)
  }

  /** The record `link_claude_conversation` builds. */
  function NewConversation(summary: string, insights: seq<string>, topics: seq<string>, clock: Clock): Memory {
    ConversationRecord(ConversationId(clock.stamp), summary, insights, topics, clock.now)
  }

  /**
    What `get_random_memory` decides over the loaded records: why it fails, or
    the key of the drawn record, that record with its access counted, and the
    record's age in days (its weight minus 1). `random.choices` raises when the
    weights do not add up to a positive total, and otherwise bisects their
    running totals.
   */
  function RandomDraw(ms: Memories, memoryType: Option<string>, now: int, u: real): (r: Reply<(string, Drawn)>)
    ensures r == Err(NoMemories) <==> ms == []
    ensures r.Ok? ==> r.value.0 in Keys(Candidates(ms, memoryType))
  {
    if ms == [] then Err(NoMemories)
    else
      var cands := Candidates(ms, memoryType);
      if cands == [] then Err(NoMatchingType(memoryType.GetOr("")))
      else
        var w := Weights(cands, now);
        if Total(w) <= 0 then Err(Raised)
        else
          var k := Selection(cands, now, DrawPoint(u, Total(w)));
          Ok((cands[k].0, Drawn(Accessed(cands[k].1), w[k] - 1)))
  }

  /**
    A draw reports "no memories" exactly on an empty store, "no memories of
    type" exactly when a non-empty type matches no record, and raises only
    when every candidate weighs 0 (each is stamped less than a day ahead).
   */
  lemma RandomDrawFailures(ms: Memories, memoryType: Option<string>, now: int, u: real)
    requires UniqueKeys(ms) && NoNegativeWeight(Candidates(ms, memoryType), now)
    ensures RandomDraw(ms, memoryType, now, u) == Err(NoMemories) <==> ms == []
    ensures RandomDraw(ms, memoryType, now, u) == Err(NoMatchingType(memoryType.GetOr(""))) <==>
      ms != [] && memoryType.Some? && memoryType.value != "" && forall p :: p in ms ==> !HasType(p.1, memoryType.value)
    ensures RandomDraw(ms, memoryType, now, u) == Err(Raised) ==>
      forall i :: 0 <= i < |Candidates(ms, memoryType)| ==> WeightAt(Candidates(ms, memoryType), now, i) == 0
  {
    CandidatesSpec(ms, memoryType);
    var cands := Candidates(ms, memoryType);
    var w := Weights(cands, now);
    if ms != [] && cands != [] && Total(w) <= 0 {
      assert forall k :: 0 <= k < |w| ==> w[k] == WeightAt(cands, now, k) >= 0;
      TotalMonotone(w, 0, |w|);
      assert w[..0] == [] && w[..|w|] == w;
      TotalZero(w);
    }
  }

  /**
    A successful draw picks a candidate of weight at least 1, the scaled draw
    falling in that candidate's slice of the total weight; it returns that
    record with its access count one higher, and its age in whole days (0 for
    a record whose timestamp does not parse).
   */
  lemma RandomDrawSuccess(ms: Memories, memoryType: Option<string>, now: int, u: real)
    requires 0.0 <= u < 1.0 && NoNegativeWeight(Candidates(ms, memoryType), now)
    requires RandomDraw(ms, memoryType, now, u).Ok?
    ensures var (key, drawn) := RandomDraw(ms, memoryType, now, u).value;
      var cands, w := Candidates(ms, memoryType), Weights(Candidates(ms, memoryType), now);
      exists k :: 0 <= k < |cands| && cands[k].0 == key
        && w[k] >= 1
        && Total(w[..k]) as real <= DrawPoint(u, Total(w)) < Total(w[..k + 1]) as real
        && drawn.memory == Accessed(cands[k].1)
        && drawn.memory.metadata.accessCount == Some(cands[k].1.metadata.accessCount.GetOr(0) + 1)
        && drawn.daysOld == match cands[k].1.metadata.timestamp case Some(t) => DaysOld(now, t) case None => 0
  {
    var cands := Candidates(ms, memoryType);
    var w := Weights(cands, now);
    var x := DrawPoint(u, Total(w));
    RandomDrawOk(ms, memoryType, now, u);
    var k := Selection(cands, now, x);
    SelectionIsWeighted(cands, now, u, x);
    assert w[k] - 1 == match cands[k].1.metadata.timestamp case Some(t) => DaysOld(now, t) case None => 0;
  }

  /** A successful draw had candidates of positive total weight, and returns the selected one. */
  lemma RandomDrawOk(ms: Memories, memoryType: Option<string>, now: int, u: real)
    requires RandomDraw(ms, memoryType, now, u).Ok?
    ensures var cands := Candidates(ms, memoryType);
      var w := Weights(cands, now);
      && cands != [] && Total(w) > 0
      && var k := Selection(cands, now, DrawPoint(u, Total(w)));
         RandomDraw(ms, memoryType, now, u) == Ok((cands[k].0, Drawn(Accessed(cands[k].1), w[k] - 1)))
  {
  }

  /**
    Saving after a draw changes the drawn record only: it is a record of the
    store, and every other id keeps its record.
   */
  lemma RandomDrawChangesOnlyDrawn(ms: Memories, memoryType: Option<string>, now: int, u: real, id: string)
    requires RandomDraw(ms, memoryType, now, u).Ok?
    ensures var (key, drawn) := RandomDraw(ms, memoryType, now, u).value;
      && key in Keys(ms)
      && Get(Put(ms, key, drawn.memory), id) == if id == key then Some(drawn.memory) else Get(ms, id)
  {
    var (key, drawn) := RandomDraw(ms, memoryType, now, u).value;
    var cands := Candidates(ms, memoryType);
    var k :| 0 <= k < |cands| && cands[k].0 == key;
    assert cands[k] in cands;
    assert cands[k] in ms;
    var j :| 0 <= j < |ms| && ms[j] == cands[k];
    assert Keys(ms)[j] == key;
    PutGet(ms, key, drawn.memory, id);
  }

  /**
    The record `save_from_notion` stores: a `notion_import` under
    `notion_<stamp>`, never accessed, tagged with the given tags or none, its
    source the database's name after `Notion:`. Storing it replaces any record
    of that id and leaves every other id's record as it was.
   */
  lemma NotionStored(ms: Memories, content: string, title: string, sourceDb: string, notionUrl: Option<string>,
                     tags: Option<seq<string>>, clock: Clock, id: string)
    ensures var m := NewNotion(content, title, sourceDb, notionUrl, tags, clock);
      && m.kind == Some(NotionImport)
      && m.metadata.accessCount == Some(0)
      && m.metadata.tags == (if tags.Some? then tags.value else [])
      && m.metadata.source == "Notion:" + sourceDb
      && Get(Put(ms, NotionId(clock.stamp), m), id) == if id == NotionId(clock.stamp) then Some(m) else Get(ms, id)
  {
    PutGet(ms, NotionId(clock.stamp), NewNotion(content, title, sourceDb, notionUrl, tags, clock), id);
  }

  /**
    Caching today's discoveries sets today's entry, replacing any earlier
    batch of the same date, to the discoveries as given with nothing accessed,
    and leaves every other date's entry as it was.
   */
  lemma CacheReplacesToday(cache: Cache, discoveries: seq<map<string, string>>, clock: Clock, day: string)
    ensures Get(Put(cache, clock.today, CacheEntry(clock.now, discoveries, 0)), day) ==
      if day == clock.today then Some(CacheEntry(clock.now, discoveries, 0)) else Get(cache, day)
  {
    PutGet(cache, clock.today, CacheEntry(clock.now, discoveries, 0), day);
  }

  /** `filtered_memories`: the whole store, or the records of the requested non-empty type. */
  method FilterByType(ms: Memories, memoryType: Option<string>) returns (filtered: Memories)
    ensures filtered == Candidates(ms, memoryType)
  {
    filtered := ms;
    if memoryType.Some? && memoryType.value != "" {
      filtered := OfType(ms, memoryType.value);
    }
  }

  /**
    Storing a record and then filing its id keeps the index consistent: an
    index that refers only to stored records still does after the store gains
    the record, and so does the index with the id filed as a notion import or
    as a conversation.
   */
  lemma StoringThenFiling(ms: Memories, ix: Index, id: string, m: Memory, sourceDb: string, keys: seq<string>)
    requires RefersOnlyTo(ix, Keys(ms))
    ensures RefersOnlyTo(ix, Keys(Put(ms, id, m)))
    ensures RefersOnlyTo(IndexNotion(ix, sourceDb, keys, id), Keys(Put(ms, id, m)))
    ensures RefersOnlyTo(IndexConversation(ix, keys, id), Keys(Put(ms, id, m)))
  {
    PutKeepsKeys(ms, id, m);
    RefersOnlyToMore(ix, Keys(ms), Keys(Put(ms, id, m)));
    IndexingRefersOnlyTo(ix, sourceDb, keys, id, Keys(Put(ms, id, m)));
  }

  /**
    The draw of `get_random_memory` over the loaded records: the type filter,
    the weights loop and `random.choices`, with the draw `u` in [0, 1).
   */
  method Draw(memories: Memories, memoryType: Option<string>, now: int, u: real) returns (r: Reply<(string, Drawn)>)
    ensures r == RandomDraw(memories, memoryType, now, u)
  {
    if memories == [] {
      return Err(NoMemories);
    }
    var filtered := FilterByType(memories, memoryType);
    if filtered == [] {
      return Err(NoMatchingType(memoryType.GetOr("")));
    }
    var weights := ComputeWeights(filtered, now);
    if Total(weights) <= 0 {
      return Err(Raised);
    }
    var k := Choose(weights, DrawPoint(u, Total(weights)));
    assert k == Selection(filtered, now, DrawPoint(u, Total(weights)));
    var (selectedKey, selected) := filtered[k];
    r := Ok((selectedKey, Drawn(Accessed(selected), weights[k] - 1)));
  }

  /** Every id the index files under some key is the id of a stored record, as the tools load the two files. */
  ghost predicate Consistent(mf: JsonFile<Memories>, xf: JsonFile<Index>) {
    var ms, ix := LoadOrEmpty(mf, []), LoadOrEmpty(xf, map[]);
    ms.Some? && ix.Some? ==> RefersOnlyTo(ix.value, Keys(ms.value))
  }

  /**
    Saving a record and then filing it keeps the files consistent, unless the
    memories write is interrupted: when that save fails the index is left
    alone and the store keeps its records; when it succeeds the index either
    gains the filed id, stays as it was, or is lost to an interrupted write.
   */
  lemma SavesKeepConsistent(mf: JsonFile<Memories>, xf: JsonFile<Index>, id: string, m: Memory, filed: Index,
                            wMem: WriteOutcome, wIdx: WriteOutcome)
    requires Consistent(mf, xf) && !wMem.WriteInterrupted?
    requires LoadOrEmpty(mf, []).Some? && LoadOrEmpty(xf, map[]).Some?
    requires var ms, ix := LoadOrEmpty(mf, []).value, LoadOrEmpty(xf, map[]).value;
      RefersOnlyTo(ix, Keys(ms)) ==> RefersOnlyTo(filed, Keys(Put(ms, id, m)))
    ensures var ms := LoadOrEmpty(mf, []).value;
      Consistent(AfterSave(mf, Put(ms, id, m), wMem), if wMem.Written? then AfterSave(xf, filed, wIdx) else xf)
  {
    var ms, ix := LoadOrEmpty(mf, []).value, LoadOrEmpty(xf, map[]).value;
    PutKeepsKeys(ms, id, m);
    if RefersOnlyTo(ix, Keys(ms)) {
      RefersOnlyToMore(ix, Keys(ms), Keys(Put(ms, id, m)));
    }
  }

  /** `save_from_notion` keeps the files consistent unless its memories write is interrupted. */
  lemma SaveFromNotionKeepsConsistent(mf: JsonFile<Memories>, xf: JsonFile<Index>, content: string, title: string,
                                      sourceDb: string, notionUrl: Option<string>, tags: Option<seq<string>>,
                                      clock: Clock, wMem: WriteOutcome, wIdx: WriteOutcome)
    requires Consistent(mf, xf) && !wMem.WriteInterrupted?
    requires LoadOrEmpty(mf, []).Some? && LoadOrEmpty(xf, map[]).Some?
    ensures var ms, ix, id := LoadOrEmpty(mf, []).value, LoadOrEmpty(xf, map[]).value, NotionId(clock.stamp);
      Consistent(AfterSave(mf, Put(ms, id, NewNotion(content, title, sourceDb, notionUrl, tags, clock)), wMem),
                 if wMem.Written? then AfterSave(xf, IndexNotion(ix, sourceDb, TagList(tags), id), wIdx) else xf)
  {
    var ms, ix, id := LoadOrEmpty(mf, []).value, LoadOrEmpty(xf, map[]).value, NotionId(clock.stamp);
    var m := NewNotion(content, title, sourceDb, notionUrl, tags, clock);
    if RefersOnlyTo(ix, Keys(ms)) {
      StoringThenFiling(ms, ix, id, m, sourceDb, TagList(tags));
    }
    SavesKeepConsistent(mf, xf, id, m, IndexNotion(ix, sourceDb, TagList(tags), id), wMem, wIdx);
  }

  /** `link_claude_conversation` keeps the files consistent unless its memories write is interrupted. */
  lemma LinkConversationKeepsConsistent(mf: JsonFile<Memories>, xf: JsonFile<Index>, summary: string,
                                        insights: seq<string>, topics: seq<string>,
                                        clock: Clock, wMem: WriteOutcome, wIdx: WriteOutcome)
    requires Consistent(mf, xf) && !wMem.WriteInterrupted?
    requires LoadOrEmpty(mf, []).Some? && LoadOrEmpty(xf, map[]).Some?
    ensures var ms, ix, id := LoadOrEmpty(mf, []).value, LoadOrEmpty(xf, map[]).value, ConversationId(clock.stamp);
      Consistent(AfterSave(mf, Put(ms, id, NewConversation(summary, insights, topics, clock)), wMem),
                 if wMem.Written? then AfterSave(xf, IndexConversation(ix, topics, id), wIdx) else xf)
  {
    var ms, ix, id := LoadOrEmpty(mf, []).value, LoadOrEmpty(xf, map[]).value, ConversationId(clock.stamp);
    var m := NewConversation(summary, insights, topics, clock);
    if RefersOnlyTo(ix, Keys(ms)) {
      StoringThenFiling(ms, ix, id, m, "", topics);
    }
    SavesKeepConsistent(mf, xf, id, m, IndexConversation(ix, topics, id), wMem, wIdx);
  }

  class Server {
    var memoriesFile: JsonFile<Memories>
    var indexFile: JsonFile<Index>
    var serendipityFile: JsonFile<Cache>

    /** The objects the files hold have no repeated key, as every parsed JSON object. */
    ghost predicate Valid()
      reads this
    {
      && (memoriesFile.Holds? ==> UniqueKeys(memoriesFile.value))
      && (serendipityFile.Holds? ==> UniqueKeys(serendipityFile.value))
    }

    constructor (memories: JsonFile<Memories>, index: JsonFile<Index>, cache: JsonFile<Cache>)
      requires memories.Holds? ==> UniqueKeys(memories.value)
      requires cache.Holds? ==> UniqueKeys(cache.value)
      ensures Valid()
      ensures memoriesFile == memories && indexFile == index && serendipityFile == cache
    {
      memoriesFile := memories;
      indexFile := index;
      serendipityFile := cache;
    }

    /** `save_json(MEMORIES_FILE, memories)`: true when the write completes. */
    method SaveMemories(ms: Memories, w: WriteOutcome) returns (saved: bool)
      requires Valid() && UniqueKeys(ms)
      modifies this
      ensures Valid()
      ensures memoriesFile == AfterSave(old(memoriesFile), ms, w) && saved == w.Written?
      ensures indexFile == old(indexFile) && serendipityFile == old(serendipityFile)
    {
      memoriesFile := AfterSave(memoriesFile, ms, w);
      saved := w.Written?;
    }

    /** `save_json(INDEX_FILE, index)`: true when the write completes. */
    method SaveIndex(ix: Index, w: WriteOutcome) returns (saved: bool)
      requires Valid()
      modifies this
      ensures Valid()
      ensures indexFile == AfterSave(old(indexFile), ix, w) && saved == w.Written?
      ensures memoriesFile == old(memoriesFile) && serendipityFile == old(serendipityFile)
    {
      indexFile := AfterSave(indexFile, ix, w);
      saved := w.Written?;
    }

    /** `save_json(SERENDIPITY_CACHE, cache)`: true when the write completes. */
    method SaveCache(cache: Cache, w: WriteOutcome) returns (saved: bool)
      requires Valid() && UniqueKeys(cache)
      modifies this
      ensures Valid()
      ensures serendipityFile == AfterSave(old(serendipityFile), cache, w) && saved == w.Written?
      ensures memoriesFile == old(memoriesFile) && indexFile == old(indexFile)
    {
      serendipityFile := AfterSave(serendipityFile, cache, w);
      saved := w.Written?;
    }

    /**
      `save_from_notion`: store the record under `notion_<stamp>`, replacing any
      record of that id; if that save fails, report it and leave the index
      alone; otherwise file the id under its source database and tags and
      report success whether or not the index save succeeds.
     */
    method SaveFromNotion(content: string, title: string, sourceDb: string, notionUrl: Option<string>,
                          tags: Option<seq<string>>, clock: Clock, wMem: WriteOutcome, wIdx: WriteOutcome)
      returns (r: Reply<Saved>)
      requires Valid()
      modifies this
      ensures Valid()
      ensures serendipityFile == old(serendipityFile)
      ensures var ms, ix := LoadOrEmpty(old(memoriesFile), []), LoadOrEmpty(old(indexFile), map[]);
        if ms.None? || ix.None? then
          r == Err(Raised) && memoriesFile == old(memoriesFile) && indexFile == old(indexFile)
        else
          var id := NotionId(clock.stamp);
          && memoriesFile == AfterSave(old(memoriesFile), Put(ms.value, id, NewNotion(content, title, sourceDb, notionUrl, tags, clock)), wMem)
          && (wMem.Written? ==>
                && indexFile == AfterSave(old(indexFile), IndexNotion(ix.value, sourceDb, TagList(tags), id), wIdx)
                && r == Ok(Saved(id, Summary(content))))
          && (!wMem.Written? ==> indexFile == old(indexFile) && r == Err(SaveFailed))
    {
      var loaded := LoadOrEmpty(memoriesFile, []);
      var loadedIndex := LoadOrEmpty(indexFile, map[]);
      if loaded.None? || loadedIndex.None? {
        return Err(Raised);
      }
      var memories, index := loaded.value, loadedIndex.value;
      var memoryId := NotionId(clock.stamp);
      var memory := NotionRecord(memoryId, content, title, sourceDb, notionUrl, tags, clock.now);
      memories := Put(memories, memoryId, memory);
      assert UniqueKeys(memories) by { PutUnique(loaded.value, memoryId, memory); }
      var saved := SaveMemories(memories, wMem);
      if !saved {
        return Err(SaveFailed);
      }
      index := FileNotion(index, sourceDb, TagList(tags), memoryId);
      saved := SaveIndex(index, wIdx);
      r := Ok(Saved(memoryId, memory.content.value.summary));
    }

    /**
      `cache_serendipity`: set today's entry to the discoveries with an access
      count of 0, replacing any earlier batch of today, and report how many
      discoveries were cached when the save succeeds.
     */
    method CacheSerendipity(discoveries: seq<map<string, string>>, clock: Clock, w: WriteOutcome)
      returns (r: Reply<nat>)
      requires Valid()
      modifies this
      ensures Valid()
      ensures memoriesFile == old(memoriesFile) && indexFile == old(indexFile)
      ensures var cache := LoadOrEmpty(old(serendipityFile), []);
        if cache.None? then r == Err(Raised) && serendipityFile == old(serendipityFile)
        else
          && serendipityFile == AfterSave(old(serendipityFile), Put(cache.value, clock.today, CacheEntry(clock.now, discoveries, 0)), w)
          && r == if w.Written? then Ok(|discoveries|) else Err(SaveFailed)
    {
      var loaded := LoadOrEmpty(serendipityFile, []);
      if loaded.None? {
        return Err(Raised);
      }
      var entry := CacheEntry(clock.now, discoveries, 0);
      var cache := Put(loaded.value, clock.today, entry);
      assert UniqueKeys(cache) by { PutUnique(loaded.value, clock.today, entry); }
      var saved := SaveCache(cache, w);
      if saved {
        r := Ok(|discoveries|);
      } else {
        r := Err(SaveFailed);
      }
    }

    /**
      `get_random_memory`: draw one of the candidates with probability
      proportional to its weight, add one to its access count, save, and return
      the bumped record with its age in days (its weight minus 1).
     */
    method GetRandomMemory(memoryType: Option<string>, now: int, u: real, w: WriteOutcome)
      returns (r: Reply<Drawn>)
      requires Valid()
      requires 0.0 <= u < 1.0
      modifies this
      ensures Valid()
      ensures indexFile == old(indexFile) && serendipityFile == old(serendipityFile)
      ensures var loaded := LoadOrEmpty(old(memoriesFile), []);
        if loaded.None? then r == Err(Raised) && memoriesFile == old(memoriesFile)
        else match RandomDraw(loaded.value, memoryType, now, u)
          case Err(reason) => r == Err(reason) && memoriesFile == old(memoriesFile)
          case Ok((key, drawn)) =>
            r == Ok(drawn) && memoriesFile == AfterSave(old(memoriesFile), Put(loaded.value, key, drawn.memory), w)
    {
      var loaded := LoadOrEmpty(memoriesFile, []);
      if loaded.None? {
        return Err(Raised);
      }
      var memories := loaded.value;
      var drawn := Draw(memories, memoryType, now, u);
      if drawn.Err? {
        return Err(drawn.reason);
      }
      var (selectedKey, result) := drawn.value;
      memories := Put(memories, selectedKey, result.memory);
      assert UniqueKeys(memories) by { PutUnique(loaded.value, selectedKey, result.memory); }
      var saved := SaveMemories(memories, w);
      r := Ok(result);
    }

    /**
      `link_claude_conversation`: store the conversation under `conv_<stamp>`;
      if that save fails, report it and leave the index alone; otherwise file
      the id under each topic and report the number of insights.
     */
    method LinkClaudeConversation(summary: string, insights: seq<string>, topics: seq<string>,
                                  clock: Clock, wMem: WriteOutcome, wIdx: WriteOutcome)
      returns (r: Reply<Linked>)
      requires Valid()
      modifies this
      ensures Valid()
      ensures serendipityFile == old(serendipityFile)
      ensures var ms, ix := LoadOrEmpty(old(memoriesFile), []), LoadOrEmpty(old(indexFile), map[]);
        if ms.None? || ix.None? then
          r == Err(Raised) && memoriesFile == old(memoriesFile) && indexFile == old(indexFile)
        else
          var id := ConversationId(clock.stamp);
          && memoriesFile == AfterSave(old(memoriesFile), Put(ms.value, id, NewConversation(summary, insights, topics, clock)), wMem)
          && (wMem.Written? ==>
                && indexFile == AfterSave(old(indexFile), IndexConversation(ix.value, topics, id), wIdx)
                && r == Ok(Linked(id, |insights|)))
          && (!wMem.Written? ==> indexFile == old(indexFile) && r == Err(SaveFailed))
    {
      var loaded := LoadOrEmpty(memoriesFile, []);
      var loadedIndex := LoadOrEmpty(indexFile, map[]);
      if loaded.None? || loadedIndex.None? {
        return Err(Raised);
      }
      var memories, index := loaded.value, loadedIndex.value;
      var conversationId := ConversationId(clock.stamp);
      var memory := ConversationRecord(conversationId, summary, insights, topics, clock.now);
      memories := Put(memories, conversationId, memory);
      assert UniqueKeys(memories) by { PutUnique(loaded.value, conversationId, memory); }
      var saved := SaveMemories(memories, wMem);
      if !saved {
        return Err(SaveFailed);
      }
      index := FileUnderEach(index, Topics, topics, conversationId);
      saved := SaveIndex(index, wIdx);
      r := Ok(Linked(conversationId, |insights|));
    }

    /** `search_by_context`: the ranked, annotated records; the files are not changed. */
    method SearchByContext(context: string, limit: int, dumps: Content -> string) returns (r: Reply<seq<Memory>>)
      ensures var ms, ix := LoadOrEmpty(memoriesFile, []), LoadOrEmpty(indexFile, map[]);
        r == if ms.None? || ix.None? then Err(Raised) else Ok(SearchResults(ms.value, context, limit, dumps))
    {
      var loaded := LoadOrEmpty(memoriesFile, []);
      var loadedIndex := LoadOrEmpty(indexFile, map[]);
      if loaded.None? || loadedIndex.None? {
        return Err(Raised);
      }
      var memories := loaded.value;
      var keywords := Keywords(context);
      var scores := ScoreMemories(keywords, dumps, memories);
      var sortedResults := Ranked(scores, limit);
      ScoredKeysOfScoreAll(Scorer(keywords, dumps), memories);
      RankedFromScores(scores, limit);
      var results := AnnotateRanked(memories, sortedResults);
      r := Ok(results);
    }

    /** `get_memory_stats`: counts per type, index sizes, and the span of the parseable timestamps. */
    method GetMemoryStats() returns (r: Reply<Statistics>)
      ensures var ms, ix := LoadOrEmpty(memoriesFile, []), LoadOrEmpty(indexFile, map[]);
        r == if ms.None? || ix.None? then Err(Raised) else Ok(StatsOf(ms.value, ix.value))
    {
      var loaded := LoadOrEmpty(memoriesFile, []);
      var loadedIndex := LoadOrEmpty(indexFile, map[]);
      if loaded.None? || loadedIndex.None? {
        return Err(Raised);
      }
      var memories, index := loaded.value, loadedIndex.value;
      var typeCounts := CountTypes(memories);
      var daysSpan, oldest, newest := 0, None, None;
      if memories != [] {
        var timestamps := CollectTimestamps(memories);
        if timestamps != [] {
          oldest, newest := Some(MinOf(timestamps)), Some(MaxOf(timestamps));
          daysSpan := DaysOld(newest.value, oldest.value);
        }
      }
      r := Ok(Statistics(|memories|, typeCounts, DimSize(index, Tags), DimSize(index, Topics),
                            DimSize(index, NotionImports), daysSpan, oldest, newest));
    }
  }
}
