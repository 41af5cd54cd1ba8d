/**
  Keyword relevance search over the memories: the query's keywords, the score
  of one record, the scores of the whole store, and the ranked, annotated
  results. The serialisation of a record's content (`json.dumps`) is a
  parameter `dumps`; a record without content serialises as `{}`.
 */
module Search {
  import opened Wrappers
  import opened Text
  import opened OrderedMap
  import opened Records
  import opened Ranking

  /** `context.lower().split()`: non-empty lowercase words without whitespace. */
  function Keywords(context: string): (ks: seq<string>)
    ensures forall k :: k in ks ==> k != [] && NoSpace(k) && IsLowerCase(k)
  {
    SplitLowerIsLowerCase(context);
    Split(Lower(context))
  }

  /** How many of the keywords (repeats included) occur in `text`. */
  function ContentMatches(keywords: seq<string>, text: string): (n: nat)
    ensures n <= |keywords|
    ensures n == 0 <==> forall k :: k in keywords ==> !Contains(text, k)
    ensures n == |keywords| <==> forall k :: k in keywords ==> Contains(text, k)
  {
    if keywords == [] then 0
    else
      var init, last := keywords[..|keywords| - 1], keywords[|keywords| - 1];
      assert keywords == init + [last];
      ContentMatches(init, text) + (if Contains(text, last) then 1 else 0)
  }

  /** `any(keyword in tag.lower() for keyword in keywords)`. */
  predicate AnyKeywordIn(keywords: seq<string>, tag: string) {
    exists k :: k in keywords && Contains(Lower(tag), k)
  }

  /** How many of the tags (repeats included) contain at least one keyword. */
  function TagMatches(keywords: seq<string>, tags: seq<string>): (n: nat)
    ensures n <= |tags|
    ensures n == 0 <==> forall t :: t in tags ==> !AnyKeywordIn(keywords, t)
    ensures n == |tags| <==> forall t :: t in tags ==> AnyKeywordIn(keywords, t)
  {
    if tags == [] then 0
    else
      var init, last := tags[..|tags| - 1], tags[|tags| - 1];
      assert tags == init + [last];
      TagMatches(keywords, init) + (if AnyKeywordIn(keywords, last) then 1 else 0)
  }

  /** The lowercased serialisation of a record's content; a missing content is `{}`. */
  function RecordText(dumps: Content -> string, m: Memory): string {
    Lower(if m.content.Some? then dumps(m.content.value) else "{}")
  }

  /** A record's relevance: 1 per keyword found in its content, 2 per tag that contains a keyword. */
  function RecordScore(keywords: seq<string>, dumps: Content -> string, m: Memory): (s: nat)
    ensures s <= |keywords| + 2 * |m.metadata.tags|
  {
    ContentMatches(keywords, RecordText(dumps, m)) + 2 * TagMatches(keywords, m.metadata.tags)
  }

  /** `for keyword in keywords: if keyword in content_lower: score += 1`. */
  method CountContentMatches(keywords: seq<string>, contentLower: string) returns (n: nat)
    ensures n == ContentMatches(keywords, contentLower)
  {
    n := 0;
    var i := 0;
    while i < |keywords|
      invariant 0 <= i <= |keywords|
      invariant n == ContentMatches(keywords[..i], contentLower)
    {
      if Contains(contentLower, keywords[i]) {
        n := n + 1;
      }
      assert keywords[..i + 1][..i] == keywords[..i];
      i := i + 1;
    }
    assert keywords[..i] == keywords;
  }

  /** `for tag in tags: if any(keyword in tag.lower() ...): score += 2`, counting the matching tags. */
  method CountTagMatches(keywords: seq<string>, tags: seq<string>) returns (n: nat)
    ensures n == TagMatches(keywords, tags)
  {
    n := 0;
    var j := 0;
    while j < |tags|
      invariant 0 <= j <= |tags|
      invariant n == TagMatches(keywords, tags[..j])
    {
      if AnyKeywordIn(keywords, tags[j]) {
        n := n + 1;
      }
      assert tags[..j + 1][..j] == tags[..j];
      j := j + 1;
    }
    assert tags[..j] == tags;
  }

  /** The two scoring loops over one record: its keywords against the content, then its tags. */
  method ScoreMemory(keywords: seq<string>, dumps: Content -> string, m: Memory) returns (score: nat)
    ensures score == RecordScore(keywords, dumps, m)
  {
    var content := CountContentMatches(keywords, RecordText(dumps, m));
    var tagged := CountTagMatches(keywords, m.metadata.tags);
    score := content + 2 * tagged;
  }

  /** A record scores nothing exactly when no keyword is in its content and no tag contains one. */
  lemma ScoreZeroIff(keywords: seq<string>, dumps: Content -> string, m: Memory)
    ensures RecordScore(keywords, dumps, m) == 0 <==>
      (forall k :: k in keywords ==> !Contains(RecordText(dumps, m), k)) &&
      (forall t :: t in m.metadata.tags ==> !AnyKeywordIn(keywords, t))
  {
  }

  /** The highest score a record can reach: every keyword in its content and every tag matching. */
  lemma ScoreBounds(keywords: seq<string>, dumps: Content -> string, m: Memory)
    ensures RecordScore(keywords, dumps, m) <= |keywords| + 2 * |m.metadata.tags|
    ensures RecordScore(keywords, dumps, m) == |keywords| + 2 * |m.metadata.tags| <==>
      (forall k :: k in keywords ==> Contains(RecordText(dumps, m), k)) &&
      (forall t :: t in m.metadata.tags ==> AnyKeywordIn(keywords, t))
  {
  }

  /** A lowercase string is its own lowercase form. */
  lemma LowerOfLowerCase(s: string)
    requires IsLowerCase(s)
    ensures Lower(s) == s
  {
  }

  /** Every string contains itself. */
  lemma ContainsItself(s: string)
    ensures Contains(s, s)
  {
    assert OccursAt(s, s, 0);
  }

  /**
    A one-word query against a record whose only tag is that word: 2 for the
    tag, plus 1 when the content mentions the word as well.
   */
  lemma SingleKeywordTagged(context: string, dumps: Content -> string, m: Memory)
    requires |m.metadata.tags| == 1 && Keywords(context) == [m.metadata.tags[0]]
    ensures RecordScore(Keywords(context), dumps, m) ==
      if Contains(RecordText(dumps, m), m.metadata.tags[0]) then 3 else 2
  {
    var k := m.metadata.tags[0];
    assert k in Keywords(context);
    LowerOfLowerCase(k);
    ContainsItself(k);
    assert AnyKeywordIn([k], k);
    assert m.metadata.tags == [] + [k];
  }

  /** A one-word query against an untagged record: 1 when the content mentions the word, else 0. */
  lemma SingleKeywordUntagged(k: string, dumps: Content -> string, m: Memory)
    requires m.metadata.tags == []
    ensures RecordScore([k], dumps, m) == if Contains(RecordText(dumps, m), k) then 1 else 0
  {
    assert [k] == [] + [k];
  }

  /** The score of each record under a query, as a function of the record. */
  function Scorer(keywords: seq<string>, dumps: Content -> string): Memory -> nat {
    m => RecordScore(keywords, dumps, m)
  }

  /**
    The loop over the store: `scores[memory_id] = score` for each record that
    scores above 0 under `scoreOf`. The store-level facts below hold for any
    per-record score, so they are stated for an arbitrary one.
   */
  function ScoreAll(scoreOf: Memory -> nat, ms: Memories): Scores {
    if ms == [] then []
    else Keep(ScoreAll(scoreOf, ms[..|ms| - 1]), ms[|ms| - 1].0, scoreOf(ms[|ms| - 1].1))
  }

  /** Only records scoring above 0 are kept. */
  lemma {:induction false} ScoreAllPositive(scoreOf: Memory -> nat, ms: Memories)
    ensures forall p :: p in ScoreAll(scoreOf, ms) ==> p.1 > 0
  {
    if ms != [] {
      var before, last := ScoreAll(scoreOf, ms[..|ms| - 1]), ms[|ms| - 1];
      ScoreAllPositive(scoreOf, ms[..|ms| - 1]);
      PutEntries(before, last.0, scoreOf(last.1));
    }
  }

  /** `if score > 0: scores[memory_id] = score`. */
  function Keep(scores: Scores, id: string, score: int): Scores {
    if score > 0 then Put(scores, id, score) else scores
  }

  /** One turn of the loop over the store: score the record, and keep its id with the score when above 0. */
  method ScoreAndKeep(keywords: seq<string>, dumps: Content -> string, scores: Scores, memoryId: string, memory: Memory)
    returns (scores': Scores)
    ensures scores' == Keep(scores, memoryId, Scorer(keywords, dumps)(memory))
  {
    scores' := scores;
    var score := ScoreMemory(keywords, dumps, memory);
    if score > 0 {
      scores' := Put(scores, memoryId, score);
    }
  }

  /** The loop over the store, scoring each record and keeping those above 0. */
  method ScoreMemories(keywords: seq<string>, dumps: Content -> string, ms: Memories) returns (scores: Scores)
    ensures scores == ScoreAll(Scorer(keywords, dumps), ms)
  {
    scores := [];
    var i := 0;
    while i < |ms|
      invariant 0 <= i <= |ms|
      invariant scores == ScoreAll(Scorer(keywords, dumps), ms[..i])
    {
      var (memoryId, memory) := ms[i];
      scores := ScoreAndKeep(keywords, dumps, scores, memoryId, memory);
      ScoreAllStep(Scorer(keywords, dumps), ms, i);
      i := i + 1;
    }
    assert ms[..i] == ms;
  }

  /** Scoring one more record of the store keeps or puts just that record's id. */
  lemma ScoreAllStep(scoreOf: Memory -> nat, ms: Memories, i: nat)
    requires i < |ms|
    ensures ScoreAll(scoreOf, ms[..i + 1]) == Keep(ScoreAll(scoreOf, ms[..i]), ms[i].0, scoreOf(ms[i].1))
  {
    assert ms[..i + 1][..i] == ms[..i];
  }

  /** Reference definition: the records that score above 0, with their scores, in store order. */
  function Scored(scoreOf: Memory -> nat, ms: Memories): Scores {
    if ms == [] then []
    else
      var s := scoreOf(ms[|ms| - 1].1);
      Scored(scoreOf, ms[..|ms| - 1]) + (if s > 0 then [(ms[|ms| - 1].0, s)] else [])
  }

  /** One entry is scored exactly when it is some record's id with that record's positive score. */
  lemma {:induction false} ScoredEntry(scoreOf: Memory -> nat, ms: Memories, p: (string, int))
    ensures p in Scored(scoreOf, ms) <==> exists i :: 0 <= i < |ms| && p == (ms[i].0, scoreOf(ms[i].1)) && p.1 > 0
  {
    if ms != [] {
      var init, n := ms[..|ms| - 1], |ms| - 1;
      var tail := if scoreOf(ms[n].1) > 0 then [(ms[n].0, scoreOf(ms[n].1))] else [];
      assert Scored(scoreOf, ms) == Scored(scoreOf, init) + tail;
      ScoredEntry(scoreOf, init, p);
      if p in Scored(scoreOf, init) {
        var i :| 0 <= i < |init| && p == (init[i].0, scoreOf(init[i].1)) && p.1 > 0;
        assert ms[i] == init[i];
      } else if p in tail {
        assert p == (ms[n].0, scoreOf(ms[n].1)) && p.1 > 0;
      }
      if exists i :: 0 <= i < |ms| && p == (ms[i].0, scoreOf(ms[i].1)) && p.1 > 0 {
        var i :| 0 <= i < |ms| && p == (ms[i].0, scoreOf(ms[i].1)) && p.1 > 0;
        if i < n {
          assert ms[i] == init[i];
        }
      }
    }
  }

  /** The entries scored are exactly the records' ids with their positive scores. */
  lemma ScoredEntries(scoreOf: Memory -> nat, ms: Memories)
    ensures forall p :: p in Scored(scoreOf, ms) <==> exists i :: 0 <= i < |ms| && p == (ms[i].0, scoreOf(ms[i].1)) && p.1 > 0
  {
    forall p {
      ScoredEntry(scoreOf, ms, p);
    }
  }

  /** The ids scored are among the store's keys. */
  lemma ScoredKeys(scoreOf: Memory -> nat, ms: Memories)
    ensures forall p :: p in Scored(scoreOf, ms) ==> p.0 in Keys(ms)
  {
    forall p | p in Scored(scoreOf, ms) ensures p.0 in Keys(ms) {
      ScoredEntry(scoreOf, ms, p);
      var i :| 0 <= i < |ms| && p == (ms[i].0, scoreOf(ms[i].1)) && p.1 > 0;
      assert Keys(ms)[i] == p.0;
    }
  }

  /** With unique ids, each `scores[memory_id] = score` adds a new key, so the loop lists the scored records in store order. */
  lemma {:induction false} ScoreAllIsScored(scoreOf: Memory -> nat, ms: Memories)
    requires UniqueKeys(ms)
    ensures ScoreAll(scoreOf, ms) == Scored(scoreOf, ms)
  {
    if ms != [] {
      var init, last := ms[..|ms| - 1], ms[|ms| - 1];
      assert UniqueKeys(init) by {
        forall i, j | 0 <= i < j < |init| ensures init[i].0 != init[j].0 {
          assert init[i] == ms[i] && init[j] == ms[j];
        }
      }
      ScoreAllIsScored(scoreOf, init);
      if scoreOf(last.1) > 0 {
        ScoredKeys(scoreOf, init);
      }
    }
  }

  /** Each ranked `(id, score)` becomes the stored record carrying `relevance_score = score`. */
  function Annotated(ms: Memories, ranked: Scores): (rs: seq<Memory>)
    requires forall p :: p in ranked ==> p.0 in Keys(ms)
    ensures |rs| == |ranked|
    ensures forall i :: 0 <= i < |ranked| ==>
      rs[i].relevanceScore == Some(ranked[i].1) &&
      (ranked[i].0, rs[i].(relevanceScore := Get(ms, ranked[i].0).value.relevanceScore)) in ms
  {
    seq(|ranked|, i requires 0 <= i < |ranked| =>
      assert ranked[i] in ranked;
      Get(ms, ranked[i].0).value.(relevanceScore := Some(ranked[i].1)))
  }

  /** The loop that copies each ranked record and attaches its score. */
  method AnnotateRanked(ms: Memories, ranked: Scores) returns (results: seq<Memory>)
    requires forall p :: p in ranked ==> p.0 in Keys(ms)
    ensures results == Annotated(ms, ranked)
  {
    results := [];
    var i := 0;
    while i < |ranked|
      invariant 0 <= i <= |ranked|
      invariant results == Annotated(ms, ranked[..i])
    {
      var (memoryId, score) := ranked[i];
      assert ranked[i] in ranked;
      var memory := Get(ms, memoryId).value;
      results := results + [memory.(relevanceScore := Some(score))];
      assert ranked[..i + 1] == ranked[..i] + [ranked[i]];
      i := i + 1;
    }
    assert ranked[..i] == ranked;
  }

  /** The ranked, annotated result of `search_by_context(context, limit)` over the records `ms`. */
  function SearchResults(ms: Memories, context: string, limit: int, dumps: Content -> string): (rs: seq<Memory>)
    ensures 0 <= limit ==> |rs| <= limit
  {
    var scores := ScoreAll(Scorer(Keywords(context), dumps), ms);
    ScoredKeysOfScoreAll(Scorer(Keywords(context), dumps), ms);
    RankedFromScores(scores, limit);
    Annotated(ms, Ranked(scores, limit))
  }

  /** The ids the loop scores are store keys, whether or not the ids are unique. */
  lemma {:induction false} ScoredKeysOfScoreAll(scoreOf: Memory -> nat, ms: Memories)
    ensures forall p :: p in ScoreAll(scoreOf, ms) ==> p.0 in Keys(ms)
  {
    if ms != [] {
      var init := ms[..|ms| - 1];
      ScoredKeysOfScoreAll(scoreOf, init);
      assert forall i :: 0 <= i < |init| ==> Keys(init)[i] == Keys(ms)[i];
      var prev := ScoreAll(scoreOf, init);
      var s := scoreOf(ms[|ms| - 1].1);
      if s > 0 {
        forall p | p in Put(prev, ms[|ms| - 1].0, s) ensures p.0 in Keys(ms) {
          PutEntries(prev, ms[|ms| - 1].0, s);
          if p !in prev {
            assert Keys(ms)[|ms| - 1] == p.0;
          }
        }
      }
    }
  }

  /**
    What a search returns, for a store with unique ids: at most `limit`
    records (an `ensures` of `SearchResults`), in non-increasing order of
    relevance, each one a stored record annotated with its own positive score.
   */
  lemma SearchResultsSpec(ms: Memories, context: string, limit: int, dumps: Content -> string)
    requires UniqueKeys(ms)
    ensures var rs := SearchResults(ms, context, limit, dumps);
      && (forall i :: 0 <= i < |rs| ==> rs[i].relevanceScore.Some?)
      && (forall i, j :: 0 <= i < j < |rs| ==> rs[i].relevanceScore.value >= rs[j].relevanceScore.value)
      && (forall i :: 0 <= i < |rs| ==> exists k :: 0 <= k < |ms| && Annotates(rs[i], ms[k], Keywords(context), dumps))
  {
    var keywords := Keywords(context);
    var scoreOf := Scorer(keywords, dumps);
    var scores := ScoreAll(scoreOf, ms);
    ScoreAllIsScored(scoreOf, ms);
    ScoredKeysOfScoreAll(scoreOf, ms);
    RankedFromScores(scores, limit);
    RankedNonIncreasing(scores, limit);
    var r := Ranked(scores, limit);
    var rs := SearchResults(ms, context, limit, dumps);
    assert rs == Annotated(ms, r);
    forall i | 0 <= i < |rs| ensures exists k :: 0 <= k < |ms| && Annotates(rs[i], ms[k], keywords, dumps) {
      assert r[i] in r;
      ScoredEntry(scoreOf, ms, r[i]);
      var k :| 0 <= k < |ms| && r[i] == (ms[k].0, scoreOf(ms[k].1)) && r[i].1 > 0;
      GetAt(ms, k);
      assert Annotates(rs[i], ms[k], keywords, dumps);
    }
  }

  /** `result` is the stored `entry`'s record carrying its own, positive, relevance score. */
  ghost predicate Annotates(result: Memory, entry: (string, Memory), keywords: seq<string>, dumps: Content -> string) {
    var score := RecordScore(keywords, dumps, entry.1);
    score > 0 && result == entry.1.(relevanceScore := Some(score))
  }
}
