/**
  The read-only statistics pass of `get_memory_stats`: records per type, the
  sizes of the three index dimensions, and the span between the oldest and the
  newest parseable timestamp.
 */
module Stats {
  import opened Wrappers
  import opened OrderedMap
  import opened Records
  import opened MemoryIndex
  import opened Sampling

  const Unknown := "unknown"

  /** `memory.get("type", "unknown")`. */
  function TypeName(m: Memory): string {
    m.kind.GetOr(Unknown)
  }

  /** `counts[t] = counts.get(t, 0) + 1`. */
  function Tally(counts: Dict<string, int>, t: string): Dict<string, int> {
    Put(counts, t, Get(counts, t).GetOr(0) + 1)
  }

  /** The loop that tallies the type of each record in turn. */
  function TypeCounts(ms: Memories): (r: Dict<string, int>)
    ensures |r| <= |ms|
  {
    if ms == [] then [] else Tally(TypeCounts(ms[..|ms| - 1]), TypeName(ms[|ms| - 1].1))
  }

  /** The counting loop of `get_memory_stats`. */
  method CountTypes(ms: Memories) returns (counts: Dict<string, int>)
    ensures counts == TypeCounts(ms)
  {
    counts := [];
    var i := 0;
    while i < |ms|
      invariant 0 <= i <= |ms|
      invariant counts == TypeCounts(ms[..i])
    {
      var memoryType := TypeName(ms[i].1);
      counts := Put(counts, memoryType, Get(counts, memoryType).GetOr(0) + 1);
      assert ms[..i + 1][..i] == ms[..i];
      assert counts == TypeCounts(ms[..i + 1]);
      i := i + 1;
    }
    assert ms[..i] == ms;
  }

  /** The sum of a dict's values. */
  function SumValues(d: Dict<string, int>): int {
    if d == [] then 0 else d[0].1 + SumValues(d[1..])
  }

  /** `d[k] = v` changes the sum by the difference between the new value and the old one (0 if none). */
  lemma {:induction false} PutSum(d: Dict<string, int>, k: string, v: int)
    ensures SumValues(Put(d, k, v)) == SumValues(d) - Get(d, k).GetOr(0) + v
  {
    if d != [] && d[0].0 != k {
      PutSum(d[1..], k, v);
      assert Put(d, k, v)[1..] == Put(d[1..], k, v);
    }
  }

  /** Every record is counted once: the type counts add up to the number of records. */
  lemma {:induction false} TypeCountsSum(ms: Memories)
    ensures SumValues(TypeCounts(ms)) == |ms|
  {
    if ms != [] {
      var prev := TypeCounts(ms[..|ms| - 1]);
      var t := TypeName(ms[|ms| - 1].1);
      TypeCountsSum(ms[..|ms| - 1]);
      PutSum(prev, t, Get(prev, t).GetOr(0) + 1);
    }
  }

  /** How many records have type `t`. */
  function CountOfType(ms: Memories, t: string): (n: nat)
    ensures n <= |ms|
    ensures n > 0 <==> exists i :: 0 <= i < |ms| && TypeName(ms[i].1) == t
  {
    if ms == [] then 0
    else
      var init := ms[..|ms| - 1];
      assert forall i :: 0 <= i < |init| ==> init[i] == ms[i];
      CountOfType(init, t) + (if TypeName(ms[|ms| - 1].1) == t then 1 else 0)
  }

  /** Each type maps to the number of records of that type, and only types that occur appear. */
  lemma {:induction false} TypeCountsExact(ms: Memories, t: string)
    ensures var n := CountOfType(ms, t);
      Get(TypeCounts(ms), t) == if n > 0 then Some(n) else None
  {
    if ms != [] {
      var init := ms[..|ms| - 1];
      var prev := TypeCounts(init);
      var last := TypeName(ms[|ms| - 1].1);
      var n0 := CountOfType(init, t);
      assert CountOfType(ms, t) == n0 + (if last == t then 1 else 0);
      assert TypeCounts(ms) == Tally(prev, last);
      TypeCountsExact(init, t);
      PutGet(prev, last, Get(prev, last).GetOr(0) + 1, t);
      if last == t {
        assert Get(TypeCounts(ms), t) == Some(n0 + 1);
      } else {
        assert Get(TypeCounts(ms), t) == Get(prev, t);
      }
    }
  }

  /** A store has no duplicate type in its distribution. */
  lemma {:induction false} TypeCountsUnique(ms: Memories)
    ensures UniqueKeys(TypeCounts(ms))
  {
    if ms != [] {
      var prev := TypeCounts(ms[..|ms| - 1]);
      var t := TypeName(ms[|ms| - 1].1);
      TypeCountsUnique(ms[..|ms| - 1]);
      PutUnique(prev, t, Get(prev, t).GetOr(0) + 1);
    }
  }

  /** The timestamps that parse, in store order: the loop that skips the others. */
  function ParsedTimestamps(ms: Memories): (ts: seq<int>)
    ensures forall t :: t in ts <==> exists i :: 0 <= i < |ms| && ms[i].1.metadata.timestamp == Some(t)
  {
    if ms == [] then []
    else
      var init := ms[..|ms| - 1];
      var stamp := ms[|ms| - 1].1.metadata.timestamp;
      assert forall i :: 0 <= i < |init| ==> init[i] == ms[i];
      ParsedTimestamps(init) + (if stamp.Some? then [stamp.value] else [])
  }

  /** The loop that collects the timestamps that parse and skips the others. */
  method CollectTimestamps(ms: Memories) returns (ts: seq<int>)
    ensures ts == ParsedTimestamps(ms)
  {
    ts := [];
    var i := 0;
    while i < |ms|
      invariant 0 <= i <= |ms|
      invariant ts == ParsedTimestamps(ms[..i])
    {
      if ms[i].1.metadata.timestamp.Some? {
        ts := ts + [ms[i].1.metadata.timestamp.value];
      }
      assert ms[..i + 1][..i] == ms[..i];
      i := i + 1;
    }
    assert ms[..i] == ms;
  }

  /** `min(timestamps)`. */
  function MinOf(ts: seq<int>): (m: int)
    requires ts != []
    ensures m in ts && forall t :: t in ts ==> m <= t
  {
    if |ts| == 1 then ts[0]
    else
      var rest := MinOf(ts[1..]);
      assert forall t :: t in ts ==> t == ts[0] || t in ts[1..];
      if ts[0] <= rest then ts[0] else rest
  }

  /** `max(timestamps)`. */
  function MaxOf(ts: seq<int>): (m: int)
    requires ts != []
    ensures m in ts && forall t :: t in ts ==> t <= m
  {
    if |ts| == 1 then ts[0]
    else
      var rest := MaxOf(ts[1..]);
      assert forall t :: t in ts ==> t == ts[0] || t in ts[1..];
      if ts[0] >= rest then ts[0] else rest
  }

  /** `len(index.get(dim, {}))`: the number of keys in one dimension of the index. */
  function DimSize(ix: Index, dim: string): nat {
    if dim in ix then |ix[dim]| else 0
  }

  /** The reply of `get_memory_stats`; the timestamps are the oldest and newest as seconds. */
  datatype Statistics = Statistics(
    totalMemories: nat,
    typeDistribution: Dict<string, int>,
    totalTags: nat,
    totalTopics: nat,
    notionSources: nat,
    timeSpanDays: int,
    oldest: Option<int>,
    newest: Option<int>)

  /** The oldest and newest of `ts`, and the whole days between them; 0 and no dates when `ts` is empty. */
  function Span(ts: seq<int>): (r: (int, Option<int>, Option<int>))
    ensures r.1.Some? <==> ts != []
    ensures r.1.Some? == r.2.Some?
    ensures ts == [] ==> r.0 == 0
    ensures r.0 >= 0
  {
    if ts == [] then (0, None, None)
    else (DaysOld(MaxOf(ts), MinOf(ts)), Some(MinOf(ts)), Some(MaxOf(ts)))
  }

  /** The statistics over the loaded records and index, skipping timestamps that do not parse. */
  function StatsOf(ms: Memories, ix: Index): (s: Statistics)
    ensures s.totalMemories == |ms| && |s.typeDistribution| <= |ms|
    ensures s.timeSpanDays >= 0 && (s.oldest.Some? <==> ParsedTimestamps(ms) != [])
  {
    var (span, oldest, newest) := Span(ParsedTimestamps(ms));
    Statistics(|ms|, TypeCounts(ms), DimSize(ix, Tags), DimSize(ix, Topics), DimSize(ix, NotionImports),
            span, oldest, newest)
  }

  /**
    The time span is never negative; oldest and newest are both present exactly
    when some timestamp parses, are themselves parsed timestamps, and bound
    every parsed timestamp from below and above; the span is 0 when none
    parses and otherwise the whole days from oldest to newest.
   */
  lemma SpanSpec(ms: Memories)
    ensures var (span, oldest, newest) := Span(ParsedTimestamps(ms));
      && span >= 0
      && (oldest.Some? <==> exists i :: 0 <= i < |ms| && ms[i].1.metadata.timestamp.Some?)
      && oldest.Some? == newest.Some?
      && (oldest.Some? ==> oldest.value in ParsedTimestamps(ms) && newest.value in ParsedTimestamps(ms))
      && (forall i :: 0 <= i < |ms| && ms[i].1.metadata.timestamp.Some? ==>
            oldest.Some? && oldest.value <= ms[i].1.metadata.timestamp.value <= newest.value)
      && (oldest.None? ==> span == 0)
      && (oldest.Some? ==> span == DaysOld(newest.value, oldest.value))
  {
    var ts := ParsedTimestamps(ms);
    if ts != [] {
      OlderWeighsMore(MaxOf(ts), MinOf(ts), MaxOf(ts));
    }
  }

  /** The statistics report one entry per record, the counts summing to the total. */
  lemma StatsCounts(ms: Memories, ix: Index)
    ensures StatsOf(ms, ix).totalMemories == |ms| == SumValues(StatsOf(ms, ix).typeDistribution)
    ensures UniqueKeys(StatsOf(ms, ix).typeDistribution)
  {
    TypeCountsSum(ms);
    TypeCountsUnique(ms);
  }

  /** A fresh store and index: no records, no types, no index keys, a span of 0 and no dates. */
  lemma EmptyStats()
    ensures StatsOf([], map[]) == Statistics(0, [], 0, 0, 0, 0, None, None)
  {
  }
}
