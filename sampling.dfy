/**
  Age-weighted random selection: the type filter, the weight of each candidate
  (its age in days plus one), and `random.choices` with those weights, made
  deterministic by taking the uniform draw `u` in [0, 1) as an input.
 */
module Sampling {
  import opened Wrappers
  import opened OrderedMap
  import opened Records

  const SecondsPerDay := 86400

  /** `(now - created).days`: whole days elapsed, rounded down, negative for a time in the future. */
  function DaysOld(now: int, t: int): (d: int)
    ensures d * SecondsPerDay <= now - t < (d + 1) * SecondsPerDay
  {
    var e := now - t;
    assert e == (e / SecondsPerDay) * SecondsPerDay + e % SecondsPerDay;
    e / SecondsPerDay
  }

  /** A record's weight: its age in days plus one, or 1 when its timestamp cannot be parsed. */
  function Weight(now: int, timestamp: Option<int>): (w: int)
    ensures timestamp.None? ==> w == 1
    ensures timestamp.Some? && timestamp.value <= now ==> w >= 1
    ensures timestamp.Some? && now < timestamp.value ==> w <= 1
  {
    match timestamp
    case Some(t) => DaysOld(now, t) + 1
    case None => 1
  }

  /** A record stamped no later than now weighs at least 1, so it can always be drawn. */
  lemma PastWeightPositive(now: int, t: int)
    requires t <= now
    ensures Weight(now, Some(t)) >= 1
  {
  }

  /** Of two records, the older one never weighs less. */
  lemma OlderWeighsMore(now: int, older: int, newer: int)
    requires older <= newer
    ensures Weight(now, Some(older)) >= Weight(now, Some(newer))
  {
  }

  /** A record one day older weighs exactly one more. */
  lemma DayOlderWeighsOneMore(now: int, t: int)
    ensures Weight(now, Some(t - SecondsPerDay)) == Weight(now, Some(t)) + 1
  {
  }

  /** Whether a memory's `"type"` is `t` (`v.get("type") == memory_type`). */
  predicate HasType(m: Memory, t: string) {
    m.kind == Some(t)
  }

  /** `{k: v for k, v in memories.items() if v.get("type") == t}`, in store order. */
  function OfType(ms: Memories, t: string): (r: Memories)
    ensures forall p :: p in r <==> p in ms && HasType(p.1, t)
  {
    if ms == [] then []
    else (if HasType(ms[0].1, t) then [ms[0]] else []) + OfType(ms[1..], t)
  }

  /** Filtering keeps keys unique. */
  lemma {:induction false} OfTypeUnique(ms: Memories, t: string)
    requires UniqueKeys(ms)
    ensures UniqueKeys(OfType(ms, t))
  {
    if ms != [] {
      OfTypeUnique(ms[1..], t);
      var rest := OfType(ms[1..], t);
      forall p | p in rest ensures p.0 != ms[0].0 {
        var j :| 0 <= j < |ms[1..]| && ms[1..][j] == p;
        assert ms[j + 1] == p;
      }
    }
  }

  /** The records `get_random_memory` draws from: all of them, or those of the requested non-empty type. */
  function Candidates(ms: Memories, memoryType: Option<string>): Memories {
    if memoryType.Some? && memoryType.value != "" then OfType(ms, memoryType.value) else ms
  }

  /**
    The candidates are records of the store, of the requested type when a
    non-empty type is given; there are none exactly when the store is empty or
    no record has that type.
   */
  lemma CandidatesSpec(ms: Memories, memoryType: Option<string>)
    requires UniqueKeys(ms)
    ensures UniqueKeys(Candidates(ms, memoryType))
    ensures forall p :: p in Candidates(ms, memoryType) ==> p in ms
    ensures memoryType.Some? && memoryType.value != "" ==>
      forall p :: p in Candidates(ms, memoryType) ==> HasType(p.1, memoryType.value)
    ensures Candidates(ms, memoryType) == [] <==>
      ms == [] || (memoryType.Some? && memoryType.value != "" && forall p :: p in ms ==> !HasType(p.1, memoryType.value))
  {
    if memoryType.Some? && memoryType.value != "" {
      OfTypeUnique(ms, memoryType.value);
      var c := Candidates(ms, memoryType);
      if c != [] {
        assert c[0] in c;
      }
    }
  }

  /** The weights of the candidates, in their order. */
  function Weights(ms: Memories, now: int): (w: seq<int>)
    ensures |w| == |ms|
    ensures forall i :: 0 <= i < |ms| ==> w[i] == Weight(now, ms[i].1.metadata.timestamp)
  {
    seq(|ms|, i requires 0 <= i < |ms| => Weight(now, ms[i].1.metadata.timestamp))
  }

  /** The weight of the `i`-th candidate. */
  function WeightAt(ms: Memories, now: int, i: nat): int
    requires i < |ms|
  {
    Weight(now, ms[i].1.metadata.timestamp)
  }

  /** Whether no candidate has a negative weight (none is stamped more than a day in the future). */
  ghost predicate NoNegativeWeight(ms: Memories, now: int) {
    forall i :: 0 <= i < |ms| ==> WeightAt(ms, now, i) >= 0
  }

  /** The weights loop: `days_old + 1` for a timestamp that parses, 1 for one that does not. */
  method ComputeWeights(cands: Memories, now: int) returns (w: seq<int>)
    ensures w == Weights(cands, now)
  {
    w := [];
    var i := 0;
    while i < |cands|
      invariant 0 <= i <= |cands|
      invariant |w| == i && forall j :: 0 <= j < i ==> w[j] == Weight(now, cands[j].1.metadata.timestamp)
    {
      match cands[i].1.metadata.timestamp {
        case Some(created) =>
          var daysOld := DaysOld(now, created);
          w := w + [daysOld + 1];
        case None =>
          w := w + [1];
      }
      i := i + 1;
    }
  }

  /** The sum of the weights. */
  function Total(w: seq<int>): int {
    if w == [] then 0 else Total(w[..|w| - 1]) + w[|w| - 1]
  }

  lemma TotalStep(w: seq<int>, i: nat)
    requires i < |w|
    ensures Total(w[..i + 1]) == Total(w[..i]) + w[i]
  {
    assert w[..i + 1][..i] == w[..i];
  }

  /** Weights that are none negative and sum to 0 are all 0. */
  lemma {:induction false} TotalZero(w: seq<int>)
    requires forall k :: 0 <= k < |w| ==> w[k] >= 0
    requires Total(w) == 0
    ensures forall k :: 0 <= k < |w| ==> w[k] == 0
  {
    if w != [] {
      var init := w[..|w| - 1];
      TotalMonotone(init, 0, |init|);
      assert init[..0] == [] && init[..|init|] == init;
      TotalZero(init);
    }
  }

  /** With no negative weight, the running totals never decrease. */
  lemma {:induction false} TotalMonotone(w: seq<int>, i: nat, j: nat)
    requires forall k :: 0 <= k < |w| ==> w[k] >= 0
    requires i <= j <= |w|
    ensures Total(w[..i]) <= Total(w[..j])
    decreases j - i
  {
    if i < j {
      TotalStep(w, j - 1);
      TotalMonotone(w, i, j - 1);
    }
  }

  /** `cum_weights[k]`: the sum of the weights up to and including index `k`. */
  function RunningTotal(w: seq<int>, k: nat): int
    requires k < |w|
  {
    Total(w[..k + 1])
  }

  /**
    The reference pick: the first index from `i` on whose running total
    exceeds `x`, the last index if none does.
   */
  function ChooseFrom(w: seq<int>, x: real, i: nat): (j: nat)
    requires i < |w|
    ensures i <= j < |w|
    decreases |w| - i
  {
    if i == |w| - 1 || x < RunningTotal(w, i) as real then i else ChooseFrom(w, x, i + 1)
  }

  /** The first index whose running total exceeds `x`: every earlier one does not. */
  lemma {:induction false} ChooseFromFirst(w: seq<int>, x: real, i: nat)
    requires i < |w|
    ensures var j := ChooseFrom(w, x, i);
      && (forall k :: i <= k < j ==> RunningTotal(w, k) as real <= x)
      && (j == |w| - 1 || x < RunningTotal(w, j) as real)
    decreases |w| - i
  {
    if !(i == |w| - 1 || x < RunningTotal(w, i) as real) {
      ChooseFromFirst(w, x, i + 1);
    }
  }

  /**
    `bisect_right(cum_weights, x, lo, hi)`: the binary search `random.choices`
    runs over the running totals, the running total at `mid` being the sum of
    the weights up to and including `mid`.
   */
  function Bisect(w: seq<int>, x: real, lo: nat, hi: nat): (j: nat)
    requires lo <= hi < |w|
    ensures lo <= j <= hi
    decreases hi - lo
  {
    if lo == hi then lo
    else
      var mid := (lo + hi) / 2;
      if x < RunningTotal(w, mid) as real then Bisect(w, x, lo, mid) else Bisect(w, x, mid + 1, hi)
  }

  /**
    With no negative weight the running totals never decrease, and the binary
    search over any range `[lo, hi]` holding the reference pick finds it.
   */
  lemma {:induction false} BisectFindsFirst(w: seq<int>, x: real, lo: nat, hi: nat)
    requires forall k :: 0 <= k < |w| ==> w[k] >= 0
    requires hi < |w| && lo <= ChooseFrom(w, x, 0) <= hi
    ensures Bisect(w, x, lo, hi) == ChooseFrom(w, x, 0)
    decreases hi - lo
  {
    var j := ChooseFrom(w, x, 0);
    ChooseFromFirst(w, x, 0);
    if lo < hi {
      var mid := (lo + hi) / 2;
      if mid < j {
        assert RunningTotal(w, mid) as real <= x;
        BisectFindsFirst(w, x, mid + 1, hi);
      } else {
        TotalMonotone(w, j + 1, mid + 1);
        assert RunningTotal(w, j) <= RunningTotal(w, mid);
        assert x < RunningTotal(w, mid) as real;
        BisectFindsFirst(w, x, lo, mid);
      }
    }
  }

  /**
    The index `random.choices(population, weights)` picks for the point `x` of
    [0, total): `bisect_right` over the running totals between 0 and the last index.
   */
  function Choose(w: seq<int>, x: real): (j: nat)
    requires |w| > 0
    ensures j < |w|
  {
    Bisect(w, x, 0, |w| - 1)
  }

  /** With no negative weight, `random.choices` picks the first index whose running total exceeds `x`. */
  lemma ChooseIsFirst(w: seq<int>, x: real)
    requires forall k :: 0 <= k < |w| ==> w[k] >= 0
    requires |w| > 0
    ensures Choose(w, x) == ChooseFrom(w, x, 0)
  {
    BisectFindsFirst(w, x, 0, |w| - 1);
  }

  /**
    A weight below 0 (a record stamped more than a day ahead) makes the running
    totals dip, and then the binary search can pass over the first index whose
    total exceeds the point: with weights 3, -2, 5 and the point 1.5 it picks
    the last index, not the first.
   */
  lemma NegativeWeightPick()
    ensures Choose([3, -2, 5], 1.5) == 2 && ChooseFrom([3, -2, 5], 1.5, 0) == 0
  {
  }

  /** With no negative weight, the reference pick is the index whose interval of running totals holds `x`. */
  lemma {:induction false} ChooseFromInInterval(w: seq<int>, x: real, i: nat)
    requires forall k :: 0 <= k < |w| ==> w[k] >= 0
    requires i < |w| && Total(w[..i]) as real <= x < Total(w) as real
    ensures var j := ChooseFrom(w, x, i); Total(w[..j]) as real <= x < Total(w[..j + 1]) as real
    decreases |w| - i
  {
    if i == |w| - 1 {
      assert w[..i + 1] == w;
    } else if x >= RunningTotal(w, i) as real {
      ChooseFromInInterval(w, x, i + 1);
    }
  }

  /**
    The pick is the index whose slice [total before it, total through it) of
    [0, total) holds `x`; that slice is as long as the index's weight, so a
    uniform `x` picks each index with probability weight / total, and an index
    of weight 0 is never picked.
   */
  lemma ChooseInInterval(w: seq<int>, x: real)
    requires forall k :: 0 <= k < |w| ==> w[k] >= 0
    requires |w| > 0 && 0.0 <= x < Total(w) as real
    ensures var j := Choose(w, x);
      Total(w[..j]) as real <= x < Total(w[..j + 1]) as real && w[j] >= 1
  {
    assert w[..0] == [];
    ChooseIsFirst(w, x);
    ChooseFromInInterval(w, x, 0);
    TotalStep(w, Choose(w, x));
  }

  /** Conversely, every index whose slice holds `x` is the one picked: the slices do not overlap. */
  lemma ChooseExactly(w: seq<int>, x: real, j: nat)
    requires forall k :: 0 <= k < |w| ==> w[k] >= 0
    requires j < |w| && Total(w[..j]) as real <= x < Total(w[..j + 1]) as real
    ensures Choose(w, x) == j
  {
    TotalMonotone(w, j + 1, |w|);
    TotalMonotone(w, 0, j);
    assert w[..|w|] == w;
    assert w[..0] == [];
    ChooseInInterval(w, x);
    var c := Choose(w, x);
    if c < j {
      TotalMonotone(w, c + 1, j);
    } else if c > j {
      TotalMonotone(w, j + 1, c);
    }
  }

  /** The uniform draw `u` in [0, 1) scaled to the total weight, as `random.choices` does. */
  function DrawPoint(u: real, total: int): real {
    u * total as real
  }

  /** The candidate index `get_random_memory` selects when the scaled draw `random() * total` is `x`. */
  function Selection(cands: Memories, now: int, x: real): (j: nat)
    requires |cands| > 0
    ensures j < |cands|
  {
    Choose(Weights(cands, now), x)
  }

  /**
    With a draw `u` in [0, 1) scaled to `x` = u * total and a positive total,
    the selected candidate has weight at least 1 and `x` lies in its slice of
    [0, total), a slice as long as its weight.
   */
  lemma SelectionIsWeighted(cands: Memories, now: int, u: real, x: real)
    requires |cands| > 0 && NoNegativeWeight(cands, now)
    requires 0.0 <= u < 1.0 && Total(Weights(cands, now)) > 0
    requires x == u * Total(Weights(cands, now)) as real
    ensures var w, j := Weights(cands, now), Selection(cands, now, x);
      && w[j] >= 1
      && Total(w[..j]) as real <= x < Total(w[..j + 1]) as real
  {
    var w := Weights(cands, now);
    assert forall k :: 0 <= k < |w| ==> w[k] == WeightAt(cands, now, k) >= 0;
    ScaledDraw(u, Total(w) as real);
    ChooseInInterval(w, x);
  }

  /** `random() * total` lies in [0, total). */
  lemma ScaledDraw(u: real, t: real)
    requires 0.0 <= u < 1.0 && t > 0.0
    ensures 0.0 <= u * t < t
  {
    assert (1.0 - u) * t > 0.0;
  }
}
