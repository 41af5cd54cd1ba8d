/**
  `sorted(scores.items(), key=lambda x: x[1], reverse=True)[:limit]`: a stable
  sort by descending score, then Python's slice up to `limit`.
 */
module Ranking {
  import opened OrderedMap

  /** `(record id, score)` pairs, as in `scores.items()`. */
  type Scores = Dict<string, int>

  /** Puts `x` before the first entry that does not score more than it. */
  function Insert(x: (string, int), s: Scores): (r: Scores)
    ensures |r| == |s| + 1
  {
    if s == [] || x.1 >= s[0].1 then [x] + s
    else [s[0]] + Insert(x, s[1..])
  }

  /** Insertion adds `x` and loses nothing. */
  lemma {:induction false} InsertPermutes(x: (string, int), s: Scores)
    ensures multiset(Insert(x, s)) == multiset(s) + multiset{x}
  {
    if s != [] && x.1 < s[0].1 {
      InsertPermutes(x, s[1..]);
      assert s == [s[0]] + s[1..];
    }
  }

  /** The stable descending sort, as insertion of each entry in front of the equal scores of later entries. */
  function SortByScore(s: Scores): (r: Scores)
    ensures |r| == |s|
  {
    if s == [] then [] else Insert(s[0], SortByScore(s[1..]))
  }

  /** The sort is a permutation: the same entries, each as often. */
  lemma {:induction false} SortByScorePermutes(s: Scores)
    ensures multiset(SortByScore(s)) == multiset(s)
  {
    if s != [] {
      SortByScorePermutes(s[1..]);
      InsertPermutes(s[0], SortByScore(s[1..]));
      assert s == [s[0]] + s[1..];
    }
  }

  ghost predicate NonIncreasing(s: Scores) {
    forall i, j :: 0 <= i < j < |s| ==> s[i].1 >= s[j].1
  }

  /** The entries scoring exactly `v`, in their order. */
  function WithScore(s: Scores, v: int): Scores {
    if s == [] then []
    else (if s[0].1 == v then [s[0]] else []) + WithScore(s[1..], v)
  }

  lemma WithScoreCons(a: (string, int), t: Scores, v: int)
    ensures WithScore([a] + t, v) == (if a.1 == v then [a] else []) + WithScore(t, v)
  {
    assert ([a] + t)[1..] == t;
  }

  lemma {:induction false} InsertNonIncreasing(x: (string, int), s: Scores)
    requires NonIncreasing(s)
    ensures NonIncreasing(Insert(x, s))
  {
    if s != [] && x.1 < s[0].1 {
      var rest := Insert(x, s[1..]);
      InsertNonIncreasing(x, s[1..]);
      InsertPermutes(x, s[1..]);
      forall j | 0 <= j < |rest| ensures rest[j].1 <= s[0].1 {
        assert rest[j] in multiset(rest);
        if rest[j] != x {
          assert rest[j] in multiset(s[1..]);
          var k :| 0 <= k < |s[1..]| && s[1..][k] == rest[j];
          assert s[k + 1] == rest[j];
        }
      }
      var r := Insert(x, s);
      assert r == [s[0]] + rest;
      forall i, j | 0 <= i < j < |r| ensures r[i].1 >= r[j].1 {
        assert r[j] == rest[j - 1];
        if i > 0 {
          assert r[i] == rest[i - 1];
        }
      }
    }
  }

  /** Insertion passes only entries that score more than `x`, so among equal scores `x` comes first. */
  lemma {:induction false} InsertWithScore(x: (string, int), s: Scores, v: int)
    ensures WithScore(Insert(x, s), v) == (if x.1 == v then [x] else []) + WithScore(s, v)
  {
    if s != [] && x.1 < s[0].1 {
      var rest := Insert(x, s[1..]);
      var ahead, mine := if s[0].1 == v then [s[0]] else [], if x.1 == v then [x] else [];
      calc {
        WithScore(Insert(x, s), v);
        { assert Insert(x, s) == [s[0]] + rest; }
        WithScore([s[0]] + rest, v);
        { WithScoreCons(s[0], rest, v); }
        ahead + WithScore(rest, v);
        { InsertWithScore(x, s[1..], v); }
        ahead + (mine + WithScore(s[1..], v));
        { assert ahead == [] || mine == []; }
        mine + (ahead + WithScore(s[1..], v));
        { WithScoreCons(s[0], s[1..], v); assert s == [s[0]] + s[1..]; }
        mine + WithScore(s, v);
      }
    } else {
      assert Insert(x, s) == [x] + s;
      WithScoreCons(x, s, v);
    }
  }

  /** The sorted entries run from the highest score to the lowest. */
  lemma {:induction false} SortByScoreNonIncreasing(s: Scores)
    ensures NonIncreasing(SortByScore(s))
  {
    if s != [] {
      SortByScoreNonIncreasing(s[1..]);
      InsertNonIncreasing(s[0], SortByScore(s[1..]));
    }
  }

  /** The sort is stable: the entries of each score keep their relative order. */
  lemma {:induction false} SortByScoreStable(s: Scores, v: int)
    ensures WithScore(SortByScore(s), v) == WithScore(s, v)
  {
    if s != [] {
      SortByScoreStable(s[1..], v);
      InsertWithScore(s[0], SortByScore(s[1..]), v);
    }
  }

  /** `s[:stop]`: a negative `stop` counts from the end, and a stop past either end is clamped. */
  function SliceTo<T>(s: seq<T>, stop: int): (r: seq<T>)
    ensures r <= s
    ensures 0 <= stop ==> |r| == if stop < |s| then stop else |s|
    ensures stop < 0 ==> |r| == if |s| + stop > 0 then |s| + stop else 0
  {
    if 0 <= stop then (if stop < |s| then s[..stop] else s)
    else if |s| + stop > 0 then s[..|s| + stop]
    else []
  }

  /** The ranked results: `sorted(..., reverse=True)[:limit]`. */
  function Ranked(s: Scores, limit: int): (r: Scores)
    ensures r <= SortByScore(s)
  {
    SliceTo(SortByScore(s), limit)
  }

  /** The ranked entries run from the highest score to the lowest. */
  lemma RankedNonIncreasing(s: Scores, limit: int)
    ensures NonIncreasing(Ranked(s, limit))
  {
    SortByScoreNonIncreasing(s);
    var sorted, r := SortByScore(s), Ranked(s, limit);
    forall i, j | 0 <= i < j < |r| ensures r[i].1 >= r[j].1 {
      assert r[i] == sorted[i] && r[j] == sorted[j];
    }
  }

  /** Every ranked entry is one of `s`, and a non-negative `limit` bounds how many there are. */
  lemma RankedFromScores(s: Scores, limit: int)
    ensures forall p :: p in Ranked(s, limit) ==> p in s
    ensures 0 <= limit ==> |Ranked(s, limit)| <= limit
  {
    var sorted, r := SortByScore(s), Ranked(s, limit);
    SortByScorePermutes(s);
    forall p | p in r ensures p in s {
      assert p in sorted;
      assert p in multiset(sorted);
    }
  }

  /** Entries of equal score come in the order of `s`: for each score, the ranked ones are the first of `s`. */
  lemma RankedStable(s: Scores, limit: int, v: int)
    ensures WithScore(Ranked(s, limit), v) <= WithScore(s, v)
  {
    var sorted, r := SortByScore(s), Ranked(s, limit);
    SortByScoreStable(s, v);
    assert r == sorted[..|r|];
    WithScorePrefix(sorted, |r|, v);
  }

  /** Nothing the ranking leaves out scores more than anything it returns. */
  lemma RankedTopScores(s: Scores, limit: int, p: (string, int), q: (string, int))
    requires p in Ranked(s, limit) && q in multiset(s) - multiset(Ranked(s, limit))
    ensures q.1 <= p.1
  {
    var sorted, r := SortByScore(s), Ranked(s, limit);
    SortByScoreNonIncreasing(s);
    SortByScorePermutes(s);
    var rest := sorted[|r|..];
    assert sorted == r + rest;
    assert q in multiset(rest);
    var i :| 0 <= i < |r| && r[i] == p;
    var j :| 0 <= j < |rest| && rest[j] == q;
    assert sorted[i] == p && sorted[|r| + j] == q;
  }

  /** Filtering a prefix gives a prefix of the filtered sequence. */
  lemma {:induction false} WithScorePrefix(s: Scores, n: nat, v: int)
    requires n <= |s|
    ensures WithScore(s[..n], v) <= WithScore(s, v)
  {
    if n > 0 {
      assert s[..n] == [s[0]] + s[1..][..n - 1];
      assert s == [s[0]] + s[1..];
      WithScorePrefix(s[1..], n - 1, v);
      WithScoreCons(s[0], s[1..][..n - 1], v);
      WithScoreCons(s[0], s[1..], v);
    }
  }
}
