/**
  The three string operations the keyword search relies on: `str.lower()`,
  `str.split()` with no argument, and the substring test `k in s`.
 */
module Text {

  /** The characters for which Python's `str.isspace()` holds: what `str.split()` splits on. */
  predicate IsSpace(c: char) {
    || c == ' '
    || ('\t' <= c <= '\r')
    || ('\U{1C}' <= c <= '\U{1F}')
    || c == '\U{85}' || c == '\U{A0}' || c == '\U{1680}'
    || ('\U{2000}' <= c <= '\U{200A}')
    || c == '\U{2028}' || c == '\U{2029}' || c == '\U{202F}' || c == '\U{205F}' || c == '\U{3000}'
  }

  predicate NoSpace(w: string) {
    forall i :: 0 <= i < |w| ==> !IsSpace(w[i])
  }

  predicate IsUpper(c: char) {
    'A' <= c <= 'Z'
  }

  /** Lower-casing of one character; only the ASCII letters are mapped. */
  function LowerChar(c: char): (l: char)
    ensures !IsUpper(l)
    ensures IsSpace(l) <==> IsSpace(c)
  {
    if IsUpper(c) then (c as int + 32) as char else c
  }

  /** `s.lower()`, restricted to ASCII letters. */
  function Lower(s: string): (l: string)
    ensures |l| == |s|
    ensures forall i :: 0 <= i < |s| ==> l[i] == LowerChar(s[i])
  {
    seq(|s|, i requires 0 <= i < |s| => LowerChar(s[i]))
  }

  predicate IsLowerCase(s: string) {
    forall i :: 0 <= i < |s| ==> !IsUpper(s[i])
  }

  /** `k in s` for strings: `k` occurs somewhere in `s` as a contiguous piece. */
  predicate Contains(s: string, k: string) {
    exists i :: 0 <= i <= |s| - |k| && OccursAt(s, k, i)
  }

  predicate OccursAt(s: string, k: string, i: nat) {
    i + |k| <= |s| && s[i..i + |k|] == k
  }

  /** The length of the run of non-space characters at the start of `s`. */
  function WordLength(s: string): (n: nat)
    ensures n <= |s|
    ensures forall i :: 0 <= i < n ==> !IsSpace(s[i])
    ensures n == |s| || IsSpace(s[n])
  {
    if s == [] || IsSpace(s[0]) then 0 else 1 + WordLength(s[1..])
  }

  /**
    `s.split()`: the maximal runs of non-space characters, in order. Leading,
    trailing and repeated whitespace produce no empty words.
   */
  function Split(s: string): (words: seq<string>)
    ensures forall w :: w in words ==> w != [] && NoSpace(w)
    decreases |s|
  {
    if s == [] then []
    else if IsSpace(s[0]) then Split(s[1..])
    else
      var n := WordLength(s);
      [s[..n]] + Split(s[n..])
  }

  /** `" ".join(words)`. */
  function JoinWords(words: seq<string>): string {
    if words == [] then ""
    else if |words| == 1 then words[0]
    else words[0] + " " + JoinWords(words[1..])
  }

  /** A word followed by whitespace or by nothing is the first word of the split. */
  lemma {:induction false} SplitLeadingWord(w: string, rest: string)
    requires w != [] && NoSpace(w)
    requires rest == [] || IsSpace(rest[0])
    ensures Split(w + rest) == [w] + Split(rest)
  {
    WordLengthOfWord(w, rest);
    var s := w + rest;
    assert s[..|w|] == w && s[|w|..] == rest;
  }

  lemma {:induction false} WordLengthOfWord(w: string, rest: string)
    requires NoSpace(w)
    requires rest == [] || IsSpace(rest[0])
    ensures WordLength(w + rest) == |w|
  {
    if w != [] {
      assert (w + rest)[1..] == w[1..] + rest;
      WordLengthOfWord(w[1..], rest);
    } else {
      assert w + rest == rest;
    }
  }

  /** Splitting words joined by single spaces gives the words back. */
  lemma {:induction false} SplitJoinWords(words: seq<string>)
    requires forall w :: w in words ==> w != [] && NoSpace(w)
    ensures Split(JoinWords(words)) == words
  {
    assert words != [] ==> words[0] in words;
    if |words| == 1 {
      SplitLeadingWord(words[0], "");
      assert words[0] + "" == words[0];
    } else if |words| > 1 {
      var tail := " " + JoinWords(words[1..]);
      SplitLeadingWord(words[0], tail);
      assert words[0] + " " + JoinWords(words[1..]) == words[0] + tail;
      assert tail[1..] == JoinWords(words[1..]);
      assert forall w :: w in words[1..] ==> w in words;
      SplitJoinWords(words[1..]);
    }
  }

  /** Every word of a split is a piece of the split string. */
  lemma {:induction false} SplitWordsOccur(s: string)
    ensures forall w :: w in Split(s) ==> Contains(s, w)
    decreases |s|
  {
    if s != [] {
      if IsSpace(s[0]) {
        SplitWordsOccur(s[1..]);
        forall w | w in Split(s[1..]) ensures Contains(s, w) {
          var i :| 0 <= i <= |s[1..]| - |w| && OccursAt(s[1..], w, i);
          assert s[i + 1..i + 1 + |w|] == w;
          assert OccursAt(s, w, i + 1);
        }
      } else {
        var n := WordLength(s);
        SplitWordsOccur(s[n..]);
        assert OccursAt(s, s[..n], 0);
        forall w | w in Split(s[n..]) ensures Contains(s, w) {
          var i :| 0 <= i <= |s[n..]| - |w| && OccursAt(s[n..], w, i);
          assert s[i + n..i + n + |w|] == w;
          assert OccursAt(s, w, i + n);
        }
      }
    }
  }

  /** A piece of a lower-case string is lower case. */
  lemma ContainedIsLowerCase(s: string, k: string)
    requires IsLowerCase(s) && Contains(s, k)
    ensures IsLowerCase(k)
  {
    var i :| 0 <= i <= |s| - |k| && OccursAt(s, k, i);
    forall j | 0 <= j < |k| ensures !IsUpper(k[j]) {
      assert k[j] == s[i + j];
    }
  }

  /** Splitting a lower-cased string gives lower-case words: the search keywords are case-folded. */
  lemma SplitLowerIsLowerCase(s: string)
    ensures forall w :: w in Split(Lower(s)) ==> IsLowerCase(w)
  {
    SplitWordsOccur(Lower(s));
    forall w | w in Split(Lower(s)) ensures IsLowerCase(w) {
      ContainedIsLowerCase(Lower(s), w);
    }
  }
}
