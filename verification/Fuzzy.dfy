/** The greedy subsequence matcher behind the slash palette. */
module Fuzzy {
  import opened Prelude
  import opened Utf8

  /** `positions` places the characters of `query` in `t`, left to right. */
  ghost predicate IsEmbedding(query: string, t: string, positions: seq<nat>) {
    && |positions| == |query|
    && (forall i :: 0 <= i < |positions| ==> positions[i] < |t| && t[positions[i]] == query[i])
    && (forall i, j :: 0 <= i < j < |positions| ==> positions[i] < positions[j])
  }

  /** Where an embedding ends: just after its last character. */
  function EndOf(positions: seq<nat>): nat {
    if positions == [] then 0 else positions[|positions| - 1] + 1
  }

  /** The first position from `k` on that holds `c`. */
  function FindChar(t: string, k: nat, c: char): (r: Option<nat>)
    requires k <= |t|
    ensures r.Some? ==> k <= r.value < |t| && t[r.value] == c && forall i :: k <= i < r.value ==> t[i] != c
    ensures r.None? ==> forall i :: k <= i < |t| ==> t[i] != c
    decreases |t| - k
  {
    if k == |t| then None else if t[k] == c then Some(k) else FindChar(t, k + 1, c)
  }

  /** Where the greedy match of the first `n` characters of the query ends. */
  function GreedyEnd(query: string, t: string, n: nat): (r: Option<nat>)
    requires n <= |query|
    ensures r.Some? ==> r.value <= |t|
  {
    if n == 0 then Some(0)
    else
      var before := GreedyEnd(query, t, n - 1);
      if before.None? then None
      else
        var found := FindChar(t, before.value, query[n - 1]);
        if found.None? then None else Some(found.value + 1)
  }

  /** The score: the byte offset of the end of the greedy match, less the bytes of the query. */
  ghost function Score(query: string, t: string): Option<int> {
    var e := GreedyEnd(query, t, |query|);
    if e.None? then None else Some(Offset(t, e.value) - |Encode(query)|)
  }

  /** The greedy match is an embedding, and no embedding ends earlier. */
  lemma {:induction false} GreedyFinds(query: string, t: string, n: nat) returns (positions: seq<nat>)
    requires n <= |query| && GreedyEnd(query, t, n).Some?
    ensures IsEmbedding(query[..n], t, positions) && EndOf(positions) == GreedyEnd(query, t, n).value
  {
    if n == 0 {
      positions := [];
    } else {
      var before := GreedyFinds(query, t, n - 1);
      positions := before + [GreedyEnd(query, t, n).value - 1];
    }
  }

  lemma {:induction false} GreedyEndsFirst(query: string, t: string, n: nat, positions: seq<nat>)
    requires n <= |query| && IsEmbedding(query[..n], t, positions)
    ensures GreedyEnd(query, t, n).Some? && GreedyEnd(query, t, n).value <= EndOf(positions)
  {
    if n > 0 {
      var before := positions[..n - 1];
      assert IsEmbedding(query[..n - 1], t, before);
      GreedyEndsFirst(query, t, n - 1, before);
      assert EndOf(before) <= positions[n - 1];
      assert t[positions[n - 1]] == query[n - 1];
    }
  }

  /**
   There is a score exactly when the query is a subsequence of the candidate, and it is the end of
   an earliest-ending embedding, in bytes, less the bytes of the query.
   */
  lemma ScoreIsOptimal(query: string, t: string)
    ensures Score(query, t).Some? <==> exists p :: IsEmbedding(query, t, p)
    ensures forall p :: IsEmbedding(query, t, p) ==>
              EndOf(p) <= |t| && 0 <= Score(query, t).value <= Offset(t, EndOf(p)) - |Encode(query)|
    ensures Score(query, t).Some? ==>
              exists p :: (IsEmbedding(query, t, p) && EndOf(p) <= |t|
                           && Score(query, t).value == Offset(t, EndOf(p)) - |Encode(query)|)
  {
    assert query[..|query|] == query;
    if GreedyEnd(query, t, |query|).Some? {
      var p := GreedyFinds(query, t, |query|);
    }
    forall p | IsEmbedding(query, t, p)
      ensures Score(query, t).Some? && EndOf(p) <= |t|
      ensures 0 <= Score(query, t).value <= Offset(t, EndOf(p)) - |Encode(query)|
    {
      GreedyEndsFirst(query, t, |query|, p);
      OffsetMonotone(t, GreedyEnd(query, t, |query|).value, EndOf(p));
      ScoreNotNegative(query, t, |query|);
    }
  }

  lemma {:induction false} ScoreNotNegative(query: string, t: string, n: nat)
    requires n <= |query| && GreedyEnd(query, t, n).Some?
    ensures Offset(query, n) <= Offset(t, GreedyEnd(query, t, n).value)
    ensures n == |query| ==> Offset(query, n) == |Encode(query)|
  {
    OffsetEnds(query);
    if n > 0 {
      var before := GreedyEnd(query, t, n - 1).value;
      var j := GreedyEnd(query, t, n).value - 1;
      ScoreNotNegative(query, t, n - 1);
      OffsetMonotone(t, before, j);
      CharSplit(t, j);
      CharSplit(query, n - 1);
    } else {
      OffsetEnds(t);
    }
  }

  /** `candidate[cursor..].find(needle)`: the bytes skipped before the first such character. */
  method FindFrom(bytes: seq<Byte>, cursor: nat, needle: char, ghost t: string, ghost k: nat)
    returns (found: Option<nat>)
    requires bytes == Encode(t) && k <= |t| && cursor == Offset(t, k)
    ensures found.Some? <==> FindChar(t, k, needle).Some?
    ensures found.Some? ==> cursor + found.value == Offset(t, FindChar(t, k, needle).value)
  {
    var i := cursor;
    ghost var n := k;
    OffsetEnds(t);
    OffsetMonotone(t, k, |t|);
    while i < |bytes|
      invariant k <= n <= |t| && cursor <= i == Offset(t, n) <= |bytes|
      invariant FindChar(t, k, needle) == FindChar(t, n, needle)
    {
      CharAt(t, n);
      if CodePointAt(bytes, i) == needle as int {
        return Some(i - cursor);
      }
      OffsetMonotone(t, n + 1, |t|);
      i := i + WidthOfLead(bytes[i]);
      n := n + 1;
    }
    OffsetMonotone(t, n, |t|);
    return None;
  }

  /** One more query character, found at `j`. */
  lemma CharFound(query: string, t: string, n: nat, k: nat, j: nat)
    requires n < |query| && GreedyEnd(query, t, n) == Some(k) && k <= |t| && FindChar(t, k, query[n]) == Some(j)
    ensures j < |t| && GreedyEnd(query, t, n + 1) == Some(j + 1)
    ensures Offset(t, j + 1) == Offset(t, j) + Width(query[n])
    ensures Offset(query, n + 1) == Offset(query, n) + Width(query[n])
  {
    CharSplit(t, j);
    CharSplit(query, n);
  }

  /** `fuzzy_subsequence_score`. */
  method FuzzySubsequenceScore(query: string, candidate: string) returns (r: Option<int>)
    ensures r == Score(query, candidate)
  {
    if query == "" {
      OffsetEnds(candidate);
      return Some(0);
    }
    var score, cursor := 0, 0;
    var bytes := Encode(candidate);
    ghost var k := 0;
    OffsetEnds(candidate);
    OffsetEnds(query);
    for n := 0 to |query|
      invariant GreedyEnd(query, candidate, n) == Some(k) && k <= |candidate|
      invariant cursor == Offset(candidate, k)
      invariant score + Offset(query, n) == cursor
    {
      var needle := query[n];
      var found := FindFrom(bytes, cursor, needle, candidate, k);
      if found.None? {
        GreedyStuck(query, candidate, n + 1, |query|);
        return None;
      }
      ghost var j := FindChar(candidate, k, needle).value;
      CharFound(query, candidate, n, k, j);
      score := score + found.value;
      cursor := cursor + found.value + Width(needle);
      k := j + 1;
    }
    return Some(score);
  }

  lemma {:induction false} GreedyStuck(query: string, t: string, n: nat, m: nat)
    requires n <= m <= |query| && GreedyEnd(query, t, n).None?
    ensures GreedyEnd(query, t, m).None?
  {
    if n < m { GreedyStuck(query, t, n, m - 1); }
  }
}
