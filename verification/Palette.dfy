/** Ranking of the slash palette: which rows match, and which five are shown. */
module Palette {
  import opened Prelude
  import opened Fuzzy
  import opened Strings

  /** A suggestion, by what it is ranked with: its group, its score, its place in the catalogue. */
  datatype Row = Row(demoted: bool, score: int, index: nat)

  const MAX_SLASH_SUGGESTIONS: nat := 5

  /** The sort key of a row, smaller first. */
  predicate Before(a: Row, b: Row) {
    || (!a.demoted && b.demoted)
    || (a.demoted == b.demoted && (a.score < b.score || (a.score == b.score && a.index < b.index)))
  }

  predicate Sorted(rows: seq<Row>) {
    forall i, j :: 0 <= i < j < |rows| ==> Before(rows[i], rows[j])
  }

  predicate DistinctIndexes(rows: seq<Row>) {
    forall i, j :: 0 <= i < j < |rows| ==> rows[i].index != rows[j].index
  }

  /** Insert a row behind every row it does not precede, as a stable sort does. */
  function Inserted(rows: seq<Row>, r: Row): (s: seq<Row>)
    ensures |s| == |rows| + 1
    ensures forall x :: x in s <==> x in rows || x == r
  {
    if rows == [] then [r]
    else if Before(r, rows[|rows| - 1]) then Inserted(rows[..|rows| - 1], r) + [rows[|rows| - 1]]
    else rows + [r]
  }

  lemma {:induction false} InsertedSorted(rows: seq<Row>, r: Row)
    requires Sorted(rows) && forall x :: x in rows ==> x.index != r.index
    ensures Sorted(Inserted(rows, r))
  {
    if rows != [] && Before(r, rows[|rows| - 1]) {
      var init, last := rows[..|rows| - 1], rows[|rows| - 1];
      InsertedSorted(init, r);
      var s := Inserted(init, r);
      forall i | 0 <= i < |s| ensures Before(s[i], last) {
        assert s[i] in s;
      }
    } else if rows != [] {
      var last := rows[|rows| - 1];
      assert last in rows && Before(last, r);
    }
  }

  /**
   `sort_by_key`, then `take(5)`. The rows kept are the first five of the only order that is sorted:
   keys never tie, because catalogue places differ.
   */
  method RankAndTruncate(rows: seq<Row>) returns (kept: seq<Row>)
    requires DistinctIndexes(rows)
    ensures IsTop(rows, kept)
  {
    var sorted: seq<Row> := [];
    for i := 0 to |rows|
      invariant Sorted(sorted) && |sorted| == i
      invariant forall x :: x in sorted <==> x in rows[..i]
    {
      assert rows[..i + 1] == rows[..i] + [rows[i]];
      assert forall x :: x in rows[..i] ==> x.index != rows[i].index;
      InsertedSorted(sorted, rows[i]);
      sorted := Inserted(sorted, rows[i]);
    }
    assert rows[..|rows|] == rows;
    kept := sorted[..if |sorted| <= MAX_SLASH_SUGGESTIONS then |sorted| else MAX_SLASH_SUGGESTIONS];
    var rest := sorted[|kept|..];
    assert sorted == kept + rest;
    forall x | x in rows && x !in kept
      ensures |kept| == MAX_SLASH_SUGGESTIONS && forall y :: y in kept ==> Before(y, x)
    {
      assert x in sorted;
      var i :| 0 <= i < |rest| && rest[i] == x;
      assert sorted[|kept| + i] == x;
    }
  }

  /** The at most five rows with the smallest keys, in strictly increasing order. */
  ghost predicate IsTop(rows: seq<Row>, kept: seq<Row>) {
    && Sorted(kept) && |kept| <= MAX_SLASH_SUGGESTIONS
    && (forall x :: x in kept ==> x in rows)
    && (forall x :: x in rows && x !in kept ==>
          |kept| == MAX_SLASH_SUGGESTIONS && forall y :: y in kept ==> Before(y, x))
  }

  // ----- the rows of a slash query -----

  datatype Hint = Hint(name: string, usage: string, summary: string, aliases: seq<string>)

  /** `name` or an alias starts with the query; `lower` is the Unicode `to_lowercase`. */
  predicate ExactPrefix(lower: string -> string, query: string, h: Hint) {
    StartsWith(lower(h.name), query) || exists a :: a in h.aliases && StartsWith(lower(a), query)
  }

  /** The name decides; the usage is tried from three characters on, the summary from two. */
  ghost function FuzzyScore(lower: string -> string, query: string, h: Hint): Option<int> {
    var byName := Score(query, lower(h.name));
    var byUsage := if |query| > 2 then Score(query, lower(h.usage)) else None;
    if byName.Some? then byName
    else if byUsage.Some? then byUsage
    else if |query| > 1 then Score(query, lower(h.summary)) else None
  }

  ghost predicate Matches(lower: string -> string, query: string, h: Hint) {
    || ExactPrefix(lower, query, h)
    || FuzzyScore(lower, query, h).Some?
    || (|query| > 1 && Contains(lower(h.summary), query))
  }

  ghost function RowOf(lower: string -> string, query: string, h: Hint, index: nat): Row {
    var exact := ExactPrefix(lower, query, h);
    Row(!exact, if exact then 0 else FuzzyScore(lower, query, h).GetOr(500), index)
  }

  /** The matching rows of the catalogue, in its order. */
  ghost function MatchingRows(lower: string -> string, query: string, catalog: seq<Hint>): (rows: seq<Row>)
    ensures DistinctIndexes(rows)
    ensures forall x :: x in rows <==> x.index < |catalog| && Matches(lower, query, catalog[x.index])
                                       && x == RowOf(lower, query, catalog[x.index], x.index)
  {
    if catalog == [] then []
    else
      var n := |catalog| - 1;
      var before := MatchingRows(lower, query, catalog[..n]);
      assert forall i :: 0 <= i < |before| ==> before[i] in before;
      before + (if Matches(lower, query, catalog[n]) then [RowOf(lower, query, catalog[n], n)] else [])
  }

  /** A text contains the query only where the query is a subsequence of it. */
  lemma ContainedIsMatched(query: string, t: string)
    requires Contains(t, query)
    ensures Score(query, t).Some?
  {
    var i :| 0 <= i <= |t| && OccursAt(t, query, i);
    var p := seq(|query|, k requires 0 <= k < |query| => i + k);
    assert forall k :: 0 <= k < |query| ==> t[p[k]] == t[i..i + |query|][k];
    assert IsEmbedding(query, t, p);
    ScoreIsOptimal(query, t);
  }

  /** So the last alternative of the match, and the score 500 it stands for, are never needed. */
  lemma SummaryMatchIsFuzzy(lower: string -> string, query: string, h: Hint)
    ensures Matches(lower, query, h) <==> ExactPrefix(lower, query, h) || FuzzyScore(lower, query, h).Some?
    ensures Matches(lower, query, h) ==>
              RowOf(lower, query, h, 0).score
              == if ExactPrefix(lower, query, h) then 0 else FuzzyScore(lower, query, h).value
  {
    if |query| > 1 && Contains(lower(h.summary), query) {
      ContainedIsMatched(query, lower(h.summary));
    }
  }

  /** A greedy match is what one candidate text gives, when it is tried. */
  method ScoreIf(tried: bool, query: string, candidate: string) returns (r: Option<int>)
    ensures r == if tried then Score(query, candidate) else None
  {
    r := None;
    if tried {
      r := FuzzySubsequenceScore(query, candidate);
    }
  }

  /** The row of one hint, when it matches. */
  method MatchHint(lower: string -> string, query: string, h: Hint, index: nat) returns (r: Option<Row>)
    ensures r == if Matches(lower, query, h) then Some(RowOf(lower, query, h, index)) else None
  {
    var exact := ExactPrefix(lower, query, h);
    var fuzzy := ScoreIf(true, query, lower(h.name));
    if fuzzy.None? {
      fuzzy := ScoreIf(|query| > 2, query, lower(h.usage));
    }
    if fuzzy.None? {
      fuzzy := ScoreIf(|query| > 1, query, lower(h.summary));
    }
    if exact || fuzzy.Some? || (|query| > 1 && Contains(lower(h.summary), query)) {
      return Some(Row(!exact, if exact then 0 else fuzzy.GetOr(500), index));
    }
    return None;
  }

  /**
   The fuzzy branch of `slash_suggestion_rows`: at most five rows with strictly increasing keys, all
   of matching hints, and any matching hint left out has a larger key than the five shown.
   */
  method SlashSuggestionRows(lower: string -> string, query: string, catalog: seq<Hint>) returns (kept: seq<Row>)
    ensures IsTop(MatchingRows(lower, query, catalog), kept)
  {
    var rows: seq<Row> := [];
    for i := 0 to |catalog|
      invariant rows == MatchingRows(lower, query, catalog[..i])
    {
      var row := MatchHint(lower, query, catalog[i], i);
      assert catalog[..i + 1][..i] == catalog[..i];
      if row.Some? {
        rows := rows + [row.value];
      }
    }
    assert catalog[..|catalog|] == catalog;
    kept := RankAndTruncate(rows);
  }

  // ----- the rows shown, in terms of the texts of the hints -----

  ghost predicate Embeds(query: string, t: string) {
    exists p :: IsEmbedding(query, t, p)
  }

  /** The name is tried first; only from three characters on the usage, only from two on the summary. */
  lemma FuzzyTexts(lower: string -> string, query: string, h: Hint)
    ensures Embeds(query, lower(h.name)) ==> FuzzyScore(lower, query, h) == Score(query, lower(h.name))
    ensures !Embeds(query, lower(h.name)) && |query| >= 3 && Embeds(query, lower(h.usage)) ==>
              FuzzyScore(lower, query, h) == Score(query, lower(h.usage))
    ensures !Embeds(query, lower(h.name)) && !(|query| >= 3 && Embeds(query, lower(h.usage))) ==>
              FuzzyScore(lower, query, h)
              == if |query| >= 2 && Embeds(query, lower(h.summary)) then Score(query, lower(h.summary)) else None
  {
    ScoreIsOptimal(query, lower(h.name));
    ScoreIsOptimal(query, lower(h.usage));
    ScoreIsOptimal(query, lower(h.summary));
  }

  /** One of the hint's names begins with the query. */
  ghost predicate Begins(lower: string -> string, query: string, h: Hint) {
    exists n :: n in [h.name] + h.aliases && |query| <= |lower(n)| && lower(n)[..|query|] == query
  }

  lemma BeginsIsPrefix(lower: string -> string, query: string, h: Hint)
    ensures Begins(lower, query, h) <==> ExactPrefix(lower, query, h)
  {
    assert forall n :: n in [h.name] + h.aliases <==> n == h.name || n in h.aliases;
    assert forall n :: StartsWith(lower(n), query) <==> |query| <= |lower(n)| && lower(n)[..|query|] == query;
  }

  /** The first hint comes before the second: names that begin with the query before all others, each by itself. */
  ghost predicate Precedes(lower: string -> string, query: string, catalog: seq<Hint>, i: nat, j: nat)
    requires i < |catalog| && j < |catalog|
  {
    var a, b := FuzzyScore(lower, query, catalog[i]), FuzzyScore(lower, query, catalog[j]);
    if Begins(lower, query, catalog[i]) then Begins(lower, query, catalog[j]) ==> i < j
    else !Begins(lower, query, catalog[j])
         && a.Some? && b.Some? && (a.value < b.value || (a.value == b.value && i < j))
  }

  lemma RowsPrecede(lower: string -> string, query: string, catalog: seq<Hint>, x: Row, y: Row)
    requires x in MatchingRows(lower, query, catalog) && y in MatchingRows(lower, query, catalog)
    ensures x.index < |catalog| && y.index < |catalog|
    ensures Before(x, y) <==> Precedes(lower, query, catalog, x.index, y.index)
  {
    SummaryMatchIsFuzzy(lower, query, catalog[x.index]);
    SummaryMatchIsFuzzy(lower, query, catalog[y.index]);
    BeginsIsPrefix(lower, query, catalog[x.index]);
    BeginsIsPrefix(lower, query, catalog[y.index]);
  }

  /** A hint is a candidate when a name begins with the query, or when it has a score. */
  ghost predicate Candidate(lower: string -> string, query: string, h: Hint) {
    Begins(lower, query, h) || FuzzyScore(lower, query, h).Some?
  }

  lemma CandidateHasRow(lower: string -> string, query: string, catalog: seq<Hint>, i: nat)
    requires i < |catalog|
    ensures Candidate(lower, query, catalog[i])
            <==> exists x :: x in MatchingRows(lower, query, catalog) && x.index == i
  {
    SummaryMatchIsFuzzy(lower, query, catalog[i]);
    BeginsIsPrefix(lower, query, catalog[i]);
    if Candidate(lower, query, catalog[i]) {
      assert RowOf(lower, query, catalog[i], i) in MatchingRows(lower, query, catalog);
    }
  }

  /**
   The rows that are shown are candidates, at most five, each before those below it; and a candidate that is not
   shown comes after five that are.
   */
  lemma ShownAreFirst(lower: string -> string, query: string, catalog: seq<Hint>, kept: seq<Row>)
    requires IsTop(MatchingRows(lower, query, catalog), kept)
    ensures |kept| <= 5
    ensures forall x :: x in kept ==> x.index < |catalog| && Candidate(lower, query, catalog[x.index])
    ensures forall i, j :: 0 <= i < j < |kept| ==>
              Precedes(lower, query, catalog, kept[i].index, kept[j].index)
    ensures forall i :: 0 <= i < |catalog| && Candidate(lower, query, catalog[i])
                        && (forall x :: x in kept ==> x.index != i) ==>
              |kept| == 5 && forall x :: x in kept ==> Precedes(lower, query, catalog, x.index, i)
  {
    forall x | x in kept ensures x.index < |catalog| && Candidate(lower, query, catalog[x.index]) {
      CandidateHasRow(lower, query, catalog, x.index);
    }
    forall i, j | 0 <= i < j < |kept| ensures Precedes(lower, query, catalog, kept[i].index, kept[j].index) {
      RowsPrecede(lower, query, catalog, kept[i], kept[j]);
    }
    forall i | 0 <= i < |catalog| && Candidate(lower, query, catalog[i]) && forall x :: x in kept ==> x.index != i
      ensures |kept| == 5 && forall x :: x in kept ==> Precedes(lower, query, catalog, x.index, i)
    {
      LeftOut(lower, query, catalog, kept, i);
    }
  }

  lemma LeftOut(lower: string -> string, query: string, catalog: seq<Hint>, kept: seq<Row>, i: nat)
    requires IsTop(MatchingRows(lower, query, catalog), kept)
    requires i < |catalog| && Candidate(lower, query, catalog[i]) && forall x :: x in kept ==> x.index != i
    ensures |kept| == 5
    ensures forall x :: x in kept ==> x.index < |catalog| && Precedes(lower, query, catalog, x.index, i)
  {
    CandidateHasRow(lower, query, catalog, i);
    var y :| y in MatchingRows(lower, query, catalog) && y.index == i;
    forall x | x in kept ensures x.index < |catalog| && Precedes(lower, query, catalog, x.index, i) {
      RowsPrecede(lower, query, catalog, x, y);
    }
  }
}
