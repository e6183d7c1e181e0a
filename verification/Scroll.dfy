/** The scroll offset of the transcript: lines counted from the end, saturating at 16 bits. */
module Scroll {
  import opened Prelude
  import opened Strings
  import opened Transcript

  const U16_MAX: nat := 0xFFFF

  predicate HasSeparator(k: Kind) {
    k !in [System, Progress, Tool, File, Command, Receipt]
  }

  /** `transcript_entry_visual_line_count`: the title, the body, perhaps a separator. */
  function VisualLines(e: Entry): (n: nat)
    ensures n >= 2
  {
    var body := |SplitLines(e.body)|;
    1 + (if body > 1 then body else 1) + (if HasSeparator(e.kind) then 1 else 0)
  }

  /** The lines of the entries from `i` on. */
  function LinesFrom(entries: seq<Entry>, i: nat): nat
    decreases |entries| - i
  {
    if i >= |entries| then 0 else VisualLines(entries[i]) + LinesFrom(entries, i + 1)
  }

  lemma {:induction false} LinesDecrease(entries: seq<Entry>, i: nat, j: nat)
    requires i <= j <= |entries|
    ensures LinesFrom(entries, j) + (j - i) <= LinesFrom(entries, i)
    ensures i < j ==> LinesFrom(entries, j) < LinesFrom(entries, i)
    decreases j - i
  {
    if i < j { LinesDecrease(entries, i + 1, j); }
  }

  /** `line_count_after_entry_index`. */
  method LineCountAfterEntryIndex(entries: seq<Entry>, target: nat) returns (n: nat)
    ensures n == Min(LinesFrom(entries, target + 1), U16_MAX)
  {
    var count := 0;
    var total := LinesFrom(entries, target + 1);
    for index := 0 to |entries|
      invariant index <= target ==> count == 0
      invariant index > target ==> count + LinesFrom(entries, index) == total
    {
      if index > target {
        count := count + VisualLines(entries[index]);
      }
    }
    return Min(count, U16_MAX);
  }

  /** The greatest index whose entry starts at least `scroll` lines above the end, or 0. */
  ghost predicate IsIndexForScroll(entries: seq<Entry>, scroll: nat, r: nat) {
    && (entries == [] ==> r == 0)
    && (entries != [] ==> r < |entries|)
    && (LinesFrom(entries, r) >= scroll || r == 0)
    && forall j :: r < j < |entries| ==> LinesFrom(entries, j) < scroll
  }

  lemma IndexForScrollUnique(entries: seq<Entry>, scroll: nat, a: nat, b: nat)
    requires IsIndexForScroll(entries, scroll, a) && IsIndexForScroll(entries, scroll, b)
    ensures a == b
  {
  }

  /** `transcript_entry_index_for_scroll`. */
  method TranscriptEntryIndexForScroll(entries: seq<Entry>, scroll: nat) returns (r: nat)
    ensures IsIndexForScroll(entries, scroll, r)
  {
    var remaining := scroll;
    var i := |entries|;
    while i > 0
      invariant 0 <= i <= |entries|
      invariant LinesFrom(entries, i) + remaining == scroll
      invariant i < |entries| ==> remaining > 0
      invariant forall j :: i <= j < |entries| ==> LinesFrom(entries, j) < scroll
    {
      var lines := VisualLines(entries[i - 1]);
      if remaining <= lines {
        return i - 1;
      }
      remaining := remaining - lines;
      i := i - 1;
    }
    return 0;
  }

  /** The scroll offset set by a jump to entry `i`. */
  function JumpScroll(entries: seq<Entry>, i: nat): nat {
    Min(LinesFrom(entries, i + 1), U16_MAX)
  }

  /**
   Jumping to entry `i` and reading the position back gives the entry after it, or the last one;
   exactly so as long as the lines from the entry after that stay below saturation.
   */
  lemma JumpReadsNextEntry(entries: seq<Entry>, i: nat, r: nat)
    requires i < |entries| && IsIndexForScroll(entries, JumpScroll(entries, i), r)
    ensures r == Min(i + 1, |entries| - 1) <==> i + 2 >= |entries| || LinesFrom(entries, i + 2) < U16_MAX
  {
    ReadsBackPast(entries, i, r);
    if i + 1 < |entries| {
      ReadsBackBelow(entries, i, i + 1, r);
      LinesDecrease(entries, |entries|, |entries|);
    }
  }

  /** Where the two jump keys go: to the nearest entry of the kind beyond the position, else around. */
  ghost predicate IsPreviousJump(matches: set<nat>, current: nat, to: nat) {
    && to in matches
    && (if exists m :: m in matches && m < current
        then to < current && forall m :: m in matches && m < current ==> m <= to
        else forall m :: m in matches ==> m <= to)
  }

  ghost predicate IsNextJump(matches: set<nat>, current: nat, to: nat) {
    && to in matches
    && (if exists m :: m in matches && m > current
        then to > current && forall m :: m in matches && m > current ==> to <= m
        else forall m :: m in matches ==> to <= m)
  }

  function Members(s: seq<nat>): set<nat> {
    set m | m in s
  }

  ghost predicate Increasing(s: seq<nat>) {
    forall i, j :: 0 <= i < j < |s| ==> s[i] < s[j]
  }

  /** The forward half of the jump: the first match beyond the position, or else the first. */
  method NextMatch(matches: seq<nat>, line: nat) returns (to: nat)
    requires matches != [] && Increasing(matches)
    ensures IsNextJump(Members(matches), line, to)
  {
    var k := 0;
    while k < |matches| && matches[k] <= line
      invariant 0 <= k <= |matches| && forall i :: 0 <= i < k ==> matches[i] <= line
    {
      k := k + 1;
    }
    to := if k < |matches| then matches[k] else matches[0];
  }

  /** The backward half: the last match before the position, or else the last. */
  method PreviousMatch(matches: seq<nat>, line: nat) returns (to: nat)
    requires matches != [] && Increasing(matches)
    ensures IsPreviousJump(Members(matches), line, to)
  {
    var k := |matches|;
    while k > 0 && matches[k - 1] >= line
      invariant 0 <= k <= |matches| && forall i :: k <= i < |matches| ==> matches[i] >= line
    {
      k := k - 1;
    }
    to := if k > 0 then matches[k - 1] else matches[|matches| - 1];
  }

  /** `jump_to_transcript_kind` on the indexes of the matching entries, in order. */
  method JumpTo(entries: seq<Entry>, matches: seq<nat>, scroll: nat, forward: bool, ghost current: nat)
    returns (to: nat)
    requires matches != [] && Increasing(matches)
    requires IsIndexForScroll(entries, scroll, current)
    ensures forward ==> IsNextJump(Members(matches), current, to)
    ensures !forward ==> IsPreviousJump(Members(matches), current, to)
  {
    var line := TranscriptEntryIndexForScroll(entries, scroll);
    IndexForScrollUnique(entries, scroll, line, current);
    if forward {
      to := NextMatch(matches, line);
    } else {
      to := PreviousMatch(matches, line);
    }
  }

  /** The lines behind an entry exceed what the offset can hold. */
  predicate Saturates(entries: seq<Entry>, m: nat) {
    LinesFrom(entries, m + 1) >= U16_MAX
  }

  /** A later entry lies above the position read back exactly when the lines behind it saturate the offset. */
  lemma ReadsBackBelow(entries: seq<Entry>, i: nat, m: nat, current: nat)
    requires i < m < |entries| && IsIndexForScroll(entries, JumpScroll(entries, i), current)
    ensures m < current <==> Saturates(entries, m)
  {
    LinesDecrease(entries, i + 1, m + 1);
    ReachesIff(entries, JumpScroll(entries, i), m, current);
  }

  lemma ReachesIff(entries: seq<Entry>, scroll: nat, m: nat, current: nat)
    requires m < |entries| && scroll > 0 && IsIndexForScroll(entries, scroll, current)
    ensures m < current <==> LinesFrom(entries, m + 1) >= scroll
  {
    if m < current {
      LinesDecrease(entries, m + 1, current);
    } else if m + 1 == |entries| {
      assert LinesFrom(entries, m + 1) == 0;
    }
  }

  /** The position read back after a jump lies below the entry, but for the last one. */
  lemma ReadsBackPast(entries: seq<Entry>, i: nat, current: nat)
    requires i < |entries| && IsIndexForScroll(entries, JumpScroll(entries, i), current)
    ensures if i + 1 < |entries| then i < current else i == current
  {
    if i + 1 < |entries| {
      assert LinesFrom(entries, i + 1) >= JumpScroll(entries, i);
      LinesDecrease(entries, i + 1, |entries|);
    } else {
      assert LinesFrom(entries, i) >= JumpScroll(entries, i);
    }
  }

  /** The previous match of a position behind `i` is `i` when no match lies between. */
  lemma PreviousIs(matches: set<nat>, current: nat, to: nat, i: nat)
    requires IsPreviousJump(matches, current, to) && i in matches && i < current
    ensures to == i <==> forall m :: m in matches && m > i ==> m >= current
  {
  }

  /**
   So jumping back from a matching entry that is not the last of the transcript lands on that same
   entry again: the key for the previous match does not move, unless the lines behind a later match
   saturate the offset. From the last entry it stays if and only if nothing else matches.
   */
  lemma PreviousJumpStays(entries: seq<Entry>, matches: set<nat>, i: nat, current: nat, to: nat)
    requires i < |entries| && i in matches && (forall m :: m in matches ==> m < |entries|)
    requires IsIndexForScroll(entries, JumpScroll(entries, i), current) && IsPreviousJump(matches, current, to)
    ensures to == i <==>
            if i + 1 < |entries| then forall m :: m in matches && m > i ==> !Saturates(entries, m)
            else forall m :: m in matches ==> m == i
  {
    ReadsBackPast(entries, i, current);
    if i + 1 < |entries| {
      PreviousIs(matches, current, to, i);
      MatchesBelow(entries, matches, i, current);
    } else {
      PreviousFromLast(matches, i, to);
    }
  }

  lemma MatchesBelow(entries: seq<Entry>, matches: set<nat>, i: nat, current: nat)
    requires i < |entries| && forall m :: m in matches ==> m < |entries|
    requires IsIndexForScroll(entries, JumpScroll(entries, i), current)
    ensures (forall m :: m in matches && m > i ==> m >= current)
            <==> (forall m :: m in matches && m > i ==> !Saturates(entries, m))
  {
    forall m | m in matches && m > i ensures m < current <==> Saturates(entries, m) {
      ReadsBackBelow(entries, i, m, current);
    }
  }

  lemma PreviousFromLast(matches: set<nat>, i: nat, to: nat)
    requires i in matches && (forall m :: m in matches ==> m <= i) && IsPreviousJump(matches, i, to)
    ensures to == i <==> forall m :: m in matches ==> m == i
  {
  }

  /** The key for the previous match reaches the match before only from the last entry of the transcript. */
  lemma PreviousJumpReaches(entries: seq<Entry>, matches: set<nat>, i: nat, p: nat, current: nat, to: nat)
    requires i < |entries| && i in matches
    requires p in matches && p < i && forall m :: m in matches && m < i ==> m <= p
    requires IsIndexForScroll(entries, JumpScroll(entries, i), current) && IsPreviousJump(matches, current, to)
    ensures to == p <==> i + 1 == |entries|
  {
    ReadsBackPast(entries, i, current);
  }

  lemma NextIs(matches: set<nat>, i: nat, m: nat, current: nat, to: nat)
    requires i in matches && m in matches && i < m && i <= current && IsNextJump(matches, current, to)
    requires forall k :: k in matches && k > i ==> k >= m
    ensures to == m <==> current < m
  {
  }

  /** The position read back is above an entry behind `i` exactly when that entry is no neighbour and not saturated. */
  lemma ReadsBackAbove(entries: seq<Entry>, i: nat, m: nat, current: nat)
    requires i < m < |entries| && IsIndexForScroll(entries, JumpScroll(entries, i), current)
    ensures current < m <==> m > i + 1 && LinesFrom(entries, m) < U16_MAX
  {
    ReadsBackPast(entries, i, current);
    if m > i + 1 { ReadsBackBelow(entries, i, m - 1, current); }
  }

  /**
   The key for the next match reaches the next match if and only if that one is not the entry right below,
   and the lines from it on do not saturate the offset; with no match behind, it goes to the first of all.
   */
  lemma NextJumpReaches(entries: seq<Entry>, matches: set<nat>, i: nat, m: nat, current: nat, to: nat)
    requires i < m < |entries| && i in matches && m in matches
    requires forall k :: k in matches && k > i ==> k >= m
    requires IsIndexForScroll(entries, JumpScroll(entries, i), current) && IsNextJump(matches, current, to)
    ensures to == m <==> m > i + 1 && LinesFrom(entries, m) < U16_MAX
  {
    ReadsBackPast(entries, i, current);
    ReadsBackAbove(entries, i, m, current);
    NextIs(matches, i, m, current, to);
  }

  lemma NextJumpWraps(entries: seq<Entry>, matches: set<nat>, i: nat, current: nat, to: nat)
    requires i < |entries| && i in matches && forall k :: k in matches ==> k <= i
    requires IsIndexForScroll(entries, JumpScroll(entries, i), current) && IsNextJump(matches, current, to)
    ensures to in matches && forall k :: k in matches ==> to <= k
  {
    ReadsBackPast(entries, i, current);
  }

  // ----- the lines of one entry -----

  /** An entry takes its title, the lines of its body or one when it is empty, and a blank one behind messages. */
  lemma LinesOfEntry(e: Entry)
    ensures e.kind in [User, Assistant, Approval, Failure] ==>
              VisualLines(e) == |SplitLines(e.body)| + (if e.body == "" then 3 else 2)
    ensures e.kind in [System, Progress, Kind.Tool, File, Command, Receipt] ==>
              VisualLines(e) == |SplitLines(e.body)| + (if e.body == "" then 2 else 1)
  {
    assert e.body != "" ==> |SplitLines(e.body)| >= 1;
    assert e.body == "" ==> SplitLines(e.body) == [];
  }
}
