/**
 Tool events of one tool grouped into one transcript entry. The entry's body is text; each new
 event reads its count and its recent details back out of the text printed before.
 */
module Grouping {
  import opened Prelude
  import opened Whitespace
  import opened Strings
  import opened Numerals

  datatype CountedDetail = CountedDetail(text: string, count: nat)

  /** A detail as printed behind "- ". */
  function Printed(d: CountedDetail): string {
    if d.count > 1 then d.text + " (x" + Show(d.count) + ")" else d.text
  }

  function ParseCountedDetail(value: string): Option<CountedDetail> {
    var t := Trim(value);
    var i := LastOccurrence(t, " (x");
    if t == "" then None
    else if i.Some? && EndsInNumber(t, i.value)
    then Some(CountedDetail(t[..i.value], ParseUsize(t[i.value + 3..|t| - 1]).value))
    else Some(CountedDetail(t, 1))
  }

  /** From `i` on the text reads " (xN)" with an `N` that parses. */
  predicate EndsInNumber(t: string, i: nat) {
    && OccursAt(t, " (x", i) && i + 4 <= |t| && t[|t| - 1] == ')'
    && ParseUsize(t[i + 3..|t| - 1]).Some?
  }

  /** The text itself ends in what looks like a count. */
  ghost predicate LooksCounted(t: string) {
    exists i :: 0 <= i <= |t| && EndsInNumber(t, i)
  }

  lemma NumeralCharacters(s: string)
    requires ParseUsize(s).Some?
    ensures forall k :: 0 <= k < |s| ==> IsDigit(s[k]) || s[k] == '+'
  {
    if s[0] == '+' {
      assert forall k :: 1 <= k < |s| ==> s[k] == s[1..][k - 1];
    }
  }

  /** Nothing in a count can be mistaken for the start of another one. */
  lemma CountIsLast(t: string, i: nat)
    requires EndsInNumber(t, i)
    ensures LastOccurrence(t, " (x") == Some(i)
  {
    var numeral := t[i + 3..|t| - 1];
    NumeralCharacters(numeral);
    assert forall k :: i + 3 <= k < |t| - 1 ==> t[k] == numeral[k - i - 3];
    var head := t[i..i + 3];
    assert t[i + 1] == head[1] && t[i + 2] == head[2];
    forall j | i < j <= |t| ensures !OccursAt(t, " (x", j) {
      if j + 3 <= |t| {
        assert t[j..j + 3][0] == t[j] != ' ';
      }
    }
  }

  lemma PrintedEndsInNumber(d: CountedDetail)
    requires 1 < d.count <= USIZE_MAX
    ensures EndsInNumber(Printed(d), |d.text|)
    ensures var t := Printed(d); t[..|d.text|] == d.text && t[|d.text| + 3..|t| - 1] == Show(d.count)
  {
    ParseShow(d.count);
    var t, i := Printed(d), |d.text|;
    assert t[i + 3..|t| - 1] == Show(d.count);
    assert t[i..i + 3] == " (x";
  }

  lemma TrimShortens(s: string)
    ensures |Trim(s)| <= |s| && (|Trim(s)| == |s| ==> Trim(s) == s)
    ensures OneLine(s) ==> OneLine(Trim(s))
  {
  }

  /** What is read is a front part of the trimmed text, and never empty. */
  lemma ParsedIsFront(value: string)
    requires ParseCountedDetail(value).Some?
    ensures var r, t := ParseCountedDetail(value).value, Trim(value);
            && r.text != "" && !IsBlank(r.text[0]) && r.text <= t && r.count <= USIZE_MAX
            && (r.count != 1 ==> LooksCounted(t))
            && (LooksCounted(t) ==> |r.text| < |t|)
  {
    var t := Trim(value);
    if LooksCounted(t) {
      var i :| 0 <= i <= |t| && EndsInNumber(t, i);
      CountIsLast(t, i);
      CountIsBehind(t, i);
    }
  }

  lemma CountIsBehind(t: string, i: nat)
    requires EndsInNumber(t, i) && Trimmed(t)
    ensures 0 < i < |t| && !IsBlank(t[..i][0])
  {
    assert t[i..i + 3][0] == t[i] == ' ';
  }

  /**
   When a printed detail reads back as itself: the text does not begin with a blank, and a count of one,
   which is not printed, stands behind a text that is trimmed and does not itself end in a count.
   */
  ghost predicate ReadsBack(d: CountedDetail) {
    && d.text != "" && !IsBlank(d.text[0])
    && (d.count > 1 || (d.count == 1 && Trimmed(d.text) && !LooksCounted(d.text)))
  }

  lemma CountedReadsBack(d: CountedDetail)
    requires 1 < d.count <= USIZE_MAX && d.text != "" && !IsBlank(d.text[0])
    ensures ParseCountedDetail(Printed(d)) == Some(d)
  {
    var t := Printed(d);
    PrintedEndsInNumber(d);
    CountIsLast(t, |d.text|);
    ParseShow(d.count);
    assert t[0] == d.text[0] && t[|t| - 1] == ')';
  }

  /** Reading a printed detail back gives the detail if and only if `ReadsBack` says so, for every detail. */
  lemma ParseInvertsPrint(d: CountedDetail)
    requires d.count <= USIZE_MAX
    ensures ParseCountedDetail(Printed(d)) == Some(d) <==> ReadsBack(d)
  {
    if ReadsBack(d) && d.count > 1 {
      CountedReadsBack(d);
    } else if ParseCountedDetail(Printed(d)).Some? {
      ParsedIsFront(Printed(d));
      TrimShortens(d.text);
    }
  }

  // ----- reading a body -----

  /** The first of the lines that has the prefix, without it. */
  function FirstWith(lines: seq<string>, prefix: string): Option<string> {
    if lines == [] then None
    else if StartsWith(lines[0], prefix) then StripPrefix(lines[0], prefix)
    else FirstWith(lines[1..], prefix)
  }

  function CountInLine(line: string): Option<nat> {
    if StartsWith(line, "Events: ") then ParseUsize(line[8..]) else None
  }

  function FirstCount(lines: seq<string>): Option<nat> {
    if lines == [] then None
    else if CountInLine(lines[0]).Some? then CountInLine(lines[0])
    else FirstCount(lines[1..])
  }

  /** `grouped_tool_event_count`. */
  function EventCount(body: string): Option<nat> {
    FirstCount(SplitLines(body))
  }

  function DetailInLine(line: string): Option<CountedDetail> {
    if StartsWith(line, "- ") then ParseCountedDetail(line[2..]) else None
  }

  function DetailsIn(lines: seq<string>): seq<CountedDetail> {
    if lines == [] then []
    else
      var d := DetailInLine(lines[0]);
      (if d.Some? then [d.value] else []) + DetailsIn(lines[1..])
  }

  /** `grouped_tool_recent_details`. */
  function RecentDetails(body: string): seq<CountedDetail> {
    DetailsIn(SplitLines(body))
  }

  /** `tool_detail_line`. */
  function DetailLine(body: string): Option<string> {
    var d := FirstWith(SplitLines(body), "Detail: ");
    if d.Some? then d else FirstWith(SplitLines(body), "Latest: ")
  }

  predicate IsContext(line: string) {
    || StartsWith(line, "Provider: ") || StartsWith(line, "Family: ") || StartsWith(line, "Model: ")
    || StartsWith(line, "Response: ") || StartsWith(line, "Command: ") || StartsWith(line, "Target: ")
  }

  function ContextOf(lines: seq<string>): (r: seq<string>)
    ensures forall l :: l in r ==> l in lines && IsContext(l)
  {
    if lines == [] then []
    else (if IsContext(lines[0]) then [lines[0]] else []) + ContextOf(lines[1..])
  }

  // ----- writing a body -----

  function SaturatingNext(n: nat): nat {
    if n < USIZE_MAX then n + 1 else USIZE_MAX
  }

  /** The first detail from `i` on whose text reads the same up to white space. */
  function IndexFrom(details: seq<CountedDetail>, text: string, i: nat): (r: Option<nat>)
    requires i <= |details|
    ensures r.Some? ==> i <= r.value < |details| && Normalize(details[r.value].text) == Normalize(text)
    ensures r.None? ==> forall j :: i <= j < |details| ==> Normalize(details[j].text) != Normalize(text)
    decreases |details| - i
  {
    if i == |details| then None
    else if Normalize(details[i].text) == Normalize(text) then Some(i)
    else IndexFrom(details, text, i + 1)
  }

  function IndexOfDetail(details: seq<CountedDetail>, text: string): (r: Option<nat>)
    ensures r.Some? ==> r.value < |details| && Normalize(details[r.value].text) == Normalize(text)
    ensures r.None? ==> forall i :: 0 <= i < |details| ==> Normalize(details[i].text) != Normalize(text)
  {
    IndexFrom(details, text, 0)
  }

  /** The last four of a list. */
  function LastFour<T>(s: seq<T>): (r: seq<T>)
    ensures |r| <= 4 && (|s| <= 4 ==> r == s)
  {
    if |s| > 4 then s[|s| - 4..] else s
  }

  function Pushed(details: seq<CountedDetail>, text: string): seq<CountedDetail> {
    var i := IndexOfDetail(details, text);
    if AllBlank(text) then details
    else if i.Some? then details[i.value := details[i.value].(count := SaturatingNext(details[i.value].count))]
    else LastFour(details + [CountedDetail(text, 1)])
  }

  /** `push_counted_detail`. */
  method PushCountedDetail(details0: seq<CountedDetail>, text: string) returns (details: seq<CountedDetail>)
    ensures details == Pushed(details0, text)
  {
    details := details0;
    if AllBlank(text) {
      return;
    }
    var i := 0;
    while i < |details|
      invariant 0 <= i <= |details0| && details == details0
      invariant IndexOfDetail(details0, text) == IndexFrom(details0, text, i)
    {
      if Normalize(details[i].text) == Normalize(text) {
        details := details[i := details[i].(count := SaturatingNext(details[i].count))];
        return;
      }
      i := i + 1;
    }
    details := details + [CountedDetail(text, 1)];
    if |details| > 4 {
      details := details[|details| - 4..];
    }
  }

  function Rows(details: seq<CountedDetail>): (r: seq<string>)
    ensures |r| == |details|
    ensures forall i :: 0 <= i < |r| ==> r[i] == "- " + Printed(details[i])
  {
    seq(|details|, i requires 0 <= i < |details| => "- " + Printed(details[i]))
  }

  function Latest(next: string): string {
    DetailLine(next).GetOr(CompactText(next, 120))
  }

  /** The details of the entry after one more event. */
  function DetailsAfter(existing: string, next: string): seq<CountedDetail> {
    var recent := RecentDetails(existing);
    var details := if recent == [] then [CountedDetail(Latest(existing), 1)] else recent;
    Pushed(details, Latest(next))
  }

  function GroupedLines(title: string, existing: string, next: string): seq<string> {
    ["Tool: " + title, "Events: " + Show(SaturatingNext(EventCount(existing).GetOr(1)))]
    + ContextOf(SplitLines(next))
    + ["Latest: " + Latest(next), "Recent:"]
    + Rows(LastFour(DetailsAfter(existing, next)))
  }

  /** `grouped_tool_transcript_body`. */
  function GroupedBody(title: string, existing: string, next: string): string {
    JoinLines(GroupedLines(title, existing, next))
  }

  // ----- the count -----

  lemma JoinTwo(lines: seq<string>)
    requires |lines| > 2
    ensures JoinLines(lines) == lines[0] + "\n" + (lines[1] + "\n" + JoinLines(lines[2..]))
  {
    assert lines[1..][1..] == lines[2..] && lines[1..][0] == lines[1];
  }

  lemma {:induction false} CountConcat(a: seq<string>, b: seq<string>)
    ensures FirstCount(a + b) == if FirstCount(a).Some? then FirstCount(a) else FirstCount(b)
  {
    if a == [] {
      EmptyAppend(b);
    } else {
      TailOfAppend(a, b);
      CountConcat(a[1..], b);
    }
  }

  /** The count that a tool's name itself brings into a body, when it holds a line that reads as one. */
  function TitleCount(title: string): Option<nat> {
    EventCount("Tool: " + title + "\n")
  }

  lemma CountLineReads(n: nat)
    requires n <= USIZE_MAX
    ensures StripReturn("Events: " + Show(n)) == "Events: " + Show(n)
    ensures CountInLine("Events: " + Show(n)) == Some(n)
  {
    ParseShow(n);
    var line := "Events: " + Show(n);
    assert line[8..] == Show(n);
    assert line[|line| - 1] == Show(n)[|Show(n)| - 1];
  }

  lemma NoCountInLine(line: string)
    requires line != [] && line[0] != 'E'
    ensures CountInLine(StripReturn(line)).None?
  {
  }

  lemma {:induction false} CountFits(lines: seq<string>)
    ensures FirstCount(lines).GetOr(1) <= USIZE_MAX
  {
    if lines != [] { CountFits(lines[1..]); }
  }

  lemma CountLineFirst(n: nat, rest: string)
    requires n <= USIZE_MAX
    ensures EventCount("Events: " + Show(n) + "\n" + rest) == Some(n)
  {
    CountLineReads(n);
    SplitFirst("Events: " + Show(n), rest);
  }

  lemma OneLineTitleCounts(title: string)
    requires OneLine(title)
    ensures TitleCount(title).None?
  {
    var line := "Tool: " + title;
    SplitLine(line);
    NoCountInLine(line);
    var lines := [StripReturn(line)];
    assert lines[1..] == [] && lines[0] == StripReturn(line);
    assert SplitLines("Tool: " + title + "\n") == lines;
    assert FirstCount(lines).None?;
  }

  /**
   One more event, of any name, onto any body: the count that reads back is the next one, up to saturation,
   but for a name that brings its own.
   */
  lemma GroupingCounts(title: string, existing: string, next: string)
    ensures EventCount(GroupedBody(title, existing, next))
            == Some(TitleCount(title).GetOr(SaturatingNext(EventCount(existing).GetOr(1))))
  {
    var lines := GroupedLines(title, existing, next);
    var n := SaturatingNext(EventCount(existing).GetOr(1));
    CountFits(SplitLines(existing));
    JoinTwo(lines);
    var rest := JoinLines(lines[2..]);
    SplitConcat(lines[0], lines[1] + "\n" + rest);
    CountConcat(SplitLines(lines[0] + "\n"), SplitLines(lines[1] + "\n" + rest));
    CountLineFirst(n, rest);
  }
}
