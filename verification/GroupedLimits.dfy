/** Where a grouped body does not say what it is meant to: events of several lines. */
module GroupedLimits {
  import opened Prelude
  import opened Whitespace
  import opened Strings
  import opened Numerals
  import opened Grouping
  import opened GroupedRows
  import opened GroupedRuns

  /** An event that runs a command, without a message. */
  function CommandUse(tool: string, command: string): ToolUse {
    ToolUse(tool, None, None, None, None, Some(command), None, None)
  }

  lemma CommandSummary(tool: string, command: string)
    ensures Summary(CommandUse(tool, command)) == "Tool: " + tool + "\n" + ("Command: " + command)
  {
    CommandLines(tool, command);
    JoinPair("Tool: " + tool, "Command: " + command);
  }

  lemma CommandLines(tool: string, command: string)
    ensures SummaryLines(CommandUse(tool, command)) == ["Tool: " + tool, "Command: " + command]
  {
  }

  lemma JoinPair(x: string, y: string)
    ensures JoinLines([x, y]) == x + "\n" + y
  {
    assert [x, y][1..] == [y];
  }

  // ----- the count -----

  lemma CountBelow(line: string, rest: string)
    requires OneLine(line) && line != [] && line[0] != 'E'
    ensures EventCount(line + "\n" + rest) == EventCount(rest)
  {
    SplitFirst(line, rest);
    NoCountInLine(line);
    CountConcat([StripReturn(line)], SplitLines(rest));
    assert [StripReturn(line)][1..] == [];
  }

  lemma CountAlone(n: nat)
    requires n <= USIZE_MAX
    ensures EventCount("Events: " + Show(n)) == Some(n)
  {
    CountLineReads(n);
    SplitSingle("Events: " + Show(n));
  }

  /** A command whose second line reads as a count makes a fresh entry count as that many events. */
  lemma CommandCounts(tool: string, line: string, n: nat)
    requires OneLine(tool) && OneLine(line) && n <= USIZE_MAX
    ensures FirstCounts(CommandUse(tool, line + "\n" + ("Events: " + Show(n)))) == n
  {
    var third := "Events: " + Show(n);
    CommandSummary(tool, line + "\n" + third);
    CommandOfTwo(line, third);
    CountThird("Tool: " + tool, "Command: " + line, third);
    CountAlone(n);
  }

  lemma CommandOfTwo(line: string, third: string)
    ensures "Command: " + (line + "\n" + third) == "Command: " + line + "\n" + third
  {
  }

  lemma CountThird(first: string, second: string, third: string)
    requires OneLine(first) && first != [] && first[0] != 'E' && OneLine(second) && second != [] && second[0] != 'E'
    ensures EventCount(first + "\n" + (second + "\n" + third)) == EventCount(third)
  {
    CountBelow(first, second + "\n" + third);
    CountBelow(second, third);
  }

  /** And a name whose second line reads as a count fixes the count of every body it is written into. */
  lemma NameFixesCount(name: string, n: nat, existing: string, next: string)
    requires OneLine(name) && n <= USIZE_MAX
    ensures EventCount(GroupedBody(name + "\n" + ("Events: " + Show(n)), existing, next)) == Some(n)
  {
    GroupingCounts(name + "\n" + ("Events: " + Show(n)), existing, next);
    TwoLineNameCounts(name, n);
  }

  lemma TwoLineNameCounts(name: string, n: nat)
    requires OneLine(name) && n <= USIZE_MAX
    ensures TitleCount(name + "\n" + ("Events: " + Show(n))) == Some(n)
  {
    var line := "Events: " + Show(n);
    NameOfTwo(name, line);
    CountBelow("Tool: " + name, line + "\n" + "");
    CountLineFirst(n, "");
  }

  lemma NameOfTwo(name: string, line: string)
    ensures "Tool: " + (name + "\n" + line) + "\n" == "Tool: " + name + "\n" + (line + "\n" + "")
  {
  }

  // ----- events without a message -----

  /** The detail of an event without a message, whose lines begin with none of the two headings, is its summary. */
  lemma SummaryIsDetail(u: ToolUse)
    requires |Summary(u)| <= 120
    requires FirstWith(SplitLines(Summary(u)), "Detail: ").None? && FirstWith(SplitLines(Summary(u)), "Latest: ").None?
    ensures MessageOf(u) == Summary(u)
  {
  }

  lemma {:induction false} NoLineWith(lines: seq<string>, prefix: string)
    requires prefix != [] && forall i :: 0 <= i < |lines| ==> |lines[i]| >= 1 && lines[i][0] != prefix[0]
    ensures FirstWith(lines, prefix).None?
  {
    if lines != [] { NoLineWith(lines[1..], prefix); }
  }

  /** Normalizing keeps the characters that are not blank. */
  lemma {:induction false} NormalizeKeepsCharacters(s: string, c: char)
    requires !IsBlank(c)
    ensures c in Normalize(s) <==> c in s
    decreases |s|
  {
    var a := BlankHead(s, 0);
    if a < |s| {
      var b := WordEnd(s, a);
      NormalizeKeepsCharacters(s[b..], c);
      CutInThree(s, a, b, c);
      assert c !in s[..a];
      WordFirst(s, a, b, c);
    }
  }

  lemma WordFirst(s: string, a: nat, b: nat, c: char)
    requires a == BlankHead(s, 0) < |s| && b == WordEnd(s, a) && !IsBlank(c)
    ensures c in Normalize(s) <==> c in s[a..b] || c in Normalize(s[b..])
  {
    var rest := Normalize(s[b..]);
    assert Normalize(s) == s[a..b] + (if rest == "" then "" else " " + rest);
  }

  /** A text whose last line is `last`, and whose other line is `first`. */
  lemma SplitPair(first: string, last: string)
    requires OneLine(first) && OneLine(last) && last != []
    ensures SplitLines(first + "\n" + last) == [StripReturn(first), last]
  {
    SplitFirst(first, last);
    SplitSingle(last);
  }

  lemma CommandDetail(tool: string, command: string)
    requires OneLine(tool) && OneLine(command) && |tool| + |command| <= 104
    ensures MessageOf(CommandUse(tool, command)) == Summary(CommandUse(tool, command))
  {
    var x, y := "Tool: " + tool, "Command: " + command;
    CommandSummary(tool, command);
    SplitPair(x, y);
    assert StripReturn(x)[0] == 'T' && y[0] == 'C';
    NoLineWith([StripReturn(x), y], "Detail: ");
    NoLineWith([StripReturn(x), y], "Latest: ");
    SummaryIsDetail(CommandUse(tool, command));
  }

  // ----- two commands -----

  /** A line that reads as a row of its own behind "- ". */
  predicate IsFirstLine(x: string) {
    OneLine(x) && x != "" && !IsBlank(x[0]) && x[|x| - 1] != '\r'
  }

  lemma RowOfTwo(x: string, a: string)
    ensures "- " + (x + "\n" + a) == "- " + x + "\n" + a && "Latest: " + (x + "\n" + a) == "Latest: " + x + "\n" + a
  {
  }

  /** Two rows of two lines each: what is read is their first lines. */
  lemma TwoLineRowsRead(row: string, a: string, b: string)
    requires OneLine(row) && StripReturn(row) == row && Unlisted(a) && Unlisted(b) && DetailInLine(row).Some?
    ensures var d := DetailInLine(row).value;
            RecentDetails(row + "\n" + a + "\n" + (row + "\n" + b)) == [d] + [d]
  {
    RowAbove(row, a);
    ListedAbove(row + "\n" + a, row + "\n" + b);
    RowLast(row, b);
  }

  lemma RowAbove(row: string, a: string)
    requires OneLine(row) && StripReturn(row) == row && Unlisted(a) && DetailInLine(row).Some?
    ensures Listed(row + "\n" + a) == [DetailInLine(row).value]
  {
    ListedTwo(row, a);
    ListedOne(row);
    UnlistedIsNotListed(a);
    EmptyAppend([DetailInLine(row).value]);
  }

  lemma RowLast(row: string, b: string)
    requires OneLine(row) && StripReturn(row) == row && Unlisted(b) && DetailInLine(row).Some?
    ensures RecentDetails(row + "\n" + b) == [DetailInLine(row).value]
  {
    ListedAbove(row, b);
    ListedOne(row);
    SplitSingle(b);
    DetailsOne(b);
    EmptyAppend([DetailInLine(row).value]);
  }

  lemma LatestOfTwo(x: string, b: string)
    requires OneLine(x) && Unlisted(b)
    ensures Listed("Latest: " + (x + "\n" + b)) == []
  {
    RowOfTwo(x, b);
    assert Unlisted("Latest: " + x);
    BothUnlisted("Latest: " + x, b);
  }

  lemma BothUnlisted(a: string, b: string)
    requires Unlisted(a) && Unlisted(b)
    ensures Listed(a + "\n" + b) == []
  {
    ListedTwo(a, b);
    UnlistedIsNotListed(a);
    UnlistedIsNotListed(b);
  }

  lemma TwoRowsText(s: string, t: string)
    ensures JoinLines(Rows([CountedDetail(s, 1), CountedDetail(t, 1)])) == "- " + s + "\n" + ("- " + t)
  {
    assert Rows([CountedDetail(s, 1), CountedDetail(t, 1)]) == ["- " + s, "- " + t];
    JoinPair("- " + s, "- " + t);
  }

  lemma TwoRowsReadAs(x: string, a: string, b: string)
    requires IsFirstLine(x) && Unlisted(a) && Unlisted(b)
    ensures var d, first, second := ParseCountedDetail(x).value, x + "\n" + a, x + "\n" + b;
            RecentDetails(JoinLines(Rows([CountedDetail(first, 1), CountedDetail(second, 1)]))) == [d] + [d]
  {
    TwoRowsText(x + "\n" + a, x + "\n" + b);
    RowOfTwo(x, a);
    RowOfTwo(x, b);
    RowReads(x);
    TwoLineRowsRead("- " + x, a, b);
  }

  /** Two rows of one name: the body reads back their first lines only. */
  lemma TwoRowsAreLost(tool: string, x: string, a: string, b: string, existing: string, next: string)
    requires OneLine(tool) && IsFirstLine(x) && Unlisted(a) && Unlisted(b)
    requires next == x + "\n" + b && Latest(next) == next
    ensures RowsAfter(existing, next) == [CountedDetail(x + "\n" + a, 1), CountedDetail(next, 1)] ==>
              var d := ParseCountedDetail(x).value; RecentDetails(GroupedBody(tool, existing, next)) == [d] + [d]
  {
    UnlistedIsNotListed("Tool: " + tool);
    LatestOfTwo(x, b);
    ReadsAsRows(tool, existing, next);
    TwoRowsReadAs(x, a, b);
  }

  /** The rows meant, when the second text has a character that the first one does not have. */
  lemma TwoRowsMeant(existing: string, next: string, c: char)
    requires RecentDetails(existing) == [] && !IsBlank(c) && c in Latest(next) && c !in Latest(existing)
    ensures RowsAfter(existing, next) == [CountedDetail(Latest(existing), 1), CountedDetail(Latest(next), 1)]
  {
    NormalizeKeepsCharacters(Latest(existing), c);
    NormalizeKeepsCharacters(Latest(next), c);
    assert !AllBlank(Latest(next));
  }

  lemma MeantOfTwo(u: ToolUse, v: ToolUse)
    requires ListsNothing(u)
    ensures BodyOf([u, v]) == GroupedBody(v.tool, Summary(u), Summary(v))
    ensures Meant([u, v]) == RowsAfter(Summary(u), Summary(v))
  {
    assert [u] + [v] == [u, v];
    BodyGrows([u], v);
    MeantGrows([u], v);
  }

  lemma CommandPair(tool: string, a: string, b: string, c: char)
    requires OneLine(tool) && OneLine(a) && OneLine(b) && |tool| + |a| <= 104 && |tool| + |b| <= 104
    requires !IsBlank(c) && c in b && c !in Summary(CommandUse(tool, a))
    ensures var s, t := Summary(CommandUse(tool, a)), Summary(CommandUse(tool, b));
            RowsAfter(s, t) == [CountedDetail(s, 1), CountedDetail(t, 1)] && Latest(t) == t
  {
    CommandDetail(tool, a);
    CommandDetail(tool, b);
    CommandSummary(tool, b);
    PlainMessageIsGroupable(CommandUse(tool, a));
    TwoRowsMeant(Summary(CommandUse(tool, a)), Summary(CommandUse(tool, b)), c);
  }

  lemma TitleIsFirstLine(tool: string)
    requires OneLine(tool) && tool != "" && Trimmed(tool)
    ensures IsFirstLine("Tool: " + tool)
  {
    var x := "Tool: " + tool;
    assert x[|x| - 1] == tool[|tool| - 1];
  }

  lemma CommandIsUnlisted(command: string)
    requires OneLine(command)
    ensures Unlisted("Command: " + command)
  {
  }

  lemma CommandBodyRead(tool: string, a: string, b: string, c: char)
    requires OneLine(tool) && tool != "" && Trimmed(tool) && OneLine(a) && OneLine(b)
    requires |tool| + |a| <= 104 && |tool| + |b| <= 104
    requires !IsBlank(c) && c in b && c !in Summary(CommandUse(tool, a))
    ensures var d := ParseCountedDetail("Tool: " + tool).value;
            RecentDetails(GroupedBody(tool, Summary(CommandUse(tool, a)), Summary(CommandUse(tool, b)))) == [d] + [d]
  {
    CommandPair(tool, a, b, c);
    CommandSummary(tool, a);
    CommandSummary(tool, b);
    TitleIsFirstLine(tool);
    CommandIsUnlisted(a);
    CommandIsUnlisted(b);
    TwoRowsAreLost(tool, "Tool: " + tool, "Command: " + a, "Command: " + b,
                   Summary(CommandUse(tool, a)), Summary(CommandUse(tool, b)));
  }

  /**
   Two events of one tool that carry a command but no message, as some adapters send them, the second with
   a character the first one does not have: the rows meant are their two summaries, but the body reads back
   as two equal rows that name the tool, and neither command.
   */
  lemma CommandsAreLost(tool: string, a: string, b: string, c: char)
    requires OneLine(tool) && tool != "" && Trimmed(tool) && OneLine(a) && OneLine(b)
    requires |tool| + |a| <= 104 && |tool| + |b| <= 104
    requires !IsBlank(c) && c in b && c !in Summary(CommandUse(tool, a))
    ensures var u, v, d := CommandUse(tool, a), CommandUse(tool, b), ParseCountedDetail("Tool: " + tool).value;
            && RecentDetails(BodyOf([u, v])) == [d] + [d]
            && Meant([u, v]) == [CountedDetail(Summary(u), 1), CountedDetail(Summary(v), 1)]
  {
    CommandBodyRead(tool, a, b, c);
    CommandPair(tool, a, b, c);
    PlainMessageIsGroupable(CommandUse(tool, a));
    MeantOfTwo(CommandUse(tool, a), CommandUse(tool, b));
  }

  // ----- a detail that differs from a row only in its blanks -----

  /** The same text but for which blanks stand between the words. */
  ghost predicate SameButBlanks(s: string, t: string) {
    |s| == |t| && forall i :: 0 <= i < |s| ==> s[i] == t[i] || (IsBlank(s[i]) && IsBlank(t[i]))
  }

  lemma {:induction false} NormalizeSame(s: string, t: string)
    requires SameButBlanks(s, t)
    ensures Normalize(s) == Normalize(t)
    decreases |s|
  {
    var a := BlankHead(s, 0);
    SameHead(s, t);
    if a < |s| {
      var b := WordEnd(s, a);
      SameWord(s, t, a);
      NormalizeSame(s[b..], t[b..]);
    }
  }

  lemma BlankHeadIs(s: string, a: nat)
    requires a <= |s| && (a == |s| || !IsBlank(s[a])) && forall i :: 0 <= i < a ==> IsBlank(s[i])
    ensures BlankHead(s, 0) == a
  {
  }

  lemma WordEndIs(s: string, a: nat, b: nat)
    requires a < b <= |s| && (b == |s| || IsBlank(s[b])) && forall i :: a <= i < b ==> !IsBlank(s[i])
    ensures WordEnd(s, a) == b
  {
  }

  lemma SameHead(s: string, t: string)
    requires SameButBlanks(s, t)
    ensures BlankHead(s, 0) == BlankHead(t, 0)
  {
    BlankHeadIs(t, BlankHead(s, 0));
  }

  lemma SameWord(s: string, t: string, a: nat)
    requires SameButBlanks(s, t) && a < |s| && !IsBlank(s[a])
    ensures !IsBlank(t[a]) && WordEnd(s, a) == WordEnd(t, a) && s[a..WordEnd(s, a)] == t[a..WordEnd(t, a)]
    ensures SameButBlanks(s[WordEnd(s, a)..], t[WordEnd(s, a)..])
  {
    WordEndIs(t, a, WordEnd(s, a));
  }

  /** An event with a message. */
  function MessageUse(tool: string, message: string): ToolUse {
    ToolUse(tool, None, None, None, None, None, None, Some(message))
  }

  lemma OneRowMeant(existing: string, next: string)
    requires RecentDetails(existing) == [] && Latest(existing) != "" && !AllBlank(Latest(next))
    requires Normalize(Latest(existing)) == Normalize(Latest(next))
    ensures RowsAfter(existing, next) == [CountedDetail(Latest(existing), 2)]
  {
    assert IndexOfDetail([CountedDetail(Latest(existing), 1)], Latest(next)).Some?;
  }

  /** A text of three lines. */
  function ThreeLines(x: string, y: string, z: string): string {
    x + "\n" + (y + "\n" + z)
  }

  lemma NoHeading(x: string, y: string, z: string)
    requires OneLine(x) && OneLine(y) && OneLine(z) && |x| > 1 && |y| > 1 && |z| > 1
    requires x[0] == 'T' && y[0] == 'C' && z[0] == '-'
    ensures FirstWith(SplitLines(ThreeLines(x, y, z)), "Detail: ").None?
    ensures FirstWith(SplitLines(ThreeLines(x, y, z)), "Latest: ").None?
  {
    SplitFirst(x, y + "\n" + z);
    SplitPair(y, z);
    var lines := [StripReturn(x)] + [StripReturn(y), z];
    assert StripReturn(x)[0] == 'T' && StripReturn(y)[0] == 'C';
    NoLineWith(lines, "Detail: ");
    NoLineWith(lines, "Latest: ");
  }

  lemma ListingSummary(tool: string, line: string, z: string)
    ensures Summary(CommandUse(tool, line + "\n" + z)) == ThreeLines("Tool: " + tool, "Command: " + line, z)
  {
    CommandSummary(tool, line + "\n" + z);
    CommandOfTwo(line, z);
  }

  /** The detail of a command of two lines, the second one a row. */
  lemma ListingDetail(tool: string, line: string, row: string)
    requires OneLine(tool) && OneLine(line) && OneLine(row) && |tool| + |line| + |row| <= 100
    ensures var u := CommandUse(tool, line + "\n" + ("- " + row)); MessageOf(u) == Summary(u)
  {
    ListingSummary(tool, line, "- " + row);
    NoHeading("Tool: " + tool, "Command: " + line, "- " + row);
    SummaryIsDetail(CommandUse(tool, line + "\n" + ("- " + row)));
  }

  lemma LatestOfThree(x: string, y: string, z: string)
    ensures "Latest: " + ThreeLines(x, y, z) == ThreeLines("Latest: " + x, y, z)
  {
  }

  lemma LatestLists(x: string, y: string, z: string)
    requires OneLine(x) && Unlisted(y)
    ensures Listed("Latest: " + ThreeLines(x, y, z)) == Listed(z)
  {
    LatestOfThree(x, y, z);
    UnlistedIsNotListed("Latest: " + x);
    UnlistedIsNotListed(y);
    ThirdLists("Latest: " + x, y, z);
  }

  lemma ThirdLists(x: string, y: string, z: string)
    requires Listed(x) == [] && Listed(y) == []
    ensures Listed(ThreeLines(x, y, z)) == Listed(z)
  {
    ListedTwo(x, y + "\n" + z);
    ListedTwo(y, z);
    EmptyAppend(Listed(z));
  }

  /** The same three lines as one, spaces between them. */
  function Spaced(x: string, y: string, z: string): string {
    x + " " + (y + " " + z)
  }

  lemma SpacedIsSame(x: string, y: string, z: string)
    requires OneLine(x) && OneLine(y) && OneLine(z)
    ensures SameButBlanks(Spaced(x, y, z), ThreeLines(x, y, z)) && OneLine(Spaced(x, y, z))
  {
  }

  lemma RowAndListed(tool: string, x: string, y: string, z: string, m: string, existing: string, next: string)
    requires OneLine(tool) && OneLine(x) && Unlisted(y) && OneLine(m) && m != "" && !IsBlank(m[0])
    requires next == ThreeLines(x, y, z) && Latest(next) == next
    ensures RowsAfter(existing, next) == [CountedDetail(m, 2)] ==>
              RecentDetails(GroupedBody(tool, existing, next)) == Listed(z) + [CountedDetail(m, 2)]
  {
    OneLineNameReads(tool, existing, next);
    LatestLists(x, y, z);
    OneRowReads(m);
  }

  lemma OneLineNameReads(tool: string, existing: string, next: string)
    requires OneLine(tool)
    ensures RecentDetails(GroupedBody(tool, existing, next))
            == Listed("Latest: " + Latest(next)) + RecentDetails(JoinLines(Rows(RowsAfter(existing, next))))
  {
    GroupedReadsAs(tool, existing, next);
    NameIsNotListed(tool);
    NothingInFront(Listed("Tool: " + tool), Listed("Latest: " + Latest(next)),
                   RecentDetails(JoinLines(Rows(RowsAfter(existing, next)))));
  }

  lemma NameIsNotListed(tool: string)
    requires OneLine(tool)
    ensures Listed("Tool: " + tool) == []
  {
    UnlistedIsNotListed("Tool: " + tool);
  }

  lemma OneRowReads(m: string)
    requires OneLine(m) && m != "" && !IsBlank(m[0])
    ensures RecentDetails(JoinLines(Rows([CountedDetail(m, 2)]))) == [CountedDetail(m, 2)]
  {
    assert Survives(CountedDetail(m, 2));
    RowsRead([CountedDetail(m, 2)]);
  }

  lemma RowIsListed(row: string)
    requires OneLine(row) && !AllBlank(row)
    ensures Listed("- " + row) != []
  {
    ListedOne("- " + row);
    ReturnStaysNotBlank(row);
  }

  lemma ReturnStaysNotBlank(row: string)
    requires !AllBlank(row)
    ensures DetailInLine(StripReturn("- " + row)).Some?
  {
    var line := "- " + row;
    var i :| 0 <= i < |row| && !IsBlank(row[i]);
    assert line[2..] == row && line[|line| - 1] == row[|row| - 1];
    assert i < |StripReturn(row)| && StripReturn(row)[i] == row[i];
    assert StripReturn(line)[2..] == StripReturn(row);
  }

  lemma MessageThenCommand(tool: string, line: string, row: string)
    requires OneLine(tool) && OneLine(line) && OneLine(row) && |tool| + |line| + |row| <= 100
    ensures var m := Spaced("Tool: " + tool, "Command: " + line, "- " + row);
            var s, t := Summary(MessageUse(tool, m)), Summary(CommandUse(tool, line + "\n" + ("- " + row)));
            && RowsAfter(s, t) == [CountedDetail(m, 2)] && Latest(t) == t && RecentDetails(s) == []
  {
    var x, y, z := "Tool: " + tool, "Command: " + line, "- " + row;
    var m := Spaced(x, y, z);
    SpacedIsSame(x, y, z);
    PlainMessageIsGroupable(MessageUse(tool, m));
    SummaryDetail(MessageUse(tool, m));
    ListingDetail(tool, line, row);
    ListingSummary(tool, line, z);
    NormalizeSame(m, ThreeLines(x, y, z));
    assert ThreeLines(x, y, z)[0] == 'T';
    OneRowMeant(Summary(MessageUse(tool, m)), Summary(CommandUse(tool, line + "\n" + z)));
  }

  /** Two events with one row between them, the second one of three lines. */
  ghost predicate SharesRow(u: ToolUse, v: ToolUse, x: string, y: string, z: string, m: string) {
    && ListsNothing(u) && Summary(v) == ThreeLines(x, y, z) && Latest(Summary(v)) == Summary(v)
    && RowsAfter(Summary(u), Summary(v)) == [CountedDetail(m, 2)]
  }

  lemma PairLists(u: ToolUse, v: ToolUse, x: string, y: string, z: string, m: string)
    requires OneLine(v.tool) && OneLine(x) && Unlisted(y) && OneLine(m) && m != "" && !IsBlank(m[0])
    ensures SharesRow(u, v, x, y, z, m) ==>
              && Meant([u, v]) == [CountedDetail(m, 2)]
              && RecentDetails(BodyOf([u, v])) == Listed(z) + [CountedDetail(m, 2)]
  {
    if SharesRow(u, v, x, y, z, m) {
      MeantOfTwo(u, v);
      RowAndListed(v.tool, x, y, z, m, Summary(u), Summary(v));
    }
  }

  /** The row meant when a message and a command of two lines are the same but for blanks. */
  function SharedRow(tool: string, line: string, row: string): CountedDetail {
    CountedDetail(Spaced("Tool: " + tool, "Command: " + line, "- " + row), 2)
  }

  lemma SharedRowSurvives(tool: string, line: string, row: string)
    requires OneLine(tool) && OneLine(line) && OneLine(row)
    ensures var d := SharedRow(tool, line, row);
            Survives(d) && OneLine(d.text) && d.text != "" && !IsBlank(d.text[0])
  {
    SpacedIsSame("Tool: " + tool, "Command: " + line, "- " + row);
    assert SharedRow(tool, line, row).text[0] == 'T';
  }

  /**
   A message, and then an event without one whose summary differs from it only in its blanks: one row is
   meant, with the message and a count of two, and it survives. But the second line of the command reads as
   a row of its own, because the body shows the detail in full before the rows.
   */
  lemma DetailListsRow(tool: string, line: string, row: string)
    requires OneLine(tool) && OneLine(line) && OneLine(row) && !AllBlank(row) && |tool| + |line| + |row| <= 100
    ensures var d := SharedRow(tool, line, row);
            var u, v := MessageUse(tool, d.text), CommandUse(tool, line + "\n" + ("- " + row));
            && Meant([u, v]) == [d] && Survives(d)
            && RecentDetails(BodyOf([u, v])) == Listed("- " + row) + [d] && Listed("- " + row) != []
  {
    SharedRowSurvives(tool, line, row);
    SharedPairReads(tool, line, row);
    RowIsListed(row);
  }

  lemma SharedRowIsShared(tool: string, line: string, row: string)
    requires OneLine(tool) && OneLine(line) && OneLine(row) && |tool| + |line| + |row| <= 100
    ensures var m := SharedRow(tool, line, row).text;
            SharesRow(MessageUse(tool, m), CommandUse(tool, line + "\n" + ("- " + row)),
                      "Tool: " + tool, "Command: " + line, "- " + row, m)
  {
    MessageThenCommand(tool, line, row);
    ListingSummary(tool, line, "- " + row);
  }

  lemma SharedPairReads(tool: string, line: string, row: string)
    requires OneLine(tool) && OneLine(line) && OneLine(row) && |tool| + |line| + |row| <= 100
    ensures var d := SharedRow(tool, line, row);
            var u, v := MessageUse(tool, d.text), CommandUse(tool, line + "\n" + ("- " + row));
            Meant([u, v]) == [d] && RecentDetails(BodyOf([u, v])) == Listed("- " + row) + [d]
  {
    var m := SharedRow(tool, line, row).text;
    SharedRowIsShared(tool, line, row);
    SharedRowSurvives(tool, line, row);
    CommandIsUnlisted(line);
    PairLists(MessageUse(tool, m), CommandUse(tool, line + "\n" + ("- " + row)),
              "Tool: " + tool, "Command: " + line, "- " + row, m);
  }
}
