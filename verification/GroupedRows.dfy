/**
 The rows of a grouped body: which of them read back as they were meant, for one more event onto any body.
 */
module GroupedRows {
  import opened Prelude
  import opened Whitespace
  import opened Strings
  import opened Numerals
  import opened Grouping

  // ----- details that survive -----

  /** Details that survive being printed as a row of a body and read back. */
  ghost predicate Survives(d: CountedDetail) {
    OneLine(d.text) && ReadsBack(d) && d.count <= USIZE_MAX
  }

  ghost predicate AllSurvive(details: seq<CountedDetail>) {
    forall i :: 0 <= i < |details| ==> Survives(details[i])
  }

  /** A printed detail stands on one line that loses nothing when split off. */
  lemma PrintedIsLine(d: CountedDetail)
    requires Survives(d)
    ensures OneLine(Printed(d)) && Printed(d) != [] && Printed(d)[|Printed(d)| - 1] != '\r'
  {
  }

  lemma RowReads(p: string)
    requires OneLine(p) && p != [] && p[|p| - 1] != '\r'
    ensures var row := "- " + p;
            OneLine(row) && |row| >= 2 && StripReturn(row) == row && DetailInLine(row) == ParseCountedDetail(p)
  {
    var row := "- " + p;
    assert row[2..] == p && row[|row| - 1] == p[|p| - 1];
  }

  lemma DetailRowReads(d: CountedDetail)
    requires Survives(d)
    ensures var row := "- " + Printed(d);
            OneLine(row) && |row| >= 2 && StripReturn(row) == row && DetailInLine(row) == Some(d)
  {
    PrintedIsLine(d);
    RowReads(Printed(d));
    ParseInvertsPrint(d);
  }

  lemma {:induction false} DetailRowsRead(details: seq<CountedDetail>)
    requires AllSurvive(details)
    ensures DetailsIn(Rows(details)) == details
  {
    if details != [] {
      assert Survives(details[0]);
      DetailRowReads(details[0]);
      DetailRowsRead(details[1..]);
      RowsTail(details);
    }
  }

  lemma RowsTail(details: seq<CountedDetail>)
    requires details != []
    ensures Rows(details)[0] == "- " + Printed(details[0]) && Rows(details)[1..] == Rows(details[1..])
  {
  }

  lemma RowsAreLines(details: seq<CountedDetail>)
    requires AllSurvive(details)
    ensures forall i :: 0 <= i < |details| ==>
              OneLine(Rows(details)[i]) && |Rows(details)[i]| >= 2 && StripReturn(Rows(details)[i]) == Rows(details)[i]
  {
    forall i | 0 <= i < |details|
      ensures OneLine(Rows(details)[i]) && |Rows(details)[i]| >= 2 && StripReturn(Rows(details)[i]) == Rows(details)[i]
    {
      DetailRowReads(details[i]);
    }
  }

  // ----- reading a body piece by piece -----

  lemma {:induction false} DetailsConcat(a: seq<string>, b: seq<string>)
    ensures DetailsIn(a + b) == DetailsIn(a) + DetailsIn(b)
  {
    if a == [] {
      EmptyAppend(b);
      EmptyAppend(DetailsIn(b));
    } else {
      var d := DetailInLine(a[0]);
      TailOfAppend(a, b);
      DetailsConcat(a[1..], b);
      AppendAssociates(if d.Some? then [d.value] else [], DetailsIn(a[1..]), DetailsIn(b));
    }
  }

  /** The rows that a line of a body lists, or the lines it really is when it holds newlines. */
  function Listed(line: string): seq<CountedDetail> {
    RecentDetails(line + "\n")
  }

  lemma ListedAbove(line: string, rest: string)
    ensures RecentDetails(line + "\n" + rest) == Listed(line) + RecentDetails(rest)
  {
    SplitConcat(line, rest);
    DetailsConcat(SplitLines(line + "\n"), SplitLines(rest));
  }

  lemma ListedTwo(a: string, b: string)
    ensures Listed(a + "\n" + b) == Listed(a) + Listed(b)
  {
    ListedAbove(a, b + "\n");
    assert a + "\n" + (b + "\n") == a + "\n" + b + "\n";
  }

  lemma ListedOne(line: string)
    requires OneLine(line)
    ensures var d := DetailInLine(StripReturn(line)); Listed(line) == if d.Some? then [d.value] else []
  {
    SplitLine(line);
    DetailsOne(StripReturn(line));
  }

  lemma DetailsOne(line: string)
    ensures var d := DetailInLine(line); DetailsIn([line]) == if d.Some? then [d.value] else []
  {
    assert [line][1..] == [] && [line][0] == line;
    EmptyAppend(if DetailInLine(line).Some? then [DetailInLine(line).value] else []);
  }

  /** A line that is not a detail. */
  predicate Unlisted(line: string) {
    OneLine(line) && |line| >= 2 && line[0] != '-'
  }

  predicate AllUnlisted(lines: seq<string>) {
    forall i :: 0 <= i < |lines| ==> Unlisted(lines[i])
  }

  lemma UnlistedIsNotListed(line: string)
    requires Unlisted(line)
    ensures Listed(line) == []
  {
    ListedOne(line);
    assert StripReturn(line)[0] == line[0];
  }

  lemma ContextUnlisted(lines: seq<string>)
    requires forall i :: 0 <= i < |lines| ==> OneLine(lines[i])
    ensures AllUnlisted(ContextOf(lines))
  {
    var context := ContextOf(lines);
    forall i | 0 <= i < |context| ensures Unlisted(context[i]) {
      assert context[i] in context;
      ContextIsUnlisted(lines, context[i]);
    }
  }

  lemma ContextIsUnlisted(lines: seq<string>, line: string)
    requires line in lines && IsContext(line) && forall i :: 0 <= i < |lines| ==> OneLine(lines[i])
    ensures Unlisted(line)
  {
  }

  /** What lines list, one after the other. */
  function ListedIn(lines: seq<string>): seq<CountedDetail> {
    if lines == [] then [] else Listed(lines[0]) + ListedIn(lines[1..])
  }

  lemma {:induction false} ListedConcat(a: seq<string>, b: seq<string>)
    ensures ListedIn(a + b) == ListedIn(a) + ListedIn(b)
  {
    if a == [] {
      EmptyAppend(b);
      EmptyAppend(ListedIn(b));
    } else {
      TailOfAppend(a, b);
      ListedConcat(a[1..], b);
      AppendAssociates(Listed(a[0]), ListedIn(a[1..]), ListedIn(b));
    }
  }

  lemma {:induction false} UnlistedListsNothing(lines: seq<string>)
    requires AllUnlisted(lines)
    ensures ListedIn(lines) == []
  {
    if lines != [] {
      assert Unlisted(lines[0]);
      UnlistedIsNotListed(lines[0]);
      UnlistedListsNothing(lines[1..]);
    }
  }

  lemma ListedSingle(line: string)
    ensures ListedIn([line]) == Listed(line)
  {
    assert [line][1..] == [];
    EmptyAppend(Listed(line));
  }

  /** A body reads as what its upper lines list, followed by what its lower lines read as. */
  lemma {:induction false} HeadThenRows(head: seq<string>, rows: seq<string>)
    requires rows != []
    ensures RecentDetails(JoinLines(head + rows)) == ListedIn(head) + RecentDetails(JoinLines(rows))
  {
    if head == [] {
      EmptyAppend(rows);
      EmptyAppend(RecentDetails(JoinLines(rows)));
    } else {
      var rest := head[1..] + rows;
      HeadThenRows(head[1..], rows);
      TailOfAppend(head, rows);
      assert JoinLines(head + rows) == head[0] + "\n" + JoinLines(rest);
      ListedAbove(head[0], JoinLines(rest));
      AppendAssociates(Listed(head[0]), ListedIn(head[1..]), RecentDetails(JoinLines(rows)));
    }
  }

  // ----- which rows read back -----

  /** Rows whose details survive read back as those details. */
  lemma RowsRead(details: seq<CountedDetail>)
    requires details != [] && AllSurvive(details)
    ensures RecentDetails(JoinLines(Rows(details))) == details
  {
    RowsAreLines(details);
    RowsSplit(Rows(details));
    DetailRowsRead(details);
  }

  lemma RowsSplit(rows: seq<string>)
    requires rows != []
    requires forall i :: 0 <= i < |rows| ==> OneLine(rows[i]) && |rows[i]| >= 2 && StripReturn(rows[i]) == rows[i]
    ensures SplitLines(JoinLines(rows)) == rows
  {
    SplitJoined(rows);
    assert Returned(rows) == rows;
  }

  /** A detail as one that was read: it stands on one line and does not begin with a blank. */
  predicate IsRead(d: CountedDetail) {
    OneLine(d.text) && d.text != "" && !IsBlank(d.text[0])
  }

  predicate AllRead(details: seq<CountedDetail>) {
    forall i :: 0 <= i < |details| ==> IsRead(details[i])
  }

  lemma LineIsRead(line: string)
    requires OneLine(line) && DetailInLine(line).Some?
    ensures IsRead(DetailInLine(line).value)
  {
    ParsedIsFront(line[2..]);
    TrimShortens(line[2..]);
  }

  lemma {:induction false} LinesAreRead(lines: seq<string>)
    requires forall i :: 0 <= i < |lines| ==> OneLine(lines[i])
    ensures AllRead(DetailsIn(lines))
  {
    if lines != [] {
      LinesAreRead(lines[1..]);
      if DetailInLine(lines[0]).Some? { LineIsRead(lines[0]); }
    }
  }

  /** When as many details are read as there are lines, every line is one. */
  lemma {:induction false} EveryLineRead(lines: seq<string>)
    ensures |DetailsIn(lines)| <= |lines|
    ensures |DetailsIn(lines)| == |lines| ==>
              forall i :: 0 <= i < |lines| ==> DetailInLine(lines[i]) == Some(DetailsIn(lines)[i])
  {
    if lines != [] {
      EveryLineRead(lines[1..]);
      if |DetailsIn(lines)| == |lines| {
        forall i | 0 <= i < |lines| ensures DetailInLine(lines[i]) == Some(DetailsIn(lines)[i]) {
          if i > 0 { assert lines[1..][i - 1] == lines[i]; }
        }
      }
    }
  }

  /** A row that reads back, perhaps without a carriage return, is the row of a detail that survives. */
  lemma ReadRowSurvives(d: CountedDetail, row: string)
    requires d.count <= USIZE_MAX && OneLine(d.text)
    requires row == "- " + Printed(d) || row == StripReturn("- " + Printed(d))
    ensures DetailInLine(row) == Some(d) ==> Survives(d)
  {
    if DetailInLine(row) == Some(d) {
      ReadRowIsWhole(d, row);
      assert ("- " + Printed(d))[2..] == Printed(d);
      ParseInvertsPrint(d);
    }
  }

  lemma ReadRowIsWhole(d: CountedDetail, row: string)
    requires row == "- " + Printed(d) || row == StripReturn("- " + Printed(d))
    ensures DetailInLine(row) == Some(d) ==> row == "- " + Printed(d)
  {
    var p := Printed(d);
    if DetailInLine(row) == Some(d) {
      ParsedIsFront(row[2..]);
      TrimShortens(row[2..]);
      if d.count <= 1 {
        assert p == d.text && |row[2..]| >= |p|;
      } else {
        assert p[|p| - 1] == ')';
      }
    }
  }

  lemma PrintedOneLine(d: CountedDetail)
    requires OneLine(d.text)
    ensures OneLine("- " + Printed(d))
  {
  }

  lemma ReadRowsSurvive(details: seq<CountedDetail>)
    requires details != [] && AllFit(details) && forall i :: 0 <= i < |details| ==> OneLine(details[i].text)
    ensures RecentDetails(JoinLines(Rows(details))) == details ==> AllSurvive(details)
  {
    var rows := Rows(details);
    forall i | 0 <= i < |rows| ensures OneLine(rows[i]) { PrintedOneLine(details[i]); }
    SplitJoined(rows);
    if DetailsIn(Returned(rows)) == details { ReturnedRowsSurvive(details, Returned(rows)); }
  }

  lemma ReturnedRowsSurvive(details: seq<CountedDetail>, lines: seq<string>)
    requires AllFit(details) && forall i :: 0 <= i < |details| ==> OneLine(details[i].text)
    requires lines == Returned(Rows(details))
    ensures DetailsIn(lines) == details ==> AllSurvive(details)
  {
    if DetailsIn(lines) == details {
      EveryLineRead(lines);
      forall i | 0 <= i < |details| ensures Survives(details[i]) {
        ReadRowSurvives(details[i], lines[i]);
      }
    }
  }

  ghost predicate AllFit(details: seq<CountedDetail>) {
    forall i :: 0 <= i < |details| ==> details[i].count <= USIZE_MAX
  }

  /** The row of a detail that could have been read is read as some detail. */
  lemma RowIsRead(d: CountedDetail, row: string)
    requires IsRead(d) && (row == "- " + Printed(d) || row == StripReturn("- " + Printed(d)))
    ensures DetailInLine(row).Some?
  {
    var p := Printed(d);
    assert p[0] == d.text[0] && ("- " + p)[2] == p[0];
    assert |row| > 2 && row[2] == p[0];
    assert row[2..][0] == p[0];
  }

  lemma {:induction false} AllLinesRead(lines: seq<string>)
    requires forall i :: 0 <= i < |lines| ==> DetailInLine(lines[i]).Some?
    ensures |DetailsIn(lines)| == |lines|
  {
    if lines != [] { AllLinesRead(lines[1..]); }
  }

  lemma AsManyAsRows(details: seq<CountedDetail>)
    requires details != [] && AllRead(details)
    ensures |RecentDetails(JoinLines(Rows(details)))| == |details|
  {
    var rows := Rows(details);
    forall i | 0 <= i < |rows| ensures OneLine(rows[i]) { PrintedOneLine(details[i]); }
    SplitJoined(rows);
    forall i | 0 <= i < |rows| ensures DetailInLine(Returned(rows)[i]).Some? {
      RowIsRead(details[i], Returned(rows)[i]);
    }
    AllLinesRead(Returned(rows));
  }

  /** Rows below anything that was read give exactly their details only if that was nothing, and they survive. */
  lemma RowsReadOnly(above: seq<CountedDetail>, details: seq<CountedDetail>)
    requires details != [] && AllFit(details) && AllRead(above)
    ensures above + RecentDetails(JoinLines(Rows(details))) == details ==> above == [] && AllSurvive(details)
  {
    var read := RecentDetails(JoinLines(Rows(details)));
    if above + read == details {
      LinesAreRead(SplitLines(JoinLines(Rows(details))));
      assert AllRead(details);
      AsManyAsRows(details);
      EmptyAppend(read);
      ReadRowsSurvive(details);
    }
  }

  /**
   The rows of a body read back as the details they were printed from if and only if all those details
   survive, and the lines above list nothing, whatever lines those are.
   */
  lemma BodyReadsIff(head: seq<string>, details: seq<CountedDetail>)
    requires details != [] && AllFit(details)
    ensures RecentDetails(JoinLines(head + Rows(details))) == details
            <==> AllSurvive(details) && ListedIn(head) == []
  {
    HeadThenRows(head, Rows(details));
    HeadIsRead(head);
    RowsReadOnly(ListedIn(head), details);
    if AllSurvive(details) {
      RowsRead(details);
      EmptyAppend(details);
    }
  }

  lemma {:induction false} HeadIsRead(head: seq<string>)
    ensures AllRead(ListedIn(head))
  {
    if head != [] {
      LinesAreRead(SplitLines(head[0] + "\n"));
      HeadIsRead(head[1..]);
    }
  }

  // ----- one more event -----

  /** The lines of a grouped body between its name and its detail: the count, and the context. */
  function Middle(existing: string, next: string): seq<string> {
    ["Events: " + Show(SaturatingNext(EventCount(existing).GetOr(1)))] + ContextOf(SplitLines(next))
  }

  /** The lines of a grouped body above its rows. */
  function GroupedHead(title: string, existing: string, next: string): seq<string> {
    ["Tool: " + title] + Middle(existing, next) + (["Latest: " + Latest(next)] + ["Recent:"])
  }

  lemma MiddleUnlisted(existing: string, next: string)
    ensures ListedIn(Middle(existing, next)) == []
  {
    var first := "Events: " + Show(SaturatingNext(EventCount(existing).GetOr(1)));
    ContextUnlisted(SplitLines(next));
    assert Unlisted(first);
    UnlistedListsNothing([first] + ContextOf(SplitLines(next)));
  }

  lemma LatestListed(next: string)
    ensures ListedIn(["Latest: " + Latest(next)] + ["Recent:"]) == Listed("Latest: " + Latest(next))
  {
    ListedConcat(["Latest: " + Latest(next)], ["Recent:"]);
    ListedSingle("Latest: " + Latest(next));
    ListedSingle("Recent:");
    UnlistedIsNotListed("Recent:");
    EmptyAppend(Listed("Latest: " + Latest(next)));
  }

  lemma HeadListed(title: string, existing: string, next: string)
    ensures ListedIn(GroupedHead(title, existing, next)) == Listed("Tool: " + title) + Listed("Latest: " + Latest(next))
  {
    var a, b := ["Tool: " + title], Middle(existing, next);
    var c := ["Latest: " + Latest(next)] + ["Recent:"];
    ListedConcat(a + b, c);
    ListedConcat(a, b);
    ListedSingle("Tool: " + title);
    MiddleUnlisted(existing, next);
    LatestListed(next);
    EmptyAppend(Listed("Tool: " + title));
  }

  /** The rows that one more event leaves. */
  function RowsAfter(existing: string, next: string): seq<CountedDetail> {
    LastFour(DetailsAfter(existing, next))
  }

  lemma {:induction false} ReadFits(lines: seq<string>)
    ensures AllFit(DetailsIn(lines))
  {
    if lines != [] {
      ReadFits(lines[1..]);
      if DetailInLine(lines[0]).Some? { ParsedIsFront(lines[0][2..]); }
    }
  }

  lemma RowsFit(existing: string, next: string)
    ensures RowsAfter(existing, next) != [] && AllFit(RowsAfter(existing, next))
  {
    var recent := RecentDetails(existing);
    ReadFits(SplitLines(existing));
    PushedFits(if recent == [] then [CountedDetail(Latest(existing), 1)] else recent, Latest(next));
  }

  lemma PushedFits(details: seq<CountedDetail>, text: string)
    requires details != [] && AllFit(details)
    ensures LastFour(Pushed(details, text)) != [] && AllFit(LastFour(Pushed(details, text)))
  {
    LastFourFits(details + [CountedDetail(text, 1)]);
    LastFourFits(Pushed(details, text));
  }

  lemma LastFourFits(details: seq<CountedDetail>)
    requires details != [] && AllFit(details)
    ensures LastFour(details) != [] && AllFit(LastFour(details))
  {
  }

  lemma GroupedIsHeadAndRows(title: string, existing: string, next: string)
    ensures GroupedBody(title, existing, next)
            == JoinLines(GroupedHead(title, existing, next) + Rows(RowsAfter(existing, next)))
  {
    LinesRegrouped("Tool: " + title, "Events: " + Show(SaturatingNext(EventCount(existing).GetOr(1))),
                   ContextOf(SplitLines(next)), "Latest: " + Latest(next), Rows(RowsAfter(existing, next)));
  }

  lemma LinesRegrouped(tool: string, events: string, context: seq<string>, latest: string, rows: seq<string>)
    ensures [tool, events] + context + [latest, "Recent:"] + rows
            == [tool] + ([events] + context) + ([latest] + ["Recent:"]) + rows
  {
  }

  /** What the body reads as after one more event: what its name lists, what its detail lists, and the rows. */
  lemma GroupedReadsAs(title: string, existing: string, next: string)
    ensures RecentDetails(GroupedBody(title, existing, next))
            == Listed("Tool: " + title) + Listed("Latest: " + Latest(next))
               + RecentDetails(JoinLines(Rows(RowsAfter(existing, next))))
  {
    RowsFit(existing, next);
    GroupedIsHeadAndRows(title, existing, next);
    HeadThenRows(GroupedHead(title, existing, next), Rows(RowsAfter(existing, next)));
    HeadListed(title, existing, next);
  }

  /** The event's name and its detail list nothing, as when they hold no newline. */
  predicate NamesNoRow(title: string, next: string) {
    Listed("Tool: " + title) == [] && Listed("Latest: " + Latest(next)) == []
  }

  /** Then the body reads as its rows do. */
  lemma ReadsAsRows(title: string, existing: string, next: string)
    requires NamesNoRow(title, next)
    ensures RecentDetails(GroupedBody(title, existing, next))
            == RecentDetails(JoinLines(Rows(RowsAfter(existing, next))))
  {
    GroupedReadsAs(title, existing, next);
    EmptyAppend(RecentDetails(JoinLines(Rows(RowsAfter(existing, next)))));
  }

  lemma LatestIsNotListed(next: string)
    requires OneLine(Latest(next))
    ensures Listed("Latest: " + Latest(next)) == []
  {
    UnlistedIsNotListed("Latest: " + Latest(next));
  }

  lemma OneLineNamesNoRow(title: string, next: string)
    requires OneLine(title) && OneLine(Latest(next))
    ensures NamesNoRow(title, next)
  {
    UnlistedIsNotListed("Tool: " + title);
    LatestIsNotListed(next);
  }

  /**
   One more event, onto any body: the rows printed read back as the rows meant if and only if each of them
   stands on one line and reads back by itself, and the event's name and detail list no row of their own.
   */
  lemma GroupedReads(title: string, existing: string, next: string)
    ensures RecentDetails(GroupedBody(title, existing, next)) == RowsAfter(existing, next)
            <==> AllSurvive(RowsAfter(existing, next)) && NamesNoRow(title, next)
  {
    RowsFit(existing, next);
    GroupedIsHeadAndRows(title, existing, next);
    BodyReadsIff(GroupedHead(title, existing, next), RowsAfter(existing, next));
    HeadListed(title, existing, next);
  }
}
