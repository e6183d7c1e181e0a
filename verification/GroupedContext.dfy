/** What the newest event leaves in the body of its entry besides the rows. */
module GroupedContext {
  import opened Prelude
  import opened Whitespace
  import opened Strings
  import opened Grouping
  import opened GroupedRows
  import opened GroupedRuns

  lemma {:induction false} ContextConcat(a: seq<string>, b: seq<string>)
    ensures ContextOf(a + b) == ContextOf(a) + ContextOf(b)
  {
    if a == [] {
      EmptyAppend(b);
      EmptyAppend(ContextOf(b));
    } else {
      TailOfAppend(a, b);
      ContextConcat(a[1..], b);
      AppendAssociates(if IsContext(a[0]) then [a[0]] else [], ContextOf(a[1..]), ContextOf(b));
    }
  }

  lemma {:induction false} AllContext(lines: seq<string>)
    requires forall i :: 0 <= i < |lines| ==> IsContext(lines[i])
    ensures ContextOf(lines) == lines
  {
    if lines != [] { AllContext(lines[1..]); }
  }

  lemma {:induction false} NoContext(lines: seq<string>)
    requires forall i :: 0 <= i < |lines| ==> !IsContext(lines[i])
    ensures ContextOf(lines) == []
  {
    if lines != [] { NoContext(lines[1..]); }
  }

  /** A line under one of the six headings, without the return that splitting may take off. */
  predicate KeepsHeading(line: string) {
    IsContext(line) && IsContext(StripReturn(line))
  }

  lemma FieldKeepsHeading(heading: string, value: string)
    requires heading in ["Provider: ", "Family: ", "Model: ", "Response: ", "Command: ", "Target: "]
    ensures KeepsHeading(heading + value)
  {
    var line := heading + value;
    assert StartsWith(line, heading) && StartsWith(StripReturn(line), heading);
  }

  /** The fields of an event between its name and its message, each under its heading. */
  function ContextLines(u: ToolUse): seq<string> {
    Optional("Provider: ", u.provider) + Optional("Family: ", u.family) + Optional("Model: ", u.model)
    + Optional("Response: ", u.response) + Optional("Command: ", u.command) + Optional("Target: ", u.target)
  }

  predicate AllHeaded(lines: seq<string>) {
    forall i :: 0 <= i < |lines| ==> KeepsHeading(lines[i])
  }

  lemma OptionalHeaded(heading: string, value: Option<string>)
    requires heading in ["Provider: ", "Family: ", "Model: ", "Response: ", "Command: ", "Target: "]
    ensures AllHeaded(Optional(heading, value))
  {
    if value.Some? { FieldKeepsHeading(heading, value.value); }
  }

  lemma HeadedConcat(a: seq<string>, b: seq<string>)
    requires AllHeaded(a) && AllHeaded(b)
    ensures AllHeaded(a + b)
  {
  }

  lemma ContextLinesHeaded(u: ToolUse)
    ensures AllHeaded(ContextLines(u))
  {
    var a, b := Optional("Provider: ", u.provider), Optional("Family: ", u.family);
    var c, d := Optional("Model: ", u.model), Optional("Response: ", u.response);
    var e, f := Optional("Command: ", u.command), Optional("Target: ", u.target);
    OptionalHeaded("Provider: ", u.provider);
    OptionalHeaded("Family: ", u.family);
    OptionalHeaded("Model: ", u.model);
    OptionalHeaded("Response: ", u.response);
    OptionalHeaded("Command: ", u.command);
    OptionalHeaded("Target: ", u.target);
    HeadedConcat(a, b);
    HeadedConcat(a + b, c);
    HeadedConcat(a + b + c, d);
    HeadedConcat(a + b + c + d, e);
    HeadedConcat(a + b + c + d + e, f);
  }

  /** Lines as splitting gives them back, the last one as it is, or not the last. */
  predicate Stripped(lines: seq<string>, read: seq<string>) {
    |lines| == |read| && forall i :: 0 <= i < |lines| ==> read[i] == lines[i] || read[i] == StripReturn(lines[i])
  }

  lemma NameAndDetailAreNoContext(u: ToolUse, line: string)
    requires line == "Tool: " + u.tool || (u.message.Some? && line == "Detail: " + u.message.value)
    ensures !IsContext(line) && !IsContext(StripReturn(line))
  {
    assert line[0] == 'T' ==> line[1] == 'o';
    assert StripReturn(line)[0] == line[0] && StripReturn(line)[1] == line[1];
  }

  lemma MiddleIsContext(head: seq<string>, middle: seq<string>, end: seq<string>)
    requires forall i :: 0 <= i < |head| ==> !IsContext(head[i])
    requires forall i :: 0 <= i < |middle| ==> IsContext(middle[i])
    requires forall i :: 0 <= i < |end| ==> !IsContext(end[i])
    ensures ContextOf(head + middle + end) == middle
  {
    ContextConcat(head + middle, end);
    ContextConcat(head, middle);
    NoContext(head);
    AllContext(middle);
    NoContext(end);
    EmptyAppend(middle);
  }

  /**
   Of an event without newlines the body keeps its provider, family, model, response, command and target, those
   it has, each on its line under its heading and in this order; a carriage return before a newline is lost.
   */
  lemma ContextIsKept(u: ToolUse)
    requires SingleLine(u)
    ensures Stripped(ContextLines(u), ContextOf(SplitLines(Summary(u))))
  {
    var lines := SummaryLines(u);
    SummaryIsLabelled(u);
    LabelledRead(lines, Returned(lines));
    SummaryInParts(u);
    ContextLinesHeaded(u);
    EndsAreNoContext(u);
    ReadInParts(["Tool: " + u.tool], ContextLines(u), Optional("Detail: ", u.message), Returned(lines));
  }

  lemma SummaryInParts(u: ToolUse)
    ensures SummaryLines(u) == ["Tool: " + u.tool] + ContextLines(u) + Optional("Detail: ", u.message)
  {
  }

  lemma EndsAreNoContext(u: ToolUse)
    ensures NoneIsContext(["Tool: " + u.tool]) && NoneIsContext(Optional("Detail: ", u.message))
  {
    NameAndDetailAreNoContext(u, "Tool: " + u.tool);
    if u.message.Some? { NameAndDetailAreNoContext(u, "Detail: " + u.message.value); }
  }

  lemma ReadInParts(head: seq<string>, middle: seq<string>, end: seq<string>, read: seq<string>)
    requires read == Returned(head + middle + end)
    requires NoneIsContext(head) && AllHeaded(middle) && NoneIsContext(end)
    ensures Stripped(middle, ContextOf(read))
  {
    var h, m := |head|, |middle|;
    ReadParts(head, middle, end, read);
    PartStripped(head, read[..h], false);
    PartStripped(middle, read[h..h + m], true);
    PartStripped(end, read[h + m..], false);
    MiddleIsContext(read[..h], read[h..h + m], read[h + m..]);
  }

  predicate NoneIsContext(lines: seq<string>) {
    forall i :: 0 <= i < |lines| ==> !IsContext(lines[i]) && !IsContext(StripReturn(lines[i]))
  }

  lemma ReadParts(head: seq<string>, middle: seq<string>, end: seq<string>, read: seq<string>)
    requires read == Returned(head + middle + end)
    ensures |read| == |head| + |middle| + |end|
    ensures var h, m := |head|, |middle|;
            && read == read[..h] + read[h..h + m] + read[h + m..]
            && Stripped(head, read[..h]) && Stripped(middle, read[h..h + m]) && Stripped(end, read[h + m..])
  {
    var all, h, m := head + middle + end, |head|, |middle|;
    assert Stripped(all, read);
    SubStripped(all, read, 0, h, head);
    SubStripped(all, read, h, h + m, middle);
    SubStripped(all, read, h + m, |all|, end);
  }

  lemma SubStripped(all: seq<string>, read: seq<string>, lo: nat, hi: nat, part: seq<string>)
    requires Stripped(all, read) && lo <= hi <= |all| && all[lo..hi] == part
    ensures Stripped(part, read[lo..hi])
  {
  }

  lemma PartStripped(lines: seq<string>, read: seq<string>, context: bool)
    requires Stripped(lines, read)
    requires if context then AllHeaded(lines) else NoneIsContext(lines)
    ensures forall i :: 0 <= i < |read| ==> IsContext(read[i]) == context
  {
  }

  /** A line of a body stands in it as a line, but for a carriage return. */
  lemma {:induction false} LineIsKept(lines: seq<string>, i: nat)
    requires i + 1 < |lines| && OneLine(lines[i])
    ensures StripReturn(lines[i]) in SplitLines(JoinLines(lines))
  {
    SplitConcat(lines[0], JoinLines(lines[1..]));
    if i == 0 {
      SplitLine(lines[0]);
    } else {
      LineIsKept(lines[1..], i - 1);
    }
  }

  /** So the regrouped body holds the context of the newest event, and its detail if that stands on one line. */
  lemma BodyKeepsNewest(title: string, existing: string, next: string)
    ensures forall line :: line in ContextOf(SplitLines(next)) ==>
              StripReturn(line) in SplitLines(GroupedBody(title, existing, next))
    ensures OneLine(Latest(next)) ==>
              StripReturn("Latest: " + Latest(next)) in SplitLines(GroupedBody(title, existing, next))
  {
    var context, lines := ContextOf(SplitLines(next)), GroupedLines(title, existing, next);
    RowsFit(existing, next);
    forall line | line in context ensures StripReturn(line) in SplitLines(GroupedBody(title, existing, next)) {
      var i :| 0 <= i < |context| && context[i] == line;
      assert lines[2 + i] == line;
      LineIsKept(lines, 2 + i);
    }
    if OneLine(Latest(next)) {
      assert lines[2 + |context|] == "Latest: " + Latest(next);
      LineIsKept(lines, 2 + |context|);
    }
  }

  // ----- the newest row -----

  /** Of more than four rows the last four stay. */
  lemma FourRemain<T>(s: seq<T>, a: T, b: T, c: T, d: T)
    ensures LastFour(s + [a, b, c, d]) == [a, b, c, d]
  {
  }

  /** A detail that is not blank has its row after it came. */
  lemma NewestHasRow(details: seq<CountedDetail>, text: string)
    requires !AllBlank(text)
    ensures exists d :: d in Pushed(details, text) && Normalize(d.text) == Normalize(text)
  {
    var i := IndexOfDetail(details, text);
    if i.Some? {
      var d := details[i.value].(count := SaturatingNext(details[i.value].count));
      assert Pushed(details, text)[i.value] == d;
    } else {
      var s := details + [CountedDetail(text, 1)];
      assert LastFour(s)[|LastFour(s)| - 1] == s[|s| - 1];
    }
  }

  lemma {:induction false} NoneWith(lines: seq<string>, prefix: string)
    requires prefix != "" && forall i :: 0 <= i < |lines| ==> lines[i] != "" && lines[i][0] != prefix[0]
    ensures FirstWith(lines, prefix).None?
  {
    if lines != [] { NoneWith(lines[1..], prefix); }
  }

  predicate NoHeading(line: string) {
    |line| >= 6 && line[0] != 'D' && line[0] != 'L'
  }

  lemma NoDetailHeading(u: ToolUse)
    requires u.message.None?
    ensures forall i :: 0 <= i < |SummaryLines(u)| ==> NoHeading(SummaryLines(u)[i])
  {
  }

  lemma NoDetailRead(lines: seq<string>, read: seq<string>)
    requires read == Returned(lines) && forall i :: 0 <= i < |lines| ==> NoHeading(lines[i])
    ensures FirstWith(read, "Detail: ").None? && FirstWith(read, "Latest: ").None?
  {
    assert forall i :: 0 <= i < |lines| ==> NoHeading(lines[i]) && read[i] != "" && read[i][0] == lines[i][0];
    NoneWith(read, "Detail: ");
    NoneWith(read, "Latest: ");
  }

  /** An event on one line without a message is described by its summary, cut to 120 characters. */
  lemma WithoutMessage(u: ToolUse)
    requires SingleLine(u) && u.message.None?
    ensures MessageOf(u) == if |Summary(u)| <= 120 then Summary(u) else Summary(u)[..117] + "..."
  {
    NoDetailHeading(u);
    SummaryIsLabelled(u);
    LabelledRead(SummaryLines(u), Returned(SummaryLines(u)));
    NoDetailRead(SummaryLines(u), Returned(SummaryLines(u)));
  }
}
