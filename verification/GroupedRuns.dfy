/** What the body of a grouped entry says about the run of events that went into it. */
module GroupedRuns {
  import opened Prelude
  import opened Whitespace
  import opened Strings
  import opened Numerals
  import opened Grouping
  import opened GroupedRows
  import opened DetailList

  // ----- a run of events of one tool -----

  /** A `tool.used` event, as `summarize_tool_event` reads it. */
  datatype ToolUse = ToolUse(
    tool: string, provider: Option<string>, family: Option<string>, model: Option<string>,
    response: Option<string>, command: Option<string>, target: Option<string>, message: Option<string>)

  function Optional(heading: string, value: Option<string>): seq<string> {
    if value.Some? then [heading + value.value] else []
  }

  function SummaryLines(u: ToolUse): seq<string> {
    ["Tool: " + u.tool]
    + (Optional("Provider: ", u.provider) + Optional("Family: ", u.family) + Optional("Model: ", u.model)
       + Optional("Response: ", u.response) + Optional("Command: ", u.command) + Optional("Target: ", u.target))
    + Optional("Detail: ", u.message)
  }

  /** `summarize_tool_event`. */
  function Summary(u: ToolUse): string {
    JoinLines(SummaryLines(u))
  }

  /** The body after a fresh entry for `uses[0]` took the other events one by one. */
  function BodyOf(uses: seq<ToolUse>): string
    requires uses != []
  {
    if |uses| == 1 then Summary(uses[0])
    else
      var last := uses[|uses| - 1];
      GroupedBody(last.tool, BodyOf(uses[..|uses| - 1]), Summary(last))
  }

  lemma BodyGrows(uses: seq<ToolUse>, u: ToolUse)
    requires uses != []
    ensures BodyOf(uses + [u]) == GroupedBody(u.tool, BodyOf(uses), Summary(u))
  {
    assert (uses + [u])[..|uses|] == uses;
  }

  predicate OptionalOneLine(value: Option<string>) {
    value.Some? ==> OneLine(value.value)
  }

  /** No field of the event holds a newline. */
  predicate SingleLine(u: ToolUse) {
    && OneLine(u.tool) && OptionalOneLine(u.provider) && OptionalOneLine(u.family)
    && OptionalOneLine(u.model) && OptionalOneLine(u.response) && OptionalOneLine(u.command)
    && OptionalOneLine(u.target) && OptionalOneLine(u.message)
  }

  /** A line of a summary, by its first letter: it counts nothing and lists nothing. */
  predicate IsLabelled(line: string) {
    OneLine(line) && |line| >= 2 && line[0] != 'E' && line[0] != '-'
  }

  predicate AllLabelled(lines: seq<string>) {
    forall i :: 0 <= i < |lines| ==> IsLabelled(lines[i])
  }

  lemma AppendLabelled(a: seq<string>, b: seq<string>)
    requires AllLabelled(a) && AllLabelled(b)
    ensures AllLabelled(a + b)
  {
  }

  lemma SummaryIsLabelled(u: ToolUse)
    requires SingleLine(u)
    ensures AllLabelled(SummaryLines(u)) && SummaryLines(u) != []
  {
    var a, b := Optional("Provider: ", u.provider), Optional("Family: ", u.family);
    var c, d := Optional("Model: ", u.model), Optional("Response: ", u.response);
    var e, f := Optional("Command: ", u.command), Optional("Target: ", u.target);
    AppendLabelled(a, b);
    AppendLabelled(a + b, c);
    AppendLabelled(a + b + c, d);
    AppendLabelled(a + b + c + d, e);
    AppendLabelled(a + b + c + d + e, f);
    var context := a + b + c + d + e + f;
    AppendLabelled(["Tool: " + u.tool], context);
    AppendLabelled(["Tool: " + u.tool] + context, Optional("Detail: ", u.message));
  }

  lemma ReturnedKeepsLabels(lines: seq<string>)
    requires AllLabelled(lines)
    ensures forall i :: 0 <= i < |lines| ==> Returned(lines)[i] != [] && Returned(lines)[i][0] == lines[i][0]
  {
  }

  /** Labelled lines read back line by line, and none of them is a count or a detail. */
  lemma LabelledRead(lines: seq<string>, read: seq<string>)
    requires AllLabelled(lines) && lines != [] && read == Returned(lines)
    ensures SplitLines(JoinLines(lines)) == read
    ensures FirstCount(read).None? && DetailsIn(read) == []
  {
    SplitJoined(lines);
    ReturnedKeepsLabels(lines);
    assert forall i :: 0 <= i < |read| ==> IsLabelled(lines[i]) && read[i][0] == lines[i][0];
    NoCount(read);
    NoDetails(read);
  }

  lemma {:induction false} NoCount(lines: seq<string>)
    requires forall i :: 0 <= i < |lines| ==> lines[i] != [] && lines[i][0] != 'E'
    ensures FirstCount(lines).None?
  {
    if lines != [] { NoCount(lines[1..]); }
  }

  lemma {:induction false} NoDetails(lines: seq<string>)
    requires forall i :: 0 <= i < |lines| ==> lines[i] != [] && lines[i][0] != '-'
    ensures DetailsIn(lines) == []
  {
    if lines != [] { NoDetails(lines[1..]); }
  }

  /** A fresh body shows no count and lists no details. */
  lemma SummaryShowsNothing(u: ToolUse)
    requires SingleLine(u)
    ensures EventCount(Summary(u)).None? && RecentDetails(Summary(u)) == []
  {
    SummaryIsLabelled(u);
    LabelledRead(SummaryLines(u), Returned(SummaryLines(u)));
  }

  // ----- the count -----

  /** The number of events that a fresh body counts as: one, but for a line of the event that reads as a count. */
  function FirstCounts(u: ToolUse): nat {
    EventCount(Summary(u)).GetOr(1)
  }

  /** The counts that the names of the events bring. */
  function NameCounts(uses: seq<ToolUse>): (r: seq<Option<nat>>)
    ensures |r| == |uses| && forall i :: 0 <= i < |r| ==> r[i] == TitleCount(uses[i].tool)
  {
    seq(|uses|, i requires 0 <= i < |uses| => TitleCount(uses[i].tool))
  }

  /** The last event after the first whose name brings a count, or else the first event. */
  function LastCounted(counts: seq<Option<nat>>): (j: nat)
    requires counts != []
    ensures j < |counts| && (j > 0 ==> counts[j].Some?)
    ensures forall i :: j < i < |counts| ==> counts[i].None?
  {
    var n := |counts| - 1;
    if n == 0 || counts[n].Some? then n else LastCounted(counts[..n])
  }

  /** What the body counted when that event had come: `first`, or what the name brought. */
  function CountedThere(first: nat, counts: seq<Option<nat>>): nat
    requires counts != []
  {
    var j := LastCounted(counts);
    if j == 0 then first else counts[j].value
  }

  /** One more for every event since. */
  function CountMeant(first: nat, counts: seq<Option<nat>>): nat
    requires counts != []
  {
    CountedThere(first, counts) + (|counts| - 1 - LastCounted(counts))
  }

  lemma CountMeantGrows(first: nat, counts: seq<Option<nat>>, c: Option<nat>)
    requires counts != []
    ensures CountMeant(first, counts + [c]) == c.GetOr(CountMeant(first, counts) + 1)
  {
    InitOfSnoc(counts, c);
  }

  lemma NameCountsGrow(before: seq<ToolUse>, u: ToolUse)
    ensures NameCounts(before + [u]) == NameCounts(before) + [TitleCount(u.tool)]
  {
  }

  /** The count a run of events of one tool is meant to leave. */
  function RunCounts(uses: seq<ToolUse>): nat
    requires uses != []
  {
    CountMeant(FirstCounts(uses[0]), NameCounts(uses))
  }

  lemma RunCountsGrow(before: seq<ToolUse>, u: ToolUse)
    requires before != []
    ensures RunCounts(before + [u]) == TitleCount(u.tool).GetOr(RunCounts(before) + 1)
  {
    NameCountsGrow(before, u);
    CountMeantGrows(FirstCounts(before[0]), NameCounts(before), TitleCount(u.tool));
  }

  /**
   After any events of one tool the body reads what the first event counts as, or a later one whose name
   brings a count, and one more for every event since, up to saturation.
   */
  lemma {:induction false} BodyCountsEvents(uses: seq<ToolUse>)
    requires uses != []
    ensures EventCount(BodyOf(uses)).GetOr(1) == Min(RunCounts(uses), USIZE_MAX)
    ensures |uses| > 1 ==> EventCount(BodyOf(uses)).Some?
    decreases |uses|
  {
    if |uses| == 1 {
      CountFits(SplitLines(Summary(uses[0])));
    } else {
      var before, u := LastApart(uses);
      BodyCountsEvents(before);
      OneMoreCounts(before, u);
    }
  }

  lemma OneMoreCounts(before: seq<ToolUse>, u: ToolUse)
    requires before != []
    ensures EventCount(BodyOf(before)).GetOr(1) == Min(RunCounts(before), USIZE_MAX) ==>
              EventCount(BodyOf(before + [u])) == Some(Min(RunCounts(before + [u]), USIZE_MAX))
  {
    RunCountsGrow(before, u);
    BodyGrows(before, u);
    GroupingCounts(u.tool, BodyOf(before), Summary(u));
    CountFits(SplitLines("Tool: " + u.tool + "\n"));
  }

  /**
   So it reads `k` exactly when the event that counted last for itself had counted right, as with events that
   hold no newline.
   */
  lemma BodyCountIsRight(uses: seq<ToolUse>)
    requires |uses| > 1
    ensures var counts := NameCounts(uses);
            var counted, j := CountedThere(FirstCounts(uses[0]), counts), LastCounted(counts);
            EventCount(BodyOf(uses)) == Some(Min(|uses|, USIZE_MAX))
            <==> counted == j + 1 || (|uses| >= USIZE_MAX && counted + |uses| - 1 - j >= USIZE_MAX)
  {
    BodyCountsEvents(uses);
    CountsRight(EventCount(BodyOf(uses)), FirstCounts(uses[0]), NameCounts(uses));
  }

  lemma CountsRight(read: Option<nat>, first: nat, counts: seq<Option<nat>>)
    requires counts != [] && read == Some(Min(CountMeant(first, counts), USIZE_MAX))
    ensures var counted, j := CountedThere(first, counts), LastCounted(counts);
            read == Some(Min(|counts|, USIZE_MAX))
            <==> counted == j + 1 || (|counts| >= USIZE_MAX && counted + |counts| - 1 - j >= USIZE_MAX)
  {
    RunCountsRight(CountedThere(first, counts), LastCounted(counts), |counts|);
  }

  lemma RunCountsRight(counted: nat, j: nat, k: nat)
    requires j < k
    ensures Min(counted + (k - 1 - j), USIZE_MAX) == Min(k, USIZE_MAX)
            <==> counted == j + 1 || (k >= USIZE_MAX && counted + k - 1 - j >= USIZE_MAX)
  {
  }

  lemma OneLineCountsRight(uses: seq<ToolUse>)
    requires uses != [] && SingleLine(uses[0]) && forall i :: 0 < i < |uses| ==> OneLine(uses[i].tool)
    ensures LastCounted(NameCounts(uses)) == 0 && CountedThere(FirstCounts(uses[0]), NameCounts(uses)) == 1
  {
    var j := LastCounted(NameCounts(uses));
    if j > 0 { OneLineTitleCounts(uses[j].tool); }
    SummaryShowsNothing(uses[0]);
  }

  // ----- the detail of an event -----

  /** A message that stands on one line, is trimmed, and reads back as itself. */
  ghost predicate IsPlain(m: string) {
    OneLine(m) && m != "" && Trimmed(m) && !LooksCounted(m)
  }

  lemma NoOtherDetail(u: ToolUse)
    requires u.message.None?
    ensures forall i :: 0 <= i < |SummaryLines(u)| ==> |SummaryLines(u)[i]| >= 6 && SummaryLines(u)[i][0] != 'D'
  {
  }

  lemma {:induction false} LastHasPrefix(lines: seq<string>, prefix: string, value: string)
    requires lines != [] && lines[|lines| - 1] == prefix + value
    requires forall i :: 0 <= i < |lines| - 1 ==> !StartsWith(lines[i], prefix)
    ensures FirstWith(lines, prefix) == Some(value)
  {
    if |lines| > 1 { LastHasPrefix(lines[1..], prefix, value); }
    else { assert lines[0][|prefix|..] == value; }
  }

  lemma DetailIsLast(others: seq<string>, value: string)
    requires forall i :: 0 <= i < |others| ==> |others[i]| >= 6 && others[i][0] != 'D'
    ensures FirstWith(Returned(others + ["Detail: " + value]), "Detail: ") == Some(value)
  {
    var lines := others + ["Detail: " + value];
    forall i | 0 <= i < |others| ensures !StartsWith(Returned(lines)[i], "Detail: ") {
      assert lines[i] == others[i] && Returned(lines)[i][0] == others[i][0];
    }
    LastHasPrefix(Returned(lines), "Detail: ", value);
  }

  /** The message of a single-line event is the detail its summary yields. */
  lemma SummaryDetail(u: ToolUse)
    requires SingleLine(u) && u.message.Some?
    ensures MessageOf(u) == u.message.value
  {
    var others := SummaryLines(u.(message := None));
    SummaryIsLabelled(u);
    LabelledRead(SummaryLines(u), Returned(SummaryLines(u)));
    NoOtherDetail(u.(message := None));
    assert SummaryLines(u) == others + ["Detail: " + u.message.value];
    DetailIsLast(others, u.message.value);
  }

  /**
   What an event adds to the rows: its detail line, or, for an event without a message, its whole summary,
   cut to 120 characters.
   */
  function MessageOf(u: ToolUse): string {
    Latest(Summary(u))
  }

  function Messages(uses: seq<ToolUse>): (r: seq<string>)
    ensures |r| == |uses| && forall i :: 0 <= i < |r| ==> r[i] == MessageOf(uses[i])
  {
    seq(|uses|, i requires 0 <= i < |uses| => MessageOf(uses[i]))
  }

  /** The event's name brings no row into a body. */
  predicate NameIsPlain(u: ToolUse) {
    Listed("Tool: " + u.tool) == []
  }

  /** An event whose name brings no row, and whose detail is plain. */
  ghost predicate Groupable(u: ToolUse) {
    NameIsPlain(u) && IsPlain(MessageOf(u))
  }

  lemma GroupableNamesNoRow(u: ToolUse)
    requires Groupable(u)
    ensures NamesNoRow(u.tool, Summary(u))
  {
    LatestIsNotListed(Summary(u));
  }

  /** No line of the event reads as a row, as when no field holds a newline. */
  predicate ListsNothing(u: ToolUse) {
    RecentDetails(Summary(u)) == []
  }

  /** So events with a plain message, and no newline in any field, are groupable and list nothing. */
  lemma PlainMessageIsGroupable(u: ToolUse)
    requires SingleLine(u)
    ensures ListsNothing(u)
    ensures u.message.Some? ==> (Groupable(u) <==> IsPlain(u.message.value))
  {
    SummaryShowsNothing(u);
    UnlistedIsNotListed("Tool: " + u.tool);
    if u.message.Some? { SummaryDetail(u); }
  }

  // ----- the rows over a run -----

  /** The rows meant for a fresh entry: those its text lists, or else its one detail. */
  function FirstRows(u: ToolUse): seq<CountedDetail> {
    if ListsNothing(u) then [CountedDetail(MessageOf(u), 1)] else RecentDetails(Summary(u))
  }

  /** The rows meant after a run: every event pushes its detail, and the last four rows stay. */
  function Meant(uses: seq<ToolUse>): seq<CountedDetail>
    requires uses != []
  {
    if |uses| == 1 then FirstRows(uses[0])
    else LastFour(Pushed(Meant(uses[..|uses| - 1]), MessageOf(uses[|uses| - 1])))
  }

  lemma MeantGrows(before: seq<ToolUse>, u: ToolUse)
    requires before != []
    ensures Meant(before + [u]) == LastFour(Pushed(Meant(before), MessageOf(u)))
  {
    InitOfSnoc(before, u);
  }

  /** The rows of the body are the rows meant, after the second event and every later one. */
  ghost predicate AlwaysReads(uses: seq<ToolUse>) {
    |uses| <= 1 || (AlwaysReads(uses[..|uses| - 1]) && RecentDetails(BodyOf(uses)) == Meant(uses))
  }

  /** At each of these events the rows meant survive, and its name and detail list nothing. */
  ghost predicate AlwaysFits(uses: seq<ToolUse>) {
    |uses| <= 1
    || (var u := uses[|uses| - 1];
        AlwaysFits(uses[..|uses| - 1]) && AllSurvive(Meant(uses)) && NamesNoRow(u.tool, Summary(u)))
  }

  lemma AlwaysSnoc(before: seq<ToolUse>, u: ToolUse)
    requires before != []
    ensures AlwaysReads(before + [u])
            <==> AlwaysReads(before) && RecentDetails(BodyOf(before + [u])) == Meant(before + [u])
    ensures AlwaysFits(before + [u])
            <==> AlwaysFits(before) && AllSurvive(Meant(before + [u])) && NamesNoRow(u.tool, Summary(u))
  {
    InitOfSnoc(before, u);
  }

  lemma {:induction false} MeantIsSome(uses: seq<ToolUse>)
    requires uses != []
    ensures Meant(uses) != []
  {
    if |uses| > 1 { MeantIsSome(uses[..|uses| - 1]); }
  }

  /** While the rows read back, the next rows printed are the rows meant. */
  lemma NextRowsMeant(before: seq<ToolUse>, u: ToolUse)
    requires before != [] && AlwaysReads(before)
    ensures RowsAfter(BodyOf(before), Summary(u)) == Meant(before + [u])
  {
    MeantGrows(before, u);
    MeantIsSome(before);
  }

  /**
   Over every run: the rows of the body are the rows meant after each event, if and only if at each event
   the rows meant survive being printed, and its name and detail list none of their own.
   */
  lemma {:induction false} RunReadsBack(uses: seq<ToolUse>)
    requires uses != []
    ensures AlwaysReads(uses) <==> AlwaysFits(uses)
    decreases |uses|
  {
    if |uses| > 1 {
      var before, u := LastApart(uses);
      RunReadsBack(before);
      AlwaysSnoc(before, u);
      BodyGrows(before, u);
      if AlwaysReads(before) {
        NextRowsMeant(before, u);
        GroupedReads(u.tool, BodyOf(before), Summary(u));
      }
    }
  }

  // ----- runs of plain details -----

  lemma PushedSurvives(details: seq<CountedDetail>, text: string)
    requires AllSurvive(details) && IsPlain(text)
    ensures AllSurvive(Pushed(details, text)) && Pushed(details, text) != []
    ensures |details| <= 4 ==> |Pushed(details, text)| <= 4
  {
  }

  ghost predicate AllGroupable(uses: seq<ToolUse>) {
    forall i :: 0 <= i < |uses| ==> Groupable(uses[i])
  }

  /** A run whose events are groupable, and whose first event, which is not grouped, lists nothing. */
  ghost predicate GroupableRun(uses: seq<ToolUse>) {
    uses != [] && AllGroupable(uses) && ListsNothing(uses[0])
  }

  lemma GroupablePrefix(before: seq<ToolUse>, u: ToolUse)
    requires GroupableRun(before + [u]) && before != []
    ensures GroupableRun(before) && Groupable(u)
  {
    assert Groupable((before + [u])[|before|]);
    assert before[0] == (before + [u])[0];
    forall i | 0 <= i < |before| ensures Groupable(before[i]) {
      assert Groupable((before + [u])[i]);
    }
  }

  /** In such a run the rows meant are the list built from the messages, and they always fit. */
  ghost predicate FitsPlainly(uses: seq<ToolUse>)
    requires uses != []
  {
    var details := DetailsOf(Messages(uses));
    AlwaysFits(uses) && Meant(uses) == details && AllSurvive(details) && 1 <= |details| <= 4
  }

  lemma {:induction false} GroupableFits(uses: seq<ToolUse>)
    requires GroupableRun(uses)
    ensures FitsPlainly(uses)
    decreases |uses|
  {
    if |uses| == 1 {
      OneFits(uses);
    } else {
      var before, u := LastApart(uses);
      GroupablePrefix(before, u);
      GroupableFits(before);
      OneMoreFits(before, u);
    }
  }

  lemma OneFits(uses: seq<ToolUse>)
    requires |uses| == 1 && GroupableRun(uses)
    ensures FitsPlainly(uses)
  {
    assert Groupable(uses[0]);
  }

  lemma OneMoreFits(before: seq<ToolUse>, u: ToolUse)
    requires before != [] && FitsPlainly(before) && Groupable(u)
    ensures FitsPlainly(before + [u])
  {
    DetailsGrow(before, u);
    MeantGrows(before, u);
    AlwaysSnoc(before, u);
    PushedSurvives(DetailsOf(Messages(before)), MessageOf(u));
    GroupableNamesNoRow(u);
  }

  lemma DetailsGrow(before: seq<ToolUse>, u: ToolUse)
    requires before != []
    ensures DetailsOf(Messages(before + [u])) == Pushed(DetailsOf(Messages(before)), MessageOf(u))
  {
    assert Messages(before + [u])[..|before|] == Messages(before);
  }

  /**
   So parsing the body that such a run left behind gives exactly the list of details that was built event by
   event: nothing is lost in the text.
   */
  lemma BodyShowsDetails(uses: seq<ToolUse>)
    requires GroupableRun(uses)
    ensures |DetailsOf(Messages(uses))| <= 4
    ensures |uses| > 1 ==> RecentDetails(BodyOf(uses)) == DetailsOf(Messages(uses))
  {
    GroupableFits(uses);
    RunReadsBack(uses);
  }

  // ----- all of it together -----

  /**
   What the body of an entry with `k >= 2` events says. Their number, as `BodyCountsEvents` has it. When all
   details are plain and the first event lists nothing: at most four rows, all distinct, each with the number
   of times its message came since it was new; and when there are at most four kinds of messages, exactly
   those kinds with their numbers of occurrences, which add up to `k`.
   */
  ghost predicate ReadsAs(body: string, uses: seq<ToolUse>)
    requires uses != []
  {
    && EventCount(body) == Some(Min(RunCounts(uses), USIZE_MAX))
    && (GroupableRun(uses) ==>
          && |RecentDetails(body)| <= 4 && DistinctTexts(RecentDetails(body))
          && ShowsSince(RecentDetails(body), Messages(uses), LastFour(NewAt(Messages(uses))))
          && (|uses| <= USIZE_MAX && |Kinds(Messages(uses))| <= 4 ==> Describes(RecentDetails(body), Messages(uses))))
  }

  lemma BodyReadsAs(uses: seq<ToolUse>)
    requires |uses| > 1
    ensures ReadsAs(BodyOf(uses), uses)
  {
    BodyCountsEvents(uses);
    if GroupableRun(uses) {
      BodyShowsDetails(uses);
      DetailsAreDistinct(Messages(uses));
      PlainIsNotBlank(uses);
      RowsAreLastNew(Messages(uses));
      if |uses| <= USIZE_MAX && |Kinds(Messages(uses))| <= 4 {
        DetailsDescribeTheRun(Messages(uses));
      }
    }
  }

  lemma PlainIsNotBlank(uses: seq<ToolUse>)
    requires AllGroupable(uses)
    ensures forall i :: 0 <= i < |uses| ==> !AllBlank(Messages(uses)[i])
  {
    forall i | 0 <= i < |uses| ensures !AllBlank(Messages(uses)[i]) {
      assert Groupable(uses[i]) && !IsBlank(Messages(uses)[i][0]);
    }
  }
}
