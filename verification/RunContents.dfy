/** What the data of each event puts into the record of its run, and which run is then selected. */
module RunContents {
  import opened Prelude
  import opened Whitespace
  import opened Strings
  import opened Json
  import opened Runs
  import opened RunSelection

  // ----- reading an event -----

  /** The string field of that name, unless it is blank. */
  function Text(data: Value, key: string): seq<string> {
    var s := GetStr(data, key);
    if s.Some? && !AllBlank(s.value) then [s.value] else []
  }

  /** The same, or else another text. */
  function TextOr(data: Value, key: string, default: string): string {
    if Text(data, key) == [] then default else Text(data, key)[0]
  }

  /** A text with a heading, if there is one. */
  function Headed(heading: string, texts: seq<string>): seq<string> {
    if texts == [] then [] else [heading + texts[0]]
  }

  // ----- the list of a run -----

  function ListOf(records: seq<RunRecord>, runId: string, f: Field): seq<string> {
    var i := IndexOfRun(records, runId);
    if i.Some? then At(records[i.value].lists, f) else []
  }

  /** The list becomes the first occurrences of what it held and of `added`, and nothing else. */
  ghost predicate Gains(g: Ledger, e: Event, f: Field, added: seq<string>)
    requires e.runId.Some?
  {
    ListOf(Record(g, e).records, e.runId.value, f) == Firsts(ListOf(g.records, e.runId.value, f) + added)
  }

  lemma ListHasNoRepeats(records: seq<RunRecord>, runId: string, f: Field)
    requires RecordsInv(records)
    ensures NoRepeats(ListOf(records, runId, f))
  {
  }

  lemma EnsuredList(records: seq<RunRecord>, runId: string, prompt: Option<string>, f: Field)
    ensures var (all, i) := Ensured(records, runId, prompt); At(all[i].lists, f) == ListOf(records, runId, f)
  {
  }

  lemma AppliedList(records: seq<RunRecord>, t: Touch, f: Field)
    requires RecordsInv(records)
    ensures ListOf(Apply(records, t), t.runId, f) == Firsts(ListOf(records, t.runId, f) + PushedTo(t.pushes, f))
  {
    var (all, i) := Ensured(records, t.runId, t.newPrompt);
    EnsuredList(records, t.runId, t.newPrompt, f);
    ListHasNoRepeats(records, t.runId, f);
    PushAllKeepsFirsts(all[i].lists, t.pushes, f);
    AppliedIndex(records, t);
  }

  lemma AppliedIndex(records: seq<RunRecord>, t: Touch)
    requires RecordsInv(records)
    ensures IndexOfRun(Apply(records, t), t.runId) == Some(Ensured(records, t.runId, t.newPrompt).1)
  {
    var i := Ensured(records, t.runId, t.newPrompt).1;
    ApplyKeeps(records, t);
    HasIndex(Apply(records, t), t.runId, i);
  }

  lemma EventGains(g: Ledger, e: Event, f: Field)
    requires Inv(g) && e.runId.Some? && e.kind != "session.history"
    ensures Gains(g, e, f, PushedTo(EventPushes(e, e.runId.value), f))
  {
    AppliedList(g.records, EventTouch(e, e.runId.value, g.lastPrompt), f);
  }

  // ----- what is pushed, list by list -----

  lemma {:induction false} PushedToConcat(a: Pushes, b: Pushes, f: Field)
    ensures PushedTo(a + b, f) == PushedTo(a, f) + PushedTo(b, f)
    decreases |b|
  {
    if b == [] {
      EmptyAppend(a);
      EmptyAppend(PushedTo(a, f));
    } else {
      var before, p := LastApart(b);
      PushedToConcat(a, before, f);
      PushedToGrows(before, p, f);
      PushedToGrows(a + before, p, f);
      AppendAssociates(a, before, [p]);
      AppendAssociates(PushedTo(a, f), PushedTo(before, f), if p.0 == f then [p.1] else []);
    }
  }

  lemma OnePushed(p: (Field, string), f: Field)
    ensures PushedTo([p], f) == if p.0 == f then [p.1] else []
  {
    assert [p][..0] == [];
  }

  /** `a + b`, with nothing to show where one of them is empty. */
  function Join(a: seq<string>, b: seq<string>): (r: seq<string>)
    ensures r == a + b
  {
    EmptyAppend(a);
    EmptyAppend(b);
    if a == [] then b else if b == [] then a else a + b
  }

  /** One more text of the event, under a heading, into one of the lists. */
  lemma TextAdded(a: Pushes, into: Field, heading: string, e: Event, key: string, f: Field)
    ensures PushedTo(a + When(into, heading, StringData(e, key)), f)
            == if f == into then Join(PushedTo(a, f), Headed(heading, Text(e.data, key))) else PushedTo(a, f)
  {
    var s := StringData(e, key);
    if s.Some? { PushedToGrows(a, (into, heading + s.value), f); } else { EmptyAppend(a); }
    EmptyAppend(PushedTo(a, f));
  }

  lemma FirstText(into: Field, heading: string, e: Event, key: string, f: Field)
    ensures PushedTo(When(into, heading, StringData(e, key)), f)
            == if f == into then Headed(heading, Text(e.data, key)) else []
  {
    EmptyAppend(When(into, heading, StringData(e, key)));
    TextAdded([], into, heading, e, key, f);
  }

  lemma {:induction false} EachPushed(into: Field, values: seq<string>, f: Field)
    ensures PushedTo(Each(into, "", values), f) == if f == into then values else []
    decreases |values|
  {
    if values != [] {
      var before, x := LastApart(values);
      EachPushed(into, before, f);
      EmptyAppend(x);
      assert Each(into, "", values) == Each(into, "", before) + [(into, x)];
      PushedToGrows(Each(into, "", before), (into, x), f);
      EmptyAppend(PushedTo(Each(into, "", before), f));
    }
  }

  /** The lists that events carry along, by the names of their fields. */
  function Carried(data: Value, f: Field): seq<string> {
    match f
    case Files => GetStrings(data, "files")
    case Commands => GetStrings(data, "commands")
    case Receipts => GetStrings(data, "receipts")
    case _ => []
  }

  lemma EachAdded(a: Pushes, into: Field, values: seq<string>, f: Field)
    ensures PushedTo(a + Each(into, "", values), f)
            == if f == into then Join(PushedTo(a, f), values) else PushedTo(a, f)
  {
    PushedToConcat(a, Each(into, "", values), f);
    EachPushed(into, values, f);
    EmptyAppend(PushedTo(a, f));
  }

  lemma CarriedPushed(e: Event, f: Field)
    ensures PushedTo(CarriedLists(e), f) == Carried(e.data, f)
  {
    ThreePushed(GetStrings(e.data, "files"), GetStrings(e.data, "commands"), GetStrings(e.data, "receipts"), f);
  }

  lemma ThreePushed(files: seq<string>, commands: seq<string>, receipts: seq<string>, f: Field)
    ensures PushedTo(Each(Files, "", files) + Each(Commands, "", commands) + Each(Receipts, "", receipts), f)
            == if f == Files then files else if f == Commands then commands else if f == Receipts then receipts else []
  {
    var a, b := Each(Files, "", files), Each(Commands, "", commands);
    EachPushed(Files, files, f);
    EachAdded(a, Commands, commands, f);
    EachAdded(a + b, Receipts, receipts, f);
  }

  lemma ListsAdded(a: Pushes, e: Event, f: Field)
    ensures PushedTo(a + CarriedLists(e), f) == Join(PushedTo(a, f), Carried(e.data, f))
  {
    PushedToConcat(a, CarriedLists(e), f);
    CarriedPushed(e, f);
  }

  lemma Headless(texts: seq<string>)
    requires |texts| <= 1
    ensures Headed("", texts) == texts
  {
    if texts != [] { EmptyAppend(texts[0]); }
  }

  /** One line of provenance, and the lists carried along. */
  lemma LinePushed(lines: seq<string>, e: Event, f: Field)
    requires |lines| <= 1
    ensures PushedTo(Each(Provenance, "", lines) + CarriedLists(e), f)
            == if f == Provenance then lines else Carried(e.data, f)
  {
    EachPushed(Provenance, lines, f);
    ListsAdded(Each(Provenance, "", lines), e, f);
  }

  // ----- each kind of event -----

  /** A tool's name, command and target become a tool, a command and a file, behind them the lists carried along. */
  function ToolUsedAdds(data: Value, f: Field): seq<string> {
    match f
    case Tools => Text(data, "tool")
    case Commands => Join(Text(data, "command"), GetStrings(data, "commands"))
    case Files => Join(Text(data, "target"), GetStrings(data, "files"))
    case Receipts => GetStrings(data, "receipts")
    case Provenance => Headed("Tool used: ", Text(data, "tool"))
    case _ => []
  }

  lemma ToolUsedIs(e: Event, runId: string)
    requires e.kind == "tool.used"
    ensures EventPushes(e, runId)
            == When(Tools, "", StringData(e, "tool")) + When(Commands, "", StringData(e, "command"))
               + When(Files, "", StringData(e, "target")) + When(Provenance, "Tool used: ", StringData(e, "tool"))
               + CarriedLists(e)
  {
  }

  lemma ToolUsedTexts(e: Event, f: Field)
    ensures PushedTo(When(Tools, "", StringData(e, "tool")) + When(Commands, "", StringData(e, "command"))
                     + When(Files, "", StringData(e, "target")), f)
            == if f == Tools then Text(e.data, "tool") else if f == Commands then Text(e.data, "command")
               else if f == Files then Text(e.data, "target") else []
  {
    var a, b := When(Tools, "", StringData(e, "tool")), When(Commands, "", StringData(e, "command"));
    FirstText(Tools, "", e, "tool", f);
    TextAdded(a, Commands, "", e, "command", f);
    TextAdded(a + b, Files, "", e, "target", f);
    Headless(Text(e.data, "tool"));
    Headless(Text(e.data, "command"));
    Headless(Text(e.data, "target"));
  }

  lemma ToolUsedPushes(e: Event, f: Field)
    ensures PushedTo(When(Tools, "", StringData(e, "tool")) + When(Commands, "", StringData(e, "command"))
                     + When(Files, "", StringData(e, "target")) + When(Provenance, "Tool used: ", StringData(e, "tool"))
                     + CarriedLists(e), f)
            == ToolUsedAdds(e.data, f)
  {
    var abc := When(Tools, "", StringData(e, "tool")) + When(Commands, "", StringData(e, "command"))
               + When(Files, "", StringData(e, "target"));
    var d := When(Provenance, "Tool used: ", StringData(e, "tool"));
    ToolUsedTexts(e, f);
    TextAdded(abc, Provenance, "Tool used: ", e, "tool", f);
    ListsAdded(abc + d, e, f);
  }

  lemma ToolUsedRecords(g: Ledger, e: Event, f: Field)
    requires Inv(g) && e.runId.Some? && e.kind == "tool.used"
    ensures Gains(g, e, f, ToolUsedAdds(e.data, f))
  {
    EventGains(g, e, f);
    ToolUsedIs(e, e.runId.value);
    ToolUsedPushes(e, f);
  }

  /** A changed file becomes a file. */
  function FileChangedAdds(data: Value, f: Field): seq<string> {
    match f
    case Files => Join(Text(data, "target"), GetStrings(data, "files"))
    case Provenance => Headed("File changed: ", Text(data, "target"))
    case _ => Carried(data, f)
  }

  lemma FileChangedPushes(e: Event, f: Field)
    ensures PushedTo(When(Files, "", StringData(e, "target"))
                     + When(Provenance, "File changed: ", StringData(e, "target")) + CarriedLists(e), f)
            == FileChangedAdds(e.data, f)
  {
    var a, b := When(Files, "", StringData(e, "target")), When(Provenance, "File changed: ", StringData(e, "target"));
    FirstText(Files, "", e, "target", f);
    TextAdded(a, Provenance, "File changed: ", e, "target", f);
    ListsAdded(a + b, e, f);
    Headless(Text(e.data, "target"));
  }

  lemma FileChangedRecords(g: Ledger, e: Event, f: Field)
    requires Inv(g) && e.runId.Some? && e.kind == "file.changed"
    ensures Gains(g, e, f, FileChangedAdds(e.data, f))
  {
    EventGains(g, e, f);
    FileChangedPushes(e, f);
  }

  /** A requested approval is recorded by its message. */
  function ApprovalRequestedAdds(data: Value, f: Field): seq<string> {
    match f
    case Approvals => Text(data, "message")
    case Provenance => Headed("Approval requested: ", Text(data, "approval_id"))
    case _ => Carried(data, f)
  }

  lemma ApprovalRequestedPushes(e: Event, f: Field)
    ensures PushedTo(When(Approvals, "", StringData(e, "message"))
                     + When(Provenance, "Approval requested: ", StringData(e, "approval_id")) + CarriedLists(e), f)
            == ApprovalRequestedAdds(e.data, f)
  {
    var a := When(Approvals, "", StringData(e, "message"));
    var b := When(Provenance, "Approval requested: ", StringData(e, "approval_id"));
    FirstText(Approvals, "", e, "message", f);
    TextAdded(a, Provenance, "Approval requested: ", e, "approval_id", f);
    ListsAdded(a + b, e, f);
    Headless(Text(e.data, "message"));
  }

  lemma ApprovalRequestedRecords(g: Ledger, e: Event, f: Field)
    requires Inv(g) && e.runId.Some? && e.kind == "approval.requested"
    ensures Gains(g, e, f, ApprovalRequestedAdds(e.data, f))
  {
    EventGains(g, e, f);
    ApprovalRequestedPushes(e, f);
  }

  /** A working run: its phase and its message. */
  function WorkingAdds(data: Value, f: Field): seq<string> {
    match f
    case Provenance => Join(Headed("Phase: ", Text(data, "phase")), Headed("Working: ", Text(data, "message")))
    case _ => Carried(data, f)
  }

  lemma WorkingPushes(e: Event, f: Field)
    ensures PushedTo(When(Provenance, "Phase: ", StringData(e, "phase"))
                     + When(Provenance, "Working: ", StringData(e, "message")) + CarriedLists(e), f)
            == WorkingAdds(e.data, f)
  {
    var a := When(Provenance, "Phase: ", StringData(e, "phase"));
    var b := When(Provenance, "Working: ", StringData(e, "message"));
    FirstText(Provenance, "Phase: ", e, "phase", f);
    TextAdded(a, Provenance, "Working: ", e, "message", f);
    ListsAdded(a + b, e, f);
  }

  lemma WorkingRecords(g: Ledger, e: Event, f: Field)
    requires Inv(g) && e.runId.Some? && e.kind == "run.working"
    ensures Gains(g, e, f, WorkingAdds(e.data, f))
  {
    EventGains(g, e, f);
    WorkingPushes(e, f);
  }

  /** A receipt with an id: the id, and its details. */
  function ReceiptCreatedAdds(e: Event, f: Field): seq<string> {
    match f
    case Receipts => Join(Text(e.data, "receipt_id"), GetStrings(e.data, "receipts"))
    case ReceiptDetails => if Text(e.data, "receipt_id") == [] then [] else [EventReceiptDetail(e)]
    case Provenance => Headed("Receipt created: ", Text(e.data, "receipt_id"))
    case _ => Carried(e.data, f)
  }

  function ReceiptPair(e: Event): Pushes {
    if StringData(e, "receipt_id").Some?
    then [(Receipts, StringData(e, "receipt_id").value), (ReceiptDetails, EventReceiptDetail(e))] else []
  }

  lemma PairPushed(e: Event, f: Field)
    ensures PushedTo(ReceiptPair(e), f) ==
            match f
            case Receipts => Text(e.data, "receipt_id")
            case ReceiptDetails => if Text(e.data, "receipt_id") == [] then [] else [EventReceiptDetail(e)]
            case _ => []
  {
    if StringData(e, "receipt_id").Some? {
      var p, q := (Receipts, StringData(e, "receipt_id").value), (ReceiptDetails, EventReceiptDetail(e));
      assert [p] + [q] == [p, q] && [] + [p] == [p];
      PushedToGrows([p], q, f);
      PushedToGrows([], p, f);
    }
  }

  lemma ReceiptCreatedPushes(e: Event, f: Field)
    ensures PushedTo(ReceiptPair(e) + When(Provenance, "Receipt created: ", StringData(e, "receipt_id"))
                     + CarriedLists(e), f)
            == ReceiptCreatedAdds(e, f)
  {
    var b := When(Provenance, "Receipt created: ", StringData(e, "receipt_id"));
    PairPushed(e, f);
    TextAdded(ReceiptPair(e), Provenance, "Receipt created: ", e, "receipt_id", f);
    ListsAdded(ReceiptPair(e) + b, e, f);
  }

  lemma ReceiptCreatedRecords(g: Ledger, e: Event, f: Field)
    requires Inv(g) && e.runId.Some? && e.kind == "receipt.created"
    ensures Gains(g, e, f, ReceiptCreatedAdds(e, f))
  {
    EventGains(g, e, f);
    ReceiptCreatedIs(e, e.runId.value);
    ReceiptCreatedPushes(e, f);
  }

  lemma ReceiptCreatedIs(e: Event, runId: string)
    requires e.kind == "receipt.created"
    ensures EventPushes(e, runId)
            == ReceiptPair(e) + When(Provenance, "Receipt created: ", StringData(e, "receipt_id")) + CarriedLists(e)
  {
  }

  /** The line that the other kinds of event add to the provenance. */
  function LineOf(e: Event): seq<string> {
    if e.kind == "approval.resolved" then
      ["Approval resolved: " + TextOr(e.data, "approval_id", "approval") + " " + TextOr(e.data, "decision", "resolved")]
    else if e.kind == "approval.denied" then ["Approval denied: " + TextOr(e.data, "approval_id", "approval")]
    else if e.kind == "run.output" then Headed("Output: ", Compacted(Text(e.data, "summary")))
    else if e.kind == "run.event" then
      Headed("Event: ", Compacted(if Text(e.data, "text") != [] then Text(e.data, "text") else Text(e.data, "message")))
    else []
  }

  /** At most 120 characters of a text. */
  function Compacted(texts: seq<string>): seq<string> {
    if texts == [] then [] else [CompactText(texts[0], 120)]
  }

  lemma EachOne(f: Field, line: string)
    ensures Each(f, "", [line]) == [(f, line)]
  {
    EmptyAppend(line);
  }

  lemma LineOfIs(e: Event, runId: string)
    requires e.kind in ["approval.resolved", "approval.denied", "run.output", "run.event"]
    ensures EventPushes(e, runId) == Each(Provenance, "", LineOf(e)) + CarriedLists(e)
  {
    if LineOf(e) != [] { EachOne(Provenance, LineOf(e)[0]); }
  }

  /** Decisions, outputs and other events of a run: one line of provenance, and the lists they carry along. */
  lemma LineRecords(g: Ledger, e: Event, f: Field)
    requires Inv(g) && e.runId.Some? && e.kind in ["approval.resolved", "approval.denied", "run.output", "run.event"]
    ensures Gains(g, e, f, if f == Provenance then LineOf(e) else Carried(e.data, f))
  {
    EventGains(g, e, f);
    LineOfIs(e, e.runId.value);
    LinePushed(LineOf(e), e, f);
  }

  /** The beginning and the end of a run: a line of provenance only. */
  lemma StartAndEndRecord(g: Ledger, e: Event, f: Field)
    requires Inv(g) && e.runId.Some?
    ensures e.kind == "run.started" ==>
              Gains(g, e, f, if f == Provenance then ["Run started: " + e.runId.value] else [])
    ensures e.kind == "run.completed" ==>
              Gains(g, e, f, if f != Provenance then []
                             else ["Run completed: " + TextOr(e.data, "status", "completed")])
  {
    if e.kind in ["run.started", "run.completed"] {
      EventGains(g, e, f);
      OnePushed((Provenance, "Run started: " + e.runId.value), f);
      OnePushed((Provenance, "Run completed: " + TextOr(e.data, "status", "completed")), f);
    }
  }

  /** The kinds of event that add to the lists of a run. */
  const ADDING: seq<string> := ["run.started", "run.working", "run.completed", "tool.used", "file.changed",
                                "approval.requested", "approval.resolved", "approval.denied", "receipt.created",
                                "run.output", "run.event"]

  /** All other events leave the lists as they are. */
  lemma OthersAddNothing(g: Ledger, e: Event, f: Field)
    requires Inv(g) && e.runId.Some? && e.kind !in ADDING && e.kind != "session.history"
    ensures ListOf(Record(g, e).records, e.runId.value, f) == ListOf(g.records, e.runId.value, f)
  {
    OthersPushNothing(e, e.runId.value);
    EventGains(g, e, f);
    EmptyAppend(ListOf(g.records, e.runId.value, f));
    ListHasNoRepeats(g.records, e.runId.value, f);
    FirstsOfNoRepeats(ListOf(g.records, e.runId.value, f));
  }

  lemma OthersPushNothing(e: Event, runId: string)
    requires e.kind !in ADDING
    ensures EventPushes(e, runId) == []
  {
    assert forall k :: k in ADDING ==> e.kind != k;
  }

  // ----- the other fields -----

  function RecordOf(records: seq<RunRecord>, runId: string): Option<RunRecord> {
    var i := IndexOfRun(records, runId);
    if i.Some? then Some(records[i.value]) else None
  }

  /** The status that an event gives its run. */
  function StatusAfter(e: Event, before: Option<string>): Option<string> {
    if e.kind == "run.started" then Some("running")
    else if e.kind == "run.working" && Text(e.data, "phase") != [] then Some(Text(e.data, "phase")[0])
    else if e.kind == "run.completed" then Some(TextOr(e.data, "status", "completed"))
    else before
  }

  /** The first of the texts. */
  function FirstOf(texts: seq<string>): Option<string> {
    if texts == [] then None else Some(texts[0])
  }

  /** The record before the event, or a new one, which starts with the last prompt and nothing else. */
  function Before(g: Ledger, runId: string): RunRecord {
    RecordOf(g.records, runId).GetOr(RunRecord(runId, None, g.lastPrompt, None, None, None, map[], []))
  }

  lemma EventTouchesRecord(g: Ledger, e: Event)
    requires Inv(g) && e.runId.Some? && e.kind != "session.history"
    ensures RecordOf(Record(g, e).records, e.runId.value)
            == Some(Touched(Before(g, e.runId.value), EventTouch(e, e.runId.value, g.lastPrompt)))
  {
    AppliedIndex(g.records, EventTouch(e, e.runId.value, g.lastPrompt));
  }

  /** After an event its run has a record, with a status as the event says, and an output when it is one. */
  lemma StatusAndOutput(g: Ledger, e: Event)
    requires Inv(g) && e.runId.Some? && e.kind != "session.history"
    ensures var r, t := Before(g, e.runId.value), RecordOf(Record(g, e).records, e.runId.value);
            && t.Some? && t.value.runId == e.runId.value
            && t.value.status == StatusAfter(e, r.status)
            && t.value.outputs == r.outputs + (if e.kind == "run.output" then Text(e.data, "summary") else [])
  {
    EventTouchesRecord(g, e);
    StatusIs(e, Before(g, e.runId.value).status);
    OutputsAre(e);
  }

  lemma StatusIs(e: Event, before: Option<string>)
    ensures UpdateStatus(before, EventStatus(e)) == StatusAfter(e, before)
  {
  }

  lemma OutputsAre(e: Event)
    ensures EventOutputs(e) == if e.kind == "run.output" then Text(e.data, "summary") else []
  {
  }

  /** The task, the prompt, the model and the provider are filled in where they were missing, and stay otherwise. */
  lemma MissingFieldsFilled(g: Ledger, e: Event)
    requires Inv(g) && e.runId.Some? && e.kind != "session.history"
    ensures var r, t := Before(g, e.runId.value), RecordOf(Record(g, e).records, e.runId.value);
            && t.Some?
            && t.value.taskId == (if r.taskId.Some? then r.taskId else e.taskId)
            && t.value.prompt == (if r.prompt.Some? then r.prompt else g.lastPrompt)
            && t.value.model == (if r.model.Some? then r.model else FirstOf(Text(e.data, "model")))
            && (r.provider.Some? ==> t.value.provider == r.provider)
            && (r.provider.None? && Text(e.data, "provider_id") != [] ==>
                  t.value.provider == FirstOf(Text(e.data, "provider_id")))
            && (r.provider.None? && Text(e.data, "provider_id") == [] ==>
                  t.value.provider == FirstOf(Text(e.data, "provider_family")))
  {
    EventTouchesRecord(g, e);
  }

  /** Events without a run, and other runs: nothing. */
  lemma OtherRunsStay(g: Ledger, e: Event, runId: string)
    requires Inv(g) && e.runId != Some(runId) && e.kind != "session.history"
    ensures RecordOf(Record(g, e).records, runId) == RecordOf(g.records, runId)
  {
    if e.runId.Some? { OtherIndexStays(g.records, EventTouch(e, e.runId.value, g.lastPrompt), runId); }
  }

  lemma OtherIndexStays(records: seq<RunRecord>, t: Touch, runId: string)
    requires RecordsInv(records) && t.runId != runId
    ensures RecordOf(Apply(records, t), runId) == RecordOf(records, runId)
  {
    var after := Apply(records, t);
    ApplyKeeps(records, t);
    if IndexOfRun(records, runId).Some? {
      HasIndex(after, runId, IndexOfRun(records, runId).value);
    }
    var i := IndexOfRun(after, runId);
    if i.Some? && i.value < |records| { HasIndex(records, runId, i.value); }
  }

  // ----- replayed receipts -----

  /** What a receipt with an id adds to the lists of its run. */
  function ReceiptAdds(receipt: Value, id: string, f: Field): seq<string> {
    match f
    case Receipts => [id]
    case ReceiptDetails => [ReceiptDetail(receipt)]
    case Tools => GetStrings(receipt, "tools")
    case Files => GetStrings(receipt, "files")
    case Commands => GetStrings(receipt, "commands")
    case Approvals => GetStrings(receipt, "approvals")
    case Provenance =>
      HeadedAll("evidence_ids: ", GetStrings(receipt, "evidence_ids"))
      + HeadedAll("handoff_ids: ", GetStrings(receipt, "handoff_ids"))
      + FieldLine("Reason: ", receipt, "reason") + FieldLine("Receipt time: ", receipt, "created_at")
  }

  function HeadedAll(heading: string, texts: seq<string>): seq<string> {
    seq(|texts|, i requires 0 <= i < |texts| => heading + texts[i])
  }

  /** A string field of a receipt under a heading, also when it is blank. */
  function FieldLine(heading: string, receipt: Value, key: string): seq<string> {
    var s := GetStr(receipt, key);
    if s.Some? then [heading + s.value] else []
  }

  lemma {:induction false} HeadedPushed(into: Field, heading: string, values: seq<string>, f: Field)
    ensures PushedTo(Each(into, heading, values), f) == if f == into then HeadedAll(heading, values) else []
    decreases |values|
  {
    if values != [] {
      var before, x := LastApart(values);
      HeadedPushed(into, heading, before, f);
      assert Each(into, heading, values) == Each(into, heading, before) + [(into, heading + x)];
      assert HeadedAll(heading, values) == HeadedAll(heading, before) + [heading + x];
      PushedToGrows(Each(into, heading, before), (into, heading + x), f);
      EmptyAppend(PushedTo(Each(into, heading, before), f));
    }
  }

  lemma HeadedAdded(a: Pushes, into: Field, heading: string, values: seq<string>, f: Field)
    ensures PushedTo(a + Each(into, heading, values), f)
            == if f == into then Join(PushedTo(a, f), HeadedAll(heading, values)) else PushedTo(a, f)
  {
    PushedToConcat(a, Each(into, heading, values), f);
    HeadedPushed(into, heading, values, f);
    EmptyAppend(PushedTo(a, f));
  }

  lemma FieldAdded(a: Pushes, heading: string, receipt: Value, key: string, f: Field)
    ensures PushedTo(a + When(Provenance, heading, GetStr(receipt, key)), f)
            == if f == Provenance then Join(PushedTo(a, f), FieldLine(heading, receipt, key)) else PushedTo(a, f)
  {
    var s := GetStr(receipt, key);
    if s.Some? { PushedToGrows(a, (Provenance, heading + s.value), f); } else { EmptyAppend(a); }
    EmptyAppend(PushedTo(a, f));
  }

  /** The part of a receipt's pushes that is not provenance. */
  function ReceiptLists(receipt: Value, id: string): Pushes {
    [(Receipts, id), (ReceiptDetails, ReceiptDetail(receipt))]
    + Each(Tools, "", GetStrings(receipt, "tools")) + Each(Files, "", GetStrings(receipt, "files"))
    + Each(Commands, "", GetStrings(receipt, "commands")) + Each(Approvals, "", GetStrings(receipt, "approvals"))
  }

  lemma TwoPushed(p: (Field, string), q: (Field, string), f: Field)
    ensures PushedTo([p, q], f) == (if p.0 == f then [p.1] else []) + (if q.0 == f then [q.1] else [])
  {
    assert [p] + [q] == [p, q];
    OnePushed(p, f);
    PushedToGrows([p], q, f);
  }

  lemma PairAndTools(id: string, detail: string, tools: seq<string>, f: Field)
    ensures PushedTo([(Receipts, id), (ReceiptDetails, detail)] + Each(Tools, "", tools), f)
            == if f == Receipts then [id] else if f == ReceiptDetails then [detail]
               else if f == Tools then tools else []
  {
    TwoPushed((Receipts, id), (ReceiptDetails, detail), f);
    EachAdded([(Receipts, id), (ReceiptDetails, detail)], Tools, tools, f);
  }

  lemma ThreeAdded(a: Pushes, files: seq<string>, commands: seq<string>, approvals: seq<string>, f: Field)
    requires PushedTo(a, Files) == PushedTo(a, Commands) == PushedTo(a, Approvals) == []
    ensures PushedTo(a + Each(Files, "", files) + Each(Commands, "", commands) + Each(Approvals, "", approvals), f)
            == if f == Files then files else if f == Commands then commands
               else if f == Approvals then approvals else PushedTo(a, f)
  {
    var b, c := Each(Files, "", files), Each(Commands, "", commands);
    EachAdded(a, Files, files, f);
    EachAdded(a + b, Commands, commands, f);
    EachAdded(a + b + c, Approvals, approvals, f);
  }

  lemma ReceiptListsPushed(receipt: Value, id: string, f: Field)
    ensures PushedTo(ReceiptLists(receipt, id), f) == if f == Provenance then [] else ReceiptAdds(receipt, id, f)
  {
    var detail, tools := ReceiptDetail(receipt), GetStrings(receipt, "tools");
    PairAndTools(id, detail, tools, f);
    PairAndTools(id, detail, tools, Files);
    PairAndTools(id, detail, tools, Commands);
    PairAndTools(id, detail, tools, Approvals);
    ThreeAdded([(Receipts, id), (ReceiptDetails, detail)] + Each(Tools, "", tools), GetStrings(receipt, "files"),
               GetStrings(receipt, "commands"), GetStrings(receipt, "approvals"), f);
  }

  lemma ReceiptPushed(receipt: Value, id: string, f: Field)
    ensures PushedTo(ReceiptPushes(receipt, id), f) == ReceiptAdds(receipt, id, f)
  {
    var a := ReceiptLists(receipt, id);
    var b := Each(Provenance, "evidence_ids: ", GetStrings(receipt, "evidence_ids"));
    var c := Each(Provenance, "handoff_ids: ", GetStrings(receipt, "handoff_ids"));
    var d := When(Provenance, "Reason: ", GetStr(receipt, "reason"));
    ReceiptListsPushed(receipt, id, f);
    HeadedAdded(a, Provenance, "evidence_ids: ", GetStrings(receipt, "evidence_ids"), f);
    HeadedAdded(a + b, Provenance, "handoff_ids: ", GetStrings(receipt, "handoff_ids"), f);
    FieldAdded(a + b + c, "Reason: ", receipt, "reason", f);
    FieldAdded(a + b + c + d, "Receipt time: ", receipt, "created_at", f);
  }

  /** The run that a receipt belongs to: its task's, or the one that stands for all the others. */
  function ReceiptRun(receipt: Value): string {
    GetStr(receipt, "task_id").GetOr("persisted-history")
  }

  /**
   One receipt of a replayed history, with an id: the lists of its run gain what it carries, and nothing else.
   A receipt without an id changes nothing.
   */
  lemma ReceiptRecords(records: seq<RunRecord>, receipt: Value, lastPrompt: Option<string>, f: Field)
    requires RecordsInv(records)
    ensures GetStr(receipt, "id").None? ==> ApplyAll(records, ReceiptTouch(receipt, lastPrompt)) == records
    ensures GetStr(receipt, "id").Some? ==>
              ListOf(ApplyAll(records, ReceiptTouch(receipt, lastPrompt)), ReceiptRun(receipt), f)
              == Firsts(ListOf(records, ReceiptRun(receipt), f) + ReceiptAdds(receipt, GetStr(receipt, "id").value, f))
  {
    if GetStr(receipt, "id").Some? {
      var t := ReceiptTouch(receipt, lastPrompt)[0];
      ApplySingle(records, t);
      AppliedList(records, t, f);
      ReceiptPushed(receipt, GetStr(receipt, "id").value, f);
    }
  }

  /** Its other fields: a status and a task where they were missing, and its outputs, the summary last. */
  lemma ReceiptFields(records: seq<RunRecord>, receipt: Value, lastPrompt: Option<string>)
    requires RecordsInv(records) && GetStr(receipt, "id").Some?
    ensures var t := RecordOf(ApplyAll(records, ReceiptTouch(receipt, lastPrompt)), ReceiptRun(receipt));
            var r := RecordOf(records, ReceiptRun(receipt));
            var earlier := if r.Some? then r.value.outputs else [];
            var summary := GetStr(receipt, "summary");
            && t.Some?
            && t.value.outputs
               == earlier + (GetStrings(receipt, "outputs") + if summary.Some? then [summary.value] else [])
            && t.value.status == (if r.Some? && r.value.status.Some? then r.value.status else Some("persisted"))
            && t.value.taskId == (if r.Some? && r.value.taskId.Some? then r.value.taskId
                                  else GetStr(receipt, "task_id"))
  {
    var t := ReceiptTouch(receipt, lastPrompt)[0];
    ApplySingle(records, t);
    AppliedIndex(records, t);
  }

  // ----- which run is selected -----

  /** A new event selects its run when runs are followed, or none is selected; otherwise the selection stays. */
  lemma EventFollowed(g: Ledger, e: Event)
    requires Inv(g) && e.runId.Some? && e.kind != "session.history"
    ensures var t := Record(g, e);
            t.selected == if g.autoSelect || g.selected.None? then IndexOfRun(t.records, e.runId.value) else g.selected
  {
    AppliedIndex(g.records, EventTouch(e, e.runId.value, g.lastPrompt));
  }

  /** Sending a prompt makes the client follow the newest run, walking over the runs makes it stop. */
  lemma WhoFollows(g: Ledger, title: string)
    ensures RunSelection.Step(g, PromptSent) == g.(autoSelect := true)
    ensures Visible(g.records, g.filter) != [] ==>
              !RunSelection.Step(g, PressNext).autoSelect && !RunSelection.Step(g, PressPrevious).autoSelect
    ensures RunSelection.Step(g, SyncOverlay(title))
            == g.(selected := IndexOfRun(g.records, title), autoSelect := false)
  {
  }

  /** Only a submitted prompt changes what new runs are titled with. */
  lemma PromptRemembered(g: Ledger, e: Event)
    requires e.kind != "session.history"
    ensures Record(g, e).lastPrompt == if e.kind != "prompt.submitted" then g.lastPrompt
                                       else Some(GetStr(e.data, "prompt_preview").GetOr("prompt submitted"))
  {
  }

  /** The filter goes round through its four settings. */
  lemma FilterGoesRound(f: Filter)
    ensures NextFilter(All) == Active && NextFilter(Active) == Failed && NextFilter(Failed) == Completed
    ensures NextFilter(NextFilter(NextFilter(NextFilter(f)))) == f
  {
  }

  /** A run is active, failed or completed, at most one of these; all runs pass the first setting. */
  lemma FiltersDiffer(r: RunRecord)
    ensures MatchesFilter(All, r)
    ensures !(MatchesFilter(Active, r) && MatchesFilter(Failed, r))
    ensures !(MatchesFilter(Active, r) && MatchesFilter(Completed, r))
    ensures !(MatchesFilter(Failed, r) && MatchesFilter(Completed, r))
  {
  }

  /** After a change of filter a run stays selected if it is still visible; otherwise the last visible one is. */
  lemma FilterKeepsSelection(g: Ledger)
    ensures var v, t := Visible(g.records, NextFilter(g.filter)), RunSelection.Step(g, PressFilter);
            && t.filter == NextFilter(g.filter) && t.records == g.records
            && t.selected == if v == [] then None
                             else if g.selected.Some? && g.selected.value in v then g.selected
                             else Some(v[|v| - 1])
  {
  }

  /** Where the run of an event is listed: a started run is active, a completed one where its status says. */
  lemma StatusIsListed(g: Ledger, e: Event)
    requires Inv(g) && e.runId.Some?
    ensures var t := RecordOf(Record(g, e).records, e.runId.value);
            && (e.kind == "run.started" ==> t.Some? && MatchesFilter(Active, t.value))
            && (e.kind == "run.completed" && Text(e.data, "status") == [] ==>
                  t.Some? && MatchesFilter(Completed, t.value))
            && (e.kind == "run.completed" && Text(e.data, "status") != [] ==>
                  t.Some? && Lists(t.value, Text(e.data, "status")[0]))
  {
    if e.kind in ["run.started", "run.completed"] { StatusAndOutput(g, e); }
  }

  predicate Lists(r: RunRecord, status: string) {
    && (MatchesFilter(Active, r) <==> status in ["running", "thinking", "working", "queued"])
    && (MatchesFilter(Failed, r) <==> status in ["failed", "error", "denied", "blocked"])
    && (MatchesFilter(Completed, r) <==> status in ["completed", "passed", "persisted"])
  }

  /** A run that only a replayed receipt tells of is completed. */
  lemma ReplayedIsCompleted(records: seq<RunRecord>, receipt: Value, lastPrompt: Option<string>)
    requires RecordsInv(records) && GetStr(receipt, "id").Some? && RecordOf(records, ReceiptRun(receipt)).None?
    ensures var t := RecordOf(ApplyAll(records, ReceiptTouch(receipt, lastPrompt)), ReceiptRun(receipt));
            t.Some? && MatchesFilter(Completed, t.value)
  {
    ReceiptFields(records, receipt, lastPrompt);
  }

  // ----- the line that describes a receipt -----

  /** Each part stands in the joined line. */
  lemma {:induction false} PartStands(parts: seq<string>, i: nat)
    requires i < |parts|
    ensures Contains(JoinParts(parts), parts[i])
  {
    var s := JoinParts(parts);
    if |parts| == 1 {
      assert OccursAt(s, parts[0], 0);
    } else if i == 0 {
      assert s[0..|parts[0]|] == parts[0];
      assert OccursAt(s, parts[0], 0);
    } else {
      PartStands(parts[1..], i - 1);
      StandsBehind(parts[0] + " | ", JoinParts(parts[1..]), parts[i]);
    }
  }

  lemma StandsBehind(head: string, s: string, w: string)
    requires Contains(s, w)
    ensures Contains(head + s, w)
  {
    var i :| 0 <= i <= |s| && OccursAt(s, w, i);
    assert (head + s)[|head| + i..|head| + i + |w|] == s[i..i + |w|];
    assert OccursAt(head + s, w, |head| + i);
  }

  lemma PartIsShown(parts: seq<string>, name: string, value: string)
    requires name + "=" + value in parts
    ensures Contains(JoinParts(parts), name + "=" + value)
  {
    var i :| 0 <= i < |parts| && parts[i] == name + "=" + value;
    PartStands(parts, i);
  }

  /** The line of a new receipt holds each of these fields that the event has, under its name, and its source. */
  lemma ReceiptLineSays(e: Event, key: string)
    requires key in ["purpose", "execution", "mode", "decision", "decided_by"] && Text(e.data, key) != []
    ensures Contains(EventReceiptDetail(e), key + "=" + Text(e.data, key)[0])
  {
    var v := Text(e.data, key)[0];
    var parts := Part("id", StringData(e, "receipt_id")) + Part("run", e.runId) + Part("task", e.taskId)
                 + Part("source", Some(e.source)) + Part("purpose", StringData(e, "purpose"))
                 + Part("execution", StringData(e, "execution")) + Part("mode", StringData(e, "mode"))
                 + Part("decision", StringData(e, "decision")) + Part("decided_by", StringData(e, "decided_by"));
    assert StringData(e, key) == Some(v) && key + "=" + v in Part(key, StringData(e, key));
    assert key + "=" + v in parts;
    PartIsShown(parts, key, v);
  }

  /** The line of a replayed one likewise, its summary cut to 96 characters. */
  lemma ReplayedLineSays(receipt: Value, key: string)
    requires key in ["id", "capability", "target", "status"] && GetStr(receipt, key).Some?
    ensures Contains(ReceiptDetail(receipt), key + "=" + GetStr(receipt, key).value)
  {
    var summary, v := GetStr(receipt, "summary"), GetStr(receipt, key).value;
    var parts := Part("id", GetStr(receipt, "id")) + Part("capability", GetStr(receipt, "capability"))
                 + Part("target", GetStr(receipt, "target")) + Part("status", GetStr(receipt, "status"))
                 + Part("summary", if summary.Some? then Some(CompactText(summary.value, 96)) else None);
    assert key + "=" + v in Part(key, GetStr(receipt, key));
    assert key + "=" + v in parts;
    PartIsShown(parts, key, v);
  }
}
