/** The run records of `InteractiveApp`: what Gateway events and replayed history add to them. */
module Runs {
  import opened Prelude
  import opened Whitespace
  import opened Strings
  import opened Json

  // ----- lists without repeats -----

  /** `push_unique_string`. */
  function PushUnique(s: seq<string>, v: string): (r: seq<string>)
    ensures s <= r && v in r && (NoRepeats(s) ==> NoRepeats(r))
    ensures v in s ==> r == s
  {
    if v in s then s else s + [v]
  }

  /** The lists of a run record that take each string once. */
  datatype Field = Receipts | ReceiptDetails | Tools | Files | Commands | Approvals | Provenance

  type Lists = map<Field, seq<string>>

  function At(lists: Lists, f: Field): seq<string> {
    if f in lists then lists[f] else []
  }

  type Pushes = seq<(Field, string)>

  function PushOne(lists: Lists, p: (Field, string)): Lists {
    lists[p.0 := PushUnique(At(lists, p.0), p.1)]
  }

  function PushAll(lists: Lists, pushes: Pushes): Lists {
    if pushes == [] then lists
    else PushOne(PushAll(lists, pushes[..|pushes| - 1]), pushes[|pushes| - 1])
  }

  // ----- records -----

  datatype RunRecord = RunRecord(
    runId: string, taskId: Option<string>, prompt: Option<string>, model: Option<string>,
    provider: Option<string>, status: Option<string>, lists: Lists, outputs: seq<string>)

  function NewRecord(runId: string, prompt: Option<string>): RunRecord {
    RunRecord(runId, None, prompt, None, None, None, map[], [])
  }

  /** What an event does to the status: nothing, set it, or set it unless it is set. */
  datatype StatusUpdate = KeepStatus | SetStatus(status: string) | DefaultStatus(ifNone: string)

  /**
   What one event, or one receipt of a history, does to one run's record: fields that are still empty
   are filled, the status is updated, strings are pushed, outputs are appended.
   */
  datatype Touch = Touch(
    runId: string, newPrompt: Option<string>, taskId: Option<string>, prompt: Option<string>,
    model: Option<string>, provider: Option<string>, status: StatusUpdate, pushes: Pushes, outputs: seq<string>)

  function Fill(current: Option<string>, value: Option<string>): Option<string> {
    if current.Some? then current else value
  }

  function UpdateStatus(current: Option<string>, u: StatusUpdate): Option<string> {
    match u
    case KeepStatus => current
    case SetStatus(s) => Some(s)
    case DefaultStatus(s) => Fill(current, Some(s))
  }

  function Touched(r: RunRecord, t: Touch): RunRecord {
    RunRecord(r.runId, Fill(r.taskId, t.taskId), Fill(r.prompt, t.prompt), Fill(r.model, t.model),
              Fill(r.provider, t.provider), UpdateStatus(r.status, t.status),
              PushAll(r.lists, t.pushes), r.outputs + t.outputs)
  }

  function IndexOfRun(records: seq<RunRecord>, runId: string): (r: Option<nat>)
    ensures r.Some? ==> r.value < |records| && records[r.value].runId == runId
    ensures r.None? ==> forall i :: 0 <= i < |records| ==> records[i].runId != runId
  {
    if records == [] then None
    else if records[0].runId == runId then Some(0)
    else
      var r := IndexOfRun(records[1..], runId);
      if r.Some? then Some(r.value + 1) else None
  }

  /** The records with one for `runId`, and its index. */
  function Ensured(records: seq<RunRecord>, runId: string, prompt: Option<string>): (r: (seq<RunRecord>, nat))
    ensures r.1 < |r.0| && r.0[r.1].runId == runId
  {
    var i := IndexOfRun(records, runId);
    if i.Some? then (records, i.value) else (records + [NewRecord(runId, prompt)], |records|)
  }

  function Apply(records: seq<RunRecord>, t: Touch): seq<RunRecord> {
    var (all, i) := Ensured(records, t.runId, t.newPrompt);
    all[i := Touched(all[i], t)]
  }

  function ApplyAll(records: seq<RunRecord>, touches: seq<Touch>): seq<RunRecord> {
    if touches == [] then records
    else Apply(ApplyAll(records, touches[..|touches| - 1]), touches[|touches| - 1])
  }

  // ----- what Gateway events push -----

  datatype Event = Event(kind: string, source: string, runId: Option<string>, taskId: Option<string>, data: Value)

  /** `string_data`: blank strings do not count. */
  function StringData(e: Event, key: string): Option<string> {
    var s := GetStr(e.data, key);
    if s.Some? && !AllBlank(s.value) then s else None
  }

  function When(f: Field, prefix: string, value: Option<string>): Pushes {
    if value.Some? then [(f, prefix + value.value)] else []
  }

  function Each(f: Field, prefix: string, values: seq<string>): (r: Pushes)
    ensures |r| == |values| && forall i :: 0 <= i < |r| ==> r[i] == (f, prefix + values[i])
  {
    seq(|values|, i requires 0 <= i < |values| => (f, prefix + values[i]))
  }

  function OptionalCompact(value: Option<string>): Option<string> {
    if value.Some? then Some(CompactText(value.value, 120)) else None
  }

  /** The lists an event may carry along. */
  function CarriedLists(e: Event): Pushes {
    Each(Files, "", GetStrings(e.data, "files")) + Each(Commands, "", GetStrings(e.data, "commands"))
    + Each(Receipts, "", GetStrings(e.data, "receipts"))
  }

  function ProvenanceLine(e: Event): Pushes {
    if e.kind == "run.working" then When(Provenance, "Working: ", StringData(e, "message"))
    else if e.kind == "tool.used" then When(Provenance, "Tool used: ", StringData(e, "tool"))
    else if e.kind == "file.changed" then When(Provenance, "File changed: ", StringData(e, "target"))
    else if e.kind == "approval.requested" then When(Provenance, "Approval requested: ", StringData(e, "approval_id"))
    else if e.kind == "approval.resolved" then
      [(Provenance, "Approval resolved: " + StringData(e, "approval_id").GetOr("approval") + " "
                    + StringData(e, "decision").GetOr("resolved"))]
    else if e.kind == "approval.denied" then
      [(Provenance, "Approval denied: " + StringData(e, "approval_id").GetOr("approval"))]
    else if e.kind == "receipt.created" then When(Provenance, "Receipt created: ", StringData(e, "receipt_id"))
    else if e.kind == "run.output" then When(Provenance, "Output: ", OptionalCompact(StringData(e, "summary")))
    else if e.kind == "run.event" then
      When(Provenance, "Event: ", OptionalCompact(Fill(StringData(e, "text"), StringData(e, "message"))))
    else []
  }

  function JoinParts(parts: seq<string>): string {
    if parts == [] then "" else if |parts| == 1 then parts[0] else parts[0] + " | " + JoinParts(parts[1..])
  }

  function Part(name: string, value: Option<string>): seq<string> {
    if value.Some? then [name + "=" + value.value] else []
  }

  /** `receipt_detail_from_event`. */
  function EventReceiptDetail(e: Event): string {
    JoinParts(Part("id", StringData(e, "receipt_id")) + Part("run", e.runId) + Part("task", e.taskId)
              + Part("source", Some(e.source)) + Part("purpose", StringData(e, "purpose"))
              + Part("execution", StringData(e, "execution")) + Part("mode", StringData(e, "mode"))
              + Part("decision", StringData(e, "decision")) + Part("decided_by", StringData(e, "decided_by")))
  }

  function EventStatus(e: Event): StatusUpdate {
    if e.kind == "run.started" then SetStatus("running")
    else if e.kind == "run.working" && StringData(e, "phase").Some? then SetStatus(StringData(e, "phase").value)
    else if e.kind == "run.completed" then SetStatus(StringData(e, "status").GetOr("completed"))
    else KeepStatus
  }

  /** What `record_run_event` pushes, in its order. */
  function EventPushes(e: Event, runId: string): Pushes {
    if e.kind == "run.started" then [(Provenance, "Run started: " + runId)]
    else if e.kind == "run.working" then
      When(Provenance, "Phase: ", StringData(e, "phase")) + ProvenanceLine(e) + CarriedLists(e)
    else if e.kind == "run.completed" then
      [(Provenance, "Run completed: " + StringData(e, "status").GetOr("completed"))]
    else if e.kind == "tool.used" then
      When(Tools, "", StringData(e, "tool")) + When(Commands, "", StringData(e, "command"))
      + When(Files, "", StringData(e, "target")) + ProvenanceLine(e) + CarriedLists(e)
    else if e.kind == "file.changed" then
      When(Files, "", StringData(e, "target")) + ProvenanceLine(e) + CarriedLists(e)
    else if e.kind == "approval.requested" then
      When(Approvals, "", StringData(e, "message")) + ProvenanceLine(e) + CarriedLists(e)
    else if e.kind == "receipt.created" then
      (if StringData(e, "receipt_id").Some?
       then [(Receipts, StringData(e, "receipt_id").value), (ReceiptDetails, EventReceiptDetail(e))] else [])
      + ProvenanceLine(e) + CarriedLists(e)
    else if e.kind in ["approval.resolved", "approval.denied", "run.output", "run.event"] then
      ProvenanceLine(e) + CarriedLists(e)
    else []
  }

  function EventOutputs(e: Event): seq<string> {
    if e.kind == "run.output" && StringData(e, "summary").Some? then [StringData(e, "summary").value] else []
  }

  /** The touch of an event that names a run; `lastPrompt` is the last prompt preview. */
  function EventTouch(e: Event, runId: string, lastPrompt: Option<string>): Touch {
    Touch(runId, lastPrompt, e.taskId, lastPrompt, StringData(e, "model"),
          Fill(StringData(e, "provider_id"), StringData(e, "provider_family")),
          EventStatus(e), EventPushes(e, runId), EventOutputs(e))
  }

  // ----- what a history pushes -----

  /** `receipt_detail`. */
  function ReceiptDetail(receipt: Value): string {
    var summary := GetStr(receipt, "summary");
    JoinParts(Part("id", GetStr(receipt, "id")) + Part("capability", GetStr(receipt, "capability"))
              + Part("target", GetStr(receipt, "target")) + Part("status", GetStr(receipt, "status"))
              + Part("summary", if summary.Some? then Some(CompactText(summary.value, 96)) else None))
  }

  function ReceiptPushes(receipt: Value, id: string): Pushes {
    [(Receipts, id), (ReceiptDetails, ReceiptDetail(receipt))]
    + Each(Tools, "", GetStrings(receipt, "tools")) + Each(Files, "", GetStrings(receipt, "files"))
    + Each(Commands, "", GetStrings(receipt, "commands")) + Each(Approvals, "", GetStrings(receipt, "approvals"))
    + Each(Provenance, "evidence_ids: ", GetStrings(receipt, "evidence_ids"))
    + Each(Provenance, "handoff_ids: ", GetStrings(receipt, "handoff_ids"))
    + When(Provenance, "Reason: ", GetStr(receipt, "reason"))
    + When(Provenance, "Receipt time: ", GetStr(receipt, "created_at"))
  }

  function ReceiptOutputs(receipt: Value): seq<string> {
    var summary := GetStr(receipt, "summary");
    GetStrings(receipt, "outputs") + (if summary.Some? then [summary.value] else [])
  }

  /** The touch of one receipt; receipts without an id are skipped. */
  function ReceiptTouch(receipt: Value, lastPrompt: Option<string>): seq<Touch> {
    var id, task := GetStr(receipt, "id"), GetStr(receipt, "task_id");
    if id.None? then []
    else [Touch(task.GetOr("persisted-history"), lastPrompt, task, None, None, None, DefaultStatus("persisted"),
                ReceiptPushes(receipt, id.value), ReceiptOutputs(receipt))]
  }

  function ReceiptTouches(receipts: seq<Value>, lastPrompt: Option<string>): seq<Touch> {
    if receipts == [] then []
    else ReceiptTouches(receipts[..|receipts| - 1], lastPrompt) + ReceiptTouch(receipts[|receipts| - 1], lastPrompt)
  }

  function ReceiptsOf(e: Event): seq<Value> {
    var v := Get(e.data, "receipts");
    if v.Some? && v.value.Array? then v.value.items else []
  }

  /** The touch of the run an event names, if it names one. */
  function RunTouches(e: Event, lastPrompt: Option<string>): seq<Touch> {
    if e.runId.Some? then [EventTouch(e, e.runId.value, lastPrompt)] else []
  }

  /** What a history event does to the records: its own run first, then its receipts. */
  function HistoryApplied(records: seq<RunRecord>, e: Event, lastPrompt: Option<string>): seq<RunRecord> {
    ApplyAll(ApplyAll(records, RunTouches(e, lastPrompt)), ReceiptTouches(ReceiptsOf(e), lastPrompt))
  }

  // ----- what every touch keeps -----

  ghost predicate ListsInv(lists: Lists) {
    forall f :: f in lists ==> NoRepeats(lists[f])
  }

  ghost predicate RecordsInv(records: seq<RunRecord>) {
    && (forall i, j :: 0 <= i < j < |records| ==> records[i].runId != records[j].runId)
    && (forall i :: 0 <= i < |records| ==> ListsInv(records[i].lists))
  }

  /** Lists only grow at their end. */
  ghost predicate ListsGrow(a: Lists, b: Lists) {
    forall f :: At(a, f) <= At(b, f)
  }

  lemma {:induction false} PushAllGrows(lists: Lists, pushes: Pushes)
    ensures ListsGrow(lists, PushAll(lists, pushes))
    ensures ListsInv(lists) ==> ListsInv(PushAll(lists, pushes))
    ensures forall p :: p in pushes ==> p.1 in At(PushAll(lists, pushes), p.0)
  {
    if pushes != [] {
      var before, last := pushes[..|pushes| - 1], pushes[|pushes| - 1];
      PushAllGrows(lists, before);
      var mid := PushAll(lists, before);
      assert forall p :: p in pushes <==> p in before || p == last;
      PushOneGrows(mid, last);
      ListsGrowOn(lists, mid, PushOne(mid, last));
    }
  }

  lemma PushOneGrows(lists: Lists, p: (Field, string))
    ensures ListsGrow(lists, PushOne(lists, p)) && p.1 in At(PushOne(lists, p), p.0)
    ensures ListsInv(lists) ==> ListsInv(PushOne(lists, p))
  {
  }

  lemma ListsGrowOn(a: Lists, b: Lists, c: Lists)
    requires ListsGrow(a, b) && ListsGrow(b, c)
    ensures ListsGrow(a, c)
  {
  }

  // ----- first occurrences -----

  /** The strings of a sequence, each where it occurs first. */
  function Firsts(s: seq<string>): (r: seq<string>)
    ensures forall x :: x in r <==> x in s
  {
    if s == [] then []
    else
      var before, x := s[..|s| - 1], s[|s| - 1];
      assert s == before + [x];
      Firsts(before) + (if x in before then [] else [x])
  }

  lemma FirstsGrow(s: seq<string>, x: string)
    ensures Firsts(s + [x]) == Firsts(s) + (if x in s then [] else [x])
  {
    InitOfSnoc(s, x);
  }

  lemma {:induction false} FirstsOfNoRepeats(s: seq<string>)
    requires NoRepeats(s)
    ensures Firsts(s) == s
    decreases |s|
  {
    if s != [] {
      var before, x := LastApart(s);
      assert forall i :: 0 <= i < |before| ==> before[i] == s[i];
      FirstsOfNoRepeats(before);
      FirstsGrow(before, x);
    }
  }

  /** What is pushed to one list. */
  function PushedTo(pushes: Pushes, f: Field): seq<string> {
    if pushes == [] then []
    else
      var last := pushes[|pushes| - 1];
      PushedTo(pushes[..|pushes| - 1], f) + (if last.0 == f then [last.1] else [])
  }

  lemma PushedToGrows(pushes: Pushes, p: (Field, string), f: Field)
    ensures PushedTo(pushes + [p], f) == PushedTo(pushes, f) + (if p.0 == f then [p.1] else [])
  {
    InitOfSnoc(pushes, p);
  }

  lemma PushAllGrowsBy(lists: Lists, pushes: Pushes, p: (Field, string))
    ensures PushAll(lists, pushes + [p]) == PushOne(PushAll(lists, pushes), p)
  {
    InitOfSnoc(pushes, p);
  }

  /** A list holds the first occurrences of what was pushed to it ever: `before`, and then these pushes. */
  lemma {:induction false} PushAllIsFirsts(lists: Lists, pushes: Pushes, f: Field, before: seq<string>)
    requires At(lists, f) == Firsts(before)
    ensures At(PushAll(lists, pushes), f) == Firsts(before + PushedTo(pushes, f))
    decreases |pushes|
  {
    if pushes == [] {
      EmptyAppend(before);
    } else {
      var others, p := LastApart(pushes);
      PushAllIsFirsts(lists, others, f, before);
      PushAllGrowsBy(lists, others, p);
      PushedToGrows(others, p, f);
      OnePushIsFirst(PushAll(lists, others), p, f, before + PushedTo(others, f));
      AppendAssociates(before, PushedTo(others, f), if p.0 == f then [p.1] else []);
    }
  }

  lemma OnePushIsFirst(lists: Lists, p: (Field, string), f: Field, before: seq<string>)
    requires At(lists, f) == Firsts(before)
    ensures At(PushOne(lists, p), f) == Firsts(before + (if p.0 == f then [p.1] else []))
  {
    if p.0 == f { FirstsGrow(before, p.1); } else { EmptyAppend(before); }
  }

  /** So a list without repeats becomes the first occurrences of itself and the pushes. */
  lemma PushAllKeepsFirsts(lists: Lists, pushes: Pushes, f: Field)
    requires NoRepeats(At(lists, f))
    ensures At(PushAll(lists, pushes), f) == Firsts(At(lists, f) + PushedTo(pushes, f))
  {
    FirstsOfNoRepeats(At(lists, f));
    PushAllIsFirsts(lists, pushes, f, At(lists, f));
  }

  /** What a series of touches pushes to one list of one run. */
  function PushedToRun(touches: seq<Touch>, runId: string, f: Field): seq<string> {
    if touches == [] then []
    else
      var t := touches[|touches| - 1];
      PushedToRun(touches[..|touches| - 1], runId, f) + (if t.runId == runId then PushedTo(t.pushes, f) else [])
  }

  /** Every list of every record holds the first occurrences of what was pushed to it. */
  ghost predicate HoldFirsts(records: seq<RunRecord>, touches: seq<Touch>) {
    && (forall i, f :: 0 <= i < |records| ==>
          At(records[i].lists, f) == Firsts(PushedToRun(touches, records[i].runId, f)))
    && (forall t :: t in touches ==> IndexOfRun(records, t.runId).Some?)
  }

  lemma {:induction false} NothingPushedToOthers(touches: seq<Touch>, runId: string, f: Field)
    requires forall t :: t in touches ==> t.runId != runId
    ensures PushedToRun(touches, runId, f) == []
  {
    if touches != [] { NothingPushedToOthers(touches[..|touches| - 1], runId, f); }
  }

  lemma PushedToRunGrows(touches: seq<Touch>, t: Touch, runId: string, f: Field)
    ensures PushedToRun(touches + [t], runId, f)
            == PushedToRun(touches, runId, f) + (if t.runId == runId then PushedTo(t.pushes, f) else [])
  {
    InitOfSnoc(touches, t);
  }

  /** A new record starts with nothing pushed to it. */
  lemma EnsuredHoldsFirsts(records: seq<RunRecord>, touches: seq<Touch>, runId: string, prompt: Option<string>, i: nat,
                           f: Field)
    requires HoldFirsts(records, touches) && i < |Ensured(records, runId, prompt).0|
    ensures var r := Ensured(records, runId, prompt).0[i]; At(r.lists, f) == Firsts(PushedToRun(touches, r.runId, f))
  {
    if i == |records| {
      forall t | t in touches ensures t.runId != runId {
      }
      NothingPushedToOthers(touches, runId, f);
    }
  }

  lemma TouchedHoldsFirsts(r: RunRecord, touches: seq<Touch>, t: Touch, f: Field)
    requires r.runId == t.runId && At(r.lists, f) == Firsts(PushedToRun(touches, r.runId, f))
    ensures At(Touched(r, t).lists, f) == Firsts(PushedToRun(touches + [t], r.runId, f))
  {
    PushAllIsFirsts(r.lists, t.pushes, f, PushedToRun(touches, r.runId, f));
    PushedToRunGrows(touches, t, r.runId, f);
  }

  lemma ApplyHoldsFirsts(records: seq<RunRecord>, touches: seq<Touch>, t: Touch, i: nat, f: Field)
    requires RecordsInv(records) && HoldFirsts(records, touches) && i < |Apply(records, t)|
    ensures var r := Apply(records, t)[i]; At(r.lists, f) == Firsts(PushedToRun(touches + [t], r.runId, f))
  {
    var (all, k) := Ensured(records, t.runId, t.newPrompt);
    EnsuredHoldsFirsts(records, touches, t.runId, t.newPrompt, i, f);
    if i == k {
      TouchedHoldsFirsts(all[i], touches, t, f);
    } else {
      ApplyKeeps(records, t);
      PushedToRunGrows(touches, t, all[i].runId, f);
      EmptyAppend(PushedToRun(touches, all[i].runId, f));
    }
  }

  lemma {:induction false} HasIndex(records: seq<RunRecord>, runId: string, i: nat)
    requires i < |records| && records[i].runId == runId
    ensures IndexOfRun(records, runId).Some?
  {
    if i > 0 && records[0].runId != runId { HasIndex(records[1..], runId, i - 1); }
  }

  lemma ApplyHasRuns(records: seq<RunRecord>, t: Touch, runId: string)
    requires runId == t.runId || IndexOfRun(records, runId).Some?
    ensures IndexOfRun(Apply(records, t), runId).Some?
  {
    var (all, k) := Ensured(records, t.runId, t.newPrompt);
    HasIndex(Apply(records, t), runId, if runId == t.runId then k else IndexOfRun(records, runId).value);
  }

  /** Over every series of touches: each list of each run holds the first occurrences of what was pushed to it. */
  lemma {:induction false} TouchesHoldFirsts(touches: seq<Touch>)
    ensures HoldFirsts(ApplyAll([], touches), touches)
    decreases |touches|
  {
    if touches != [] {
      var before, t := LastApart(touches);
      TouchesHoldFirsts(before);
      ApplyAllKeeps([], before);
      OneMoreTouch(ApplyAll([], before), before, t);
      InitOfSnoc(before, t);
    }
  }

  lemma OneMoreTouch(records: seq<RunRecord>, touches: seq<Touch>, t: Touch)
    requires RecordsInv(records) && HoldFirsts(records, touches)
    ensures HoldFirsts(Apply(records, t), touches + [t])
  {
    forall i, f | 0 <= i < |Apply(records, t)|
      ensures At(Apply(records, t)[i].lists, f)
              == Firsts(PushedToRun(touches + [t], Apply(records, t)[i].runId, f))
    {
      ApplyHoldsFirsts(records, touches, t, i, f);
    }
    forall u | u in touches + [t] ensures IndexOfRun(Apply(records, t), u.runId).Some? {
      ApplyHasRuns(records, t, u.runId);
    }
  }

  lemma {:induction false} ApplyAllConcat(records: seq<RunRecord>, a: seq<Touch>, b: seq<Touch>)
    ensures ApplyAll(ApplyAll(records, a), b) == ApplyAll(records, a + b)
    decreases |b|
  {
    if b == [] {
      EmptyAppend(a);
    } else {
      var before, t := LastApart(b);
      ApplyAllConcat(records, a, before);
      InitOfSnoc(before, t);
      InitOfSnoc(a + before, t);
      AppendAssociates(a, before, [t]);
    }
  }

  // ----- what grows -----

  /** Old records keep their place and id, and their lists only grow. */
  ghost predicate RecordsGrow(a: seq<RunRecord>, b: seq<RunRecord>) {
    && |a| <= |b|
    && forall i :: 0 <= i < |a| ==> a[i].runId == b[i].runId && ListsGrow(a[i].lists, b[i].lists)
  }

  /** Run ids stay distinct; every list but `outputs` stays free of repeats and grows only at its end. */
  lemma ApplyKeeps(records: seq<RunRecord>, t: Touch)
    requires RecordsInv(records)
    ensures RecordsInv(Apply(records, t)) && RecordsGrow(records, Apply(records, t))
  {
    var (all, i) := Ensured(records, t.runId, t.newPrompt);
    PushAllGrows(all[i].lists, t.pushes);
  }

  lemma {:induction false} ApplyAllKeeps(records: seq<RunRecord>, touches: seq<Touch>)
    requires RecordsInv(records)
    ensures RecordsInv(ApplyAll(records, touches)) && RecordsGrow(records, ApplyAll(records, touches))
  {
    if touches != [] {
      var before := touches[..|touches| - 1];
      ApplyAllKeeps(records, before);
      ApplyKeeps(ApplyAll(records, before), touches[|touches| - 1]);
    }
  }
}
