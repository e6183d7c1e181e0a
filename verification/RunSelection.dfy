/** Selecting a run: the filter, the two keys that walk the visible runs, and the class that holds it all. */
module RunSelection {
  import opened Prelude
  import opened Json
  import opened Runs
  import opened RunReplay

  datatype Filter = All | Active | Failed | Completed

  function NextFilter(f: Filter): Filter {
    match f
    case All => Active
    case Active => Failed
    case Failed => Completed
    case Completed => All
  }

  predicate MatchesFilter(f: Filter, r: RunRecord) {
    match f
    case All => true
    case Active => r.status.None? || r.status.value in ["running", "thinking", "working", "queued"]
    case Failed => r.status.Some? && r.status.value in ["failed", "error", "denied", "blocked"]
    case Completed => r.status.Some? && r.status.value in ["completed", "passed", "persisted"]
  }

  /** `filtered_run_indexes` among the first `n` records. */
  function VisibleUpTo(records: seq<RunRecord>, f: Filter, n: nat): (v: seq<nat>)
    requires n <= |records|
    ensures forall i: nat :: i in v <==> i < n && MatchesFilter(f, records[i])
    ensures forall i, j :: 0 <= i < j < |v| ==> v[i] < v[j]
  {
    if n == 0 then []
    else
      var before := VisibleUpTo(records, f, n - 1);
      assert forall i :: 0 <= i < |before| ==> before[i] in before;
      before + (if MatchesFilter(f, records[n - 1]) then [n - 1] else [])
  }

  function Visible(records: seq<RunRecord>, f: Filter): seq<nat> {
    VisibleUpTo(records, f, |records|)
  }

  /** The records, the selected index, the filter, whether a new run is selected by itself, the last prompt. */
  datatype Ledger = Ledger(
    records: seq<RunRecord>, selected: Option<nat>, filter: Filter, autoSelect: bool, lastPrompt: Option<string>)

  const INITIAL := Ledger([], None, All, true, None)

  function Position(v: seq<nat>, i: nat): (r: Option<nat>)
    ensures r.Some? ==> r.value < |v| && v[r.value] == i
    ensures r.None? ==> i !in v
  {
    if v == [] then None
    else if v[0] == i then Some(0)
    else
      var r := Position(v[1..], i);
      if r.Some? then Some(r.value + 1) else None
  }

  function PositionOf(v: seq<nat>, selected: Option<nat>): (r: Option<nat>)
    ensures r.Some? ==> selected.Some? && r.value < |v| && v[r.value] == selected.value
    ensures r.None? && selected.Some? ==> selected.value !in v
  {
    if selected.Some? then Position(v, selected.value) else None
  }

  function SelectNext(g: Ledger): Ledger {
    var v := Visible(g.records, g.filter);
    if v == [] then g.(selected := None)
    else
      var p := PositionOf(v, g.selected);
      g.(selected := Some(v[if p.Some? then (p.value + 1) % |v| else 0]), autoSelect := false)
  }

  function SelectPrevious(g: Ledger): Ledger {
    var v := Visible(g.records, g.filter);
    if v == [] then g.(selected := None)
    else
      var p := PositionOf(v, g.selected);
      g.(selected := Some(v[if p.Some? && p.value > 0 then p.value - 1 else |v| - 1]), autoSelect := false)
  }

  function NormalizeSelected(g: Ledger): Ledger {
    var v := Visible(g.records, g.filter);
    if v == [] then g.(selected := None)
    else if g.selected.Some? && g.selected.value in v then g
    else g.(selected := Some(v[|v| - 1]))
  }

  function CycleFilter(g: Ledger): Ledger {
    NormalizeSelected(g.(filter := NextFilter(g.filter)))
  }

  /** The runs overlay selects the run whose id is the title of the highlighted row. */
  function SyncTitle(g: Ledger, title: string): Ledger {
    g.(selected := IndexOfRun(g.records, title), autoSelect := false)
  }

  /** The part of `record_run_event` that follows the newest run. */
  function Follow(g: Ledger, index: nat): Ledger {
    if g.autoSelect || g.selected.None? then g.(selected := Some(index)) else g
  }

  /** `record_run_event`. */
  function RecordRun(g: Ledger, e: Event): Ledger {
    if e.runId.None? then g
    else
      var (all, i) := Ensured(g.records, e.runId.value, g.lastPrompt);
      Follow(g.(records := all), i).(records := Apply(g.records, EventTouch(e, e.runId.value, g.lastPrompt)))
  }

  predicate HasReceipts(e: Event) {
    var v := Get(e.data, "receipts");
    v.Some? && v.value.Array?
  }

  /** `record_event`, as far as the ledger goes. */
  function Record(g: Ledger, e: Event): Ledger {
    var r := RecordRun(g, e);
    if e.kind == "session.history" && HasReceipts(e) then
      NormalizeSelected(r.(records := ApplyAll(r.records, ReceiptTouches(ReceiptsOf(e), g.lastPrompt))))
    else if e.kind == "prompt.submitted" then
      r.(lastPrompt := Some(GetStr(e.data, "prompt_preview").GetOr("prompt submitted")))
    else r
  }

  datatype Action = Observe(event: Event) | PressNext | PressPrevious | PressFilter
                  | SyncOverlay(title: string) | PromptSent

  function Step(g: Ledger, a: Action): Ledger {
    match a
    case Observe(e) => Record(g, e)
    case PressNext => SelectNext(g)
    case PressPrevious => SelectPrevious(g)
    case PressFilter => CycleFilter(g)
    case SyncOverlay(title) => SyncTitle(g, title)
    case PromptSent => g.(autoSelect := true)
  }

  function After(actions: seq<Action>): Ledger {
    if actions == [] then INITIAL else Step(After(actions[..|actions| - 1]), actions[|actions| - 1])
  }

  // ----- reachable states -----

  ghost predicate Inv(g: Ledger) {
    RecordsInv(g.records) && (g.selected.Some? ==> g.selected.value < |g.records|)
  }

  lemma VisibleInRange(records: seq<RunRecord>, f: Filter, k: nat)
    requires k < |Visible(records, f)|
    ensures Visible(records, f)[k] < |records|
  {
    assert Visible(records, f)[k] in Visible(records, f);
  }

  lemma NormalizeKeeps(g: Ledger)
    requires Inv(g)
    ensures Inv(NormalizeSelected(g)) && NormalizeSelected(g).records == g.records
  {
    var v := Visible(g.records, g.filter);
    if v != [] { VisibleInRange(g.records, g.filter, |v| - 1); }
  }

  lemma RecordKeeps(g: Ledger, e: Event)
    requires Inv(g)
    ensures Inv(Record(g, e)) && RecordsGrow(g.records, Record(g, e).records)
  {
    var r := RecordRun(g, e);
    RecordRunKeeps(g, e);
    var h := r.(records := ApplyAll(r.records, ReceiptTouches(ReceiptsOf(e), g.lastPrompt)));
    ApplyAllKeeps(r.records, ReceiptTouches(ReceiptsOf(e), g.lastPrompt));
    NormalizeKeeps(h);
    GrowTransitive(g.records, r.records, h.records);
  }

  lemma RecordRunKeeps(g: Ledger, e: Event)
    requires Inv(g)
    ensures Inv(RecordRun(g, e)) && RecordsGrow(g.records, RecordRun(g, e).records)
  {
    if e.runId.Some? {
      ApplyKeeps(g.records, EventTouch(e, e.runId.value, g.lastPrompt));
    }
  }

  lemma GrowTransitive(a: seq<RunRecord>, b: seq<RunRecord>, c: seq<RunRecord>)
    requires RecordsGrow(a, b) && RecordsGrow(b, c)
    ensures RecordsGrow(a, c)
  {
  }

  lemma StepKeeps(g: Ledger, a: Action)
    requires Inv(g)
    ensures Inv(Step(g, a)) && RecordsGrow(g.records, Step(g, a).records)
  {
    match a
    case Observe(e) => RecordKeeps(g, e);
    case PressNext =>
      if Visible(g.records, g.filter) != [] { SelectedIsVisible(g); }
    case PressPrevious =>
      if Visible(g.records, g.filter) != [] { SelectedIsVisible(g); }
    case PressFilter => NormalizeKeeps(g.(filter := NextFilter(g.filter)));
    case _ =>
  }

  lemma SelectedIsVisible(g: Ledger)
    requires Visible(g.records, g.filter) != []
    ensures SelectNext(g).selected.value < |g.records| && SelectPrevious(g).selected.value < |g.records|
  {
    var v := Visible(g.records, g.filter);
    assert forall k :: 0 <= k < |v| ==> v[k] in v;
  }

  /**
   In every reachable state run ids are distinct, the lists of a run hold no string twice, and the
   selected index lies within the records.
   */
  lemma {:induction false} ReachableInv(actions: seq<Action>)
    ensures Inv(After(actions))
  {
    if actions != [] {
      ReachableInv(actions[..|actions| - 1]);
      StepKeeps(After(actions[..|actions| - 1]), actions[|actions| - 1]);
    }
  }

  // ----- walking the visible runs -----

  lemma {:induction false} PositionIs(v: seq<nat>, k: nat)
    requires k < |v| && forall i, j :: 0 <= i < j < |v| ==> v[i] < v[j]
    ensures Position(v, v[k]) == Some(k)
  {
    if k > 0 { PositionIs(v[1..], k - 1); }
  }

  /** The selected run is the one at place `k` of the visible ones. */
  ghost predicate SelectsPlace(g: Ledger, k: nat) {
    k < |Visible(g.records, g.filter)| && g.selected == Some(Visible(g.records, g.filter)[k])
  }

  /** The place after `k` in a cycle of `n`. */
  function NextPlace(k: nat, n: nat): (r: nat)
    requires k < n
    ensures r < n
  {
    if k + 1 == n then 0 else k + 1
  }

  lemma NextPlaceIsModulo(k: nat, n: nat)
    requires k < n
    ensures (k + 1) % n == NextPlace(k, n)
  {
  }

  lemma NextMovesOne(g: Ledger, k: nat)
    requires SelectsPlace(g, k)
    ensures SelectsPlace(SelectNext(g), NextPlace(k, |Visible(g.records, g.filter)|))
    ensures SelectNext(g).records == g.records && SelectNext(g).filter == g.filter
  {
    PositionIs(Visible(g.records, g.filter), k);
    NextPlaceIsModulo(k, |Visible(g.records, g.filter)|);
  }

  function PressedNext(g: Ledger, times: nat): Ledger
    decreases times
  {
    if times == 0 then g else PressedNext(SelectNext(g), times - 1)
  }

  /** The place after `times` presses, for up to one round. */
  function PlaceAfter(k: nat, times: nat, n: nat): nat
    requires k < n && times <= n
  {
    if k + times < n then k + times else k + times - n
  }

  lemma PlaceAfterNext(k: nat, times: nat, n: nat)
    requires k < n && 0 < times <= n
    ensures PlaceAfter(NextPlace(k, n), times - 1, n) == PlaceAfter(k, times, n)
  {
  }

  lemma {:induction false} NextMovesMany(g: Ledger, k: nat, times: nat, n: nat)
    requires SelectsPlace(g, k) && n == |Visible(g.records, g.filter)| && times <= n
    ensures PressedNext(g, times).records == g.records && PressedNext(g, times).filter == g.filter
    ensures SelectsPlace(PressedNext(g, times), PlaceAfter(k, times, n))
    decreases times
  {
    if times > 0 {
      var h, next := SelectNext(g), NextPlace(k, n);
      NextMovesTo(g, k, h, next);
      PlaceAfterNext(k, times, n);
      NextMovesMany(h, next, times - 1, n);
    }
  }

  lemma NextMovesTo(g: Ledger, k: nat, h: Ledger, next: nat)
    requires SelectsPlace(g, k) && h == SelectNext(g) && next == NextPlace(k, |Visible(g.records, g.filter)|)
    ensures SelectsPlace(h, next) && h.records == g.records && h.filter == g.filter
  {
    NextMovesOne(g, k);
  }

  /** How many presses of next lead from place `k` to place `q`. */
  function Presses(k: nat, q: nat, n: nat): (r: nat)
    requires k < n && q < n
    ensures r < n
  {
    if q >= k then q - k else n - k + q
  }

  /**
   From a visible selected run, pressing next as often as there are visible runs returns to it, and on
   the way each visible run is selected after exactly one number of presses.
   */
  lemma NextVisitsEachOnce(g: Ledger, k: nat, q: nat, times: nat)
    requires SelectsPlace(g, k) && q < |Visible(g.records, g.filter)| && times < |Visible(g.records, g.filter)|
    ensures PressedNext(g, |Visible(g.records, g.filter)|).selected == g.selected
    ensures var n := |Visible(g.records, g.filter)|;
            && Presses(k, q, n) < n
            && (PressedNext(g, times).selected == Some(Visible(g.records, g.filter)[q]) <==> times == Presses(k, q, n))
  {
    var v := Visible(g.records, g.filter);
    NextMovesMany(g, k, |v|, |v|);
    NextMovesMany(g, k, times, |v|);
    PlacesDiffer(g.records, g.filter, PlaceAfter(k, times, |v|), q);
  }

  lemma PlacesDiffer(records: seq<RunRecord>, f: Filter, a: nat, b: nat)
    requires a < |Visible(records, f)| && b < |Visible(records, f)|
    ensures Visible(records, f)[a] == Visible(records, f)[b] <==> a == b
  {
  }

  lemma PreviousMovesOne(g: Ledger, k: nat)
    requires SelectsPlace(g, k)
    ensures SelectsPlace(SelectPrevious(g), if k == 0 then |Visible(g.records, g.filter)| - 1 else k - 1)
    ensures SelectPrevious(g).records == g.records && SelectPrevious(g).filter == g.filter
  {
    PositionIs(Visible(g.records, g.filter), k);
  }

  /** Previous undoes next, and next undoes previous. */
  lemma PreviousInvertsNext(g: Ledger, k: nat)
    requires SelectsPlace(g, k)
    ensures SelectPrevious(SelectNext(g)).selected == g.selected
    ensures SelectNext(SelectPrevious(g)).selected == g.selected
  {
    PreviousAfterNext(g, k, SelectNext(g));
    NextAfterPrevious(g, k, SelectPrevious(g));
  }

  lemma PreviousAfterNext(g: Ledger, k: nat, h: Ledger)
    requires SelectsPlace(g, k) && h == SelectNext(g)
    ensures SelectPrevious(h).selected == g.selected
  {
    NextMovesOne(g, k);
    PreviousMovesOne(h, NextPlace(k, |Visible(g.records, g.filter)|));
  }

  lemma NextAfterPrevious(g: Ledger, k: nat, h: Ledger)
    requires SelectsPlace(g, k) && h == SelectPrevious(g)
    ensures SelectNext(h).selected == g.selected
  {
    PreviousMovesOne(g, k);
    NextMovesOne(h, if k == 0 then |Visible(g.records, g.filter)| - 1 else k - 1);
  }

  // ----- replayed history -----

  /** What a history event does to the records: the event's own run first, then its receipts. */
  lemma HistoryRecords(g: Ledger, e: Event)
    requires e.kind == "session.history"
    ensures Record(g, e).records == HistoryApplied(g.records, e, g.lastPrompt)
    ensures Record(g, e).lastPrompt == g.lastPrompt
  {
    var r := RecordRun(g, e);
    RunTouchApplied(g, e);
    var h := r.(records := ApplyAll(r.records, ReceiptTouches(ReceiptsOf(e), g.lastPrompt)));
    NormalizeKeepsRecords(h);
  }

  lemma RunTouchApplied(g: Ledger, e: Event)
    ensures RecordRun(g, e).records == ApplyAll(g.records, RunTouches(e, g.lastPrompt))
    ensures RecordRun(g, e).lastPrompt == g.lastPrompt
  {
    if e.runId.Some? { ApplySingle(g.records, EventTouch(e, e.runId.value, g.lastPrompt)); }
  }

  lemma ApplySingle(records: seq<RunRecord>, t: Touch)
    ensures ApplyAll(records, [t]) == Apply(records, t)
  {
    assert [t][..0] == [];
  }

  lemma NormalizeKeepsRecords(g: Ledger)
    ensures NormalizeSelected(g).records == g.records && NormalizeSelected(g).lastPrompt == g.lastPrompt
  {
  }

  // ----- what the lists of a run hold -----

  /** The touches of one event. */
  function TouchesIn(e: Event, lastPrompt: Option<string>): seq<Touch> {
    RunTouches(e, lastPrompt)
    + (if e.kind == "session.history" then ReceiptTouches(ReceiptsOf(e), lastPrompt) else [])
  }

  /** The touches of a whole run, in order. */
  function TouchesOf(actions: seq<Action>): seq<Touch> {
    if actions == [] then []
    else
      var before, a := actions[..|actions| - 1], actions[|actions| - 1];
      TouchesOf(before) + (if a.Observe? then TouchesIn(a.event, After(before).lastPrompt) else [])
  }

  lemma RecordIsTouches(g: Ledger, e: Event)
    ensures Record(g, e).records == ApplyAll(g.records, TouchesIn(e, g.lastPrompt))
  {
    RunTouchApplied(g, e);
    if e.kind == "session.history" {
      HistoryRecords(g, e);
      ApplyAllConcat(g.records, RunTouches(e, g.lastPrompt), ReceiptTouches(ReceiptsOf(e), g.lastPrompt));
    } else {
      EmptyAppend(RunTouches(e, g.lastPrompt));
    }
  }

  lemma StepKeepsRecords(g: Ledger, a: Action)
    requires !a.Observe?
    ensures Step(g, a).records == g.records
  {
    if a.PressFilter? { NormalizeKeepsRecords(g.(filter := NextFilter(g.filter))); }
  }

  lemma {:induction false} RecordsAreTouches(actions: seq<Action>)
    ensures After(actions).records == ApplyAll([], TouchesOf(actions))
    decreases |actions|
  {
    if actions != [] {
      var before, a := LastApart(actions);
      RecordsAreTouches(before);
      InitOfSnoc(before, a);
      if a.Observe? {
        RecordIsTouches(After(before), a.event);
        ApplyAllConcat([], TouchesOf(before), TouchesIn(a.event, After(before).lastPrompt));
      } else {
        StepKeepsRecords(After(before), a);
        EmptyAppend(TouchesOf(before));
      }
    }
  }

  /**
   In every reachable state each list of each run, but for outputs, holds exactly what its events and replayed
   receipts pushed to it, in the order of the first occurrences.
   */
  lemma ReachableLists(actions: seq<Action>)
    ensures HoldFirsts(After(actions).records, TouchesOf(actions))
  {
    RecordsAreTouches(actions);
    TouchesHoldFirsts(TouchesOf(actions));
  }

  // ----- replayed after anything -----

  /** The ledger after more keys and events. */
  function RunFrom(g: Ledger, actions: seq<Action>): Ledger
    decreases |actions|
  {
    if actions == [] then g else RunFrom(Step(g, actions[0]), actions[1..])
  }

  lemma RecordKeepsAbsorbed(g: Ledger, e: Event, t: Touch)
    requires Absorbed(g.records, t)
    ensures Absorbed(Record(g, e).records, t)
  {
    RunTouchApplied(g, e);
    var r := RecordRun(g, e);
    ApplyAllKeepsAbsorbed(g.records, t, RunTouches(e, g.lastPrompt));
    ApplyAllKeepsAbsorbed(r.records, t, ReceiptTouches(ReceiptsOf(e), g.lastPrompt));
    NormalizeKeepsRecords(r.(records := ApplyAll(r.records, ReceiptTouches(ReceiptsOf(e), g.lastPrompt))));
  }

  lemma StepKeepsAbsorbed(g: Ledger, a: Action, t: Touch)
    requires Absorbed(g.records, t)
    ensures Absorbed(Step(g, a).records, t)
  {
    if a.Observe? { RecordKeepsAbsorbed(g, a.event, t); }
    if a.PressFilter? { NormalizeKeepsRecords(g.(filter := NextFilter(g.filter))); }
  }

  lemma {:induction false} RunKeepsAbsorbed(g: Ledger, actions: seq<Action>, t: Touch)
    requires Absorbed(g.records, t)
    ensures Absorbed(RunFrom(g, actions).records, t)
    decreases |actions|
  {
    if actions != [] {
      StepKeepsAbsorbed(g, actions[0], t);
      RunKeepsAbsorbed(Step(g, actions[0]), actions[1..], t);
    }
  }

  /** Whatever happened since, the records hold what a history event brought. */
  lemma HistoryStaysAbsorbed(g: Ledger, e: Event, actions: seq<Action>, t: Touch)
    requires e.kind == "session.history"
    requires t in RunTouches(e, g.lastPrompt) || t in ReceiptTouches(ReceiptsOf(e), g.lastPrompt)
    ensures Absorbed(RunFrom(Record(g, e), actions).records, t)
  {
    var ts, us := RunTouches(e, g.lastPrompt), ReceiptTouches(ReceiptsOf(e), g.lastPrompt);
    var mid := ApplyAll(g.records, ts);
    HistoryRecords(g, e);
    ApplyAllAbsorbs(g.records, ts);
    ApplyAllAbsorbs(mid, us);
    if t in ts { ApplyAllKeepsAbsorbed(mid, t, us); }
    RunKeepsAbsorbed(Record(g, e), actions, t);
  }

  /** The prompt on record for a run. */
  function PromptOf(records: seq<RunRecord>, runId: string): Option<string> {
    var i := IndexOfRun(records, runId);
    if i.Some? then records[i.value].prompt else None
  }

  /** The replay finds a prompt to fill in: the event names a run, whose record has none, and a prompt was sent. */
  predicate FillsPrompt(h: Ledger, e: Event) {
    e.runId.Some? && h.lastPrompt.Some? && PromptOf(h.records, e.runId.value).None?
  }

  /**
   Replaying a session history, as every reconnect does: `g` receives it, then anything happens, keys,
   prompts, run events, other histories, and `h` receives it again. The records stay as they were but
   for outputs, if and only if the replay does not fill in the prompt of the run the event names.
   */
  lemma ReconnectReplayIsIdempotent(g: Ledger, e: Event, actions: seq<Action>)
    requires e.kind == "session.history"
    ensures var h := RunFrom(Record(g, e), actions);
            SameButOutputs(Record(h, e).records, h.records) <==> !FillsPrompt(h, e)
  {
    var h := RunFrom(Record(g, e), actions);
    var ts, us := RunTouches(e, h.lastPrompt), ReceiptTouches(ReceiptsOf(e), h.lastPrompt);
    HistoryRecords(h, e);
    forall u | u in us ensures Absorbed(h.records, u) {
      OnlyNewPromptDiffers(ReceiptsOf(e), h.lastPrompt, g.lastPrompt);
      HistoryStaysAbsorbed(g, e, actions, u.(newPrompt := g.lastPrompt));
    }
    ReceiptsSetNoStatus(ReceiptsOf(e), h.lastPrompt);
    if e.runId.Some? {
      HistoryStaysAbsorbed(g, e, actions, EventTouch(e, e.runId.value, g.lastPrompt));
    }
    if FillsPrompt(h, e) {
      FilledPromptShows(h.records, EventTouch(e, e.runId.value, h.lastPrompt), us);
    } else {
      forall t | t in ts ensures Absorbed(h.records, t) {
      }
      TouchesAreIdle(h.records, ts, us);
    }
  }

  lemma {:induction false} OnlyNewPromptDiffers(receipts: seq<Value>, p: Option<string>, q: Option<string>)
    ensures forall t :: t in ReceiptTouches(receipts, p) ==> t.(newPrompt := q) in ReceiptTouches(receipts, q)
  {
    if receipts != [] { OnlyNewPromptDiffers(receipts[..|receipts| - 1], p, q); }
  }

  /** A prompt that is filled in is a difference. */
  lemma FilledPromptShows(records: seq<RunRecord>, t: Touch, us: seq<Touch>)
    requires PromptOf(records, t.runId).None? && IndexOfRun(records, t.runId).Some? && t.prompt.Some?
    ensures !SameButOutputs(ApplyAll(ApplyAll(records, [t]), us), records)
  {
    var after := ApplyAll(ApplyAll(records, [t]), us);
    ApplySingle(records, t);
    ApplyAbsorbs(records, t);
    ApplyAllKeepsAbsorbed(Apply(records, t), t, us);
    if SameButOutputs(after, records) {
      assert forall i :: 0 <= i < |after| ==> after[i].(outputs := []).runId == after[i].runId;
      IndexStays(records, after, t.runId);
    }
  }

  lemma TouchesAreIdle(records: seq<RunRecord>, ts: seq<Touch>, us: seq<Touch>)
    requires forall t :: t in ts || t in us ==> Absorbed(records, t) && SetsNoStatus(t)
    ensures SameButOutputs(ApplyAll(ApplyAll(records, ts), us), records)
  {
    var mid := ApplyAll(records, ts);
    AbsorbedAreIdle(records, ts);
    forall u | u in us ensures Absorbed(mid, u) {
      ApplyAllKeepsAbsorbed(records, u, ts);
    }
    AbsorbedAreIdle(mid, us);
  }

  /** That the replay fills in a prompt happens: a history that names a run, then a prompt, then the history again. */
  lemma ReplayFillsPrompt(runId: string, source: string, prompt: string)
    ensures var e := Event("session.history", source, Some(runId), None, Null);
            var p := Event("prompt.submitted", source, None, None, Object(map["prompt_preview" := Str(prompt)]));
            var h := RunFrom(Record(INITIAL, e), [Observe(p)]);
            && PromptOf(h.records, runId).None? && PromptOf(Record(h, e).records, runId) == Some(prompt)
            && !SameButOutputs(Record(h, e).records, h.records)
  {
    var e := Event("session.history", source, Some(runId), None, Null);
    var p := Event("prompt.submitted", source, None, None, Object(map["prompt_preview" := Str(prompt)]));
    var g := Record(INITIAL, e);
    assert g.records == Apply([], EventTouch(e, runId, None));
    var h := Step(g, Observe(p));
    assert [Observe(p)][1..] == [];
    assert RunFrom(g, [Observe(p)]) == h;
    ReconnectReplayIsIdempotent(INITIAL, e, [Observe(p)]);
    assert Record(h, e).records == Apply(h.records, EventTouch(e, runId, Some(prompt)));
  }
}
