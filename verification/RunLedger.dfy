/** The run records as `InteractiveApp` holds them: vectors and indices updated in place. */
module RunLedger {
  import opened Prelude
  import opened Json
  import opened Runs
  import opened RunSelection

  /** The `push_unique_string` calls of one event, in order. */
  method PushUniqueAll(lists0: Lists, pushes: Pushes) returns (lists: Lists)
    ensures lists == PushAll(lists0, pushes)
  {
    lists := lists0;
    for i := 0 to |pushes|
      invariant lists == PushAll(lists0, pushes[..i])
    {
      assert pushes[..i + 1][..i] == pushes[..i];
      var field, value := pushes[i].0, pushes[i].1;
      if value !in At(lists, field) {
        lists := lists[field := At(lists, field) + [value]];
      } else {
        lists := lists[field := At(lists, field)];
      }
    }
    assert pushes[..|pushes|] == pushes;
  }

  class RunBook {
    var runRecords: seq<RunRecord>
    var selectedRunIndex: Option<nat>
    var runFilter: Filter
    var autoSelectLatestRun: bool
    var lastPromptPreview: Option<string>

    function State(): Ledger
      reads this
    {
      Ledger(runRecords, selectedRunIndex, runFilter, autoSelectLatestRun, lastPromptPreview)
    }

    constructor ()
      ensures State() == INITIAL
    {
      runRecords, selectedRunIndex, runFilter := [], None, All;
      autoSelectLatestRun, lastPromptPreview := true, None;
    }

    method EnsureRunRecord(runId: string) returns (index: nat)
      modifies this`runRecords
      ensures (runRecords, index) == Ensured(old(runRecords), runId, lastPromptPreview)
    {
      var found := IndexOfRun(runRecords, runId);
      if found.Some? {
        return found.value;
      }
      runRecords := runRecords + [NewRecord(runId, lastPromptPreview)];
      return |runRecords| - 1;
    }

    /** The fields still empty are filled, the status updated, strings pushed, outputs appended. */
    method TouchRecord(index: nat, t: Touch)
      requires index < |runRecords|
      modifies this`runRecords
      ensures runRecords == old(runRecords)[index := Touched(old(runRecords)[index], t)]
    {
      var run := runRecords[index];
      if run.taskId.None? { run := run.(taskId := t.taskId); }
      if run.prompt.None? { run := run.(prompt := t.prompt); }
      if run.model.None? { run := run.(model := t.model); }
      if run.provider.None? { run := run.(provider := t.provider); }
      match t.status {
        case KeepStatus =>
        case SetStatus(s) => run := run.(status := Some(s));
        case DefaultStatus(s) => if run.status.None? { run := run.(status := Some(s)); }
      }
      var lists := PushUniqueAll(run.lists, t.pushes);
      run := run.(lists := lists, outputs := run.outputs + t.outputs);
      runRecords := runRecords[index := run];
    }

    method RecordRunEvent(e: Event)
      modifies this
      ensures State() == RecordRun(old(State()), e)
    {
      if e.runId.None? {
        return;
      }
      var index := EnsureRunRecord(e.runId.value);
      if autoSelectLatestRun || selectedRunIndex.None? {
        selectedRunIndex := Some(index);
      }
      TouchRecord(index, EventTouch(e, e.runId.value, lastPromptPreview));
    }

    /** One receipt of a history; receipts without an id are skipped. */
    method RecordReceipt(receipt: Value)
      modifies this`runRecords
      ensures runRecords == ApplyAll(old(runRecords), ReceiptTouch(receipt, lastPromptPreview))
    {
      var touch := ReceiptTouch(receipt, lastPromptPreview);
      ApplyAllSnoc(runRecords, [], touch);
      assert [] + touch == touch;
      if touch != [] {
        var index := EnsureRunRecord(touch[0].runId);
        TouchRecord(index, touch[0]);
      }
    }

    method RecordReceipts(receipts: seq<Value>)
      modifies this`runRecords
      ensures runRecords == ApplyAll(old(runRecords), ReceiptTouches(receipts, lastPromptPreview))
    {
      for i := 0 to |receipts|
        invariant runRecords == ApplyAll(old(runRecords), ReceiptTouches(receipts[..i], lastPromptPreview))
      {
        OneMoreReceipt(old(runRecords), receipts, i, lastPromptPreview);
        RecordReceipt(receipts[i]);
      }
      assert receipts[..|receipts|] == receipts;
    }

    method RecordHistoryEvent(e: Event)
      modifies this
      ensures State() == if !HasReceipts(e) then old(State()) else
                NormalizeSelected(old(State()).(records :=
                  ApplyAll(old(runRecords), ReceiptTouches(ReceiptsOf(e), old(lastPromptPreview)))))
    {
      if !HasReceipts(e) {
        return;
      }
      RecordReceipts(ReceiptsOf(e));
      NormalizeSelectedRun();
    }

    /** `record_event`, as far as run records go. */
    method RecordEvent(e: Event)
      modifies this
      ensures State() == Record(old(State()), e)
    {
      RecordRunEvent(e);
      if e.kind == "session.history" {
        RecordHistoryEvent(e);
      } else if e.kind == "prompt.submitted" {
        lastPromptPreview := Some(GetStr(e.data, "prompt_preview").GetOr("prompt submitted"));
      }
    }

    method NormalizeSelectedRun()
      modifies this`selectedRunIndex
      ensures State() == NormalizeSelected(old(State()))
    {
      var visible := Visible(runRecords, runFilter);
      if visible == [] {
        selectedRunIndex := None;
        return;
      }
      if selectedRunIndex.Some? && selectedRunIndex.value in visible {
        return;
      }
      selectedRunIndex := Some(visible[|visible| - 1]);
    }

    method SelectNextRun()
      modifies this`selectedRunIndex, this`autoSelectLatestRun
      ensures State() == SelectNext(old(State()))
    {
      var visible := Visible(runRecords, runFilter);
      if visible == [] {
        selectedRunIndex := None;
        return;
      }
      var position := PositionOf(visible, selectedRunIndex);
      var next := if position.Some? then (position.value + 1) % |visible| else 0;
      selectedRunIndex := Some(visible[next]);
      autoSelectLatestRun := false;
    }

    method SelectPreviousRun()
      modifies this`selectedRunIndex, this`autoSelectLatestRun
      ensures State() == SelectPrevious(old(State()))
    {
      var visible := Visible(runRecords, runFilter);
      if visible == [] {
        selectedRunIndex := None;
        return;
      }
      var position := PositionOf(visible, selectedRunIndex);
      var previous := |visible| - 1;
      if position.Some? && position.value > 0 {
        previous := position.value - 1;
      }
      selectedRunIndex := Some(visible[previous]);
      autoSelectLatestRun := false;
    }

    method CycleRunFilter()
      modifies this`runFilter, this`selectedRunIndex
      ensures State() == CycleFilter(old(State()))
    {
      runFilter := NextFilter(runFilter);
      NormalizeSelectedRun();
    }

    method SyncRunsOverlay(title: string)
      modifies this`selectedRunIndex, this`autoSelectLatestRun
      ensures State() == SyncTitle(old(State()), title)
    {
      selectedRunIndex := IndexOfRun(runRecords, title);
      autoSelectLatestRun := false;
    }

    /** One key or event. */
    method Handle(a: Action)
      modifies this
      ensures State() == Step(old(State()), a)
    {
      match a
      case Observe(e) => RecordEvent(e);
      case PressNext => SelectNextRun();
      case PressPrevious => SelectPreviousRun();
      case PressFilter => CycleRunFilter();
      case SyncOverlay(title) => SyncRunsOverlay(title);
      case PromptSent => autoSelectLatestRun := true;
    }

    /** A whole session. */
    method HandleAll(actions: seq<Action>)
      requires State() == INITIAL
      modifies this
      ensures State() == After(actions) && Inv(State())
    {
      for i := 0 to |actions|
        invariant State() == After(actions[..i])
      {
        assert actions[..i + 1][..i] == actions[..i];
        Handle(actions[i]);
      }
      assert actions[..|actions|] == actions;
      ReachableInv(actions);
    }
  }

  lemma OneMoreReceipt(records: seq<RunRecord>, receipts: seq<Value>, i: nat, lastPrompt: Option<string>)
    requires i < |receipts|
    ensures ApplyAll(records, ReceiptTouches(receipts[..i + 1], lastPrompt))
            == ApplyAll(ApplyAll(records, ReceiptTouches(receipts[..i], lastPrompt)),
                        ReceiptTouch(receipts[i], lastPrompt))
  {
    var before, touch := ReceiptTouches(receipts[..i], lastPrompt), ReceiptTouch(receipts[i], lastPrompt);
    assert receipts[..i + 1][..i] == receipts[..i];
    ApplyAllSnoc(records, before, touch);
    ApplyAllSnoc(ApplyAll(records, before), [], touch);
    assert [] + touch == touch;
  }

  lemma ApplyAllSnoc(records: seq<RunRecord>, ts: seq<Touch>, last: seq<Touch>)
    requires |last| <= 1
    ensures ApplyAll(records, ts + last)
            == if last == [] then ApplyAll(records, ts) else Apply(ApplyAll(records, ts), last[0])
  {
    assert last == [] ==> ts + last == ts;
    assert last != [] ==> (ts + last)[..|ts|] == ts;
  }
}
