/** Replaying a session history: what the second time changes. */
module RunReplay {
  import opened Prelude
  import opened Json
  import opened Runs

  /** The record already holds everything the touch would add, outputs aside. */
  ghost predicate Holds(r: RunRecord, t: Touch) {
    && r.runId == t.runId
    && (t.taskId.Some? ==> r.taskId.Some?) && (t.prompt.Some? ==> r.prompt.Some?)
    && (t.model.Some? ==> r.model.Some?) && (t.provider.Some? ==> r.provider.Some?)
    && (t.status.DefaultStatus? ==> r.status.Some?)
    && (forall p :: p in t.pushes ==> p.1 in At(r.lists, p.0))
  }

  ghost predicate Absorbed(records: seq<RunRecord>, t: Touch) {
    var i := IndexOfRun(records, t.runId);
    i.Some? && Holds(records[i.value], t)
  }

  predicate SetsNoStatus(t: Touch) {
    !t.status.SetStatus?
  }

  /** Equal but for the outputs. */
  predicate SameButOutputs(a: seq<RunRecord>, b: seq<RunRecord>) {
    && |a| == |b|
    && forall i :: 0 <= i < |a| ==> a[i].(outputs := []) == b[i].(outputs := [])
  }

  lemma {:induction false} PushAllAbsorbed(lists: Lists, pushes: Pushes)
    requires forall p :: p in pushes ==> p.1 in At(lists, p.0)
    ensures PushAll(lists, pushes) == lists
  {
    if pushes != [] {
      var last := pushes[|pushes| - 1];
      assert last in pushes;
      PushAllAbsorbed(lists, pushes[..|pushes| - 1]);
      assert last.0 in lists && PushOne(lists, last) == lists;
    }
  }

  /** A touch leaves behind a record that holds it. */
  lemma TouchedHolds(r: RunRecord, t: Touch)
    requires r.runId == t.runId
    ensures Holds(Touched(r, t), t)
  {
    PushAllGrows(r.lists, t.pushes);
  }

  /** Further touches do not undo that. */
  lemma TouchedStillHolds(r: RunRecord, t: Touch, u: Touch)
    requires Holds(r, t)
    ensures Holds(Touched(r, u), t)
  {
    PushAllGrows(r.lists, u.pushes);
    forall p | p in t.pushes ensures p.1 in At(Touched(r, u).lists, p.0) {
      assert At(r.lists, p.0) <= At(Touched(r, u).lists, p.0);
    }
  }

  /** A held touch changes nothing but the outputs. */
  lemma HeldTouchIsIdle(r: RunRecord, t: Touch)
    requires Holds(r, t) && SetsNoStatus(t)
    ensures Touched(r, t).(outputs := []) == r.(outputs := [])
  {
    PushAllAbsorbed(r.lists, t.pushes);
  }

  /** The index of a run does not move once it has a record. */
  lemma {:induction false} IndexStays(a: seq<RunRecord>, b: seq<RunRecord>, runId: string)
    requires IndexOfRun(a, runId).Some? && |a| <= |b|
    requires forall i :: 0 <= i < |a| ==> a[i].runId == b[i].runId
    ensures IndexOfRun(b, runId) == IndexOfRun(a, runId)
  {
    if a[0].runId != runId {
      IndexStays(a[1..], b[1..], runId);
    }
  }

  lemma {:induction false} IndexOfNew(records: seq<RunRecord>, r: RunRecord)
    requires IndexOfRun(records, r.runId).None?
    ensures IndexOfRun(records + [r], r.runId) == Some(|records|)
  {
    if records != [] {
      IndexOfNew(records[1..], r);
      assert (records + [r])[1..] == records[1..] + [r];
    }
  }

  lemma EnsuredIndex(records: seq<RunRecord>, runId: string, prompt: Option<string>)
    ensures IndexOfRun(Ensured(records, runId, prompt).0, runId) == Some(Ensured(records, runId, prompt).1)
  {
    if IndexOfRun(records, runId).None? {
      IndexOfNew(records, NewRecord(runId, prompt));
    }
  }

  /** After a touch it is absorbed. */
  lemma ApplyAbsorbs(records: seq<RunRecord>, t: Touch)
    ensures Absorbed(Apply(records, t), t)
  {
    var (all, i) := Ensured(records, t.runId, t.newPrompt);
    EnsuredIndex(records, t.runId, t.newPrompt);
    IndexStays(all, Apply(records, t), t.runId);
    TouchedHolds(all[i], t);
  }

  /** What is absorbed stays absorbed. */
  lemma ApplyKeepsAbsorbed(records: seq<RunRecord>, t: Touch, u: Touch)
    requires Absorbed(records, t)
    ensures Absorbed(Apply(records, u), t)
  {
    var k := IndexOfRun(records, t.runId).value;
    IndexStays(records, Apply(records, u), t.runId);
    TouchedStillHolds(records[k], t, u);
  }

  lemma {:induction false} ApplyAllKeepsAbsorbed(records: seq<RunRecord>, t: Touch, us: seq<Touch>)
    requires Absorbed(records, t)
    ensures Absorbed(ApplyAll(records, us), t)
  {
    if us != [] {
      ApplyAllKeepsAbsorbed(records, t, us[..|us| - 1]);
      ApplyKeepsAbsorbed(ApplyAll(records, us[..|us| - 1]), t, us[|us| - 1]);
    }
  }

  /** After a series of touches all of them are absorbed. */
  lemma {:induction false} ApplyAllAbsorbs(records: seq<RunRecord>, ts: seq<Touch>)
    ensures forall t :: t in ts ==> Absorbed(ApplyAll(records, ts), t)
  {
    if ts != [] {
      var before, last := ts[..|ts| - 1], ts[|ts| - 1];
      ApplyAllAbsorbs(records, before);
      ApplyAbsorbs(ApplyAll(records, before), last);
      forall t | t in ts ensures Absorbed(ApplyAll(records, ts), t) {
        if t != last {
          assert t in before;
          ApplyKeepsAbsorbed(ApplyAll(records, before), t, last);
        }
      }
    }
  }

  lemma AbsorbedIsIdle(records: seq<RunRecord>, t: Touch)
    requires Absorbed(records, t) && SetsNoStatus(t)
    ensures SameButOutputs(Apply(records, t), records)
  {
    HeldTouchIsIdle(records[IndexOfRun(records, t.runId).value], t);
  }

  /** Absorbed touches, applied again, change nothing but outputs. */
  lemma {:induction false} AbsorbedAreIdle(records: seq<RunRecord>, ts: seq<Touch>)
    requires forall t :: t in ts ==> Absorbed(records, t) && SetsNoStatus(t)
    ensures SameButOutputs(ApplyAll(records, ts), records)
  {
    if ts != [] {
      var before, last := ts[..|ts| - 1], ts[|ts| - 1];
      assert last in ts;
      AbsorbedAreIdle(records, before);
      ApplyAllKeepsAbsorbed(records, last, before);
      AbsorbedIsIdle(ApplyAll(records, before), last);
    }
  }

  lemma {:induction false} ReceiptsSetNoStatus(receipts: seq<Value>, lastPrompt: Option<string>)
    ensures forall t :: t in ReceiptTouches(receipts, lastPrompt) ==> SetsNoStatus(t)
  {
    if receipts != [] { ReceiptsSetNoStatus(receipts[..|receipts| - 1], lastPrompt); }
  }

  /** Two series of touches, done twice. */
  lemma TwiceIsOnce(records: seq<RunRecord>, ts: seq<Touch>, us: seq<Touch>)
    requires forall t :: t in ts || t in us ==> SetsNoStatus(t)
    ensures var once := ApplyAll(ApplyAll(records, ts), us);
            SameButOutputs(ApplyAll(ApplyAll(once, ts), us), once)
  {
    var mid := ApplyAll(records, ts);
    var once := ApplyAll(mid, us);
    ApplyAllAbsorbs(records, ts);
    ApplyAllAbsorbs(mid, us);
    forall t | t in ts ensures Absorbed(once, t) {
      ApplyAllKeepsAbsorbed(mid, t, us);
    }
    AbsorbedAreIdle(once, ts);
    var again := ApplyAll(once, ts);
    forall u | u in us ensures Absorbed(again, u) {
      ApplyAllKeepsAbsorbed(once, u, ts);
    }
    AbsorbedAreIdle(again, us);
  }

  /**
   Replaying a session history is idempotent: whatever the records, the second time changes nothing
   but the outputs, which are appended again.
   */
  lemma HistoryReplayIsIdempotent(records: seq<RunRecord>, e: Event, lastPrompt: Option<string>)
    requires e.kind == "session.history"
    ensures var once := HistoryApplied(records, e, lastPrompt);
            SameButOutputs(HistoryApplied(once, e, lastPrompt), once)
  {
    ReceiptsSetNoStatus(ReceiptsOf(e), lastPrompt);
    TwiceIsOnce(records, RunTouches(e, lastPrompt), ReceiptTouches(ReceiptsOf(e), lastPrompt));
  }

  // ----- outputs -----

  function Outputs(records: seq<RunRecord>): nat {
    if records == [] then 0 else Outputs(records[..|records| - 1]) + |records[|records| - 1].outputs|
  }

  function OutputsOf(touches: seq<Touch>): nat {
    if touches == [] then 0 else OutputsOf(touches[..|touches| - 1]) + |touches[|touches| - 1].outputs|
  }

  lemma {:induction false} OutputsUpdate(records: seq<RunRecord>, i: nat, r: RunRecord)
    requires i < |records|
    ensures Outputs(records[i := r]) == Outputs(records) - |records[i].outputs| + |r.outputs|
  {
    var n := |records| - 1;
    if i < n {
      OutputsUpdate(records[..n], i, r);
      assert records[i := r][..n] == records[..n][i := r];
    } else {
      assert records[i := r][..n] == records[..n];
    }
  }

  /** A touch adds its outputs, whatever the records already hold. */
  lemma ApplyAddsOutputs(records: seq<RunRecord>, t: Touch)
    ensures Outputs(Apply(records, t)) == Outputs(records) + |t.outputs|
  {
    var (all, i) := Ensured(records, t.runId, t.newPrompt);
    if IndexOfRun(records, t.runId).None? {
      InitOfSnoc(records, NewRecord(t.runId, t.newPrompt));
      assert Outputs(all) == Outputs(records);
    }
    OutputsUpdate(all, i, Touched(all[i], t));
  }

  lemma {:induction false} ApplyAllAddsOutputs(records: seq<RunRecord>, ts: seq<Touch>)
    ensures Outputs(ApplyAll(records, ts)) == Outputs(records) + OutputsOf(ts)
  {
    if ts != [] {
      ApplyAllAddsOutputs(records, ts[..|ts| - 1]);
      ApplyAddsOutputs(ApplyAll(records, ts[..|ts| - 1]), ts[|ts| - 1]);
    }
  }

  /** The outputs of records that were there before. */
  ghost predicate KeepsOutputs(a: seq<RunRecord>, b: seq<RunRecord>) {
    |a| <= |b| && forall i :: 0 <= i < |a| ==> b[i].outputs == a[i].outputs
  }

  lemma {:induction false} NoOutputsAdded(records: seq<RunRecord>, ts: seq<Touch>)
    requires OutputsOf(ts) == 0
    ensures KeepsOutputs(records, ApplyAll(records, ts))
  {
    if ts != [] {
      NoOutputsAdded(records, ts[..|ts| - 1]);
      var mid, t := ApplyAll(records, ts[..|ts| - 1]), ts[|ts| - 1];
      assert t.outputs == [];
      assert KeepsOutputs(mid, Apply(mid, t));
    }
  }

  /** A receipt that a replay adds to: it has an id, and outputs or a summary. */
  predicate HasOutputs(receipt: Value) {
    GetStr(receipt, "id").Some? && ReceiptOutputs(receipt) != []
  }

  lemma {:induction false} ReceiptsAddOutputs(receipts: seq<Value>, lastPrompt: Option<string>)
    ensures OutputsOf(ReceiptTouches(receipts, lastPrompt)) == 0 <==> forall r :: r in receipts ==> !HasOutputs(r)
  {
    if receipts != [] {
      var before, last := receipts[..|receipts| - 1], receipts[|receipts| - 1];
      ReceiptsAddOutputs(before, lastPrompt);
      assert receipts == before + [last];
      OneReceiptAdds(ReceiptTouches(before, lastPrompt), last, lastPrompt);
      LastToo(before, last);
    }
  }

  lemma OneReceiptAdds(ts: seq<Touch>, receipt: Value, lastPrompt: Option<string>)
    ensures OutputsOf(ts + ReceiptTouch(receipt, lastPrompt)) == 0 <==> OutputsOf(ts) == 0 && !HasOutputs(receipt)
  {
    var touch := ReceiptTouch(receipt, lastPrompt);
    if touch == [] {
      assert ts + touch == ts;
    } else {
      InitOfSnoc(ts, touch[0]);
      assert touch[0].outputs == ReceiptOutputs(receipt);
    }
  }

  lemma LastToo(before: seq<Value>, last: Value)
    ensures (forall r :: r in before + [last] ==> !HasOutputs(r))
            <==> (forall r :: r in before ==> !HasOutputs(r)) && !HasOutputs(last)
  {
    assert last in before + [last];
  }

  lemma SameOutputsSameRecords(a: seq<RunRecord>, b: seq<RunRecord>)
    requires SameButOutputs(a, b) && KeepsOutputs(b, a)
    ensures a == b
  {
    forall i | 0 <= i < |a| ensures a[i] == b[i] {
      assert a[i].(outputs := []) == b[i].(outputs := []);
    }
  }

  /** Exactly when the replay changes nothing at all: no receipt of the history carries an output. */
  lemma ReplayIsExact(records: seq<RunRecord>, e: Event, lastPrompt: Option<string>)
    requires e.kind == "session.history"
    ensures var once := HistoryApplied(records, e, lastPrompt);
            HistoryApplied(once, e, lastPrompt) == once <==> forall r :: r in ReceiptsOf(e) ==> !HasOutputs(r)
  {
    var once := HistoryApplied(records, e, lastPrompt);
    var ts, us := RunTouches(e, lastPrompt), ReceiptTouches(ReceiptsOf(e), lastPrompt);
    var mid := ApplyAll(once, ts);
    RunAddsNoOutputs(e, lastPrompt);
    ApplyAllAddsOutputs(once, ts);
    ApplyAllAddsOutputs(mid, us);
    ReceiptsAddOutputs(ReceiptsOf(e), lastPrompt);
    if OutputsOf(us) == 0 {
      NoOutputsAdded(once, ts);
      NoOutputsAdded(mid, us);
      HistoryReplayIsIdempotent(records, e, lastPrompt);
      SameOutputsSameRecords(ApplyAll(mid, us), once);
    }
  }

  lemma RunAddsNoOutputs(e: Event, lastPrompt: Option<string>)
    requires e.kind == "session.history"
    ensures OutputsOf(RunTouches(e, lastPrompt)) == 0
  {
    if e.runId.Some? {
      assert RunTouches(e, lastPrompt)[..0] == [];
    }
  }
}
