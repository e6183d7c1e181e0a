/** What the approval gate keeps over every run of keys and Gateway events. */
module ApprovalSafety {
  import opened Prelude
  import opened Whitespace
  import opened Approvals

  // ----- the invariant of the queue -----

  ghost predicate Distinct(pending: seq<Approval>) {
    forall i, j :: 0 <= i < j < |pending| ==> pending[i].id != pending[j].id
  }

  ghost predicate QueueInv(g: Gate) {
    && (forall a :: a in g.pending ==> a.id != "")
    && Distinct(g.pending)
  }

  ghost predicate SelectionInv(g: Gate) {
    && (g.selected.Some? <==> g.pending != [])
    && (g.selected.Some? ==> g.selected.value < |g.pending|)
  }

  ghost predicate Inv(g: Gate) {
    && QueueInv(g) && SelectionInv(g)
    && (g.armed.Some? ==> g.overlay == Some(Approving))
  }

  lemma {:induction false} WithoutKeepsDistinct(pending: seq<Approval>, id: string)
    requires Distinct(pending)
    ensures Distinct(Without(pending, id))
  {
    if pending != [] {
      var rest := Without(pending[1..], id);
      WithoutKeepsDistinct(pending[1..], id);
      forall k | 0 <= k < |rest| ensures rest[k].id != pending[0].id {
        assert rest[k] in rest;
      }
    }
  }

  /** Syncing the overlay only moves the highlighted row and, to a pending approval, the selection. */
  lemma SyncKeeps(v: View, g: Gate)
    requires QueueInv(g) && SelectionInv(g)
    ensures SelectionInv(Sync(v, g))
    ensures Sync(v, g) == g.(row := Sync(v, g).row, selected := Sync(v, g).selected)
    ensures g.overlay != Some(Approving) ==> Sync(v, g).selected == g.selected
  {
    if g.overlay == Some(Approving) && g.pending != [] && ItemCount(v, g) > 0 {
      var row := if g.row < ItemCount(v, g) then g.row else ItemCount(v, g) - 1;
      var i := Visible(v, g, 0)[row];
      assert TitleAt(v, g, row) == g.pending[i].id by { assert g.pending[i] in g.pending; }
    }
  }

  /** In a queue of distinct ids an id has one index. */
  lemma IndexOfIdAt(pending: seq<Approval>, i: nat)
    requires Distinct(pending) && i < |pending|
    ensures IndexOfId(pending, pending[i].id) == Some(i)
  {
    var r := IndexOfId(pending, pending[i].id);
    assert r.Some?;
  }

  /** Opening the approvals overlay disarms and keeps the selection. */
  lemma OpenKeeps(v: View, g: Gate, o: Overlay)
    requires QueueInv(g) && SelectionInv(g)
    ensures Inv(Open(v, g, o))
    ensures Open(v, g, o).pending == g.pending && Open(v, g, o).armed.None?
    ensures Open(v, g, o).overlay == Some(o)
    ensures Open(v, g, o).selected == g.selected
  {
    var row := match o case Runs => v.runsRow case Approving => g.selected.GetOr(0) case _ => 0;
    var shown := g.(overlay := Some(o), armed := None, filter := "", row := row);
    SyncKeeps(v, shown);
    if o == Approving && g.pending != [] {
      var i := g.selected.value;
      assert Visible(v, shown, 0)[i] == i;
      assert g.pending[i] in g.pending;
      IndexOfIdAt(g.pending, i);
    }
  }

  lemma EnqueueKeeps(v: View, g: Gate, a: Approval)
    requires QueueInv(g) && SelectionInv(g) && a.id != ""
    ensures Inv(Enqueue(v, g, a)) && Enqueue(v, g, a).armed.None?
    ensures Enqueue(v, g, a).overlay == Some(Approving)
  {
    var queued := if IndexOfId(g.pending, a.id).Some? then g
                  else g.(pending := g.pending + [a], selected := Some(|g.pending|));
    OpenKeeps(v, queued, Approving);
  }

  // ----- what one input does to the arm -----

  /** `a` reaches the approvals overlay. */
  predicate PressesA(g: Gate, input: Input) {
    input == Press(Ch('a', false)) && !g.help && !g.search && g.overlay == Some(Approving)
  }

  /** This press arms `r`: it is the selected high-risk approval and was not armed. */
  predicate Arms(lower: string -> string, g: Gate, input: Input, r: Approval) {
    && PressesA(g, input) && Selected(g) == Some(r) && HighRisk(lower, r)
    && g.armed != Some(r.id)
  }

  /** Opening an overlay, from the prompt or from another overlay. */
  predicate OpensOverlay(g: Gate, key: Key) {
    && key.Ch? && key.ctrl
    && (key.ch in ['m', 'e', 'r'] || (key.ch == 'x' && g.overlay.None?))
  }

  /** Ctrl-N and Ctrl-P, where they select an approval. */
  predicate StepsSelection(g: Gate, key: Key) {
    key.Ch? && key.ctrl && key.ch in ['n', 'p'] && (g.overlay.None? || g.overlay == Some(Approving))
  }

  /** A committed decision, Esc in an overlay, an opened overlay, Ctrl-N/P, or a new request. */
  predicate Disarms(lower: string -> string, v: View, g: Gate, input: Input) {
    || Step(lower, v, g, input).decision.Some?
    || input.Requested?
    || (&& input.Press? && !g.help && !g.search
        && ((input.key == Esc && g.overlay.Some?) || OpensOverlay(g, input.key) || StepsSelection(g, input.key)))
  }

  /** What an input does to the arm: an arming press sets it, what disarms clears it, the rest keeps it. */
  datatype Effect = Armed(record: Approval) | Cleared | Kept

  function EffectOf(lower: string -> string, v: View, g: Gate, input: Input): Effect {
    var s := Selected(g);
    if s.Some? && Arms(lower, g, input, s.value) then Armed(s.value)
    else if Disarms(lower, v, g, input) then Cleared
    else Kept
  }

  function ArmAfter(lower: string -> string, v: View, g: Gate, input: Input): Option<string> {
    match EffectOf(lower, v, g, input)
    case Armed(r) => Some(r.id)
    case Cleared => None
    case Kept => g.armed
  }

  lemma MoveRowKeeps(v: View, g: Gate, forward: bool)
    requires Inv(g)
    ensures Inv(MoveRow(v, g, forward))
    ensures MoveRow(v, g, forward).pending == g.pending && MoveRow(v, g, forward).armed == g.armed
  {
    var n := ItemCount(v, g);
    if n > 0 {
      SyncKeeps(v, g.(row := StepRow(g.row, n, forward)));
    }
  }

  lemma RefilterKeeps(v: View, g: Gate, filter: string)
    requires Inv(g)
    ensures Inv(Refilter(v, g, filter))
    ensures Refilter(v, g, filter).pending == g.pending && Refilter(v, g, filter).armed == g.armed
  {
    SyncKeeps(v, g.(filter := filter, row := 0));
  }

  lemma OverlayCtrlKeeps(lower: string -> string, v: View, g: Gate, c: char)
    requires Inv(g) && g.overlay.Some?
    ensures var o := OverlayKey(lower, v, g, Ch(c, true));
            && Inv(o.gate) && o.gate.pending == g.pending && o.decision.None?
            && o.gate.armed == if OpensOverlay(g, Ch(c, true)) || StepsSelection(g, Ch(c, true)) then None else g.armed
  {
    if c in ['m', 'e', 'r'] {
      OverlayOpenKeeps(lower, v, g, c);
    } else {
      OverlayMoveKeeps(lower, v, g, c);
    }
  }

  lemma OverlayOpenKeeps(lower: string -> string, v: View, g: Gate, c: char)
    requires Inv(g) && g.overlay.Some? && c in ['m', 'e', 'r']
    ensures var o := OverlayKey(lower, v, g, Ch(c, true));
            Inv(o.gate) && o.gate.pending == g.pending && o.decision.None? && o.gate.armed.None?
  {
    OpenKeeps(v, g, if c == 'm' then Memory else if c == 'e' then Evidence else Runs);
  }

  lemma OverlayMoveKeeps(lower: string -> string, v: View, g: Gate, c: char)
    requires Inv(g) && g.overlay.Some? && c !in ['m', 'e', 'r']
    ensures var o := OverlayKey(lower, v, g, Ch(c, true));
            && Inv(o.gate) && o.gate.pending == g.pending && o.decision.None?
            && o.gate.armed == if StepsSelection(g, Ch(c, true)) then None else g.armed
  {
    if c in ['j', 'k'] {
      MoveRowKeeps(v, g, c == 'j');
    } else if c in ['n', 'p'] {
      NeighboursKeep(g);
    }
  }

  lemma NeighboursKeep(g: Gate)
    requires Inv(g)
    ensures Inv(NextApproval(g)) && NextApproval(g).pending == g.pending && NextApproval(g).armed.None?
    ensures Inv(PreviousApproval(g)) && PreviousApproval(g).pending == g.pending && PreviousApproval(g).armed.None?
  {
  }

  lemma OverlayCharKeeps(lower: string -> string, v: View, g: Gate, c: char)
    requires Inv(g) && g.overlay.Some? && !g.help && !g.search
    ensures var o := OverlayKey(lower, v, g, Ch(c, false));
            Inv(o.gate) && o.gate.pending == g.pending && o.gate.armed == ArmAfter(lower, v, g, Press(Ch(c, false)))
  {
    if !(c in ['a', 'd'] && g.overlay == Some(Approving)) {
      RefilterKeeps(v, g, g.filter + [c]);
    }
  }

  lemma OverlayKeyKeeps(lower: string -> string, v: View, g: Gate, key: Key)
    requires Inv(g) && g.overlay.Some? && !g.help && !g.search
    ensures var o := OverlayKey(lower, v, g, key);
            Inv(o.gate) && o.gate.pending == g.pending && o.gate.armed == ArmAfter(lower, v, g, Press(key))
  {
    if key.Ch? {
      if key.ctrl { OverlayCtrlKeeps(lower, v, g, key.ch); } else { OverlayCharKeeps(lower, v, g, key.ch); }
    } else {
      OtherKeyKeeps(lower, v, g, key);
    }
  }

  lemma OtherKeyKeeps(lower: string -> string, v: View, g: Gate, key: Key)
    requires Inv(g) && g.overlay.Some? && !g.help && !g.search && !key.Ch?
    ensures var o := OverlayKey(lower, v, g, key);
            Inv(o.gate) && o.gate.pending == g.pending && o.gate.armed == ArmAfter(lower, v, g, Press(key))
  {
    if key != Esc { OtherKeyKeepsArm(lower, v, g, key); }
    match key
    case BackspaceKey => RefilterKeeps(v, g, if g.filter == [] then [] else g.filter[..|g.filter| - 1]);
    case UpKey => MoveRowKeeps(v, g, false);
    case DownKey => MoveRowKeeps(v, g, true);
    case _ =>
  }

  lemma OtherKeyKeepsArm(lower: string -> string, v: View, g: Gate, key: Key)
    requires g.overlay.Some? && !g.help && !g.search && !key.Ch? && key != Esc
    ensures ArmAfter(lower, v, g, Press(key)) == g.armed
  {
  }

  lemma PromptKeyKeeps(v: View, g: Gate, key: Key)
    requires Inv(g) && g.overlay.None? && !g.help && !g.search
    ensures var g' := PromptKey(v, g, key);
            Inv(g') && g'.pending == g.pending && g'.armed.None?
  {
    if key.Ch? && key.ctrl {
      match key.ch
      case 'x' => OpenKeeps(v, g, Approving);
      case 'r' => OpenKeeps(v, g, Runs);
      case 'e' => OpenKeeps(v, g, Evidence);
      case 'm' => OpenKeeps(v, g, Memory);
      case _ => NeighboursKeep(g);
    }
  }

  lemma PressKeeps(lower: string -> string, v: View, g: Gate, key: Key)
    requires Inv(g)
    ensures var g' := Step(lower, v, g, Press(key)).gate;
            Inv(g') && g'.pending == g.pending && g'.armed == ArmAfter(lower, v, g, Press(key))
  {
    if !g.help && !g.search {
      if g.overlay.Some? { OverlayKeyKeeps(lower, v, g, key); } else { PromptKeyKeeps(v, g, key); }
    }
  }

  /**
   One input keeps the invariant, sets the arm as `ArmAfter` says, and lets no approval into the
   queue but by a request.
   */
  lemma StepKeeps(lower: string -> string, v: View, g: Gate, input: Input)
    requires Inv(g)
    ensures var g' := Step(lower, v, g, input).gate;
            && Inv(g')
            && g'.armed == ArmAfter(lower, v, g, input)
            && (!input.Requested? ==> forall a :: a in g'.pending ==> a in g.pending)
  {
    match input
    case Press(key) => PressKeeps(lower, v, g, key);
    case Requested(given, record) => EnqueueKeeps(v, g, FromEvent(given, record));
    case Resolved(id) => ResolveKeeps(lower, v, g, id);
    case _ =>
  }

  lemma ResolveKeeps(lower: string -> string, v: View, g: Gate, id: string)
    requires Inv(g)
    ensures var g' := Step(lower, v, g, Resolved(id)).gate;
            && Inv(g') && g'.armed == ArmAfter(lower, v, g, Resolved(id))
            && forall a :: a in g'.pending ==> a in g.pending
  {
    WithoutKeepsDistinct(g.pending, id);
  }

  // ----- runs -----

  /** One step of a run: what the overlay shows at that moment, and the input. */
  type Trace = seq<(View, Input)>

  /** The gate after the first `n` steps. */
  function After(lower: string -> string, trace: Trace, n: nat): Gate
    requires n <= |trace|
  {
    if n == 0 then INITIAL
    else Step(lower, trace[n - 1].0, After(lower, trace, n - 1), trace[n - 1].1).gate
  }

  /** The decision sent at step `k`. */
  function Sent(lower: string -> string, trace: Trace, k: nat): Option<Decision>
    requires k < |trace|
  {
    Step(lower, trace[k].0, After(lower, trace, k), trace[k].1).decision
  }

  /** The decisions sent during the first `n` steps. */
  function SentSoFar(lower: string -> string, trace: Trace, n: nat): seq<Decision>
    requires n <= |trace|
  {
    if n == 0 then []
    else
      var d := Sent(lower, trace, n - 1);
      SentSoFar(lower, trace, n - 1) + (if d.Some? then [d.value] else [])
  }

  /** What step `k` does to the arm. */
  function EffectAt(lower: string -> string, trace: Trace, k: nat): Effect
    requires k < |trace|
  {
    EffectOf(lower, trace[k].0, After(lower, trace, k), trace[k].1)
  }

  /** `r` was armed at step `j`, and no step from there to `k` arms or disarms anything. */
  ghost predicate ArmedSince(lower: string -> string, trace: Trace, j: nat, k: nat, r: Approval)
    requires j < k <= |trace|
  {
    EffectAt(lower, trace, j) == Armed(r) && forall i :: j < i < k ==> EffectAt(lower, trace, i) == Kept
  }

  /**
   In every reachable state: ids are non-empty and pairwise distinct, an approval is selected
   exactly when one is pending, the selection is in range, and an armed id means that the
   approvals overlay is open.
   */
  lemma {:induction false} ReachableInv(lower: string -> string, trace: Trace, n: nat)
    requires n <= |trace|
    ensures Inv(After(lower, trace, n))
  {
    if n > 0 {
      ReachableInv(lower, trace, n - 1);
      StepKeeps(lower, trace[n - 1].0, After(lower, trace, n - 1), trace[n - 1].1);
    }
  }

  /** One step, reduced to the arm and the queue: unless the arm is cleared, nothing is enqueued. */
  ghost predicate Follows(g: Gate, e: Effect, g': Gate) {
    && Distinct(g.pending)
    && (e.Armed? ==> e.record in g.pending && g'.armed == Some(e.record.id))
    && (e.Cleared? ==> g'.armed.None?)
    && (e.Kept? ==> g'.armed == g.armed)
    && (!e.Cleared? ==> forall a :: a in g'.pending ==> a in g.pending)
  }

  lemma StepAt(lower: string -> string, trace: Trace, i: nat)
    requires i < |trace|
    ensures Follows(After(lower, trace, i), EffectAt(lower, trace, i), After(lower, trace, i + 1))
  {
    ReachableInv(lower, trace, i);
    StepKeeps(lower, trace[i].0, After(lower, trace, i), trace[i].1);
  }

  /** A run seen through its effects. */
  ghost predicate IsArmLog(gates: seq<Gate>, effects: seq<Effect>) {
    && |gates| == |effects| + 1 && gates[0].armed.None?
    && forall i :: 0 <= i < |effects| ==> Follows(gates[i], effects[i], gates[i + 1])
  }

  ghost predicate LoggedSince(effects: seq<Effect>, j: nat, k: nat, r: Approval)
    requires j < k <= |effects|
  {
    effects[j] == Armed(r) && forall i :: j < i < k ==> effects[i] == Kept
  }

  /** Records of a queue with distinct ids that share an id are the same record. */
  lemma SameIdSameRecord(pending: seq<Approval>, a: Approval, b: Approval)
    requires Distinct(pending) && a in pending && b in pending && a.id == b.id
    ensures a == b
  {
  }

  /** Whatever is armed was armed by a press on that record, and only that record can carry its id. */
  lemma {:induction false} ArmHasCause(gates: seq<Gate>, effects: seq<Effect>, k: nat) returns (j: nat, r: Approval)
    requires IsArmLog(gates, effects) && k <= |effects| && gates[k].armed.Some?
    ensures j < k && LoggedSince(effects, j, k, r) && gates[k].armed == Some(r.id)
    ensures forall a :: a in gates[k].pending && a.id == r.id ==> a == r
  {
    assert Follows(gates[k - 1], effects[k - 1], gates[k - 1 + 1]);
    if effects[k - 1].Armed? {
      j, r := k - 1, effects[k - 1].record;
      forall a | a in gates[k].pending && a.id == r.id ensures a == r {
        SameIdSameRecord(gates[k - 1].pending, a, r);
      }
    } else {
      j, r := ArmHasCause(gates, effects, k - 1);
    }
  }

  /** Conversely, an arm survives every step that keeps it. */
  lemma {:induction false} ArmPersists(gates: seq<Gate>, effects: seq<Effect>, j: nat, k: nat, r: Approval)
    requires IsArmLog(gates, effects) && j < k <= |effects| && LoggedSince(effects, j, k, r)
    ensures gates[k].armed == Some(r.id)
  {
    assert Follows(gates[k - 1], effects[k - 1], gates[k - 1 + 1]);
    if j < k - 1 {
      ArmPersists(gates, effects, j, k - 1, r);
    }
  }

  /** Between the arming press and a later moment with the record queued, it never left the queue. */
  lemma {:induction false} ArmedStaysPending(gates: seq<Gate>, effects: seq<Effect>, j: nat, i: nat, k: nat,
                                             r: Approval)
    requires IsArmLog(gates, effects) && j < i <= k <= |effects| && LoggedSince(effects, j, k, r)
    requires r in gates[k].pending
    ensures r in gates[i].pending
    decreases k
  {
    if i < k {
      assert Follows(gates[k - 1], effects[k - 1], gates[k - 1 + 1]);
      ArmedStaysPending(gates, effects, j, i, k - 1, r);
    }
  }

  lemma RunLog(lower: string -> string, trace: Trace) returns (gates: seq<Gate>, effects: seq<Effect>)
    ensures |gates| == |trace| + 1 && |effects| == |trace|
    ensures forall i :: 0 <= i <= |trace| ==> gates[i] == After(lower, trace, i)
    ensures forall i :: 0 <= i < |trace| ==> effects[i] == EffectAt(lower, trace, i)
  {
    gates := seq(|trace| + 1, i requires 0 <= i <= |trace| => After(lower, trace, i));
    effects := seq(|trace|, i requires 0 <= i < |trace| => EffectAt(lower, trace, i));
  }

  lemma RunLogFollows(lower: string -> string, trace: Trace, gates: seq<Gate>, effects: seq<Effect>)
    requires |gates| == |trace| + 1 && |effects| == |trace|
    requires forall i :: 0 <= i <= |trace| ==> gates[i] == After(lower, trace, i)
    requires forall i :: 0 <= i < |trace| ==> effects[i] == EffectAt(lower, trace, i)
    ensures IsArmLog(gates, effects)
  {
    forall i | 0 <= i < |effects| ensures Follows(gates[i], effects[i], gates[i + 1]) {
      StepAt(lower, trace, i);
    }
  }

  /** The arm of a reachable state, explained by the run. */
  lemma ArmExplained(lower: string -> string, trace: Trace, k: nat, r: Approval)
    requires k <= |trace| && r in After(lower, trace, k).pending
    ensures After(lower, trace, k).armed == Some(r.id) <==> exists j :: 0 <= j < k && ArmedSince(lower, trace, j, k, r)
    ensures forall j, i :: 0 <= j < i <= k && ArmedSince(lower, trace, j, k, r) ==> r in After(lower, trace, i).pending
  {
    var gates, effects := RunLog(lower, trace);
    RunLogFollows(lower, trace, gates, effects);
    if gates[k].armed == Some(r.id) {
      var j, cause := ArmHasCause(gates, effects, k);
      assert ArmedSince(lower, trace, j, k, r);
    }
    forall j | 0 <= j < k && ArmedSince(lower, trace, j, k, r)
      ensures gates[k].armed == Some(r.id) && forall i :: j < i <= k ==> r in gates[i].pending
    {
      ArmPersists(gates, effects, j, k, r);
      forall i | j < i <= k ensures r in gates[i].pending {
        ArmedStaysPending(gates, effects, j, i, k, r);
      }
    }
  }

  /**
   Safety of the two-press gate over whole runs. An approval of a high-risk record is sent at step
   `k` exactly when that step presses `a` on that record, selected in the open overlay, and an
   earlier press armed the same record, equal in every field, with no decision, Esc, overlay
   opening, Ctrl-N/P, new request or other arming press in between.
   */
  lemma HighRiskNeedsTwoPresses(lower: string -> string, trace: Trace, k: nat, r: Approval)
    requires k < |trace| && HighRisk(lower, r)
    ensures Sent(lower, trace, k) == Some(Decision(r, true)) <==>
              && PressesA(After(lower, trace, k), trace[k].1)
              && Selected(After(lower, trace, k)) == Some(r)
              && exists j :: 0 <= j < k && ArmedSince(lower, trace, j, k, r)
  {
    var g := After(lower, trace, k);
    SentByPress(lower, trace[k].0, g, trace[k].1, r, true);
    if Selected(g) == Some(r) {
      ArmExplained(lower, trace, k, r);
    }
  }

  /** Where decisions come from: `a` or `d` in the approvals overlay, on the selected record. */
  lemma SentByPress(lower: string -> string, v: View, g: Gate, input: Input, r: Approval, approved: bool)
    ensures Step(lower, v, g, input).decision == Some(Decision(r, approved)) <==>
              && input == Press(Ch(if approved then 'a' else 'd', false))
              && !g.help && !g.search && g.overlay == Some(Approving)
              && Selected(g) == Some(r)
              && (approved && HighRisk(lower, r) ==> g.armed == Some(r.id))
  {
  }

  /**
   The source's comments say that navigating away re-arms the gate from scratch. The arrow keys
   do not: from an armed approval, Down leaves it and Up restores the whole gate, arm included,
   so that the next `a` approves. Only what `Disarms` lists clears the arm.
   */
  lemma ArrowsKeepTheArm(lower: string -> string, v: View, g: Gate)
    requires Inv(g) && !g.help && !g.search && AllBlank(g.filter)
    requires |g.pending| >= 2 && g.selected == Some(g.row) && g.armed == Some(Selected(g).value.id)
    ensures var away := Step(lower, v, g, Press(DownKey)).gate;
            Selected(away) != Selected(g) && Step(lower, v, away, Press(UpKey)).gate == g
  {
    var away := Step(lower, v, g, Press(DownKey)).gate;
    var n := |g.pending|;
    var next := StepRow(g.row, n, true);
    ArrowMoves(lower, v, g, true);
    RowsWrap(g.row, n);
    assert g.pending[next].id != g.pending[g.row].id;
    ArrowMoves(lower, v, away, false);
  }

  /** A request with a new id opens the overlay on that approval. */
  lemma EnqueueFresh(v: View, g: Gate, a: Approval)
    requires QueueInv(g) && a.id != "" && IndexOfId(g.pending, a.id).None?
    ensures Enqueue(v, g, a) == Gate(g.pending + [a], Some(|g.pending|), None, Some(Approving), "", |g.pending|,
                                     g.help, g.search)
  {
    var shown := Gate(g.pending + [a], Some(|g.pending|), None, Some(Approving), "", |g.pending|, g.help, g.search);
    RowSelects(v, shown);
  }

  /** Two requests, a press of `a`, away and back with the arrows, and another `a`. */
  function ArrowTrace(v: View, x: Approval, y: Approval): Trace {
    [(v, Requested(Some(x.id), x)), (v, Requested(Some(y.id), y)), (v, Press(Ch('a', false))),
     (v, Press(DownKey)), (v, Press(UpKey)), (v, Press(Ch('a', false)))]
  }

  /** From a new client that run approves the high-risk record, although the operator navigated away. */
  lemma {:induction false} ArrowsStillApprove(lower: string -> string, v: View, x: Approval, y: Approval)
    requires !AllBlank(x.id) && !AllBlank(y.id) && x.id != y.id && HighRisk(lower, y)
    ensures Sent(lower, ArrowTrace(v, x, y), 5) == Some(Decision(y, true))
  {
    var trace := ArrowTrace(v, x, y);
    var armed := ShownArmed(x, y);
    TwoRequested(lower, trace, v, x, y);
    ArmedAfterThree(lower, trace, v, x, y);
    ReachableInv(lower, trace, 3);
    ArrowsKeepTheArm(lower, v, armed);
    assert After(lower, trace, 4) == Step(lower, v, armed, Press(DownKey)).gate;
    assert After(lower, trace, 5) == armed;
    SentByPress(lower, v, armed, trace[5].1, y, true);
  }

  function ShownArmed(x: Approval, y: Approval): Gate {
    Gate([x, y], Some(1), Some(y.id), Some(Approving), "", 1, false, false)
  }

  lemma {:induction false} ArmedAfterThree(lower: string -> string, trace: Trace, v: View, x: Approval, y: Approval)
    requires |trace| > 2 && trace[2] == (v, Press(Ch('a', false))) && HighRisk(lower, y)
    requires After(lower, trace, 2) == ShownArmed(x, y).(armed := None)
    ensures After(lower, trace, 3) == ShownArmed(x, y)
  {
    var g := After(lower, trace, 2);
    assert Selected(g) == Some(y);
    assert After(lower, trace, 3) == Step(lower, v, g, Press(Ch('a', false))).gate;
  }

  lemma {:induction false} TwoRequested(lower: string -> string, trace: Trace, v: View, x: Approval, y: Approval)
    requires |trace| > 1 && trace[0] == (v, Requested(Some(x.id), x)) && trace[1] == (v, Requested(Some(y.id), y))
    requires !AllBlank(x.id) && !AllBlank(y.id) && x.id != y.id
    ensures After(lower, trace, 2) == ShownArmed(x, y).(armed := None)
  {
    var g := After(lower, trace, 1);
    assert g == Enqueue(v, After(lower, trace, 0), x);
    EnqueueFresh(v, INITIAL, x);
    assert After(lower, trace, 2) == Enqueue(v, g, y);
    EnqueueFresh(v, g, y);
    assert [x] + [y] == [x, y];
  }

  lemma RowsWrap(row: nat, n: nat)
    requires row < n && n >= 2
    ensures var next := StepRow(row, n, true); next < n && next != row && StepRow(next, n, false) == row
  {
  }

  lemma ArrowMoves(lower: string -> string, v: View, g: Gate, forward: bool)
    requires Inv(g) && !g.help && !g.search && AllBlank(g.filter) && g.overlay == Some(Approving) && g.pending != []
    requires g.row < |g.pending|
    ensures var row := StepRow(g.row, |g.pending|, forward);
            && row < |g.pending|
            && Step(lower, v, g, Press(if forward then DownKey else UpKey)).gate
               == g.(row := row, selected := Some(row))
  {
    RowSelects(v, g);
    RowSelects(v, g.(row := StepRow(g.row, |g.pending|, forward)));
  }

  /** In an unfiltered approvals overlay the highlighted row is the selected approval. */
  lemma RowSelects(v: View, g: Gate)
    requires QueueInv(g) && g.overlay == Some(Approving) && AllBlank(g.filter) && g.row < |g.pending|
    ensures ItemCount(v, g) == |g.pending|
    ensures Sync(v, g) == g.(selected := Some(g.row))
  {
    assert Visible(v, g, 0)[g.row] == g.row;
    assert g.pending[g.row] in g.pending;
    IndexOfIdAt(g.pending, g.row);
  }
}
