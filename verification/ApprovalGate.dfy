/** The approval gate as `InteractiveApp` implements it: fields updated in place. */
module ApprovalGate {
  import opened Prelude
  import opened Approvals
  import opened ApprovalSafety

  class GateKeeper {
    const lower: string -> string
    var pendingApprovals: seq<Approval>
    var selectedApprovalIndex: Option<nat>
    var armedApprovalId: Option<string>
    var activeOverlay: Option<Overlay>
    var overlayFilter: string
    var overlaySelectedIndex: nat
    var helpVisible: bool
    var searchActive: bool
    /** The `approval.decide` commands handed to the backend so far. */
    var sent: seq<Decision>

    constructor (lower: string -> string)
      ensures this.lower == lower && State() == INITIAL && sent == []
    {
      this.lower := lower;
      pendingApprovals, selectedApprovalIndex, armedApprovalId := [], None, None;
      activeOverlay, overlayFilter, overlaySelectedIndex := None, "", 0;
      helpVisible, searchActive, sent := false, false, [];
    }

    function State(): Gate
      reads this
    {
      Gate(pendingApprovals, selectedApprovalIndex, armedApprovalId, activeOverlay,
           overlayFilter, overlaySelectedIndex, helpVisible, searchActive)
    }

    method SyncOverlaySelection(v: View)
      modifies this`overlaySelectedIndex, this`selectedApprovalIndex
      ensures State() == Sync(v, old(State()))
    {
      var g := State();
      var n := ItemCount(v, g);
      if n == 0 {
        overlaySelectedIndex := 0;
        return;
      }
      if overlaySelectedIndex >= n {
        overlaySelectedIndex := n - 1;
      }
      if activeOverlay == Some(Approving) {
        selectedApprovalIndex := IndexOfId(pendingApprovals, TitleAt(v, g, overlaySelectedIndex));
      }
    }

    method OpenOverlay(v: View, overlay: Overlay)
      modifies this
      ensures State() == Open(v, old(State()), overlay) && sent == old(sent)
    {
      activeOverlay := Some(overlay);
      armedApprovalId := None;
      overlayFilter := "";
      overlaySelectedIndex := match overlay
        case Runs => v.runsRow
        case Approving => selectedApprovalIndex.GetOr(0)
        case _ => 0;
      SyncOverlaySelection(v);
    }

    method CloseUnreviewedApprovalOverlay()
      modifies this`activeOverlay
      ensures State() == CloseUnreviewed(old(State()))
    {
      if activeOverlay == Some(Approving) && armedApprovalId.None? && pendingApprovals == [] {
        activeOverlay := None;
      }
    }

    method ApproveSelected()
      modifies this`armedApprovalId, this`sent
      ensures var o := Decide(old(State()), true);
              State() == o.gate && sent == old(sent) + (if o.decision.Some? then [o.decision.value] else [])
    {
      var approval := Selected(State());
      if approval.Some? {
        sent := sent + [Decision(approval.value, true)];
        armedApprovalId := None;
      }
    }

    method DenySelected()
      modifies this`armedApprovalId, this`sent
      ensures var o := Decide(old(State()), false);
              State() == o.gate && sent == old(sent) + (if o.decision.Some? then [o.decision.value] else [])
    {
      var approval := Selected(State());
      if approval.Some? {
        sent := sent + [Decision(approval.value, false)];
        armedApprovalId := None;
      }
    }

    method SelectNextApproval()
      modifies this`armedApprovalId, this`selectedApprovalIndex
      ensures State() == NextApproval(old(State()))
    {
      armedApprovalId := None;
      if pendingApprovals == [] {
        selectedApprovalIndex := None;
        return;
      }
      var next := 0;
      if selectedApprovalIndex.Some? {
        next := (selectedApprovalIndex.value + 1) % |pendingApprovals|;
      }
      selectedApprovalIndex := Some(next);
    }

    method SelectPreviousApproval()
      modifies this`armedApprovalId, this`selectedApprovalIndex
      ensures State() == PreviousApproval(old(State()))
    {
      armedApprovalId := None;
      if pendingApprovals == [] {
        selectedApprovalIndex := None;
        return;
      }
      var previous := 0;
      if selectedApprovalIndex.Some? {
        var index := selectedApprovalIndex.value;
        previous := if index == 0 then |pendingApprovals| - 1 else index - 1;
      }
      selectedApprovalIndex := Some(previous);
    }

    method SelectOverlayItem(v: View, forward: bool)
      modifies this`overlaySelectedIndex, this`selectedApprovalIndex
      ensures State() == MoveRow(v, old(State()), forward)
    {
      var n := ItemCount(v, State());
      if n == 0 {
        overlaySelectedIndex := 0;
        return;
      }
      overlaySelectedIndex := StepRow(overlaySelectedIndex, n, forward);
      SyncOverlaySelection(v);
    }

    method SetFilter(v: View, filter: string)
      modifies this`overlayFilter, this`overlaySelectedIndex, this`selectedApprovalIndex
      ensures State() == Refilter(v, old(State()), filter)
    {
      overlayFilter := filter;
      overlaySelectedIndex := 0;
      SyncOverlaySelection(v);
    }

    /** The first press of `a` on a high-risk approval arms it; any other press decides. */
    method PressApprove()
      modifies this`armedApprovalId, this`sent
      ensures var s := Selected(old(State()));
              var arms := s.Some? && HighRisk(lower, s.value) && old(armedApprovalId) != Some(s.value.id);
              if arms then State() == old(State()).(armed := Some(s.value.id)) && sent == old(sent)
              else var o := Decide(old(State()), true);
                   State() == o.gate && sent == old(sent) + (if o.decision.Some? then [o.decision.value] else [])
    {
      var approval := Selected(State());
      var armedForSelection := approval.Some? && armedApprovalId == Some(approval.value.id);
      if approval.Some? && HighRisk(lower, approval.value) && !armedForSelection {
        armedApprovalId := Some(approval.value.id);
      } else {
        ApproveSelected();
      }
    }

    method HandleOverlayKey(v: View, key: Key)
      modifies this
      ensures var o := OverlayKey(lower, v, old(State()), key);
              State() == o.gate && sent == old(sent) + (if o.decision.Some? then [o.decision.value] else [])
    {
      var approving := activeOverlay == Some(Approving);
      match key {
        case Esc =>
          activeOverlay := None;
          armedApprovalId := None;
          overlayFilter := "";
        case Ch(c, true) =>
          if c == 'm' { OpenOverlay(v, Memory); }
          else if c == 'e' { OpenOverlay(v, Evidence); }
          else if c == 'r' { OpenOverlay(v, Runs); }
          else if c == 'n' && approving { SelectNextApproval(); }
          else if c == 'p' && approving { SelectPreviousApproval(); }
          else if c == 'j' { SelectOverlayItem(v, true); }
          else if c == 'k' { SelectOverlayItem(v, false); }
        case Ch(c, false) =>
          if c == 'a' && approving { PressApprove(); }
          else if c == 'd' && approving { DenySelected(); }
          else { SetFilter(v, overlayFilter + [c]); }
        case BackspaceKey =>
          SetFilter(v, if overlayFilter == [] then [] else overlayFilter[..|overlayFilter| - 1]);
        case UpKey => SelectOverlayItem(v, false);
        case DownKey => SelectOverlayItem(v, true);
        case _ =>
      }
    }

    method HandlePromptKey(v: View, key: Key)
      modifies this
      ensures State() == PromptKey(v, old(State()), key) && sent == old(sent)
    {
      if key.Ch? && (key.ch == '?' || (key.ch == '/' && key.ctrl)) {
        helpVisible := true;
      } else if key.Ch? && key.ctrl {
        match key.ch {
          case 'x' => OpenOverlay(v, Approving);
          case 'n' => SelectNextApproval();
          case 'p' => SelectPreviousApproval();
          case 'f' => searchActive := true;
          case 'r' => OpenOverlay(v, Runs);
          case 'e' => OpenOverlay(v, Evidence);
          case 'm' => OpenOverlay(v, Memory);
          case _ =>
        }
      }
    }

    method HandleKey(v: View, key: Key)
      modifies this
      ensures var o := PressKey(lower, v, old(State()), key);
              State() == o.gate && sent == old(sent) + (if o.decision.Some? then [o.decision.value] else [])
    {
      if helpVisible {
        if key == Esc || key == Enter || (key.Ch? && key.ch == '?') {
          helpVisible := false;
        }
      } else if searchActive {
        if key == Esc || key == Enter {
          searchActive := false;
        }
      } else if activeOverlay.Some? {
        HandleOverlayKey(v, key);
      } else {
        HandlePromptKey(v, key);
      }
    }

    method RecordRequested(v: View, given: Option<string>, record: Approval)
      modifies this
      ensures State() == Enqueue(v, old(State()), FromEvent(given, record)) && sent == old(sent)
    {
      var approval := FromEvent(given, record);
      if IndexOfId(pendingApprovals, approval.id).None? {
        pendingApprovals := pendingApprovals + [approval];
        selectedApprovalIndex := Some(|pendingApprovals| - 1);
      }
      OpenOverlay(v, Approving);
    }

    method RecordResolved(id: string)
      modifies this
      ensures State() == Normalized(old(State()).(pending := Without(old(pendingApprovals), id))) && sent == old(sent)
    {
      pendingApprovals := Without(pendingApprovals, id);
      if pendingApprovals == [] {
        selectedApprovalIndex := None;
        return;
      }
      var index := selectedApprovalIndex.GetOr(0);
      selectedApprovalIndex := Some(if index < |pendingApprovals| then index else |pendingApprovals| - 1);
    }

    /** One key or event: the step the run theorems are about. */
    method Handle(v: View, input: Input)
      modifies this
      ensures var o := Step(lower, v, old(State()), input);
              State() == o.gate && sent == old(sent) + (if o.decision.Some? then [o.decision.value] else [])
    {
      match input
      case Press(key) => HandleKey(v, key);
      case Requested(given, record) => RecordRequested(v, given, record);
      case Resolved(id) => RecordResolved(id);
      case RunOutput => CloseUnreviewedApprovalOverlay();
      case OtherEvent =>
    }

    /** A whole session of keys and events, from a new client. */
    method HandleAll(trace: Trace)
      requires State() == INITIAL && sent == []
      modifies this
      ensures State() == After(lower, trace, |trace|) && sent == SentSoFar(lower, trace, |trace|)
      ensures Inv(State())
    {
      for n := 0 to |trace|
        invariant State() == After(lower, trace, n) && sent == SentSoFar(lower, trace, n)
      {
        Handle(trace[n].0, trace[n].1);
      }
      ReachableInv(lower, trace, |trace|);
    }
  }
}
