/**
 The approval gate of `InteractiveApp`: the queue of pending approvals, the selected one, the
 overlay that shows them, and the id armed by a first press of `a` on a high-risk approval.
 */
module Approvals {
  import opened Prelude
  import opened Strings
  import opened Whitespace
  import Numerals

  datatype Approval = Approval(
    id: string, message: string, origin: Option<string>, tool: Option<string>,
    target: Option<string>, capability: Option<string>, resource: Option<string>,
    scope: Option<string>, size: Option<string>, receiptId: Option<string>,
    expiresAt: Option<string>, reason: Option<string>, risk: Option<string>,
    command: Option<string>, preview: Option<string>, permissionMode: Option<string>)

  // ----- which approvals are high risk -----

  predicate EqIgnoreAsciiCase(a: string, b: string) {
    |a| == |b| && forall i :: 0 <= i < |a| ==> AsciiLower(a[i]) == AsciiLower(b[i])
  }

  const RISKY_WORDS: seq<string> := ["write", "delete", "secret", "credential", "network", "exec"]
  const BYPASS_MODES: seq<string> := ["bypassPermissions", "yolo", "danger-full-access"]

  /** `is_high_risk`; `lower` is the Unicode `to_lowercase`. */
  predicate HighRisk(lower: string -> string, a: Approval) {
    || (a.permissionMode.Some? && exists m :: m in BYPASS_MODES && EqIgnoreAsciiCase(a.permissionMode.value, m))
    || (a.risk.Some? && exists w :: w in RISKY_WORDS && Contains(lower(a.risk.value), w))
  }

  // ----- the id of a requested approval -----

  predicate IsAsciiAlphanumeric(c: char) {
    '0' <= c <= '9' || 'A' <= c <= 'Z' || 'a' <= c <= 'z'
  }

  function Seed(parts: seq<Option<string>>): string {
    if parts == [] then []
    else
      var rest, last := Seed(parts[..|parts| - 1]), parts[|parts| - 1];
      if last.None? then rest else rest + (if rest == [] then "" else "_") + last.value
  }

  function Sanitized(s: string): string {
    seq(|s|, i requires 0 <= i < |s| => if IsAsciiAlphanumeric(s[i]) then AsciiLower(s[i]) else '_')
  }

  /** The end of the run of characters up to the next underscore. */
  function PartEnd(s: string): (k: nat)
    ensures k <= |s|
  {
    if s == [] || s[0] == '_' then 0 else 1 + PartEnd(s[1..])
  }

  /** The first `n` non-empty underscore-separated parts, joined by underscores. */
  function JoinedParts(s: string, n: nat): string
    decreases |s|
  {
    if s == [] || n == 0 then ""
    else if s[0] == '_' then JoinedParts(s[1..], n)
    else
      var k := PartEnd(s);
      var rest := JoinedParts(s[k..], n - 1);
      s[..k] + (if rest == "" then "" else "_" + rest)
  }

  function FallbackId(tool: Option<string>, target: Option<string>, message: string): string {
    var suffix := JoinedParts(Sanitized(Seed([tool, target, Some(message)])), 8);
    if suffix == "" then "approval_runtime_request" else "approval_" + suffix
  }

  /** `PendingApproval::from_event`; `given` is the event's `approval_id`, when it is a string. */
  function FromEvent(given: Option<string>, record: Approval): (a: Approval)
    ensures a.id != ""
  {
    var id := if given.Some? && !AllBlank(given.value) then given.value
              else FallbackId(record.tool, record.target, record.message);
    record.(id := id)
  }

  // ----- the gate -----

  datatype Overlay = Memory | Evidence | Runs | Approving

  datatype Gate = Gate(
    pending: seq<Approval>, selected: Option<nat>, armed: Option<string>,
    overlay: Option<Overlay>, filter: string, row: nat, help: bool, search: bool)

  datatype Key =
    | Ch(ch: char, ctrl: bool) | Esc | Enter | BackspaceKey | UpKey | DownKey | OtherKey

  datatype Decision = Decision(approval: Approval, approved: bool)

  /**
   What the overlay shows besides the gate: which approvals match a filter (by the texts of the
   item, its position and the queue length), whether the placeholder of an empty queue does, how
   many items the other overlays have, and the row the runs overlay opens on.
   */
  datatype View = View(
    shows: (Approval, nat, nat, string) -> bool, placeholder: string -> bool,
    others: (Overlay, string) -> nat, runsRow: nat)

  datatype Input = Press(key: Key) | Requested(given: Option<string>, record: Approval)
                 | Resolved(id: string) | RunOutput | OtherEvent

  const INITIAL := Gate([], None, None, None, "", 0, false, false)

  function Selected(g: Gate): Option<Approval> {
    if g.selected.Some? && g.selected.value < |g.pending| then Some(g.pending[g.selected.value]) else None
  }

  function IndexOfId(pending: seq<Approval>, id: string): (r: Option<nat>)
    ensures r.Some? ==> r.value < |pending| && pending[r.value].id == id
    ensures r.None? ==> forall i :: 0 <= i < |pending| ==> pending[i].id != id
  {
    if pending == [] then None
    else if pending[0].id == id then Some(0)
    else
      var r := IndexOfId(pending[1..], id);
      if r.Some? then Some(r.value + 1) else None
  }

  function Without(pending: seq<Approval>, id: string): (r: seq<Approval>)
    ensures forall a :: a in r <==> a in pending && a.id != id
    ensures |r| <= |pending|
  {
    if pending == [] then []
    else (if pending[0].id == id then [] else [pending[0]]) + Without(pending[1..], id)
  }

  predicate Matches(v: View, g: Gate, i: nat)
    requires i < |g.pending|
  {
    AllBlank(g.filter) || v.shows(g.pending[i], i + 1, |g.pending|, g.filter)
  }

  /** The queue indexes of the approvals the filter leaves, from `i` on. */
  function Visible(v: View, g: Gate, i: nat): (r: seq<nat>)
    requires i <= |g.pending|
    ensures forall k :: 0 <= k < |r| ==> i <= r[k] < |g.pending|
    ensures AllBlank(g.filter) ==> |r| == |g.pending| - i && forall k :: 0 <= k < |r| ==> r[k] == i + k
    decreases |g.pending| - i
  {
    if i == |g.pending| then []
    else (if Matches(v, g, i) then [i] else []) + Visible(v, g, i + 1)
  }

  function ItemCount(v: View, g: Gate): nat {
    if g.overlay.None? then 0
    else if g.overlay.value != Approving then v.others(g.overlay.value, g.filter)
    else if g.pending == [] then (if AllBlank(g.filter) || v.placeholder(g.filter) then 1 else 0)
    else |Visible(v, g, 0)|
  }

  function TitleAt(v: View, g: Gate, row: nat): string
    requires g.overlay == Some(Approving) && row < ItemCount(v, g)
  {
    if g.pending == [] then "No pending approvals"
    else
      var i := Visible(v, g, 0)[row];
      if g.pending[i].id == "" then "approval " + Numerals.Show(i + 1) else g.pending[i].id
  }

  function Sync(v: View, g: Gate): Gate {
    var n := ItemCount(v, g);
    if n == 0 then g.(row := 0)
    else
      var row := if g.row < n then g.row else n - 1;
      if g.overlay == Some(Approving)
      then g.(row := row, selected := IndexOfId(g.pending, TitleAt(v, g, row)))
      else g.(row := row)
  }

  function Open(v: View, g: Gate, o: Overlay): Gate {
    var row := match o case Runs => v.runsRow case Approving => g.selected.GetOr(0) case _ => 0;
    Sync(v, g.(overlay := Some(o), armed := None, filter := "", row := row))
  }

  function Normalized(g: Gate): Gate {
    if g.pending == [] then g.(selected := None)
    else
      var i := g.selected.GetOr(0);
      g.(selected := Some(if i < |g.pending| then i else |g.pending| - 1))
  }

  function NextApproval(g: Gate): Gate {
    if g.pending == [] then g.(armed := None, selected := None)
    else if g.selected.None? then g.(armed := None, selected := Some(0))
    else g.(armed := None, selected := Some((g.selected.value + 1) % |g.pending|))
  }

  function PreviousApproval(g: Gate): Gate {
    if g.pending == [] then g.(armed := None, selected := None)
    else if g.selected.None? then g.(armed := None, selected := Some(0))
    else g.(armed := None, selected := Some(if g.selected.value == 0 then |g.pending| - 1 else g.selected.value - 1))
  }

  function StepRow(row: nat, n: nat, forward: bool): nat
    requires n > 0
  {
    if forward then (row + 1) % n else if row == 0 then n - 1 else row - 1
  }

  function MoveRow(v: View, g: Gate, forward: bool): Gate {
    var n := ItemCount(v, g);
    if n == 0 then g.(row := 0) else Sync(v, g.(row := StepRow(g.row, n, forward)))
  }

  function Refilter(v: View, g: Gate, filter: string): Gate {
    Sync(v, g.(filter := filter, row := 0))
  }

  function CloseUnreviewed(g: Gate): Gate {
    if g.overlay == Some(Approving) && g.armed.None? && g.pending == [] then g.(overlay := None) else g
  }

  function Enqueue(v: View, g: Gate, a: Approval): Gate {
    var queued := if IndexOfId(g.pending, a.id).Some? then g
                  else g.(pending := g.pending + [a], selected := Some(|g.pending|));
    Open(v, queued, Approving)
  }

  /** What a key decides: at most one decision, and the gate after it. */
  datatype Outcome = Outcome(gate: Gate, decision: Option<Decision>)

  function Decide(g: Gate, approved: bool): Outcome {
    var a := Selected(g);
    if a.None? then Outcome(g, None)
    else Outcome(g.(armed := None), Some(Decision(a.value, approved)))
  }

  function OverlayKey(lower: string -> string, v: View, g: Gate, key: Key): Outcome {
    match key
    case Esc => Outcome(g.(overlay := None, armed := None, filter := ""), None)
    case Ch(c, true) =>
      if c == 'm' then Outcome(Open(v, g, Memory), None)
      else if c == 'e' then Outcome(Open(v, g, Evidence), None)
      else if c == 'r' then Outcome(Open(v, g, Runs), None)
      else if c == 'n' && g.overlay == Some(Approving) then Outcome(NextApproval(g), None)
      else if c == 'p' && g.overlay == Some(Approving) then Outcome(PreviousApproval(g), None)
      else if c == 'j' then Outcome(MoveRow(v, g, true), None)
      else if c == 'k' then Outcome(MoveRow(v, g, false), None)
      else Outcome(g, None)
    case Ch(c, false) =>
      if c == 'a' && g.overlay == Some(Approving) then
        var s := Selected(g);
        if s.Some? && HighRisk(lower, s.value) && g.armed != Some(s.value.id)
        then Outcome(g.(armed := Some(s.value.id)), None)
        else Decide(g, true)
      else if c == 'd' && g.overlay == Some(Approving) then Decide(g, false)
      else Outcome(Refilter(v, g, g.filter + [c]), None)
    case BackspaceKey => Outcome(Refilter(v, g, if g.filter == [] then [] else g.filter[..|g.filter| - 1]), None)
    case UpKey => Outcome(MoveRow(v, g, false), None)
    case DownKey => Outcome(MoveRow(v, g, true), None)
    case _ => Outcome(g, None)
  }

  /** The prompt's keys that reach the gate. */
  function PromptKey(v: View, g: Gate, key: Key): Gate {
    match key
    case Ch('?', _) => g.(help := true)
    case Ch(c, true) =>
      if c == '/' then g.(help := true)
      else if c == 'x' then Open(v, g, Approving)
      else if c == 'n' then NextApproval(g)
      else if c == 'p' then PreviousApproval(g)
      else if c == 'f' then g.(search := true)
      else if c == 'r' then Open(v, g, Runs)
      else if c == 'e' then Open(v, g, Evidence)
      else if c == 'm' then Open(v, g, Memory)
      else g
    case _ => g
  }

  function PressKey(lower: string -> string, v: View, g: Gate, key: Key): Outcome {
    if g.help then
      Outcome(if key == Esc || key == Enter || (key.Ch? && key.ch == '?') then g.(help := false) else g, None)
    else if g.search then Outcome(if key == Esc || key == Enter then g.(search := false) else g, None)
    else if g.overlay.Some? then OverlayKey(lower, v, g, key)
    else Outcome(PromptKey(v, g, key), None)
  }

  function Step(lower: string -> string, v: View, g: Gate, input: Input): Outcome {
    match input
    case Press(key) => PressKey(lower, v, g, key)
    case Requested(given, record) => Outcome(Enqueue(v, g, FromEvent(given, record)), None)
    case Resolved(id) => Outcome(Normalized(g.(pending := Without(g.pending, id))), None)
    case RunOutput => Outcome(CloseUnreviewed(g), None)
    case OtherEvent => Outcome(g, None)
  }
}
