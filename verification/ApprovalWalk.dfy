/** Which approval the keys and the events of the gate select, and what else they do to what is shown. */
module ApprovalWalk {
  import opened Prelude
  import opened Whitespace
  import opened Strings
  import opened Approvals
  import opened ApprovalSafety

  // ----- Ctrl-N and Ctrl-P -----

  /** The keys reach the queue: at the prompt, and in the approvals overlay. */
  predicate ReachesQueue(g: Gate) {
    !g.help && !g.search && (g.overlay.None? || g.overlay == Some(Approving)) && g.pending != []
  }

  function Press(lower: string -> string, v: View, g: Gate, c: char): Gate {
    Step(lower, v, g, Input.Press(Ch(c, true))).gate
  }

  /** From the selected approval Ctrl-N goes to the one after it, and from the last one to the first. */
  lemma NextGoesOn(lower: string -> string, v: View, g: Gate)
    requires Inv(g) && ReachesQueue(g)
    ensures var k := g.selected.value;
            Press(lower, v, g, 'n') == g.(armed := None, selected := Some(if k + 1 < |g.pending| then k + 1 else 0))
  {
    StepRowIs(g.selected.value, |g.pending|);
  }

  /** Ctrl-P goes to the one before it, and from the first one to the last. */
  lemma PreviousGoesBack(lower: string -> string, v: View, g: Gate)
    requires Inv(g) && ReachesQueue(g)
    ensures var k := g.selected.value;
            Press(lower, v, g, 'p') == g.(armed := None, selected := Some(if k > 0 then k - 1 else |g.pending| - 1))
  {
  }

  /** Each undoes the other, but for the arm, which both clear. */
  lemma PreviousInvertsNext(lower: string -> string, v: View, g: Gate)
    requires Inv(g) && ReachesQueue(g)
    ensures Press(lower, v, Press(lower, v, g, 'n'), 'p') == g.(armed := None)
    ensures Press(lower, v, Press(lower, v, g, 'p'), 'n') == g.(armed := None)
  {
    NextGoesOn(lower, v, g);
    PreviousGoesBack(lower, v, g);
    PreviousGoesBack(lower, v, Press(lower, v, g, 'n'));
    NextGoesOn(lower, v, Press(lower, v, g, 'p'));
  }

  function PressedNext(lower: string -> string, v: View, g: Gate, times: nat): Gate
    decreases times
  {
    if times == 0 then g else PressedNext(lower, v, Press(lower, v, g, 'n'), times - 1)
  }

  /** Where `times` presses lead from `k`, for up to one round. */
  function PlaceAfter(k: nat, times: nat, n: nat): nat
    requires k < n && times <= n
  {
    if k + times < n then k + times else k + times - n
  }

  lemma {:induction false} NextMany(lower: string -> string, v: View, g: Gate, times: nat)
    requires Inv(g) && ReachesQueue(g) && times <= |g.pending|
    ensures PressedNext(lower, v, g, times)
            == g.(armed := if times == 0 then g.armed else None,
                  selected := Some(PlaceAfter(g.selected.value, times, |g.pending|)))
    decreases times
  {
    if times > 0 {
      NextGoesOn(lower, v, g);
      NextMany(lower, v, Press(lower, v, g, 'n'), times - 1);
    }
  }

  /**
   As many presses of Ctrl-N as approvals are pending lead back to the selected one, and on the way each of
   them is selected after exactly one number of presses.
   */
  lemma NextVisitsEachOnce(lower: string -> string, v: View, g: Gate, q: nat, times: nat)
    requires Inv(g) && ReachesQueue(g) && q < |g.pending| && times < |g.pending|
    ensures PressedNext(lower, v, g, |g.pending|).selected == g.selected
    ensures var k, n := g.selected.value, |g.pending|;
            PressedNext(lower, v, g, times).selected == Some(q) <==> times == if q >= k then q - k else n - k + q
  {
    NextMany(lower, v, g, |g.pending|);
    NextMany(lower, v, g, times);
  }

  // ----- the arrows and the filter -----

  lemma StepRowIs(row: nat, n: nat)
    requires row < n
    ensures StepRow(row, n, true) == if row + 1 < n then row + 1 else 0
    ensures StepRow(row, n, false) == if row > 0 then row - 1 else n - 1
  {
    if row + 1 == n { assert (row + 1) % n == 0; } else { assert (row + 1) % n == row + 1; }
  }

  /** The approvals a filter leaves, in their order. */
  lemma {:induction false} VisibleAreMatches(v: View, g: Gate, i: nat, k: nat)
    requires i <= |g.pending|
    ensures k in Visible(v, g, i) <==> i <= k < |g.pending| && Matches(v, g, k)
    ensures forall a, b :: 0 <= a < b < |Visible(v, g, i)| ==> Visible(v, g, i)[a] < Visible(v, g, i)[b]
    decreases |g.pending| - i
  {
    if i < |g.pending| { VisibleAreMatches(v, g, i + 1, k); }
  }

  /** With any filter the arrows walk over the approvals it leaves, and select the highlighted one. */
  lemma DownInFilter(lower: string -> string, v: View, g: Gate)
    requires QueueInv(g) && !g.help && !g.search && g.overlay == Some(Approving) && g.pending != []
    requires g.row < |Visible(v, g, 0)|
    ensures var r := if g.row + 1 < |Visible(v, g, 0)| then g.row + 1 else 0;
            Step(lower, v, g, Input.Press(DownKey)).gate == g.(row := r, selected := Some(Visible(v, g, 0)[r]))
  {
    StepRowIs(g.row, |Visible(v, g, 0)|);
    ArrowMovesRow(lower, v, g, true);
  }

  lemma UpInFilter(lower: string -> string, v: View, g: Gate)
    requires QueueInv(g) && !g.help && !g.search && g.overlay == Some(Approving) && g.pending != []
    requires g.row < |Visible(v, g, 0)|
    ensures var r := if g.row > 0 then g.row - 1 else |Visible(v, g, 0)| - 1;
            Step(lower, v, g, Input.Press(UpKey)).gate == g.(row := r, selected := Some(Visible(v, g, 0)[r]))
  {
    StepRowIs(g.row, |Visible(v, g, 0)|);
    ArrowMovesRow(lower, v, g, false);
  }

  lemma ArrowMovesRow(lower: string -> string, v: View, g: Gate, forward: bool)
    requires QueueInv(g) && !g.help && !g.search && g.overlay == Some(Approving) && g.pending != []
    requires g.row < |Visible(v, g, 0)|
    ensures var r := StepRow(g.row, |Visible(v, g, 0)|, forward);
            && r < |Visible(v, g, 0)|
            && Step(lower, v, g, Input.Press(if forward then DownKey else UpKey)).gate
               == g.(row := r, selected := Some(Visible(v, g, 0)[r]))
  {
    StepRowIs(g.row, |Visible(v, g, 0)|);
    HighlightedIsSelected(v, g, StepRow(g.row, |Visible(v, g, 0)|, forward));
    assert ItemCount(v, g) == |Visible(v, g, 0)|;
  }

  lemma HighlightedIsSelected(v: View, g: Gate, r: nat)
    requires QueueInv(g) && g.overlay == Some(Approving) && g.pending != [] && r < |Visible(v, g, 0)|
    ensures Sync(v, g.(row := r)) == g.(row := r, selected := Some(Visible(v, g, 0)[r]))
  {
    SameVisible(v, g, r, 0);
    var i := Visible(v, g, 0)[r];
    assert g.pending[i] in g.pending;
    IndexOfIdAt(g.pending, i);
  }

  lemma {:induction false} SameVisible(v: View, g: Gate, r: nat, i: nat)
    requires i <= |g.pending|
    ensures Visible(v, g.(row := r), i) == Visible(v, g, i)
    decreases |g.pending| - i
  {
    if i < |g.pending| { SameVisible(v, g, r, i + 1); }
  }

  /** The gate with another filter, its first row highlighted. */
  function Filtering(g: Gate, filter: string): Gate {
    g.(filter := filter, row := 0)
  }

  /**
   Typing into the filter of the approvals overlay selects the first approval that the filter leaves; when it
   leaves none, the selection stays where it was.
   */
  lemma FilterSelectsFirst(v: View, g: Gate, filter: string, k: nat)
    requires QueueInv(g) && g.overlay == Some(Approving) && k < |g.pending|
    requires Matches(v, Filtering(g, filter), k) && forall j :: 0 <= j < k ==> !Matches(v, Filtering(g, filter), j)
    ensures Refilter(v, g, filter) == g.(filter := filter, row := 0, selected := Some(k))
  {
    var h := Filtering(g, filter);
    FirstVisible(v, h, 0, k);
    assert h.pending[k] in h.pending;
    IndexOfIdAt(h.pending, k);
  }

  lemma {:induction false} FirstVisible(v: View, g: Gate, i: nat, k: nat)
    requires i <= k < |g.pending| && Matches(v, g, k)
    requires forall j :: i <= j < k ==> !Matches(v, g, j)
    ensures Visible(v, g, i) != [] && Visible(v, g, i)[0] == k
    decreases k - i
  {
    if i < k { FirstVisible(v, g, i + 1, k); }
  }

  lemma FilterSelectsNone(v: View, g: Gate, filter: string)
    requires g.overlay == Some(Approving) && g.pending != []
    requires forall j :: 0 <= j < |g.pending| ==> !Matches(v, Filtering(g, filter), j)
    ensures Refilter(v, g, filter) == g.(filter := filter, row := 0)
  {
    NoneVisible(v, Filtering(g, filter), 0);
  }

  lemma {:induction false} NoneVisible(v: View, g: Gate, i: nat)
    requires i <= |g.pending| && forall j :: i <= j < |g.pending| ==> !Matches(v, g, j)
    ensures Visible(v, g, i) == []
    decreases |g.pending| - i
  {
    if i < |g.pending| { NoneVisible(v, g, i + 1); }
  }

  // ----- events -----

  /** A request with a new id is queued last and selected; one with a queued id changes no approval. */
  lemma RequestSelects(lower: string -> string, v: View, g: Gate, given: Option<string>, record: Approval)
    requires Inv(g)
    ensures var a, t := FromEvent(given, record), Step(lower, v, g, Requested(given, record)).gate;
            if exists b :: b in g.pending && b.id == a.id
            then t.pending == g.pending && t.selected == g.selected
            else t.pending == g.pending + [a] && t.selected == Some(|g.pending|)
  {
    var a := FromEvent(given, record);
    if IndexOfId(g.pending, a.id).None? {
      EnqueueFresh(v, g, a);
      assert forall b :: b in g.pending ==> b.id != a.id;
    } else {
      OpenKeeps(v, g, Approving);
      assert g.pending[IndexOfId(g.pending, a.id).value] in g.pending;
    }
  }

  /** Taking out the approval at `i` keeps the others in their order. */
  lemma {:induction false} WithoutAt(pending: seq<Approval>, i: nat)
    requires Distinct(pending) && i < |pending|
    ensures Without(pending, pending[i].id) == pending[..i] + pending[i + 1..]
  {
    if i == 0 {
      WithoutNone(pending[1..], pending[0].id);
    } else {
      WithoutAt(pending[1..], i - 1);
      CutTail(pending, i);
    }
  }

  lemma CutTail(pending: seq<Approval>, i: nat)
    requires 0 < i < |pending|
    ensures [pending[0]] + (pending[1..][..i - 1] + pending[1..][i..]) == pending[..i] + pending[i + 1..]
  {
  }

  lemma {:induction false} WithoutNone(pending: seq<Approval>, id: string)
    requires forall i :: 0 <= i < |pending| ==> pending[i].id != id
    ensures Without(pending, id) == pending
  {
    if pending != [] { WithoutNone(pending[1..], id); }
  }

  /**
   A resolved approval leaves the queue, the others keep their order, and the selected index stays, or becomes
   that of the last approval when the queue has become shorter than that.
   */
  lemma ResolvedLeaves(lower: string -> string, v: View, g: Gate, i: nat)
    requires Inv(g) && i < |g.pending|
    ensures var t, k := Step(lower, v, g, Resolved(g.pending[i].id)).gate, g.selected.value;
            && t.pending == g.pending[..i] + g.pending[i + 1..]
            && t.selected == if t.pending == [] then None else Some(if k < |t.pending| then k else |t.pending| - 1)
  {
    WithoutAt(g.pending, i);
  }

  // ----- the id of a request -----

  predicate IsIdCharacter(c: char) {
    '0' <= c <= '9' || 'a' <= c <= 'z' || c == '_'
  }

  predicate IsIdText(s: string) {
    forall i :: 0 <= i < |s| ==> IsIdCharacter(s[i])
  }

  lemma {:induction false} JoinedPartsAreIdText(s: string, n: nat)
    requires IsIdText(s)
    ensures IsIdText(JoinedParts(s, n))
    decreases |s|
  {
    if s != [] && n > 0 {
      if s[0] == '_' {
        JoinedPartsAreIdText(s[1..], n);
      } else {
        JoinedPartsAreIdText(s[PartEnd(s)..], n - 1);
      }
    }
  }

  lemma SanitizedIsIdText(s: string)
    ensures IsIdText(Sanitized(s))
  {
  }

  /**
   A request keeps all its fields but the id. The id is the given one, as it is, unless that is missing or blank;
   then it is made up of lower-case letters, digits and underscores behind "approval_".
   */
  lemma RequestKeepsFields(given: Option<string>, record: Approval)
    ensures var a := FromEvent(given, record);
            && a == record.(id := a.id)
            && (given.Some? && !AllBlank(given.value) ==> a.id == given.value)
            && (given.None? || AllBlank(given.value) ==> IsIdText(a.id) && "approval_" <= a.id && |a.id| > 9)
  {
    var seed := Sanitized(Seed([record.tool, record.target, Some(record.message)]));
    SanitizedIsIdText(Seed([record.tool, record.target, Some(record.message)]));
    JoinedPartsAreIdText(seed, 8);
    var id := FallbackId(record.tool, record.target, record.message);
    assert IsIdText(id) && "approval_" <= id && |id| > 9 by {
      var suffix := JoinedParts(seed, 8);
      assert IsIdText("approval_") && IsIdText("approval_runtime_request");
      assert forall i :: 0 <= i < |suffix| ==> ("approval_" + suffix)[9 + i] == suffix[i];
    }
  }

  // ----- what is shown -----

  /** Which overlay each key opens, from the prompt and from another overlay, always without a filter. */
  lemma KeysOpenOverlays(lower: string -> string, v: View, g: Gate, c: char)
    requires !g.help && !g.search && (c in ['m', 'e', 'r'] || (c == 'x' && g.overlay.None?))
    ensures var t := Press(lower, v, g, c);
            && t.overlay == Some(match c case 'm' => Memory case 'e' => Evidence case 'r' => Runs case _ => Approving)
            && t.filter == ""
  {
  }

  /** The overlay, the help and the search close where they should; plain keys go into the filter. */
  lemma KeysCloseAndFilter(lower: string -> string, v: View, g: Gate, c: char)
    requires g.overlay.Some? && !g.help && !g.search
    ensures Step(lower, v, g, Input.Press(Esc)) == Outcome(g.(overlay := None, armed := None, filter := ""), None)
    ensures !(g.overlay == Some(Approving) && c in ['a', 'd']) ==>
              Step(lower, v, g, Input.Press(Ch(c, false))).gate.filter == g.filter + [c]
    ensures g.filter != [] ==>
              Step(lower, v, g, Input.Press(BackspaceKey)).gate.filter == g.filter[..|g.filter| - 1]
  {
  }

  /** In an overlay Ctrl-J and Ctrl-K do what the arrows do. */
  lemma LettersMoveRow(lower: string -> string, v: View, g: Gate)
    requires g.overlay.Some? && !g.help && !g.search
    ensures Step(lower, v, g, Input.Press(Ch('j', true))) == Step(lower, v, g, Input.Press(DownKey))
    ensures Step(lower, v, g, Input.Press(Ch('k', true))) == Step(lower, v, g, Input.Press(UpKey))
  {
  }

  /** Help and search come up at the prompt, keep all keys to themselves, and close; nothing else changes. */
  lemma HelpAndSearch(lower: string -> string, v: View, g: Gate, key: Key)
    ensures g.help ==>
              Step(lower, v, g, Input.Press(key))
              == Outcome(if key in [Esc, Enter, Ch('?', false), Ch('?', true)] then g.(help := false) else g, None)
    ensures !g.help && g.search ==>
              Step(lower, v, g, Input.Press(key))
              == Outcome(if key in [Esc, Enter] then g.(search := false) else g, None)
    ensures !g.help && !g.search && g.overlay.None? ==>
              && Press(lower, v, g, 'f') == g.(search := true)
              && Press(lower, v, g, '?') == Press(lower, v, g, '/') == g.(help := true)
              && Step(lower, v, g, Input.Press(Ch('?', false))).gate == g.(help := true)
  {
  }

  /** Run output closes the approvals overlay only when nothing is pending and nothing armed. */
  lemma RunOutputCloses(lower: string -> string, v: View, g: Gate)
    requires Inv(g)
    ensures Step(lower, v, g, RunOutput).gate
            == if g.overlay == Some(Approving) && g.pending == [] && g.armed.None? then g.(overlay := None) else g
  {
  }

  // ----- what the operator must press twice -----

  /** The words of a risk, and the permission modes, that ask for a second press. */
  predicate AsksTwice(lower: string -> string, a: Approval) {
    || (a.risk.Some? && exists word ::
          word in ["write", "delete", "secret", "credential", "network", "exec"]
          && Contains(lower(a.risk.value), word))
    || (a.permissionMode.Some? && exists mode ::
          mode in ["bypassPermissions", "yolo", "danger-full-access"]
          && EqIgnoreAsciiCase(a.permissionMode.value, mode))
  }

  /**
   In the overlay the first press of `a` only arms such an approval; on any other, and on the armed one, it
   approves. `d` denies at once.
   */
  lemma PressesDecide(lower: string -> string, v: View, g: Gate, a: Approval)
    requires !g.help && !g.search && g.overlay == Some(Approving) && Selected(g) == Some(a)
    ensures Step(lower, v, g, Input.Press(Ch('a', false)))
            == if AsksTwice(lower, a) && g.armed != Some(a.id) then Outcome(g.(armed := Some(a.id)), None)
               else Outcome(g.(armed := None), Some(Decision(a, true)))
    ensures Step(lower, v, g, Input.Press(Ch('d', false))) == Outcome(g.(armed := None), Some(Decision(a, false)))
  {
    assert AsksTwice(lower, a) <==> HighRisk(lower, a);
  }

  // ----- the words of a made-up id -----

  /** It is made of the tool, the target and the message, those there are, with underscores between them. */
  lemma SeedIs(tool: string, target: string, message: string)
    requires tool != "" && target != ""
    ensures Seed([Some(tool), Some(target), Some(message)]) == tool + "_" + target + "_" + message
    ensures Seed([Some(tool), None, Some(message)]) == tool + "_" + message
    ensures Seed([None, Some(target), Some(message)]) == target + "_" + message
    ensures Seed([None, None, Some(message)]) == message
  {
    SeedOfThree(Some(tool), Some(target), Some(message));
    SeedOfThree(Some(tool), None, Some(message));
    SeedOfThree(None, Some(target), Some(message));
    SeedOfThree(None, None, Some(message));
  }

  /** Each part, if it is there, behind what there is, with an underscore unless that is empty. */
  function Behind(seed: string, part: Option<string>): string {
    if part.None? then seed else if seed == "" then part.value else seed + "_" + part.value
  }

  lemma SeedOfThree(a: Option<string>, b: Option<string>, c: Option<string>)
    ensures Seed([a, b, c]) == Behind(Behind(a.GetOr(""), b), c)
  {
    assert [a] + [b] == [a, b] && [a, b] + [c] == [a, b, c];
    SeedOfOne(a);
    SeedSnoc([a], b);
    SeedSnoc([a, b], c);
  }

  lemma SeedOfOne(part: Option<string>)
    ensures Seed([part]) == part.GetOr("")
  {
    assert [part][..0] == [];
  }

  lemma SeedSnoc(parts: seq<Option<string>>, part: Option<string>)
    ensures Seed(parts + [part]) == Behind(Seed(parts), part)
  {
    InitOfSnoc(parts, part);
  }

  /** Its words in turn, at most as many as asked for, with one underscore between them. */
  lemma JoinedWord(word: string, rest: string, n: nat)
    requires word != "" && (forall i :: 0 <= i < |word| ==> word[i] != '_') && (rest == "" || rest[0] == '_') && n > 0
    ensures JoinedParts(word + rest, n)
            == word + (if JoinedParts(rest, n - 1) == "" then "" else "_" + JoinedParts(rest, n - 1))
    ensures JoinedParts("_" + rest, n) == JoinedParts(rest, n)
    ensures JoinedParts(rest, 0) == ""
  {
    PartEndsAt(word, rest);
    assert (word + rest)[|word|..] == rest && ("_" + rest)[1..] == rest;
  }

  lemma {:induction false} PartEndsAt(word: string, rest: string)
    requires (forall i :: 0 <= i < |word| ==> word[i] != '_') && (rest == "" || rest[0] == '_')
    ensures PartEnd(word + rest) == |word|
  {
    if word == "" {
      EmptyAppend(rest);
    } else {
      TailOfAppend(word, rest);
      PartEndsAt(word[1..], rest);
    }
  }

  /** A word as it stands in an id. */
  predicate IsIdWord(w: string) {
    w != "" && forall i :: 0 <= i < |w| ==> '0' <= w[i] <= '9' || 'a' <= w[i] <= 'z'
  }

  predicate AllIdWords(words: seq<string>) {
    forall i :: 0 <= i < |words| ==> IsIdWord(words[i])
  }

  function Between(words: seq<string>, c: char): string {
    if words == [] then "" else if |words| == 1 then words[0] else words[0] + [c] + Between(words[1..], c)
  }

  lemma {:induction false} FirstWords(words: seq<string>, n: nat)
    requires AllIdWords(words)
    ensures JoinedParts(Between(words, '_'), n) == Between(words[..Min(n, |words|)], '_')
  {
    if words != [] && n > 0 {
      FirstWords(words[1..], n - 1);
      FirstWord(words[0], words[1..], n);
      assert words == [words[0]] + words[1..];
    }
  }

  lemma FirstWord(word: string, others: seq<string>, n: nat)
    requires IsIdWord(word) && AllIdWords(others) && n > 0
    requires JoinedParts(Between(others, '_'), n - 1) == Between(others[..Min(n - 1, |others|)], '_')
    ensures JoinedParts(Between([word] + others, '_'), n) == Between(([word] + others)[..Min(n, |others| + 1)], '_')
  {
    var kept := others[..Min(n - 1, |others|)];
    assert ([word] + others)[..Min(n, |others| + 1)] == [word] + kept;
    WordMore(word, others);
    WordMore(word, kept);
    WordsShow(kept);
    var rest := if others == [] then "" else "_" + Between(others, '_');
    JoinedWord(word, rest, n);
    if others != [] { NextWord(Between(others, '_'), n - 1); }
  }

  lemma WordMore(word: string, others: seq<string>)
    ensures Between([word] + others, '_') == word + (if others == [] then "" else "_" + Between(others, '_'))
  {
    EmptyAppend(word);
    assert ([word] + others)[1..] == others;
    AppendAssociates(word, "_", Between(others, '_'));
  }

  lemma NextWord(rest: string, n: nat)
    ensures JoinedParts("_" + rest, n) == JoinedParts(rest, n)
  {
    assert ("_" + rest)[1..] == rest;
  }

  lemma WordsShow(words: seq<string>)
    requires AllIdWords(words)
    ensures Between(words, '_') == "" <==> words == []
  {
  }

  lemma SanitizedConcat(a: string, b: string)
    ensures Sanitized(a + b) == Sanitized(a) + Sanitized(b)
  {
  }

  lemma SanitizedWord(w: string)
    requires IsIdWord(w)
    ensures Sanitized(w) == w
  {
  }

  lemma {:induction false} SanitizedWords(words: seq<string>)
    requires AllIdWords(words)
    ensures Sanitized(Between(words, ' ')) == Between(words, '_')
  {
    if words != [] { SanitizedWord(words[0]); }
    if |words| > 1 {
      SanitizedWords(words[1..]);
      SanitizedConcat(words[0] + " ", Between(words[1..], ' '));
      SanitizedConcat(words[0], " ");
      assert Sanitized(" ") == "_";
    }
  }

  lemma SanitizedSeed(tool: string, target: string, message: string)
    requires IsIdWord(tool) && IsIdWord(target)
    ensures Sanitized(tool + "_" + target + "_" + message) == tool + "_" + target + "_" + Sanitized(message)
  {
    SanitizedConcat(tool + "_" + target + "_", message);
    SanitizedConcat(tool + "_" + target, "_");
    SanitizedConcat(tool + "_", target);
    SanitizedConcat(tool, "_");
    SanitizedWord(tool);
    SanitizedWord(target);
    assert Sanitized("_") == "_";
  }

  lemma TwoWordsMore(tool: string, target: string, words: seq<string>)
    requires words != []
    ensures Between([tool, target] + words, '_') == tool + "_" + target + "_" + Between(words, '_')
  {
    assert ([tool, target] + words)[1..] == [target] + words && ([target] + words)[1..] == words;
    AppendAssociates(tool + "_", target + "_", Between(words, '_'));
  }

  /** An id made up of words is the first eight of them: the tool, the target, and those of the message. */
  lemma MadeUpId(record: Approval, tool: string, target: string, words: seq<string>)
    requires record.tool == Some(tool) && record.target == Some(target) && record.message == Between(words, ' ')
    requires IsIdWord(tool) && IsIdWord(target) && AllIdWords(words) && words != []
    ensures var all := [tool, target] + words;
            FromEvent(None, record).id == "approval_" + Between(all[..Min(8, |all|)], '_')
  {
    var all := [tool, target] + words;
    SeedIs(tool, target, record.message);
    SanitizedSeed(tool, target, record.message);
    SanitizedWords(words);
    TwoWordsMore(tool, target, words);
    FirstWords(all, 8);
    WordsShow(all[..Min(8, |all|)]);
  }
}
