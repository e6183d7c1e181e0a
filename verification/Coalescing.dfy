/** What rewriting entries in place keeps, and what it amounts to over a whole stream of events. */
module Coalescing {
  import opened Prelude
  import opened Whitespace
  import opened Strings
  import opened Transcript
  import opened Grouping
  import opened GroupedRuns

  // ----- append-only up to bodies -----

  ghost predicate Tracks(s: Log) {
    && (s.assistant.Some? ==> s.assistant.value.1 < |s.entries| && s.entries[s.assistant.value.1].kind == Assistant)
    && (s.progress.Some? ==> s.progress.value.1 < |s.entries| && s.entries[s.progress.value.1].kind == Progress)
  }

  /** Old entries keep their place, kind and title. */
  ghost predicate Extends(s: Log, t: Log) {
    && |s.entries| <= |t.entries|
    && forall i :: 0 <= i < |s.entries| ==>
         t.entries[i].kind == s.entries[i].kind && t.entries[i].title == s.entries[i].title
  }

  /**
   One update keeps the transcript append-only up to bodies, the tracked indices stay valid, and a
   body changes only in the last entry or in the tracked assistant entry.
   */
  lemma StepExtends(s: Log, u: Update)
    requires Tracks(s)
    ensures Tracks(Step(s, u)) && Extends(s, Step(s, u))
    ensures forall i :: 0 <= i < |s.entries| && Step(s, u).entries[i].body != s.entries[i].body ==>
              i == |s.entries| - 1 || (s.assistant.Some? && i == s.assistant.value.1)
  {
    match u
    case Push(entry) =>
    case AssistantText(run, text) => if Trim(text) != "" { AssistantExtends(s, run.GetOr(""), Trim(text)); }
    case ProgressUpdate(run, message, shown) => if shown { ProgressExtends(s, run.GetOr(""), message); }
    case ToolUsed(tool, summary) => ToolExtends(s, tool, summary);
    case RunOutput(output) =>
  }

  /** All entries but one are as they were, and that one changed at most its body. */
  ghost predicate OnlyBody(s: Log, t: Log, i: nat) {
    && Extends(s, t)
    && forall j :: 0 <= j < |s.entries| && j != i ==> t.entries[j] == s.entries[j]
  }

  lemma AssistantExtends(s: Log, run: string, text: string)
    requires Tracks(s)
    ensures Tracks(SupersedeAssistant(s, run, text))
    ensures OnlyBody(s, SupersedeAssistant(s, run, text),
                     if s.assistant.Some? then s.assistant.value.1 else |s.entries|)
  {
  }

  lemma ProgressExtends(s: Log, run: string, message: string)
    requires Tracks(s)
    ensures Tracks(SupersedeProgress(s, run, message))
    ensures |s.entries| > 0 ==> OnlyBody(s, SupersedeProgress(s, run, message), |s.entries| - 1)
  {
  }

  lemma ToolExtends(s: Log, tool: string, summary: string)
    requires Tracks(s)
    ensures Tracks(UseTool(s, tool, summary))
    ensures |s.entries| > 0 ==> OnlyBody(s, UseTool(s, tool, summary), |s.entries| - 1)
  {
    if Groups(s.entries, tool) {
      RewriteExtends(s, |s.entries| - 1, GroupedBody(tool, s.entries[|s.entries| - 1].body, summary));
    }
  }

  lemma RewriteExtends(s: Log, i: nat, body: string)
    requires Tracks(s) && i < |s.entries|
    ensures var t := s.(entries := WithBody(s.entries, i, body));
            Tracks(t) && OnlyBody(s, t, i)
  {
  }

  /** In every reachable state both tracked indices are valid, with the right kind. */
  lemma {:induction false} ReachableTracks(updates: seq<Update>)
    ensures Tracks(After(updates))
  {
    if updates != [] {
      ReachableTracks(updates[..|updates| - 1]);
      StepExtends(After(updates[..|updates| - 1]), updates[|updates| - 1]);
    }
  }

  /** Over any further stream, entries keep their place, kind and title. */
  lemma {:induction false} RunExtends(updates: seq<Update>, n: nat)
    requires n <= |updates|
    ensures Extends(After(updates[..n]), After(updates))
    decreases |updates|
  {
    if n == |updates| {
      assert updates[..n] == updates;
    } else {
      var before := updates[..|updates| - 1];
      RunExtends(before, n);
      assert before[..n] == updates[..n];
      ReachableTracks(before);
      StepExtends(After(before), updates[|updates| - 1]);
    }
  }

  // ----- assistant text -----

  /** A non-blank `assistant_text` event, by its run key. */
  datatype Snapshot = Snapshot(run: string, text: string)

  function SnapshotOf(u: Update): Option<Snapshot> {
    if u.AssistantText? && Trim(u.text) != "" then Some(Snapshot(u.run.GetOr(""), Trim(u.text))) else None
  }

  function Snapshots(updates: seq<Update>): seq<Snapshot> {
    if updates == [] then []
    else
      var s := SnapshotOf(updates[|updates| - 1]);
      Snapshots(updates[..|updates| - 1]) + (if s.Some? then [s.value] else [])
  }

  /** The snapshots among the first `n` after which the run changes, or the stream ends. */
  function EndsUpTo(es: seq<Snapshot>, n: nat): seq<Snapshot>
    requires n <= |es|
  {
    if n == 0 then []
    else EndsUpTo(es, n - 1) + (if n == |es| || es[n].run != es[n - 1].run then [es[n - 1]] else [])
  }

  /** The last snapshot of every maximal block of neighbours with the same run. */
  function BlockEnds(es: seq<Snapshot>): seq<Snapshot> {
    EndsUpTo(es, |es|)
  }

  lemma {:induction false} EndsOfPrefix(es: seq<Snapshot>, longer: seq<Snapshot>, n: nat)
    requires n < |es| < |longer| && forall i :: 0 <= i < |es| ==> longer[i] == es[i]
    ensures EndsUpTo(longer, n) == EndsUpTo(es, n)
  {
    if n > 0 { EndsOfPrefix(es, longer, n - 1); }
  }

  lemma BlockEndsSnoc(es: seq<Snapshot>, e: Snapshot)
    ensures es != [] ==> BlockEnds(es) != [] && BlockEnds(es)[|BlockEnds(es)| - 1] == es[|es| - 1]
    ensures BlockEnds(es + [e]) ==
            if es != [] && es[|es| - 1].run == e.run then BlockEnds(es)[..|BlockEnds(es)| - 1] + [e]
            else BlockEnds(es) + [e]
  {
    var n, longer := |es|, es + [e];
    assert BlockEnds(longer) == EndsUpTo(longer, n) + [e];
    if n > 0 {
      var a, last := EndsUpTo(es, n - 1), es[n - 1];
      EndsOfPrefix(es, longer, n - 1);
      assert EndsUpTo(longer, n) == a + (if e.run != last.run then [last] else []);
      assert BlockEnds(es) == a + [last];
      InitOfSnoc(a, last);
    }
  }

  /** The indexes of the entries that `assistant_text` events pushed, in order. */
  function AssistantEntries(updates: seq<Update>): seq<nat> {
    if updates == [] then []
    else
      var before, u := updates[..|updates| - 1], updates[|updates| - 1];
      AssistantEntries(before)
      + (if u.AssistantText? && |After(updates).entries| > |After(before).entries|
         then [|After(before).entries|] else [])
  }

  /** The entries at `made` show the texts of `blocks`, and the last of them is the tracked one. */
  ghost predicate ShowsBlocks(s: Log, made: seq<nat>, blocks: seq<Snapshot>) {
    && |made| == |blocks|
    && (forall b :: 0 <= b < |made| ==>
          made[b] < |s.entries| && s.entries[made[b]] == Entry(Assistant, "Assistant", blocks[b].text))
    && (forall a, b :: 0 <= a < b < |made| ==> made[a] < made[b])
    && s.assistant == if made == [] then None else Some((blocks[|blocks| - 1].run, made[|made| - 1]))
  }

  /** Other updates leave the assistant's entries alone. */
  lemma OthersKeepBlocks(s: Log, u: Update, made: seq<nat>, blocks: seq<Snapshot>)
    requires ShowsBlocks(s, made, blocks) && SnapshotOf(u).None?
    ensures ShowsBlocks(Step(s, u), made, blocks)
    ensures u.AssistantText? ==> Step(s, u) == s
  {
    if u.ToolUsed? { ToolLeavesTracked(s, u.tool, u.summary); }
  }

  /** What assistant and progress entries need of another update: theirs stay, and so do their slots. */
  ghost predicate LeavesTracked(s: Log, t: Log) {
    && t.assistant == s.assistant && t.progress == s.progress && |s.entries| <= |t.entries|
    && forall i :: 0 <= i < |s.entries| && (s.entries[i].kind == Assistant || s.entries[i].kind == Progress) ==>
         t.entries[i] == s.entries[i]
  }

  lemma RewriteLeavesTracked(s: Log, i: nat, body: string)
    requires i < |s.entries| && s.entries[i].kind != Assistant && s.entries[i].kind != Progress
    ensures LeavesTracked(s, s.(entries := WithBody(s.entries, i, body)))
  {
  }

  /** A tool event writes to tool entries only. */
  lemma ToolLeavesTracked(s: Log, tool: string, summary: string)
    ensures LeavesTracked(s, UseTool(s, tool, summary))
  {
    if Groups(s.entries, tool) {
      var i := |s.entries| - 1;
      RewriteLeavesTracked(s, i, GroupedBody(tool, s.entries[i].body, summary));
    }
  }

  /** A snapshot of the tracked run rewrites the last block; another run starts a new one. */
  lemma SnapshotStep(s: Log, run: string, text: string, made: seq<nat>, blocks: seq<Snapshot>)
    requires ShowsBlocks(s, made, blocks)
    ensures var t := SupersedeAssistant(s, run, text);
            if blocks != [] && blocks[|blocks| - 1].run == run
            then |t.entries| == |s.entries| && ShowsBlocks(t, made, blocks[..|blocks| - 1] + [Snapshot(run, text)])
            else |t.entries| == |s.entries| + 1 && ShowsBlocks(t, made + [|s.entries|], blocks + [Snapshot(run, text)])
  {
  }

  /**
   For any stream, the entries made by `assistant_text` are the run-length grouping of its non-blank
   events by run id: one entry a block, showing the last text of the block.
   */
  lemma {:induction false} AssistantIsGrouped(updates: seq<Update>)
    ensures ShowsBlocks(After(updates), AssistantEntries(updates), BlockEnds(Snapshots(updates)))
    decreases |updates|
  {
    if updates != [] {
      var before, u := LastApart(updates);
      AssistantIsGrouped(before);
      if SnapshotOf(u).None? {
        OtherThanSnapshot(updates, before, u);
      } else {
        OneMoreSnapshot(updates, before, u);
      }
    } else {
      NothingMade([]);
    }
  }

  lemma NothingMade(updates: seq<Update>)
    requires updates == []
    ensures ShowsBlocks(After(updates), AssistantEntries(updates), BlockEnds(Snapshots(updates)))
  {
  }

  lemma OtherThanSnapshot(updates: seq<Update>, before: seq<Update>, u: Update)
    requires updates == before + [u] && SnapshotOf(u).None?
    requires ShowsBlocks(After(before), AssistantEntries(before), BlockEnds(Snapshots(before)))
    ensures ShowsBlocks(After(updates), AssistantEntries(updates), BlockEnds(Snapshots(updates)))
  {
    InitOfSnoc(before, u);
    OthersKeepBlocks(After(before), u, AssistantEntries(before), BlockEnds(Snapshots(before)));
    assert Snapshots(updates) == Snapshots(before);
    assert AssistantEntries(updates) == AssistantEntries(before);
  }

  lemma OneMoreSnapshot(updates: seq<Update>, before: seq<Update>, u: Update)
    requires updates == before + [u] && SnapshotOf(u).Some?
    requires ShowsBlocks(After(before), AssistantEntries(before), BlockEnds(Snapshots(before)))
    ensures ShowsBlocks(After(updates), AssistantEntries(updates), BlockEnds(Snapshots(updates)))
  {
    SnapshotMade(updates, before, u);
    SnapshotGroups(After(before), u.run.GetOr(""), Trim(u.text), AssistantEntries(before), Snapshots(before));
  }

  lemma SnapshotGroups(s: Log, run: string, text: string, made: seq<nat>, snapshots: seq<Snapshot>)
    requires ShowsBlocks(s, made, BlockEnds(snapshots))
    ensures var t := SupersedeAssistant(s, run, text);
            ShowsBlocks(t, made + (if |t.entries| > |s.entries| then [|s.entries|] else []),
                        BlockEnds(snapshots + [Snapshot(run, text)]))
  {
    SnapshotStep(s, run, text, made, BlockEnds(snapshots));
    BlockEndsSnoc(snapshots, Snapshot(run, text));
    assert made + [] == made;
    assert snapshots == [] ==> BlockEnds(snapshots) == [];
  }

  lemma SnapshotMade(updates: seq<Update>, before: seq<Update>, u: Update)
    requires updates == before + [u] && SnapshotOf(u).Some?
    ensures After(updates) == SupersedeAssistant(After(before), u.run.GetOr(""), Trim(u.text))
    ensures Snapshots(updates) == Snapshots(before) + [SnapshotOf(u).value]
    ensures AssistantEntries(updates) == AssistantEntries(before)
            + (if |After(updates).entries| > |After(before).entries| then [|After(before).entries|] else [])
  {
    InitOfSnoc(before, u);
  }

  // ----- progress -----

  /** The stream as progress lines see it: shown updates, and anything else that pushed an entry. */
  datatype Mark = Shown(run: string, message: string) | Break

  function MarkOf(s: Log, u: Update): Option<Mark> {
    if u.ProgressUpdate? && u.shown then Some(Shown(u.run.GetOr(""), u.message))
    else if |Step(s, u).entries| > |s.entries| then Some(Break)
    else None
  }

  function Marks(updates: seq<Update>): seq<Mark> {
    if updates == [] then []
    else
      var before := updates[..|updates| - 1];
      var m := MarkOf(After(before), updates[|updates| - 1]);
      Marks(before) + (if m.Some? then [m.value] else [])
  }

  predicate Continues(marks: seq<Mark>, m: Mark) {
    marks != [] && SameRun(marks[|marks| - 1], m)
  }

  predicate SameRun(a: Mark, b: Mark) {
    a.Shown? && b.Shown? && a.run == b.run
  }

  /** The updates among the first `n` marks that no update of the same run follows directly. */
  function ProgressUpTo(marks: seq<Mark>, n: nat): (r: seq<Mark>)
    requires n <= |marks|
  {
    if n == 0 then []
    else
      var ends := marks[n - 1].Shown? && (n == |marks| || !SameRun(marks[n - 1], marks[n]));
      ProgressUpTo(marks, n - 1) + (if ends then [marks[n - 1]] else [])
  }

  /** The last update of every maximal block of neighbouring updates of one run. */
  function ProgressBlocks(marks: seq<Mark>): seq<Mark> {
    ProgressUpTo(marks, |marks|)
  }

  lemma {:induction false} ProgressOfPrefix(marks: seq<Mark>, longer: seq<Mark>, n: nat)
    requires n < |marks| < |longer| && forall i :: 0 <= i < |marks| ==> longer[i] == marks[i]
    ensures ProgressUpTo(longer, n) == ProgressUpTo(marks, n)
  {
    if n > 0 { ProgressOfPrefix(marks, longer, n - 1); }
  }

  lemma ProgressBlocksSnoc(marks: seq<Mark>, m: Mark)
    ensures var blocks := ProgressBlocks(marks);
            && (marks != [] && marks[|marks| - 1].Shown? ==> blocks != [] && blocks[|blocks| - 1] == marks[|marks| - 1])
            && ProgressBlocks(marks + [m]) ==
               if m.Break? then blocks
               else if Continues(marks, m) then blocks[..|blocks| - 1] + [m]
               else blocks + [m]
  {
    var n, longer := |marks|, marks + [m];
    assert ProgressBlocks(longer) == ProgressUpTo(longer, n) + (if m.Shown? then [m] else []);
    if n > 0 {
      var a, last := ProgressUpTo(marks, n - 1), marks[n - 1];
      ProgressOfPrefix(marks, longer, n - 1);
      assert ProgressUpTo(longer, n) == a + (if last.Shown? && !SameRun(last, m) then [last] else []);
      assert ProgressBlocks(marks) == a + (if last.Shown? then [last] else []);
      InitOfSnoc(a, last);
    }
  }

  /** The indexes of the entries that progress updates pushed, in order. */
  function ProgressEntries(updates: seq<Update>): seq<nat> {
    if updates == [] then []
    else
      var before, u := updates[..|updates| - 1], updates[|updates| - 1];
      ProgressEntries(before)
      + (if u.ProgressUpdate? && |After(updates).entries| > |After(before).entries|
         then [|After(before).entries|] else [])
  }

  ghost predicate ShowsProgress(s: Log, made: seq<nat>, marks: seq<Mark>, blocks: seq<Mark>) {
    && |made| == |blocks|
    && (forall b :: 0 <= b < |made| ==>
          made[b] < |s.entries| && blocks[b].Shown?
          && s.entries[made[b]] == Entry(Progress, "Progress", blocks[b].message))
    && (forall a, b :: 0 <= a < b < |made| ==> made[a] < made[b])
    && (made == [] ==> s.progress.None?)
    && (made != [] ==> s.progress == Some((blocks[|blocks| - 1].run, made[|made| - 1])))
    && (made != [] && made[|made| - 1] + 1 == |s.entries| <==> marks != [] && marks[|marks| - 1].Shown?)
    && (marks != [] && marks[|marks| - 1].Shown? ==> blocks != [] && blocks[|blocks| - 1] == marks[|marks| - 1])
  }

  /** Other updates leave the progress lines and their slot alone. */
  lemma OthersKeepProgress(s: Log, u: Update)
    requires Tracks(s) && !(u.ProgressUpdate? && u.shown)
    ensures u.ProgressUpdate? ==> Step(s, u) == s
    ensures Step(s, u).progress == s.progress && |s.entries| <= |Step(s, u).entries|
    ensures forall i :: 0 <= i < |s.entries| && s.entries[i].kind == Progress ==> Step(s, u).entries[i] == s.entries[i]
  {
    if u.ToolUsed? { ToolLeavesTracked(s, u.tool, u.summary); }
    if u.AssistantText? { AssistantKeepsProgress(s, u.run.GetOr(""), Trim(u.text)); }
  }

  lemma AssistantKeepsProgress(s: Log, run: string, text: string)
    ensures var t := SupersedeAssistant(s, run, text);
            && t.progress == s.progress && |s.entries| <= |t.entries|
            && forall i :: 0 <= i < |s.entries| && s.entries[i].kind == Progress ==> t.entries[i] == s.entries[i]
  {
  }

  lemma StillShown(s: Log, t: Log, made: seq<nat>, marks: seq<Mark>, blocks: seq<Mark>)
    requires ShowsProgress(s, made, marks, blocks)
    requires t.progress == s.progress && |s.entries| <= |t.entries|
    requires forall i :: 0 <= i < |s.entries| && s.entries[i].kind == Progress ==> t.entries[i] == s.entries[i]
    ensures |t.entries| == |s.entries| ==> ShowsProgress(t, made, marks, blocks)
    ensures |t.entries| > |s.entries| ==> ShowsProgress(t, made, marks + [Break], blocks)
  {
  }

  lemma ProgressStep(s: Log, run: string, message: string, made: seq<nat>, marks: seq<Mark>, blocks: seq<Mark>)
    requires ShowsProgress(s, made, marks, blocks)
    ensures var t, m := SupersedeProgress(s, run, message), Shown(run, message);
            if Continues(marks, m)
            then |t.entries| == |s.entries| && ShowsProgress(t, made, marks + [m], blocks[..|blocks| - 1] + [m])
            else |t.entries| == |s.entries| + 1 && ShowsProgress(t, made + [|s.entries|], marks + [m], blocks + [m])
  {
  }

  /**
   For any stream, the entries made by `run.progress` are the blocks of shown updates of one run with
   nothing else pushed in between, each showing the last message of its block.
   */
  lemma {:induction false} ProgressIsGrouped(updates: seq<Update>)
    ensures ShowsProgress(After(updates), ProgressEntries(updates), Marks(updates), ProgressBlocks(Marks(updates)))
    decreases |updates|
  {
    if updates != [] {
      var before, u := LastApart(updates);
      ProgressIsGrouped(before);
      OneMoreUpdate(updates, before, u);
    } else {
      NothingShown([]);
    }
  }

  lemma NothingShown(updates: seq<Update>)
    requires updates == []
    ensures ShowsProgress(After(updates), ProgressEntries(updates), Marks(updates), ProgressBlocks(Marks(updates)))
  {
  }

  lemma OneMoreUpdate(updates: seq<Update>, before: seq<Update>, u: Update)
    requires updates == before + [u]
    requires ShowsProgress(After(before), ProgressEntries(before), Marks(before), ProgressBlocks(Marks(before)))
    ensures ShowsProgress(After(updates), ProgressEntries(updates), Marks(updates), ProgressBlocks(Marks(updates)))
  {
    if u.ProgressUpdate? && u.shown {
      ShownUpdate(updates, before, u);
    } else {
      OtherUpdate(updates, before, u);
    }
  }

  lemma ShownUpdate(updates: seq<Update>, before: seq<Update>, u: Update)
    requires updates == before + [u] && u.ProgressUpdate? && u.shown
    requires ShowsProgress(After(before), ProgressEntries(before), Marks(before), ProgressBlocks(Marks(before)))
    ensures ShowsProgress(After(updates), ProgressEntries(updates), Marks(updates), ProgressBlocks(Marks(updates)))
  {
    var s, m := After(before), Shown(u.run.GetOr(""), u.message);
    ShownMarks(updates, before, u);
    ProgressStep(s, m.run, m.message, ProgressEntries(before), Marks(before), ProgressBlocks(Marks(before)));
    ProgressBlocksSnoc(Marks(before), m);
  }

  lemma ShownMarks(updates: seq<Update>, before: seq<Update>, u: Update)
    requires updates == before + [u] && u.ProgressUpdate? && u.shown
    ensures After(updates) == SupersedeProgress(After(before), u.run.GetOr(""), u.message)
    ensures Marks(updates) == Marks(before) + [Shown(u.run.GetOr(""), u.message)]
    ensures ProgressEntries(updates) == ProgressEntries(before)
            + (if |After(updates).entries| > |After(before).entries| then [|After(before).entries|] else [])
  {
    InitOfSnoc(before, u);
  }

  lemma OtherUpdate(updates: seq<Update>, before: seq<Update>, u: Update)
    requires updates == before + [u] && !(u.ProgressUpdate? && u.shown)
    requires ShowsProgress(After(before), ProgressEntries(before), Marks(before), ProgressBlocks(Marks(before)))
    ensures ShowsProgress(After(updates), ProgressEntries(updates), Marks(updates), ProgressBlocks(Marks(updates)))
  {
    OtherMarks(updates, before, u);
    OtherShown(After(before), After(updates), ProgressEntries(before), Marks(before));
  }

  lemma OtherMarks(updates: seq<Update>, before: seq<Update>, u: Update)
    requires updates == before + [u] && !(u.ProgressUpdate? && u.shown)
    ensures ProgressEntries(updates) == ProgressEntries(before)
    ensures var s, t := After(before), After(updates);
            && t.progress == s.progress && |s.entries| <= |t.entries|
            && (forall i :: 0 <= i < |s.entries| && s.entries[i].kind == Progress ==> t.entries[i] == s.entries[i])
            && Marks(updates) == Marks(before) + (if |t.entries| > |s.entries| then [Break] else [])
  {
    assert updates[..|updates| - 1] == before;
    ReachableTracks(before);
    OthersKeepProgress(After(before), u);
  }

  lemma OtherShown(s: Log, t: Log, made: seq<nat>, marks: seq<Mark>)
    requires ShowsProgress(s, made, marks, ProgressBlocks(marks))
    requires t.progress == s.progress && |s.entries| <= |t.entries|
    requires forall i :: 0 <= i < |s.entries| && s.entries[i].kind == Progress ==> t.entries[i] == s.entries[i]
    ensures var marks' := marks + (if |t.entries| > |s.entries| then [Break] else []);
            ShowsProgress(t, made, marks', ProgressBlocks(marks'))
  {
    StillShown(s, t, made, marks, ProgressBlocks(marks));
    ProgressBlocksSnoc(marks, Break);
    assert marks + [] == marks;
  }

  // ----- a run of one tool -----

  /** The transcript after more tool events. */
  function ToolRun(s: Log, uses: seq<ToolUse>): Log
    decreases |uses|
  {
    if uses == [] then s else ToolRun(UseTool(s, uses[0].tool, Summary(uses[0])), uses[1..])
  }

  /** The body of one entry after more events. */
  function BodyRun(body: string, uses: seq<ToolUse>): string
    decreases |uses|
  {
    if uses == [] then body else BodyRun(GroupedBody(uses[0].tool, body, Summary(uses[0])), uses[1..])
  }

  lemma {:induction false} BodyRunContinues(sofar: seq<ToolUse>, more: seq<ToolUse>)
    requires sofar != []
    ensures BodyRun(BodyOf(sofar), more) == BodyOf(sofar + more)
    decreases |more|
  {
    if more == [] {
      assert sofar + more == sofar;
    } else {
      MoveFirst(sofar, more);
      BodyRunContinues(sofar + [more[0]], more[1..]);
      BodyRunFirst(sofar, more);
    }
  }

  lemma BodyRunFirst(sofar: seq<ToolUse>, more: seq<ToolUse>)
    requires sofar != [] && more != []
    ensures BodyRun(BodyOf(sofar), more) == BodyRun(BodyOf(sofar + [more[0]]), more[1..])
  {
    BodyGrows(sofar, more[0]);
  }

  lemma ToolStep(entries: seq<Entry>, s: Log, e: Entry, tool: string, summary: string)
    requires s.entries == entries + [e] && e.kind == ToolKind(tool) && Normalize(e.title) == Normalize(tool)
    ensures UseTool(s, tool, summary).entries == entries + [e.(body := GroupedBody(tool, e.body, summary))]
  {
    assert s.entries[|s.entries| - 1] == e;
  }

  /** Consecutive events of the last entry's tool all go into that entry. */
  lemma {:induction false} ToolRunSharesEntry(entries: seq<Entry>, s: Log, e: Entry, uses: seq<ToolUse>)
    requires s.entries == entries + [e]
    requires forall i :: 0 <= i < |uses| ==>
               Normalize(uses[i].tool) == Normalize(e.title) && ToolKind(uses[i].tool) == e.kind
    ensures ToolRun(s, uses).entries == entries + [e.(body := BodyRun(e.body, uses))]
    decreases |uses|
  {
    if uses != [] {
      var tool, summary := uses[0].tool, Summary(uses[0]);
      ToolStep(entries, s, e, tool, summary);
      ToolRunSharesEntry(entries, UseTool(s, tool, summary), e.(body := GroupedBody(tool, e.body, summary)), uses[1..]);
    }
  }

  lemma BodyRunReads(first: ToolUse, more: seq<ToolUse>)
    requires more != []
    ensures ReadsAs(BodyRun(Summary(first), more), [first] + more)
  {
    BodyRunContinues([first], more);
    BodyReadsAs([first] + more);
  }

  /**
   Onto a fresh entry, consecutive events of one tool all go into that entry, and its body reads
   back as the run: how many events, and which messages.
   */
  lemma ToolRunReads(entries: seq<Entry>, s: Log, first: ToolUse, more: seq<ToolUse>) returns (body: string)
    requires s.entries == entries + [Entry(ToolKind(first.tool), first.tool, Summary(first))] && more != []
    requires forall i :: 0 <= i < |more| ==>
               Normalize(more[i].tool) == Normalize(first.tool) && ToolKind(more[i].tool) == ToolKind(first.tool)
    ensures ToolRun(s, more).entries == entries + [Entry(ToolKind(first.tool), first.tool, body)]
    ensures ReadsAs(body, [first] + more)
  {
    body := BodyRun(Summary(first), more);
    ToolRunSharesEntry(entries, s, Entry(ToolKind(first.tool), first.tool, Summary(first)), more);
    BodyRunReads(first, more);
  }
}
