/** What each event leaves in the transcript for the operator to see. */
module Visibility {
  import opened Prelude
  import opened Whitespace
  import opened Strings
  import opened Grouping
  import opened Transcript

  /** The entry at `i` is one of the last six. */
  predicate InWindow(entries: seq<Entry>, i: nat) {
    i < |entries| && |entries| <= i + 6
  }

  /** It has the kind, and up to blanks the title and the body. */
  predicate ShowsAt(entries: seq<Entry>, i: nat, kind: Kind, title: string, body: string) {
    && InWindow(entries, i) && entries[i].kind == kind
    && Normalize(entries[i].title) == Normalize(title) && Normalize(entries[i].body) == Normalize(body)
  }

  ghost predicate Shown(entries: seq<Entry>, kind: Kind, title: string, body: string) {
    exists i: nat :: ShowsAt(entries, i, kind, title, body)
  }

  ghost predicate BodyShown(entries: seq<Entry>, body: string) {
    exists i: nat :: InWindow(entries, i) && Normalize(entries[i].body) == Normalize(body)
  }

  lemma RecentIsWindow(entries: seq<Entry>, e: Entry)
    ensures e in Recent(entries) <==> exists i: nat :: InWindow(entries, i) && entries[i] == e
  {
    var k := if |entries| > 6 then |entries| - 6 else 0;
    if e in Recent(entries) {
      var j :| 0 <= j < |Recent(entries)| && Recent(entries)[j] == e;
      assert InWindow(entries, k + j) && entries[k + j] == e;
    }
    if i: nat :| InWindow(entries, i) && entries[i] == e {
      assert Recent(entries)[i - k] == e;
    }
  }

  lemma EntryMatchIsShown(entries: seq<Entry>, kind: Kind, title: string, body: string)
    ensures RecentEntryMatches(entries, kind, title, body)
            <==> Normalize(body) != "" && Shown(entries, kind, title, body)
  {
    forall e ensures e in Recent(entries) <==> exists i: nat :: InWindow(entries, i) && entries[i] == e {
      RecentIsWindow(entries, e);
    }
    if i: nat :| ShowsAt(entries, i, kind, title, body) {
      assert entries[i] in Recent(entries);
    }
    if e :| e in Recent(entries) && e.kind == kind && Normalize(e.title) == Normalize(title)
            && Normalize(e.body) == Normalize(body) {
      var i: nat :| InWindow(entries, i) && entries[i] == e;
      assert ShowsAt(entries, i, kind, title, body);
    }
  }

  lemma BodyMatchIsShown(entries: seq<Entry>, body: string)
    ensures RecentBodyMatches(entries, body) <==> Normalize(body) != "" && BodyShown(entries, body)
  {
    forall e ensures e in Recent(entries) <==> exists i: nat :: InWindow(entries, i) && entries[i] == e {
      RecentIsWindow(entries, e);
    }
    if i: nat :| InWindow(entries, i) && Normalize(entries[i].body) == Normalize(body) {
      assert entries[i] in Recent(entries);
    }
  }

  /** The kind of a tool's entries: shell commands are commands. */
  function KindOf(tool: string): Kind {
    if tool == "Bash" then Command else Tool
  }

  /** The last entry is of that kind, and has the tool's name up to blanks. */
  predicate LastIsOf(entries: seq<Entry>, tool: string) {
    && entries != [] && entries[|entries| - 1].kind == KindOf(tool)
    && Normalize(entries[|entries| - 1].title) == Normalize(tool)
  }

  /**
   A tool event after an entry of another tool: when its text is not blank and one of the last six entries shows
   it already, nothing changes; otherwise exactly one entry is added, with its kind, name and text.
   */
  lemma ToolEventAdds(s: Log, tool: string, summary: string)
    requires !LastIsOf(s.entries, tool)
    ensures var t := Step(s, ToolUsed(tool, summary));
            if Normalize(summary) != "" && Shown(s.entries, KindOf(tool), tool, summary) then t == s
            else t == s.(entries := s.entries + [Entry(KindOf(tool), tool, summary)])
  {
    EntryMatchIsShown(s.entries, KindOf(tool), tool, summary);
  }

  /** So after such an event one of the last six entries shows it. */
  lemma ToolEventIsShown(s: Log, tool: string, summary: string)
    requires !LastIsOf(s.entries, tool)
    ensures Shown(Step(s, ToolUsed(tool, summary)).entries, KindOf(tool), tool, summary)
  {
    var t := Step(s, ToolUsed(tool, summary));
    ToolEventAdds(s, tool, summary);
    if t != s { assert ShowsAt(t.entries, |s.entries|, KindOf(tool), tool, summary); }
  }

  /** A tool event after an entry of the same tool goes into that entry; no other changes, and none is added. */
  lemma ToolEventJoins(s: Log, tool: string, summary: string)
    requires LastIsOf(s.entries, tool)
    ensures var n := |s.entries| - 1;
            var last := s.entries[n];
            Step(s, ToolUsed(tool, summary))
            == s.(entries := s.entries[n := last.(body := GroupedBody(tool, last.body, summary))])
  {
  }

  /** A run's output is added as an assistant's entry, unless its text is shown in one of the last six, of any kind. */
  lemma OutputAdds(s: Log, output: string)
    ensures var t := Step(s, Update.RunOutput(output));
            if Normalize(output) != "" && BodyShown(s.entries, output) then t == s
            else t == s.(entries := s.entries + [Entry(Assistant, "Assistant", output)])
  {
    BodyMatchIsShown(s.entries, output);
  }

  lemma OutputIsShown(s: Log, output: string)
    ensures BodyShown(Step(s, Update.RunOutput(output)).entries, output)
  {
    var t := Step(s, Update.RunOutput(output));
    OutputAdds(s, output);
    if t != s {
      assert InWindow(t.entries, |s.entries|) && t.entries[|s.entries|].body == output;
    }
  }

  /** A pushed entry stands last, and leaves everything before it, and what is being rewritten, as it was. */
  lemma PushAppends(s: Log, e: Entry)
    ensures Step(s, Push(e)) == s.(entries := s.entries + [e])
  {
  }

  /** Blank assistant text, and progress that is not to be shown, leave no trace. */
  lemma NothingToShow(s: Log, run: Option<string>, text: string)
    ensures AllBlank(text) ==> Step(s, AssistantText(run, text)) == s
    ensures Step(s, ProgressUpdate(run, text, false)) == s
  {
  }

  predicate Says(entries: seq<Entry>, i: nat, text: string) {
    i < |entries| && entries[i].kind == Assistant && entries[i].body == text
  }

  /** Other assistant text, and progress to be shown, stand in the transcript right after. */
  lemma AssistantIsShown(s: Log, run: Option<string>, text: string)
    requires !AllBlank(text)
    ensures exists i: nat :: Says(Step(s, AssistantText(run, text)).entries, i, Trim(text))
  {
    var t := Step(s, AssistantText(run, text));
    assert t == SupersedeAssistant(s, run.GetOr(""), Trim(text));
    if |t.entries| > |s.entries| {
      assert Says(t.entries, |s.entries|, Trim(text));
    } else {
      assert Says(t.entries, s.assistant.value.1, Trim(text));
    }
  }

  lemma ProgressIsShown(s: Log, run: Option<string>, message: string)
    ensures var t := Step(s, ProgressUpdate(run, message, true));
            t.entries != [] && t.entries[|t.entries| - 1].kind == Progress && t.entries[|t.entries| - 1].body == message
  {
  }

  /** Over any stream: what a tool event or a run's output says is among the last six entries when it has come. */
  lemma StreamShows(updates: seq<Update>, tool: string, text: string)
    ensures !LastIsOf(After(updates).entries, tool) ==>
              Shown(After(updates + [ToolUsed(tool, text)]).entries, KindOf(tool), tool, text)
    ensures BodyShown(After(updates + [Update.RunOutput(text)]).entries, text)
  {
    InitOfSnoc(updates, ToolUsed(tool, text));
    InitOfSnoc(updates, Update.RunOutput(text));
    if !LastIsOf(After(updates).entries, tool) { ToolEventIsShown(After(updates), tool, text); }
    OutputIsShown(After(updates), text);
  }
}
