/**
 The transcript of `InteractiveApp`: entries are pushed, and three kinds of event rewrite the body
 of an entry already there instead of pushing another one.
 */
module Transcript {
  import opened Prelude
  import opened Whitespace
  import opened Strings
  import opened Grouping

  datatype Kind = System | User | Assistant | Progress | Tool | File | Command | Approval | Receipt | Failure

  datatype Entry = Entry(kind: Kind, title: string, body: string)

  /** The entries, and the run and index of the assistant and the progress entry being rewritten. */
  datatype Log = Log(entries: seq<Entry>, assistant: Option<(string, nat)>, progress: Option<(string, nat)>)

  const EMPTY := Log([], None, None)

  /**
   What reaches the transcript. `Push` stands for every handler that just pushes an entry;
   `shown` for the visibility tests on a progress message; `text` of a tool event for its summary.
   */
  datatype Update =
    | Push(entry: Entry)
    | AssistantText(run: Option<string>, text: string)
    | ProgressUpdate(run: Option<string>, message: string, shown: bool)
    | ToolUsed(tool: string, summary: string)
    | RunOutput(output: string)

  function WithBody(entries: seq<Entry>, i: nat, body: string): seq<Entry>
    requires i < |entries|
  {
    entries[i := entries[i].(body := body)]
  }

  /** `supersede_assistant_text`. */
  function SupersedeAssistant(s: Log, run: string, text: string): Log {
    if s.assistant.Some? && s.assistant.value.0 == run && s.assistant.value.1 < |s.entries|
       && s.entries[s.assistant.value.1].kind == Assistant
    then s.(entries := WithBody(s.entries, s.assistant.value.1, text))
    else s.(entries := s.entries + [Entry(Assistant, "Assistant", text)], assistant := Some((run, |s.entries|)))
  }

  /** `supersede_progress`: only while the entry is still the last one. */
  function SupersedeProgress(s: Log, run: string, message: string): Log {
    if s.progress.Some? && s.progress.value.0 == run && s.progress.value.1 + 1 == |s.entries|
       && s.entries[s.progress.value.1].kind == Progress
    then s.(entries := WithBody(s.entries, s.progress.value.1, message))
    else s.(entries := s.entries + [Entry(Progress, "Progress", message)], progress := Some((run, |s.entries|)))
  }

  function ToolKind(tool: string): Kind {
    if tool == "Bash" then Command else Tool
  }

  /** Whether the last entry takes the event (`append_grouped_tool_transcript`). */
  predicate Groups(entries: seq<Entry>, tool: string) {
    && entries != [] && entries[|entries| - 1].kind == ToolKind(tool)
    && Normalize(entries[|entries| - 1].title) == Normalize(tool)
  }

  /** The window of the two duplicate tests: the last six entries. */
  function Recent(entries: seq<Entry>): seq<Entry> {
    if |entries| > 6 then entries[|entries| - 6..] else entries
  }

  predicate RecentEntryMatches(entries: seq<Entry>, kind: Kind, title: string, body: string) {
    && Normalize(body) != ""
    && exists e :: e in Recent(entries) && e.kind == kind && Normalize(e.title) == Normalize(title)
                   && Normalize(e.body) == Normalize(body)
  }

  predicate RecentBodyMatches(entries: seq<Entry>, body: string) {
    Normalize(body) != "" && exists e :: e in Recent(entries) && Normalize(e.body) == Normalize(body)
  }

  function UseTool(s: Log, tool: string, summary: string): Log {
    if Groups(s.entries, tool) then
      var i := |s.entries| - 1;
      s.(entries := WithBody(s.entries, i, GroupedBody(tool, s.entries[i].body, summary)))
    else if RecentEntryMatches(s.entries, ToolKind(tool), tool, summary) then s
    else s.(entries := s.entries + [Entry(ToolKind(tool), tool, summary)])
  }

  function Step(s: Log, u: Update): Log {
    match u
    case Push(entry) => s.(entries := s.entries + [entry])
    case AssistantText(run, text) => if Trim(text) == "" then s else SupersedeAssistant(s, run.GetOr(""), Trim(text))
    case ProgressUpdate(run, message, shown) => if shown then SupersedeProgress(s, run.GetOr(""), message) else s
    case ToolUsed(tool, summary) => UseTool(s, tool, summary)
    case RunOutput(output) =>
      if RecentBodyMatches(s.entries, output) then s
      else s.(entries := s.entries + [Entry(Assistant, "Assistant", output)])
  }

  /** The transcript after a stream of updates. */
  function After(updates: seq<Update>): Log {
    if updates == [] then EMPTY else Step(After(updates[..|updates| - 1]), updates[|updates| - 1])
  }

  /** The transcript as the source has it: a vector changed in place. */
  class TranscriptView {
    var transcript: seq<Entry>
    var assistantTextEntry: Option<(string, nat)>
    var progressEntry: Option<(string, nat)>

    function State(): Log
      reads this
    {
      Log(transcript, assistantTextEntry, progressEntry)
    }

    constructor ()
      ensures State() == EMPTY
    {
      transcript, assistantTextEntry, progressEntry := [], None, None;
    }

    method PushEntry(entry: Entry)
      modifies this`transcript
      ensures transcript == old(transcript) + [entry]
    {
      transcript := transcript + [entry];
    }

    /** `entry.update_body`. */
    method UpdateBody(i: nat, body: string)
      requires i < |transcript|
      modifies this`transcript
      ensures transcript == WithBody(old(transcript), i, body)
    {
      transcript := transcript[i := transcript[i].(body := body)];
    }

    /** Returns whether the transcript changed. */
    method SupersedeAssistantText(run: Option<string>, text: string) returns (changed: bool)
      modifies this
      ensures State() == SupersedeAssistant(old(State()), run.GetOr(""), text)
      ensures changed <==> transcript != old(transcript)
    {
      var key := run.GetOr("");
      if assistantTextEntry.Some? && assistantTextEntry.value.0 == key {
        var index := assistantTextEntry.value.1;
        if index < |transcript| && transcript[index].kind == Assistant {
          if transcript[index].body == text {
            return false;
          }
          UpdateBody(index, text);
          assert transcript[index].body != old(transcript)[index].body;
          return true;
        }
      }
      PushEntry(Entry(Assistant, "Assistant", text));
      assistantTextEntry := Some((key, |transcript| - 1));
      assert |transcript| != |old(transcript)|;
      return true;
    }

    /** Returns whether the transcript changed. */
    method SupersedeProgressLine(run: Option<string>, message: string) returns (changed: bool)
      modifies this
      ensures State() == SupersedeProgress(old(State()), run.GetOr(""), message)
      ensures changed <==> transcript != old(transcript)
    {
      var key := run.GetOr("");
      if progressEntry.Some? && progressEntry.value.0 == key && progressEntry.value.1 + 1 == |transcript| {
        var index := progressEntry.value.1;
        if transcript[index].kind == Progress {
          if transcript[index].body == message {
            return false;
          }
          UpdateBody(index, message);
          assert transcript[index].body != old(transcript)[index].body;
          return true;
        }
      }
      PushEntry(Entry(Progress, "Progress", message));
      progressEntry := Some((key, |transcript| - 1));
      assert |transcript| != |old(transcript)|;
      return true;
    }

    method RecordToolUse(tool: string, summary: string)
      modifies this`transcript
      ensures State() == UseTool(old(State()), tool, summary)
    {
      if Groups(transcript, tool) {
        var last := |transcript| - 1;
        UpdateBody(last, GroupedBody(tool, transcript[last].body, summary));
      } else if !RecentEntryMatches(transcript, ToolKind(tool), tool, summary) {
        PushEntry(Entry(ToolKind(tool), tool, summary));
      }
    }

    /** The transcript half of `record_event`. */
    method Record(u: Update)
      modifies this
      ensures State() == Step(old(State()), u)
    {
      match u {
        case Push(entry) => PushEntry(entry);
        case AssistantText(run, text) =>
          var display := Trim(text);
          if display != "" {
            var changed := SupersedeAssistantText(run, display);
          }
        case ProgressUpdate(run, message, shown) =>
          if shown {
            var changed := SupersedeProgressLine(run, message);
          }
        case ToolUsed(tool, summary) => RecordToolUse(tool, summary);
        case RunOutput(output) =>
          if !RecentBodyMatches(transcript, output) {
            PushEntry(Entry(Assistant, "Assistant", output));
          }
      }
    }

    method RecordAll(updates: seq<Update>)
      requires State() == EMPTY
      modifies this
      ensures State() == After(updates)
    {
      for i := 0 to |updates|
        invariant State() == After(updates[..i])
      {
        assert updates[..i + 1][..i] == updates[..i];
        Record(updates[i]);
      }
      assert updates[..|updates|] == updates;
    }
  }
}
