/**
 The Gateway session: two reader threads that share one channel, the client that consumes it,
 the queue of prompts waiting for their turn, and reconnecting.
 */
module Session {
  import opened Prelude
  import opened Whitespace

  // ----- the reader threads -----

  /** What a worker thread puts into the channel. An event is known by its type. */
  datatype Message = Event(kind: string) | Error(text: string) | Closed

  /**
   One line of the backend's standard output: blank, an event that satisfies the contract, a line
   that does not parse or breaks the contract, or a read error.
   */
  datatype Line = Blank | Valid(kind: string) | Rejected(diagnostic: string) | Failed(cause: string)

  /** Everything the stdout thread sends over its life. A read error ends the loop early. */
  function StdoutMessages(lines: seq<Line>): (r: seq<Message>)
    ensures r != [] && r[|r| - 1] == Closed
    ensures forall i :: 0 <= i < |r| - 1 ==> !r[i].Closed?
  {
    if lines == [] then [Closed]
    else match lines[0]
      case Blank => StdoutMessages(lines[1..])
      case Valid(kind) => [Event(kind)] + StdoutMessages(lines[1..])
      case Rejected(diagnostic) => [Error(diagnostic)] + StdoutMessages(lines[1..])
      case Failed(cause) => [Error(cause), Closed]
  }

  /** Everything the stderr thread sends: its lines that are not blank. */
  function StderrMessages(lines: seq<string>): (r: seq<Message>)
    ensures forall i :: 0 <= i < |r| ==> r[i].Error?
  {
    if lines == [] then []
    else (if AllBlank(lines[0]) then [] else [Error(lines[0])]) + StderrMessages(lines[1..])
  }

  /** The sending end the two threads share. */
  class Sender {
    var sent: seq<Message>

    constructor ()
      ensures sent == []
    {
      sent := [];
    }

    method Send(m: Message)
      modifies this
      ensures sent == old(sent) + [m]
    {
      sent := sent + [m];
    }

    /** The loop of the stdout thread. */
    method ReadStdout(lines: seq<Line>)
      modifies this
      ensures sent == old(sent) + StdoutMessages(lines)
    {
      var i := 0;
      while i < |lines|
        invariant 0 <= i <= |lines|
        invariant sent + StdoutMessages(lines[i..]) == old(sent) + StdoutMessages(lines)
      {
        ghost var rest := lines[i..];
        assert rest[1..] == lines[i + 1..];
        match lines[i] {
          case Blank =>
          case Valid(kind) => Send(Event(kind));
          case Rejected(diagnostic) => Send(Error(diagnostic));
          case Failed(cause) =>
            Send(Error(cause));
            break;
        }
        i := i + 1;
      }
      Send(Closed);
    }

    /** The loop of the stderr thread. */
    method ReadStderr(lines: seq<string>)
      modifies this
      ensures sent == old(sent) + StderrMessages(lines)
    {
      for i := 0 to |lines|
        invariant sent + StderrMessages(lines[i..]) == old(sent) + StderrMessages(lines)
      {
        assert lines[i..][1..] == lines[i + 1..];
        if !AllBlank(lines[i]) {
          Send(Error(lines[i]));
        }
      }
    }
  }

  // ----- the client -----

  /** `is_request_terminal_event`: the events that end a request. */
  predicate IsTerminal(kind: string) {
    kind in ["session.status", "session.history", "slash.catalog", "slash.completed", "model.changed",
             "approval.resolved", "run.completed", "run.interrupt.requested", "error"]
  }

  /**
   The fields of `InteractiveApp` that decide when a prompt is sent, and what happened so far:
   the texts accepted from the operator, put into the queue, taken from it, and handed to the
   backend.
   */
  datatype Client = Client(
    inFlight: bool, connected: bool, queue: seq<string>, last: Option<string>,
    accepted: seq<string>, enqueued: seq<string>, dequeued: seq<string>, prompts: seq<string>)

  function Accept(c: Client, text: string): Client {
    c.(accepted := c.accepted + [text])
  }

  function Hold(c: Client, text: string): Client {
    c.(queue := c.queue + [text], enqueued := c.enqueued + [text])
  }

  /** `dispatch_text`; `ok` says whether the backend took the command. */
  function Dispatch(c: Client, text: string, ok: bool): Client {
    if !c.connected then Hold(c, text).(inFlight := false)
    else c.(prompts := c.prompts + [text], inFlight := ok)
  }

  /** `dispatch_next_queued`. */
  function DispatchNext(c: Client, ok: bool): Client {
    if c.inFlight || !c.connected || c.queue == [] then c
    else Dispatch(c.(queue := c.queue[1..], dequeued := c.dequeued + [c.queue[0]]), c.queue[0], ok)
  }

  /** `request_interrupt`; `hasRun` says whether a run id is known. */
  function Interrupt(c: Client, hasRun: bool, ok: bool): Client {
    if hasRun then c.(inFlight := ok) else c
  }

  predicate IsStop(text: string) {
    text == "/stop" || text == "/interrupt"
  }

  /** `submit_input` on the text of the prompt. */
  function Submit(c: Client, input: string, hasRun: bool, ok: bool): Client {
    var text := Trim(input);
    if text == "" then c
    else if IsStop(text) then Interrupt(c, hasRun, ok)
    else
      var a := Accept(c, text).(last := Some(text));
      if c.inFlight then Hold(a, text) else Dispatch(a, text, ok)
  }

  /** `retry_last_prompt`. */
  function Retry(c: Client, ok: bool): Client {
    if c.last.None? then c
    else
      var a := Accept(c, c.last.value);
      if c.inFlight || !c.connected then Hold(a, c.last.value) else Dispatch(a, c.last.value, ok)
  }

  /** `cycle_permission_mode`: dispatched without looking at `in_flight`. */
  function CycleMode(c: Client, mode: string, ok: bool): Client {
    Dispatch(Accept(c, "/mode " + mode), "/mode " + mode, ok)
  }

  /** One message in `drain_worker`. */
  function Receive(c: Client, m: Message, ok: bool): Client {
    match m
    case Event(kind) =>
      var e := c.(connected := true);
      if IsTerminal(kind) then DispatchNext(e.(inFlight := false), ok) else e
    case Error(_) => c.(inFlight := false)
    case Closed => c.(inFlight := false, connected := false)
  }

  /** `restart_backend`; `ok` says whether the three opening commands were taken. */
  function Restarted(c: Client, started: bool, ok: bool): Client {
    if started then c.(connected := true, inFlight := ok) else c.(connected := false)
  }

  /** A new client has sent its three opening commands. */
  function NewClient(ok: bool): Client {
    Client(ok, true, [], None, [], [], [], [])
  }

  /** The client as the source has it: fields updated in place. The history is ghost. */
  class SessionClient {
    var inFlight: bool
    var backendConnected: bool
    var queuedInputs: seq<string>
    var lastSubmittedText: Option<string>
    ghost var accepted: seq<string>
    ghost var enqueued: seq<string>
    ghost var dequeued: seq<string>
    ghost var prompts: seq<string>

    ghost function State(): Client
      reads this
    {
      Client(inFlight, backendConnected, queuedInputs, lastSubmittedText, accepted, enqueued, dequeued, prompts)
    }

    constructor (ok: bool)
      ensures State() == NewClient(ok)
    {
      inFlight, backendConnected, queuedInputs, lastSubmittedText := ok, true, [], None;
      accepted, enqueued, dequeued, prompts := [], [], [], [];
    }

    method PushBack(text: string)
      modifies this`queuedInputs, this`enqueued
      ensures State() == Hold(old(State()), text)
    {
      queuedInputs := queuedInputs + [text];
      enqueued := enqueued + [text];
    }

    method DispatchText(text: string, ok: bool)
      modifies this
      ensures State() == Dispatch(old(State()), text, ok)
    {
      if !backendConnected {
        PushBack(text);
        inFlight := false;
        return;
      }
      prompts := prompts + [text];
      inFlight := true;
      if !ok {
        inFlight := false;
      }
    }

    method DispatchNextQueued(ok: bool)
      modifies this
      ensures State() == DispatchNext(old(State()), ok)
    {
      if inFlight || !backendConnected {
        return;
      }
      if queuedInputs != [] {
        var text := queuedInputs[0];
        queuedInputs := queuedInputs[1..];
        dequeued := dequeued + [text];
        DispatchText(text, ok);
      }
    }

    method SubmitInput(input: string, hasRun: bool, ok: bool)
      modifies this
      ensures State() == Submit(old(State()), input, hasRun, ok)
    {
      var text := Trim(input);
      if text == "" {
        return;
      }
      if IsStop(text) {
        RequestInterrupt(hasRun, ok);
        return;
      }
      accepted := accepted + [text];
      lastSubmittedText := Some(text);
      if inFlight {
        PushBack(text);
        return;
      }
      DispatchText(text, ok);
    }

    method RequestInterrupt(hasRun: bool, ok: bool)
      modifies this`inFlight
      ensures State() == Interrupt(old(State()), hasRun, ok)
    {
      if hasRun {
        inFlight := ok;
      }
    }

    method RetryLastPrompt(ok: bool)
      modifies this
      ensures State() == Retry(old(State()), ok)
    {
      if lastSubmittedText.None? {
        return;
      }
      var text := lastSubmittedText.value;
      accepted := accepted + [text];
      if inFlight {
        PushBack(text);
        return;
      }
      if !backendConnected {
        PushBack(text);
        return;
      }
      DispatchText(text, ok);
    }

    method CyclePermissionMode(mode: string, ok: bool)
      modifies this
      ensures State() == CycleMode(old(State()), mode, ok)
    {
      accepted := accepted + ["/mode " + mode];
      DispatchText("/mode " + mode, ok);
    }

    /** The part of `approve_selected` and `deny_selected` that sends the decision. */
    method SendDecision(ok: bool)
      modifies this`inFlight
      ensures State() == old(State()).(inFlight := ok)
    {
      inFlight := true;
      if !ok {
        inFlight := false;
      }
    }

    method HandleMessage(m: Message, ok: bool)
      modifies this
      ensures State() == Receive(old(State()), m, ok)
    {
      match m {
        case Event(kind) =>
          backendConnected := true;
          if IsTerminal(kind) {
            inFlight := false;
            DispatchNextQueued(ok);
          }
        case Error(_) => inFlight := false;
        case Closed =>
          inFlight := false;
          backendConnected := false;
      }
    }

    /** `drain_worker`: every message waiting in the channel, in order. */
    method DrainWorker(messages: seq<Message>, oks: seq<bool>)
      requires |oks| == |messages|
      modifies this
      ensures State() == ReceiveAll(old(State()), messages, oks)
    {
      for i := 0 to |messages|
        invariant ReceiveAll(State(), messages[i..], oks[i..]) == ReceiveAll(old(State()), messages, oks)
      {
        assert messages[i..][1..] == messages[i + 1..] && oks[i..][1..] == oks[i + 1..];
        HandleMessage(messages[i], oks[i]);
      }
    }

    method RestartBackend(started: bool, ok: bool)
      modifies this`inFlight, this`backendConnected
      ensures State() == Restarted(old(State()), started, ok)
    {
      if started {
        backendConnected := true;
        inFlight := false;
        inFlight := ok;
      } else {
        backendConnected := false;
      }
    }
  }

  function ReceiveAll(c: Client, messages: seq<Message>, oks: seq<bool>): Client
    requires |oks| == |messages|
    decreases |messages|
  {
    if messages == [] then c else ReceiveAll(Receive(c, messages[0], oks[0]), messages[1..], oks[1..])
  }
}
