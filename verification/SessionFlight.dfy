/** When the client is busy, and what that does to the texts of the operator. */
module SessionFlight {
  import opened Prelude
  import opened Whitespace
  import opened Session
  import opened SessionSafety

  /** Whether the backend takes the command that an action sends. */
  function Sends(a: Action): bool {
    match a
    case Consume(ok) => ok
    case OperatorSubmits(_, _, ok) => ok
    case OperatorRetries(ok) => ok
    case OperatorCyclesMode(_, ok) => ok
    case OperatorInterrupts(_, ok) => ok
    case OperatorDecides(ok) => ok
    case OperatorRestarts(_, _, _, ok) => ok
    case _ => true
  }

  // ----- busy from a hand-over on -----

  lemma ReceiveMakesBusy(c: Client, m: Message, ok: bool)
    ensures var d := Receive(c, m, ok);
            d.prompts == c.prompts || (|d.prompts| == |c.prompts| + 1 && (d.inFlight <==> ok))
  {
  }

  /** A step that hands over a prompt leaves the client busy exactly when the backend took it. */
  lemma HandOverMakesBusy(s: System, a: Action)
    ensures var c, d := s.client, Step(s, a).client;
            d.prompts == c.prompts || (|d.prompts| == |c.prompts| + 1 && (d.inFlight <==> Sends(a)))
  {
    if a.Consume? && s.channels != [] {
      var c := s.channels[|s.channels| - 1];
      if c.taken < |c.messages| { ReceiveMakesBusy(s.client, c.messages[c.taken], a.ok); }
    }
  }

  /** What a message does to a busy client: it stays busy, or the request is over and the next one may start. */
  predicate MessageEndsFlight(c: Client, m: Message, ok: bool) {
    match m
    case Event(kind) => IsTerminal(kind) && (c.queue == [] || !ok)
    case Error(_) => true
    case Closed => true
  }

  lemma ReceiveEndsFlight(c: Client, m: Message, ok: bool)
    requires c.inFlight
    ensures Receive(c, m, ok).inFlight <==> !MessageEndsFlight(c, m, ok)
  {
  }

  /** The operator's text stops the run. */
  predicate StopsRun(a: Action) {
    || (a.OperatorSubmits? && IsStop(Trim(a.input)) && a.hasRun)
    || (a.OperatorInterrupts? && a.hasRun)
  }

  /**
   What ends the wait of a busy client: a terminal event with nothing queued or a failed send, a worker error,
   `Closed`, and a command of the operator's that goes out at once and fails, or has no connection to go out to.
   */
  predicate EndsFlight(s: System, a: Action) {
    match a
    case Consume(ok) =>
      && s.channels != []
      && var c := s.channels[|s.channels| - 1];
         c.taken < |c.messages| && MessageEndsFlight(s.client, c.messages[c.taken], ok)
    case OperatorSubmits(_, _, ok) => StopsRun(a) && !ok
    case OperatorInterrupts(_, ok) => StopsRun(a) && !ok
    case OperatorCyclesMode(_, ok) => !s.client.connected || !ok
    case OperatorDecides(ok) => !ok
    case OperatorRestarts(started, _, _, ok) => started && !ok
    case _ => false
  }

  /** A busy client stays busy, step by step, if and only if none of that happens. */
  lemma BusyUntil(s: System, a: Action)
    requires s.client.inFlight
    ensures Step(s, a).client.inFlight <==> !EndsFlight(s, a)
  {
    if a.Consume? && s.channels != [] {
      var c := s.channels[|s.channels| - 1];
      if c.taken < |c.messages| { ReceiveEndsFlight(s.client, c.messages[c.taken], a.ok); }
    }
  }

  predicate NoneEndsFlight(s: System, actions: seq<Action>)
    decreases |actions|
  {
    actions == [] || (!EndsFlight(s, actions[0]) && NoneEndsFlight(Step(s, actions[0]), actions[1..]))
  }

  lemma {:induction false} BusyThroughout(s: System, actions: seq<Action>)
    requires s.client.inFlight && NoneEndsFlight(s, actions)
    ensures Run(s, actions).client.inFlight
    decreases |actions|
  {
    if actions != [] {
      BusyUntil(s, actions[0]);
      BusyThroughout(Step(s, actions[0]), actions[1..]);
    }
  }

  /** A busy client hands over a prompt only at a terminal event, and mode switches. */
  lemma BusyHandsOverNothing(s: System, a: Action)
    requires s.client.inFlight && !a.Consume? && !a.OperatorCyclesMode?
    ensures Step(s, a).client.prompts == s.client.prompts
  {
  }

  // ----- prompts one after the other -----

  /** A prompt or a retry whose command, if one goes out, is taken. */
  predicate JustPrompts(a: Action) {
    match a
    case OperatorSubmits(input, _, ok) => ok && !IsStop(Trim(input))
    case OperatorRetries(ok) => ok
    case _ => false
  }

  /** The texts that a series of actions makes the client accept. */
  function TextsOf(s: System, actions: seq<Action>): seq<string>
    decreases |actions|
  {
    if actions == [] then []
    else
      var t := TextOf(s.client, actions[0]);
      (if t.Some? then [t.value] else []) + TextsOf(Step(s, actions[0]), actions[1..])
  }

  lemma PromptWhileBusy(s: System, a: Action)
    requires s.client.connected && s.client.inFlight && JustPrompts(a)
    ensures var c, d, t := s.client, Step(s, a).client, TextOf(s.client, a);
            && d.connected && d.inFlight && d.prompts == c.prompts
            && d.queue == c.queue + (if t.Some? then [t.value] else [])
  {
  }

  /** Behind a request in flight every prompt waits, in order. */
  lemma {:induction false} BusyQueuesAll(s: System, actions: seq<Action>)
    requires s.client.connected && s.client.inFlight && forall i :: 0 <= i < |actions| ==> JustPrompts(actions[i])
    ensures var d := Run(s, actions).client;
            && d.connected && d.inFlight && d.prompts == s.client.prompts
            && d.queue == s.client.queue + TextsOf(s, actions)
    decreases |actions|
  {
    if actions == [] {
      EmptyAppend(s.client.queue);
    } else {
      var t := TextOf(s.client, actions[0]);
      PromptWhileBusy(s, actions[0]);
      BusyQueuesAll(Step(s, actions[0]), actions[1..]);
      AppendAssociates(s.client.queue, if t.Some? then [t.value] else [], TextsOf(Step(s, actions[0]), actions[1..]));
    }
  }

  lemma PromptWhileIdle(s: System, a: Action)
    requires s.client.connected && !s.client.inFlight && s.client.queue == [] && JustPrompts(a)
    ensures var c, d, t := s.client, Step(s, a).client, TextOf(s.client, a);
            && d.connected && d.queue == []
            && (t.None? ==> d.prompts == c.prompts && !d.inFlight)
            && (t.Some? ==> d.prompts == c.prompts + [t.value] && d.inFlight)
  {
  }

  /** Of the texts accepted by an idle client the first is handed over, and the others wait in order. */
  ghost predicate FirstIsSent(c: Client, d: Client, texts: seq<string>) {
    && (texts == [] ==> d.prompts == c.prompts && d.queue == [] && !d.inFlight)
    && (texts != [] ==> d.prompts == c.prompts + [texts[0]] && d.queue == texts[1..] && d.inFlight)
  }

  /**
   A connected, idle client with nothing waiting hands over exactly the first of any series of prompts and
   retries, as long as no message comes; the others are queued in order.
   */
  lemma {:induction false} OnlyFirstIsSent(s: System, actions: seq<Action>)
    requires s.client.connected && !s.client.inFlight && s.client.queue == []
    requires forall i :: 0 <= i < |actions| ==> JustPrompts(actions[i])
    ensures FirstIsSent(s.client, Run(s, actions).client, TextsOf(s, actions))
    decreases |actions|
  {
    if actions != [] {
      var t, next := TextOf(s.client, actions[0]), Step(s, actions[0]);
      PromptWhileIdle(s, actions[0]);
      if t.None? {
        OnlyFirstIsSent(next, actions[1..]);
        EmptyAppend(TextsOf(next, actions[1..]));
      } else {
        BusyQueuesAll(next, actions[1..]);
        EmptyAppend(TextsOf(next, actions[1..]));
        TailOfAppend([t.value], TextsOf(next, actions[1..]));
        assert [t.value][1..] == [];
      }
    }
  }

  // ----- what the texts are -----

  /** A blank prompt does nothing, and a stop only interrupts: neither is accepted, queued or sent as a prompt. */
  lemma BlankAndStop(s: System, input: string, hasRun: bool, ok: bool)
    ensures AllBlank(input) ==> Step(s, OperatorSubmits(input, hasRun, ok)) == s
    ensures Trim(input) in ["/stop", "/interrupt"] ==>
              Step(s, OperatorSubmits(input, hasRun, ok)) == Step(s, OperatorInterrupts(hasRun, ok))
    ensures Step(s, OperatorInterrupts(hasRun, ok)).client
            == s.client.(inFlight := if hasRun then ok else s.client.inFlight)
  {
  }

  /** A retry repeats the prompt submitted last, whatever happened since: only prompts change what it repeats. */
  lemma RetryRepeatsLast(s: System, a: Action)
    ensures Step(s, a).client.last ==
            if a.OperatorSubmits? && TextOf(s.client, a).Some? then Some(Trim(a.input)) else s.client.last
    ensures a.OperatorRetries? ==> TextOf(s.client, a) == s.client.last
  {
  }

  /** A restart that succeeds connects, and the client waits for its three opening commands. */
  lemma RestartConnects(s: System, lines: seq<Line>, errors: seq<string>, ok: bool)
    ensures var t := Step(s, OperatorRestarts(true, lines, errors, ok));
            && t.client == s.client.(connected := true, inFlight := ok)
            && t.channels == s.channels + [NewChannel(lines, errors)] && t.log == s.log
    ensures Step(s, OperatorRestarts(false, lines, errors, ok)) == s.(client := s.client.(connected := false))
  {
  }

  // ----- what the readers send -----

  predicate AllRead(lines: seq<Line>) {
    forall i :: 0 <= i < |lines| ==> !lines[i].Failed?
  }

  /** Lines that can be read are reported one after the other, before anything that comes later. */
  lemma {:induction false} StdoutReadsOn(a: seq<Line>, b: seq<Line>)
    requires AllRead(a)
    ensures StdoutMessages(a + b) == StdoutMessages(a)[..|StdoutMessages(a)| - 1] + StdoutMessages(b)
  {
    if a == [] {
      EmptyAppend(b);
    } else {
      TailOfAppend(a, b);
      StdoutReadsOn(a[1..], b);
    }
  }

  /** What one line is reported as; after a line that cannot be read nothing more is, whatever comes. */
  lemma OneLineReported(kind: string, text: string, rest: seq<Line>)
    ensures StdoutMessages([]) == [Closed] && StdoutMessages([Blank]) == [Closed]
    ensures StdoutMessages([Valid(kind)]) == [Event(kind), Closed]
    ensures StdoutMessages([Rejected(text)]) == [Error(text), Closed]
    ensures StdoutMessages([Failed(text)] + rest) == [Error(text), Closed]
  {
    assert [Blank][1..] == [] && [Valid(kind)][1..] == [] && [Rejected(text)][1..] == [];
    assert ([Failed(text)] + rest)[0] == Failed(text);
  }

  lemma {:induction false} StderrReadsOn(a: seq<string>, b: seq<string>)
    ensures StderrMessages(a + b) == StderrMessages(a) + StderrMessages(b)
  {
    if a == [] {
      EmptyAppend(b);
      EmptyAppend(StderrMessages(b));
    } else {
      TailOfAppend(a, b);
      StderrReadsOn(a[1..], b);
      AppendAssociates(if AllBlank(a[0]) then [] else [Error(a[0])], StderrMessages(a[1..]), StderrMessages(b));
    }
  }

  lemma OneErrorReported(line: string)
    ensures StderrMessages([line]) == if AllBlank(line) then [] else [Error(line)]
  {
    assert [line][1..] == [];
  }

  /** The events that end a request: nothing waiting, they leave the client idle, and no other event does. */
  lemma TerminalEvents(c: Client, kind: string, ok: bool)
    requires c.inFlight && c.queue == []
    ensures !Receive(c, Event(kind), ok).inFlight
            <==> kind in ["session.status", "session.history", "slash.catalog", "slash.completed", "model.changed",
                          "approval.resolved", "run.completed", "run.interrupt.requested", "error"]
  {
  }
}
