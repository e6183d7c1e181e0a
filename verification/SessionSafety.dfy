/** What holds in every interleaving of the two readers, the client, the operator and reconnects. */
module SessionSafety {
  import opened Prelude
  import opened Whitespace
  import opened Session

  /**
   One session's channel: what its two threads will send in all, how far each has come, the
   messages in the order they entered the channel, and how many the client has taken.
   */
  datatype Channel = Channel(
    stdout: seq<Message>, stderr: seq<Message>, out: nat, err: nat, messages: seq<Message>, taken: nat)

  /** The client holds the receiving end of the last channel only; `log` is what it processed. */
  datatype System = System(client: Client, channels: seq<Channel>, log: seq<(nat, Message)>)

  datatype Action =
    | StdoutSends(session: nat) | StderrSends(session: nat)
    | Consume(ok: bool)
    | OperatorSubmits(input: string, hasRun: bool, ok: bool)
    | OperatorRetries(ok: bool) | OperatorCyclesMode(mode: string, ok: bool)
    | OperatorInterrupts(hasRun: bool, ok: bool) | OperatorDecides(ok: bool)
    | OperatorRestarts(started: bool, lines: seq<Line>, errors: seq<string>, ok: bool)

  function NewChannel(lines: seq<Line>, errors: seq<string>): Channel {
    Channel(StdoutMessages(lines), StderrMessages(errors), 0, 0, [], 0)
  }

  function Initial(lines: seq<Line>, errors: seq<string>, ok: bool): System {
    System(NewClient(ok), [NewChannel(lines, errors)], [])
  }

  /** One step; an action that is not possible changes nothing. */
  function Step(s: System, a: Action): System {
    match a
    case StdoutSends(i) =>
      if i < |s.channels| && s.channels[i].out < |s.channels[i].stdout| then
        var c := s.channels[i];
        s.(channels := s.channels[i := c.(out := c.out + 1, messages := c.messages + [c.stdout[c.out]])])
      else s
    case StderrSends(i) =>
      if i < |s.channels| && s.channels[i].err < |s.channels[i].stderr| then
        var c := s.channels[i];
        s.(channels := s.channels[i := c.(err := c.err + 1, messages := c.messages + [c.stderr[c.err]])])
      else s
    case Consume(ok) =>
      if s.channels != [] then
        var i := |s.channels| - 1;
        var c := s.channels[i];
        if c.taken < |c.messages| then
          System(Receive(s.client, c.messages[c.taken], ok), s.channels[i := c.(taken := c.taken + 1)],
                 s.log + [(i, c.messages[c.taken])])
        else s
      else s
    case OperatorSubmits(input, hasRun, ok) => s.(client := Submit(s.client, input, hasRun, ok))
    case OperatorRetries(ok) => s.(client := Retry(s.client, ok))
    case OperatorCyclesMode(mode, ok) => s.(client := CycleMode(s.client, mode, ok))
    case OperatorInterrupts(hasRun, ok) => s.(client := Interrupt(s.client, hasRun, ok))
    case OperatorDecides(ok) => s.(client := s.client.(inFlight := ok))
    case OperatorRestarts(started, lines, errors, ok) =>
      s.(client := Restarted(s.client, started, ok),
         channels := if started then s.channels + [NewChannel(lines, errors)] else s.channels)
  }

  function Run(s: System, actions: seq<Action>): System
    decreases |actions|
  {
    if actions == [] then s else Run(Step(s, actions[0]), actions[1..])
  }

  // ----- order in the channel -----

  /** What the two threads' programs guarantee about their own output. */
  ghost predicate WellFormed(c: Channel) {
    && c.stdout != [] && c.stdout[|c.stdout| - 1] == Closed
    && (forall i :: 0 <= i < |c.stdout| - 1 ==> !c.stdout[i].Closed?)
    && (forall i :: 0 <= i < |c.stderr| ==> c.stderr[i].Error?)
    && c.out <= |c.stdout| && c.err <= |c.stderr| && c.taken <= |c.messages|
  }

  /** After `Closed` only errors. */
  ghost predicate ClosedEndsEvents(messages: seq<Message>) {
    forall i, j :: 0 <= i < j < |messages| && messages[i].Closed? ==> messages[j].Error?
  }

  /** After `Closed` only stderr lines can follow, and `Closed` comes with the end of stdout. */
  ghost predicate Ordered(c: Channel) {
    && WellFormed(c)
    && (forall i :: 0 <= i < |c.messages| && c.messages[i].Closed? ==> c.out == |c.stdout|)
    && ClosedEndsEvents(c.messages)
  }

  /** The log names sessions in order, never one after the client's. */
  ghost predicate LogInOrder(s: System) {
    && (forall i :: 0 <= i < |s.log| ==> s.log[i].0 < |s.channels|)
    && (forall i, j :: 0 <= i < j < |s.log| ==> s.log[i].0 <= s.log[j].0)
  }

  ghost predicate AllOrdered(channels: seq<Channel>) {
    forall i :: 0 <= i < |channels| ==> Ordered(channels[i])
  }

  ghost predicate Inv(s: System) {
    s.channels != [] && AllOrdered(s.channels)
  }

  lemma StdoutKeepsOrder(c: Channel)
    requires Ordered(c) && c.out < |c.stdout|
    ensures Ordered(c.(out := c.out + 1, messages := c.messages + [c.stdout[c.out]]))
  {
  }

  lemma StderrKeepsOrder(c: Channel)
    requires Ordered(c) && c.err < |c.stderr|
    ensures Ordered(c.(err := c.err + 1, messages := c.messages + [c.stderr[c.err]]))
  {
  }

  lemma ReplacingKeepsInv(channels: seq<Channel>, i: nat, c: Channel)
    requires i < |channels| && Ordered(c) && AllOrdered(channels)
    ensures AllOrdered(channels[i := c])
  {
  }

  lemma ReaderKeepsInv(s: System, a: Action)
    requires Inv(s) && (a.StdoutSends? || a.StderrSends?)
    ensures Inv(Step(s, a))
  {
    if a.session < |s.channels| {
      var c := s.channels[a.session];
      if a.StdoutSends? && c.out < |c.stdout| {
        StdoutKeepsOrder(c);
        ReplacingKeepsInv(s.channels, a.session, c.(out := c.out + 1, messages := c.messages + [c.stdout[c.out]]));
      } else if a.StderrSends? && c.err < |c.stderr| {
        StderrKeepsOrder(c);
        ReplacingKeepsInv(s.channels, a.session, c.(err := c.err + 1, messages := c.messages + [c.stderr[c.err]]));
      }
    }
  }

  lemma ConsumeKeepsInv(s: System, a: Action)
    requires Inv(s) && a.Consume?
    ensures Inv(Step(s, a))
  {
    var i := |s.channels| - 1;
    var c := s.channels[i];
    if c.taken < |c.messages| { ReplacingKeepsInv(s.channels, i, c.(taken := c.taken + 1)); }
  }

  lemma OperatorKeepsInv(s: System, a: Action)
    requires Inv(s) && !a.StdoutSends? && !a.StderrSends? && !a.Consume?
    ensures Inv(Step(s, a))
  {
  }

  lemma StepKeepsInv(s: System, a: Action)
    requires Inv(s)
    ensures Inv(Step(s, a))
  {
    match a
    case StdoutSends(_) => ReaderKeepsInv(s, a);
    case StderrSends(_) => ReaderKeepsInv(s, a);
    case Consume(_) => ConsumeKeepsInv(s, a);
    case _ => OperatorKeepsInv(s, a);
  }

  lemma {:induction false} RunKeepsInv(s: System, actions: seq<Action>)
    requires Inv(s)
    ensures Inv(Run(s, actions))
    decreases |actions|
  {
    if actions != [] {
      StepKeepsInv(s, actions[0]);
      RunKeepsInv(Step(s, actions[0]), actions[1..]);
    }
  }

  lemma {:induction false} RunKeepsLog(s: System, actions: seq<Action>)
    requires s.channels != [] && LogInOrder(s)
    ensures LogInOrder(Run(s, actions))
    decreases |actions|
  {
    if actions != [] { RunKeepsLog(Step(s, actions[0]), actions[1..]); }
  }

  /** `m` is `a` and `b` shuffled together, each in its own order. */
  predicate IsMerge(m: seq<Message>, a: seq<Message>, b: seq<Message>) {
    if m == [] then a == [] && b == []
    else
      var n, x := |m| - 1, m[|m| - 1];
      || (a != [] && a[|a| - 1] == x && IsMerge(m[..n], a[..|a| - 1], b))
      || (b != [] && b[|b| - 1] == x && IsMerge(m[..n], a, b[..|b| - 1]))
  }

  lemma MergeGrows(m: seq<Message>, a: seq<Message>, b: seq<Message>, x: Message)
    requires IsMerge(m, a, b)
    ensures IsMerge(m + [x], a + [x], b) && IsMerge(m + [x], a, b + [x])
  {
    InitOfSnoc(m, x);
    InitOfSnoc(a, x);
    InitOfSnoc(b, x);
  }

  /** The channel holds what the two threads sent so far, all of it, each thread's messages in order. */
  ghost predicate Faithful(c: Channel) {
    c.out <= |c.stdout| && c.err <= |c.stderr| && IsMerge(c.messages, c.stdout[..c.out], c.stderr[..c.err])
  }

  lemma StdoutIsFaithful(c: Channel)
    requires Faithful(c) && c.out < |c.stdout|
    ensures Faithful(c.(out := c.out + 1, messages := c.messages + [c.stdout[c.out]]))
  {
    MergeGrows(c.messages, c.stdout[..c.out], c.stderr[..c.err], c.stdout[c.out]);
    assert c.stdout[..c.out + 1] == c.stdout[..c.out] + [c.stdout[c.out]];
  }

  lemma StderrIsFaithful(c: Channel)
    requires Faithful(c) && c.err < |c.stderr|
    ensures Faithful(c.(err := c.err + 1, messages := c.messages + [c.stderr[c.err]]))
  {
    MergeGrows(c.messages, c.stdout[..c.out], c.stderr[..c.err], c.stderr[c.err]);
    assert c.stderr[..c.err + 1] == c.stderr[..c.err] + [c.stderr[c.err]];
  }

  ghost predicate AllFaithful(s: System) {
    forall i :: 0 <= i < |s.channels| ==> Faithful(s.channels[i])
  }

  lemma StepKeepsFaithful(s: System, a: Action)
    requires AllFaithful(s)
    ensures AllFaithful(Step(s, a))
  {
    match a
    case StdoutSends(i) =>
      if i < |s.channels| && s.channels[i].out < |s.channels[i].stdout| { StdoutIsFaithful(s.channels[i]); }
    case StderrSends(i) =>
      if i < |s.channels| && s.channels[i].err < |s.channels[i].stderr| { StderrIsFaithful(s.channels[i]); }
    case OperatorRestarts(_, lines, errors, _) => NewChannelIsFaithful(lines, errors);
    case _ =>
  }

  lemma NewChannelIsFaithful(lines: seq<Line>, errors: seq<string>)
    ensures Faithful(NewChannel(lines, errors))
  {
    assert StdoutMessages(lines)[..0] == [] && StderrMessages(errors)[..0] == [];
  }

  lemma {:induction false} RunKeepsFaithful(s: System, actions: seq<Action>)
    requires AllFaithful(s)
    ensures AllFaithful(Run(s, actions))
    decreases |actions|
  {
    if actions != [] {
      StepKeepsFaithful(s, actions[0]);
      RunKeepsFaithful(Step(s, actions[0]), actions[1..]);
    }
  }

  // ----- what the client processes -----

  /** The messages the client processed of one session. */
  function Processed(log: seq<(nat, Message)>, n: nat): seq<Message> {
    if log == [] then []
    else
      var last := log[|log| - 1];
      Processed(log[..|log| - 1], n) + (if last.0 == n then [last.1] else [])
  }

  /** Of every channel the client processed exactly the messages it took, in the order they came. */
  ghost predicate LogIsTaken(s: System) {
    && (forall i :: 0 <= i < |s.log| ==> s.log[i].0 < |s.channels|)
    && forall n :: 0 <= n < |s.channels| ==> Follows(s.channels[n], Processed(s.log, n))
  }

  ghost predicate Follows(c: Channel, processed: seq<Message>) {
    c.taken <= |c.messages| && processed == c.messages[..c.taken]
  }

  lemma TakingFollows(c: Channel, processed: seq<Message>)
    requires Follows(c, processed) && c.taken < |c.messages|
    ensures Follows(c.(taken := c.taken + 1), processed + [c.messages[c.taken]])
  {
    assert c.messages[..c.taken + 1] == c.messages[..c.taken] + [c.messages[c.taken]];
  }

  lemma ProcessedGrows(log: seq<(nat, Message)>, i: nat, m: Message, n: nat)
    ensures Processed(log + [(i, m)], n) == if n == i then Processed(log, n) + [m] else Processed(log, n)
  {
    InitOfSnoc(log, (i, m));
  }

  lemma {:induction false} NoneOfNewSession(log: seq<(nat, Message)>, n: nat)
    requires forall i :: 0 <= i < |log| ==> log[i].0 < n
    ensures Processed(log, n) == []
  {
    if log != [] { NoneOfNewSession(log[..|log| - 1], n); }
  }

  lemma ConsumeKeepsTaken(s: System, ok: bool)
    requires LogIsTaken(s)
    ensures LogIsTaken(Step(s, Consume(ok)))
  {
    if s.channels != [] && s.channels[|s.channels| - 1].taken < |s.channels[|s.channels| - 1].messages| {
      var i, c := |s.channels| - 1, s.channels[|s.channels| - 1];
      TakingFollows(c, Processed(s.log, i));
      forall n | 0 <= n < |s.channels|
        ensures Follows(s.channels[i := c.(taken := c.taken + 1)][n], Processed(s.log + [(i, c.messages[c.taken])], n))
      {
        ProcessedGrows(s.log, i, c.messages[c.taken], n);
      }
    }
  }

  lemma StepKeepsTaken(s: System, a: Action)
    requires LogIsTaken(s)
    ensures LogIsTaken(Step(s, a))
  {
    match a
    case Consume(ok) => ConsumeKeepsTaken(s, ok);
    case StdoutSends(_) => ReaderKeepsTaken(s, a);
    case StderrSends(_) => ReaderKeepsTaken(s, a);
    case OperatorRestarts(_, _, _, _) => RestartKeepsTaken(s, a);
    case _ => assert Step(s, a).channels == s.channels && Step(s, a).log == s.log;
  }

  lemma SendingFollows(c: Channel, processed: seq<Message>, m: Message)
    requires Follows(c, processed)
    ensures Follows(c.(out := c.out + 1, messages := c.messages + [m]), processed)
    ensures Follows(c.(err := c.err + 1, messages := c.messages + [m]), processed)
  {
  }

  lemma ReaderKeepsTaken(s: System, a: Action)
    requires LogIsTaken(s) && (a.StdoutSends? || a.StderrSends?)
    ensures LogIsTaken(Step(s, a))
  {
    var i := a.session;
    if i < |s.channels| {
      var c := s.channels[i];
      if a.StdoutSends? && c.out < |c.stdout| { SendingFollows(c, Processed(s.log, i), c.stdout[c.out]); }
      if a.StderrSends? && c.err < |c.stderr| { SendingFollows(c, Processed(s.log, i), c.stderr[c.err]); }
    }
  }

  lemma RestartKeepsTaken(s: System, a: Action)
    requires LogIsTaken(s) && a.OperatorRestarts?
    ensures LogIsTaken(Step(s, a))
  {
    NoneOfNewSession(s.log, |s.channels|);
    if a.started { OpeningKeepsTaken(s, NewChannel(a.lines, a.errors)); }
  }

  lemma OpeningKeepsTaken(s: System, c: Channel)
    requires LogIsTaken(s) && c.taken == 0 && Processed(s.log, |s.channels|) == []
    ensures LogIsTaken(s.(channels := s.channels + [c]))
  {
    assert Follows(c, []);
  }

  lemma {:induction false} RunKeepsTaken(s: System, actions: seq<Action>)
    requires LogIsTaken(s)
    ensures LogIsTaken(Run(s, actions))
    decreases |actions|
  {
    if actions != [] {
      StepKeepsTaken(s, actions[0]);
      RunKeepsTaken(Step(s, actions[0]), actions[1..]);
    }
  }

  /** `later` continues `log`, with messages of session `n` or newer ones only. */
  ghost predicate ContinuesWith(log: seq<(nat, Message)>, later: seq<(nat, Message)>, n: nat) {
    && |log| <= |later| && later[..|log|] == log
    && forall k :: |log| <= k < |later| ==> later[k].0 >= n
  }

  /**
   From any moment on, whatever is processed belongs to the session the client is in or to a later
   one. After a restart that is the new session: nothing of an old one is processed any more.
   */
  lemma {:induction false} NothingOldIsProcessed(s: System, actions: seq<Action>, n: nat)
    requires n < |s.channels|
    ensures ContinuesWith(s.log, Run(s, actions).log, n)
    decreases |actions|
  {
    if actions != [] {
      var t := Step(s, actions[0]);
      NothingOldIsProcessed(t, actions[1..], n);
      assert ContinuesWith(s.log, t.log, n);
      ContinuesCompose(s.log, t.log, Run(s, actions).log, n);
    }
  }

  lemma ContinuesCompose(a: seq<(nat, Message)>, b: seq<(nat, Message)>, c: seq<(nat, Message)>, n: nat)
    requires ContinuesWith(a, b, n) && ContinuesWith(b, c, n)
    ensures ContinuesWith(a, c, n)
  {
    assert c[..|a|] == c[..|b|][..|a|];
    assert forall k :: |a| <= k < |b| ==> c[k] == c[..|b|][k];
  }

  /**
   In every interleaving: a session's channel is a merge of what its two threads sent, complete and in
   their order; no event and no second `Closed` follows `Closed`; the client processes of each session
   exactly the messages it took, in channel order, and the sessions one after the other.
   */
  lemma NoEventAfterClosed(lines: seq<Line>, errors: seq<string>, ok: bool, actions: seq<Action>)
    ensures var s := Run(Initial(lines, errors, ok), actions);
            && (forall n :: 0 <= n < |s.channels| ==> ClosedEndsEvents(s.channels[n].messages))
            && AllFaithful(s) && LogIsTaken(s) && LogInOrder(s)
  {
    var s0 := Initial(lines, errors, ok);
    var s := Run(s0, actions);
    RunKeepsInv(s0, actions);
    NewChannelIsFaithful(lines, errors);
    RunKeepsFaithful(s0, actions);
    RunKeepsTaken(s0, actions);
    RunKeepsLog(s0, actions);
    forall n | 0 <= n < |s.channels| ensures Ordered(s.channels[n]) {
    }
  }

  // ----- offline -----

  /** The client has processed message `i` of its session, `Closed`, and not reconnected since. */
  ghost predicate OfflineSince(s: System, i: nat) {
    && Inv(s) && !s.client.connected
    && var c := s.channels[|s.channels| - 1];
       i < c.taken && c.messages[i].Closed?
  }

  ghost predicate Offline(s: System) {
    exists i :: OfflineSince(s, i)
  }

  predicate Reconnects(a: Action) {
    a.OperatorRestarts? && a.started
  }

  /** Offline texts: everything accepted while offline, in order, at the end of the queue. */
  ghost predicate OnlyQueues(before: Client, after: Client) {
    && before.accepted <= after.accepted
    && after.queue == before.queue + after.accepted[|before.accepted|..]
    && after.prompts == before.prompts
  }

  /** Handling `Closed` puts the client offline. */
  lemma ClosedGoesOffline(s: System, ok: bool)
    requires Inv(s) && s.channels[|s.channels| - 1].taken < |s.channels[|s.channels| - 1].messages|
    requires s.channels[|s.channels| - 1].messages[s.channels[|s.channels| - 1].taken] == Closed
    ensures Offline(Step(s, Consume(ok)))
  {
    StepKeepsInv(s, Consume(ok));
    assert OfflineSince(Step(s, Consume(ok)), s.channels[|s.channels| - 1].taken);
  }

  lemma NothingNew(c: Client, d: Client)
    requires d.accepted == c.accepted && d.queue == c.queue && d.prompts == c.prompts
    ensures OnlyQueues(c, d)
  {
    assert d.accepted[|c.accepted|..] == [];
    EmptyAppend(c.queue);
  }

  lemma OneHeld(c: Client, d: Client, text: string)
    requires d.accepted == c.accepted + [text] && d.queue == c.queue + [text] && d.prompts == c.prompts
    ensures OnlyQueues(c, d)
  {
    assert d.accepted[|c.accepted|..] == [text];
  }

  /** What the operator can do to a disconnected client. */
  lemma OperatorOffline(c: Client, input: string, mode: string, hasRun: bool, ok: bool)
    requires !c.connected
    ensures !Submit(c, input, hasRun, ok).connected && OnlyQueues(c, Submit(c, input, hasRun, ok))
    ensures !Retry(c, ok).connected && OnlyQueues(c, Retry(c, ok))
    ensures !CycleMode(c, mode, ok).connected && OnlyQueues(c, CycleMode(c, mode, ok))
    ensures !Interrupt(c, hasRun, ok).connected && OnlyQueues(c, Interrupt(c, hasRun, ok))
  {
    var text := Trim(input);
    if text == "" || IsStop(text) { NothingNew(c, Submit(c, input, hasRun, ok)); }
    else { OneHeld(c, Submit(c, input, hasRun, ok), text); }
    if c.last.None? { NothingNew(c, Retry(c, ok)); } else { OneHeld(c, Retry(c, ok), c.last.value); }
    OneHeld(c, CycleMode(c, mode, ok), "/mode " + mode);
    NothingNew(c, Interrupt(c, hasRun, ok));
  }

  /** Only errors are left to be taken. */
  lemma OfflineTakesErrors(s: System, i: nat)
    requires OfflineSince(s, i)
    ensures var c := s.channels[|s.channels| - 1]; c.taken < |c.messages| ==> c.messages[c.taken].Error?
  {
    assert Ordered(s.channels[|s.channels| - 1]);
  }

  lemma ChannelKeepsMessages(s: System, a: Action, i: nat)
    requires s.channels != [] && !Reconnects(a)
    requires var c := s.channels[|s.channels| - 1]; i < c.taken <= |c.messages|
    ensures |Step(s, a).channels| == |s.channels|
    ensures var c, d := s.channels[|s.channels| - 1], Step(s, a).channels[|s.channels| - 1];
            i < d.taken && i < |d.messages| && d.messages[i] == c.messages[i]
  {
  }

  lemma OfflineStep(s: System, a: Action, i: nat)
    requires OfflineSince(s, i) && !Reconnects(a)
    ensures OfflineSince(Step(s, a), i) && OnlyQueues(s.client, Step(s, a).client)
  {
    StepKeepsInv(s, a);
    assert Ordered(s.channels[|s.channels| - 1]);
    ChannelKeepsMessages(s, a, i);
    OfflineTakesErrors(s, i);
    OfflineClient(s, a, i);
  }

  lemma OfflineClient(s: System, a: Action, i: nat)
    requires OfflineSince(s, i) && !Reconnects(a)
    requires var c := s.channels[|s.channels| - 1]; c.taken < |c.messages| ==> c.messages[c.taken].Error?
    ensures !Step(s, a).client.connected && OnlyQueues(s.client, Step(s, a).client)
  {
    match a
    case OperatorSubmits(input, hasRun, ok) => OperatorOffline(s.client, input, "", hasRun, ok);
    case OperatorRetries(ok) => OperatorOffline(s.client, "", "", true, ok);
    case OperatorCyclesMode(mode, ok) => OperatorOffline(s.client, "", mode, true, ok);
    case OperatorInterrupts(hasRun, ok) => OperatorOffline(s.client, "", "", hasRun, ok);
    case _ => NothingNew(s.client, Step(s, a).client);
  }

  /**
   Once `Closed` is handled, and until a restart succeeds, whatever the readers and the operator
   do: the client stays disconnected, no prompt text is handed to a backend, and exactly the texts
   accepted meanwhile are appended to the queue.
   */
  lemma {:induction false} OfflineUntilRestart(s: System, actions: seq<Action>)
    requires Offline(s) && forall i :: 0 <= i < |actions| ==> !Reconnects(actions[i])
    ensures Offline(Run(s, actions)) && OnlyQueues(s.client, Run(s, actions).client)
    decreases |actions|
  {
    if actions != [] {
      var s' := Step(s, actions[0]);
      var i :| OfflineSince(s, i);
      OfflineStep(s, actions[0], i);
      OfflineUntilRestart(s', actions[1..]);
      QueuesCompose(s.client, s'.client, Run(s, actions).client);
    } else {
      NothingNew(s.client, s.client);
    }
  }

  lemma QueuesCompose(x: Client, y: Client, z: Client)
    requires OnlyQueues(x, y) && OnlyQueues(y, z)
    ensures OnlyQueues(x, z)
  {
    assert z.accepted[|x.accepted|..] == y.accepted[|x.accepted|..] + z.accepted[|y.accepted|..];
  }

  // ----- conservation -----

  /** Nothing is lost or sent twice. */
  ghost predicate Conserved(c: Client) {
    && c.enqueued == c.dequeued + c.queue
    && multiset(c.accepted) == multiset(c.prompts) + multiset(c.queue)
  }

  lemma AcceptedIsKept(c: Client, text: string, ok: bool)
    requires Conserved(c)
    ensures Conserved(Hold(Accept(c, text), text)) && Conserved(Dispatch(Accept(c, text), text, ok))
  {
  }

  lemma DispatchNextConserves(c: Client, ok: bool)
    requires Conserved(c)
    ensures Conserved(DispatchNext(c, ok))
  {
    if c.queue != [] {
      assert c.queue == [c.queue[0]] + c.queue[1..];
    }
  }

  lemma SubmitConserves(c: Client, input: string, hasRun: bool, ok: bool)
    requires Conserved(c)
    ensures Conserved(Submit(c, input, hasRun, ok))
  {
    AcceptedIsKept(c.(last := Some(Trim(input))), Trim(input), ok);
  }

  lemma ReceiveConserves(c: Client, m: Message, ok: bool)
    requires Conserved(c)
    ensures Conserved(Receive(c, m, ok))
  {
    DispatchNextConserves(c.(connected := true, inFlight := false), ok);
  }

  lemma StepConserves(s: System, a: Action)
    requires Conserved(s.client)
    ensures Conserved(Step(s, a).client)
  {
    match a
    case Consume(ok) =>
      if s.channels != [] {
        var c := s.channels[|s.channels| - 1];
        if c.taken < |c.messages| { ReceiveConserves(s.client, c.messages[c.taken], ok); }
      }
    case OperatorSubmits(input, hasRun, ok) => SubmitConserves(s.client, input, hasRun, ok);
    case OperatorRetries(ok) => if s.client.last.Some? { AcceptedIsKept(s.client, s.client.last.value, ok); }
    case OperatorCyclesMode(mode, ok) => AcceptedIsKept(s.client, "/mode " + mode, ok);
    case _ =>
  }

  /**
   In every reachable state the texts ever enqueued are those dequeued followed by the queue, and
   every accepted text was handed to the backend once or is still queued.
   */
  lemma {:induction false} RunConserves(s: System, actions: seq<Action>)
    requires Conserved(s.client)
    ensures Conserved(Run(s, actions).client)
    decreases |actions|
  {
    if actions != [] {
      StepConserves(s, actions[0]);
      RunConserves(Step(s, actions[0]), actions[1..]);
    }
  }

  function Terminals(messages: seq<Message>): nat {
    if messages == [] then 0
    else (if messages[0].Event? && IsTerminal(messages[0].kind) then 1 else 0) + Terminals(messages[1..])
  }

  /** The client after its first `k` queued texts were handed over. */
  ghost predicate HandedOver(c: Client, d: Client, k: nat) {
    && k <= |c.queue|
    && d.prompts == c.prompts + c.queue[..k]
    && d.dequeued == c.dequeued + c.queue[..k]
    && d.queue == c.queue[k..]
  }

  lemma ReceiveHandsOver(c: Client, m: Message, ok: bool)
    ensures HandedOver(c, Receive(c, m, ok), Min(Terminals([m]), |c.queue|))
  {
    assert c.queue[..0] == [];
    if c.queue != [] { assert c.queue[..1] == [c.queue[0]]; }
  }

  lemma HandOverCompose(c: Client, d: Client, e: Client, t: nat, n: nat)
    requires HandedOver(c, d, Min(t, |c.queue|)) && HandedOver(d, e, Min(n, |d.queue|))
    ensures HandedOver(c, e, Min(t + n, |c.queue|))
  {
    var j, k := Min(t, |c.queue|), Min(n, |d.queue|);
    PrefixesCompose(c.queue, j, k);
    assert j + k == Min(t + n, |c.queue|);
  }

  lemma PrefixesCompose(q: seq<string>, j: nat, k: nat)
    requires j + k <= |q|
    ensures q[..j] + q[j..][..k] == q[..j + k] && q[j..][k..] == q[j + k..]
  {
  }

  /**
   With no new input, draining messages that hold `n` terminal events hands exactly the first `n`
   queued texts to the backend, in order, however the sends turn out.
   */
  lemma {:induction false} TerminalsDrainTheQueue(c: Client, messages: seq<Message>, oks: seq<bool>)
    requires |oks| == |messages|
    ensures HandedOver(c, ReceiveAll(c, messages, oks), Min(Terminals(messages), |c.queue|))
    decreases |messages|
  {
    if messages == [] {
      assert c.queue[..0] == [];
    } else {
      var d := Receive(c, messages[0], oks[0]);
      TerminalsDrainTheQueue(d, messages[1..], oks[1..]);
      ReceiveHandsOver(c, messages[0], oks[0]);
      HandOverCompose(c, d, ReceiveAll(d, messages[1..], oks[1..]), Terminals([messages[0]]), Terminals(messages[1..]));
      FirstTerminal(messages);
    }
  }

  lemma FirstTerminal(messages: seq<Message>)
    requires messages != []
    ensures Terminals(messages) == Terminals([messages[0]]) + Terminals(messages[1..])
  {
    assert [messages[0]][1..] == [];
  }


  // ----- order of acceptance -----

  /** Texts are handed over in the order they were accepted. */
  ghost predicate InOrder(c: Client) {
    c.accepted == c.prompts + c.queue
  }

  /** The text an action makes the client accept. */
  function TextOf(c: Client, a: Action): Option<string> {
    match a
    case OperatorSubmits(input, _, _) =>
      if Trim(input) == "" || IsStop(Trim(input)) then None else Some(Trim(input))
    case OperatorRetries(_) => c.last
    case OperatorCyclesMode(mode, _) => Some("/mode " + mode)
    case _ => None
  }

  /**
   The action sends its text past prompts that wait: the client is connected, and nothing is in
   flight, or the text is a mode switch, which does not ask.
   */
  predicate Overtakes(c: Client, a: Action) {
    && c.connected && c.queue != [] && TextOf(c, a).Some?
    && (!c.inFlight || a.OperatorCyclesMode?)
  }

  /** Overtaking shows only when a different text waits. */
  predicate Reorders(c: Client, a: Action) {
    Overtakes(c, a) && exists q :: q in c.queue && q != TextOf(c, a).value
  }

  lemma Commute(queue: seq<string>, text: string)
    ensures queue + [text] == [text] + queue <==> forall q :: q in queue ==> q == text
  {
    if queue + [text] == [text] + queue {
      forall i | 0 <= i < |queue| ensures queue[i] == text { CommuteAt(queue, text, i); }
    }
    if forall q :: q in queue ==> q == text {
      assert forall i :: 0 <= i < |queue| ==> queue[i] in queue;
      assert queue + [text] == [text] + queue;
    }
  }

  lemma {:induction false} CommuteAt(queue: seq<string>, text: string, i: nat)
    requires queue + [text] == [text] + queue && i < |queue|
    ensures queue[i] == text
  {
    assert (queue + [text])[i] == ([text] + queue)[i];
    if i > 0 { CommuteAt(queue, text, i - 1); }
  }

  /** A text is accepted: held, the order stays; sent past the queue, it stays only if all texts agree. */
  lemma AcceptOrder(c: Client, held: Client, sent: Client, text: string)
    requires InOrder(c)
    requires held.accepted == sent.accepted == c.accepted + [text]
    requires held.prompts == c.prompts && held.queue == c.queue + [text]
    requires sent.prompts == c.prompts + [text] && sent.queue == c.queue
    ensures InOrder(held)
    ensures InOrder(sent) <==> forall q :: q in c.queue ==> q == text
  {
    assert held.accepted == c.prompts + (c.queue + [text]);
    assert sent.prompts + sent.queue == c.prompts + ([text] + c.queue);
    if InOrder(sent) {
      assert (c.prompts + (c.queue + [text]))[|c.prompts|..] == c.queue + [text];
      assert (c.prompts + ([text] + c.queue))[|c.prompts|..] == [text] + c.queue;
    }
    Commute(c.queue, text);
  }

  lemma DispatchNextOrder(c: Client, ok: bool)
    requires InOrder(c)
    ensures InOrder(DispatchNext(c, ok))
  {
    if c.queue != [] { assert c.queue == [c.queue[0]] + c.queue[1..]; }
  }

  lemma ReceiveOrder(c: Client, m: Message, ok: bool)
    requires InOrder(c)
    ensures InOrder(Receive(c, m, ok))
  {
    DispatchNextOrder(c.(connected := true, inFlight := false), ok);
  }

  /**
   One step keeps the order of acceptance if and only if it does not send a text past a different one
   that waits: whatever the messages are, and whether or not sends and restarts succeed.
   */
  lemma StepOrder(s: System, a: Action)
    requires InOrder(s.client)
    ensures InOrder(Step(s, a).client) <==> !Reorders(s.client, a)
  {
    var c, text := s.client, TextOf(s.client, a);
    if text.Some? {
      var held := c.(accepted := c.accepted + [text.value], queue := c.queue + [text.value]);
      var sent := c.(accepted := c.accepted + [text.value], prompts := c.prompts + [text.value]);
      AcceptOrder(c, held, sent, text.value);
      AcceptedEither(s, a, text.value);
    } else if a.Consume? {
      ConsumeOrder(s, a.ok);
    }
  }

  lemma ConsumeOrder(s: System, ok: bool)
    requires InOrder(s.client)
    ensures InOrder(Step(s, Consume(ok)).client)
  {
    if s.channels != [] {
      var c := s.channels[|s.channels| - 1];
      if c.taken < |c.messages| { ReceiveOrder(s.client, c.messages[c.taken], ok); }
    }
  }

  /** An accepted text is sent at once, or goes to the end of the queue. */
  lemma AcceptedEither(s: System, a: Action, text: string)
    requires TextOf(s.client, a) == Some(text)
    ensures var c, d := s.client, Step(s, a).client;
            && d.accepted == c.accepted + [text]
            && if c.connected && (!c.inFlight || a.OperatorCyclesMode?)
               then d.prompts == c.prompts + [text] && d.queue == c.queue
               else d.prompts == c.prompts && d.queue == c.queue + [text]
  {
  }

  ghost predicate AlwaysInOrder(s: System, actions: seq<Action>)
    decreases |actions|
  {
    InOrder(s.client) && (actions != [] ==> AlwaysInOrder(Step(s, actions[0]), actions[1..]))
  }

  predicate NoneReorders(s: System, actions: seq<Action>)
    decreases |actions|
  {
    actions == [] || (!Reorders(s.client, actions[0]) && NoneReorders(Step(s, actions[0]), actions[1..]))
  }

  /** Over every run: the texts are in order at every moment if and only if no step reorders. */
  lemma {:induction false} RunOrder(s: System, actions: seq<Action>)
    requires InOrder(s.client)
    ensures AlwaysInOrder(s, actions) <==> NoneReorders(s, actions)
    ensures NoneReorders(s, actions) ==> InOrder(Run(s, actions).client)
    decreases |actions|
  {
    if actions != [] {
      StepOrder(s, actions[0]);
      if !Reorders(s.client, actions[0]) { RunOrder(Step(s, actions[0]), actions[1..]); }
    }
  }

  /** So for every session from its start, with all its messages, failures and reconnects. */
  lemma SessionOrder(lines: seq<Line>, errors: seq<string>, ok: bool, actions: seq<Action>)
    ensures AlwaysInOrder(Initial(lines, errors, ok), actions) <==> NoneReorders(Initial(lines, errors, ok), actions)
  {
    RunOrder(Initial(lines, errors, ok), actions);
  }

  /** A step that reorders is reachable: one stderr line clears `in_flight` without draining the queue. */
  lemma OvertakingIsReachable(first: string, second: string, line: string)
    requires forall t :: t in [first, second] ==> Trimmed(t) && t != "" && !IsStop(t)
    requires !AllBlank(line)
    ensures var s := Run(Initial([], [line], true), [OperatorSubmits(first, false, true), StderrSends(0),
                                                     Consume(true), OperatorSubmits(second, false, true)]);
            s.client.accepted == [first, second] && s.client.prompts == [second] && s.client.queue == [first]
  {
    var submitFirst, submitSecond := OperatorSubmits(first, false, true), OperatorSubmits(second, false, true);
    assert first in [first, second] && second in [first, second];
    var s0 := Initial([], [line], true);
    var s1 := Step(s0, submitFirst);
    ErrorIsTaken(s1, line);
    var s3 := Step(Step(s1, StderrSends(0)), Consume(true));
    RunFour(s0, submitFirst, StderrSends(0), Consume(true), submitSecond);
  }

  lemma ErrorIsTaken(s: System, line: string)
    requires s.channels == [NewChannel([], [line])] && !AllBlank(line)
    ensures Step(Step(s, StderrSends(0)), Consume(true)).client == s.client.(inFlight := false)
  {
    assert StderrMessages([line]) == [Error(line)];
  }

  lemma RunFour(s: System, a: Action, b: Action, c: Action, d: Action)
    ensures Run(s, [a, b, c, d]) == Step(Step(Step(Step(s, a), b), c), d)
  {
    var s1 := Step(s, a);
    var s2 := Step(s1, b);
    var s3 := Step(s2, c);
    assert [d][1..] == [] && [c, d][1..] == [d] && [b, c, d][1..] == [c, d] && [a, b, c, d][1..] == [b, c, d];
    assert Run(s3, [d]) == Run(Step(s3, d), []);
    assert Run(s2, [c, d]) == Run(s3, [d]);
    assert Run(s1, [b, c, d]) == Run(s2, [c, d]);
  }
}
