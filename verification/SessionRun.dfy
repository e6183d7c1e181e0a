/** The client at work: `SessionClient` among the threads and the operator, over whole sessions. */
module SessionRun {
  import opened Session
  import opened SessionSafety

  class Host {
    const client: SessionClient
    /** The channels opened so far; the client reads the last one. The readers advance them. */
    var channels: seq<Channel>
    ghost var log: seq<(nat, Message)>

    ghost function State(): System
      reads this, client
    {
      System(client.State(), channels, log)
    }

    constructor (lines: seq<Line>, errors: seq<string>, ok: bool)
      ensures fresh(client) && State() == Initial(lines, errors, ok)
    {
      client := new SessionClient(ok);
      channels, log := [NewChannel(lines, errors)], [];
    }

    /** A reader thread puts its next message into its channel. */
    method ReaderSends(a: Action)
      requires a.StdoutSends? || a.StderrSends?
      modifies this`channels
      ensures State() == Step(old(State()), a)
    {
      var i := a.session;
      if i < |channels| {
        var c := channels[i];
        if a.StdoutSends? && c.out < |c.stdout| {
          channels := channels[i := c.(out := c.out + 1, messages := c.messages + [c.stdout[c.out]])];
        } else if a.StderrSends? && c.err < |c.stderr| {
          channels := channels[i := c.(err := c.err + 1, messages := c.messages + [c.stderr[c.err]])];
        }
      }
    }

    /** One turn of the loop in `drain_worker`: `try_recv`, and the message's handler. */
    method TakeMessage(ok: bool)
      modifies this, client
      ensures State() == Step(old(State()), Consume(ok))
    {
      if channels != [] {
        var i := |channels| - 1;
        var c := channels[i];
        if c.taken < |c.messages| {
          client.HandleMessage(c.messages[c.taken], ok);
          channels := channels[i := c.(taken := c.taken + 1)];
          log := log + [(i, c.messages[c.taken])];
        }
      }
    }

    method Restart(started: bool, lines: seq<Line>, errors: seq<string>, ok: bool)
      modifies this, client
      ensures State() == Step(old(State()), OperatorRestarts(started, lines, errors, ok))
    {
      client.RestartBackend(started, ok);
      if started {
        channels := channels + [NewChannel(lines, errors)];
      }
    }

    /** One step, routed to its method. */
    method Perform(a: Action)
      modifies this, client
      ensures State() == Step(old(State()), a)
    {
      match a
      case StdoutSends(_) => ReaderSends(a);
      case StderrSends(_) => ReaderSends(a);
      case Consume(ok) => TakeMessage(ok);
      case OperatorSubmits(input, hasRun, ok) => client.SubmitInput(input, hasRun, ok);
      case OperatorRetries(ok) => client.RetryLastPrompt(ok);
      case OperatorCyclesMode(mode, ok) => client.CyclePermissionMode(mode, ok);
      case OperatorInterrupts(hasRun, ok) => client.RequestInterrupt(hasRun, ok);
      case OperatorDecides(ok) => client.SendDecision(ok);
      case OperatorRestarts(started, lines, errors, ok) => Restart(started, lines, errors, ok);
    }

    /** A whole session with its reconnects: fields and history are those of the run the theorems are about. */
    method PerformAll(actions: seq<Action>)
      modifies this, client
      ensures State() == Run(old(State()), actions)
    {
      for n := 0 to |actions|
        invariant Run(State(), actions[n..]) == Run(old(State()), actions)
      {
        assert actions[n..][0] == actions[n] && actions[n..][1..] == actions[n + 1..];
        Perform(actions[n]);
      }
    }

    /** So a client started anew has lost nothing and sent nothing twice, whatever happened. */
    method PerformFromStart(actions: seq<Action>)
      requires Conserved(client.State()) && Inv(State())
      modifies this, client
      ensures State() == Run(old(State()), actions)
      ensures Conserved(client.State()) && Inv(State())
    {
      PerformAll(actions);
      RunConserves(old(State()), actions);
      RunKeepsInv(old(State()), actions);
    }
  }
}
