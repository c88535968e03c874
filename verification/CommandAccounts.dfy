/**
 What becomes of every command (python/services/orchestrator/main.py): commands leave the queue in the order they
 arrived, one is refused only when sixteen are waiting, an abort that is taken is sent and never starts a
 mission, and a decision sends no more tool calls than the VLM asked for.
*/
module CommandAccounts {
  import opened Messages
  import opened CommandThreads

  // ---------------------------------------------------------------- where every command is

  /** The commands received and not refused, in order: a refusal concerns the one received last. */
  ghost function Kept(trace: seq<Event>): seq<Command> {
    if trace == [] then []
    else
      var n := |trace| - 1;
      AfterEvent(Kept(trace[..n]), trace[n])
  }

  function AfterEvent(kept: seq<Command>, e: Event): seq<Command> {
    if e.Received? then kept + [e.cmd]
    else if e.Refused? && kept != [] then kept[..|kept| - 1]
    else kept
  }

  /** The commands that have left the queue, to the main thread or drained by an abort, in order. */
  ghost function Gone(trace: seq<Event>): seq<Command> {
    if trace == [] then []
    else
      var n := |trace| - 1;
      if trace[n].Took? || trace[n].Drained? then Gone(trace[..n]) + [trace[n].cmd] else Gone(trace[..n])
  }

  lemma AccountsMore(trace: seq<Event>, e: Event)
    ensures Kept(trace + [e]) == AfterEvent(Kept(trace), e)
    ensures Gone(trace + [e]) == if e.Took? || e.Drained? then Gone(trace) + [e.cmd] else Gone(trace)
  {
    assert (trace + [e])[..|trace|] == trace;
  }

  /** The command the command thread has received and not put yet. */
  ghost function InHand(ct: CommandThread): seq<Command> {
    if ct.Draining? || ct.PuttingAbort? || ct.Putting? then [ct.cmd] else []
  }

  ghost predicate Accounted(s: State) { Gone(s.trace) + s.queue + InHand(s.ct) == Kept(s.trace) }

  /** At every refusal there were seventeen commands about: sixteen waiting and the one refused, the last received. */
  ghost predicate RefusedWhenFull(trace: seq<Event>) {
    forall i :: 0 <= i < |trace| && trace[i].Refused? ==> FullFor(trace[..i], trace[i].cmd)
  }

  ghost predicate FullFor(trace: seq<Event>, cmd: Command) {
    |Kept(trace)| - |Gone(trace)| == 17 && Kept(trace)[|Kept(trace)| - 1] == cmd
  }

  lemma HeadGoes(gone: seq<Command>, queue: seq<Command>, hand: seq<Command>)
    requires queue != []
    ensures (gone + [queue[0]]) + queue[1..] + hand == gone + queue + hand
  {
  }

  lemma HandGoes(gone: seq<Command>, queue: seq<Command>, cmd: Command)
    ensures gone + (queue + [cmd]) + [] == gone + queue + [cmd]
  {
  }

  /** The last command received is given up. */
  lemma HandDropped(gone: seq<Command>, queue: seq<Command>, cmd: Command)
    ensures var all := gone + queue + [cmd]; all[..|all| - 1] == gone + queue + []
  {
  }

  lemma AccountedPut(s: State, step: Step)
    requires Accounted(s) && QueueSound(s) && Enabled(s, step) && (step.PutAbort? || step.PutNormal?)
    ensures Accounted(Next(s, step))
    ensures Logged(s, step).Some? && Logged(s, step).value.Refused? ==> FullFor(s.trace, Logged(s, step).value.cmd)
  {
    var cmd := s.ct.cmd;
    if |s.queue| < 16 {
      HandGoes(Gone(s.trace), s.queue, cmd);
      assert Next(s, step).queue == s.queue + [cmd];
    } else {
      AccountsMore(s.trace, Refused(cmd));
      HandDropped(Gone(s.trace), s.queue, cmd);
    }
  }

  lemma AccountedTake(s: State, step: Step)
    requires Accounted(s) && Enabled(s, step) && (step.Get? || step.Drain?)
    ensures Accounted(Next(s, step))
  {
    if s.queue != [] {
      AccountsMore(s.trace, if step.Get? then Took(s.queue[0]) else Drained(s.queue[0]));
      HeadGoes(Gone(s.trace), s.queue, InHand(s.ct));
    }
  }

  lemma AccountedReceive(s: State, step: Step)
    requires Accounted(s) && Enabled(s, step) && step.Receive?
    ensures Accounted(Next(s, step))
  {
    var cmd := Command(s.arrived, step.isAbort, step.saysAbort);
    AccountsMore(s.trace, Received(cmd));
    assert Gone(s.trace) + s.queue + [] == Gone(s.trace) + s.queue;
  }

  /** The other steps move no command. */
  lemma AccountedRest(s: State, step: Step)
    requires Accounted(s) && Enabled(s, step)
    requires !step.PutAbort? && !step.PutNormal? && !step.Get? && !step.Drain? && !step.Receive?
    ensures Accounted(Next(s, step))
    ensures Logged(s, step).Some? ==> !Logged(s, step).value.Refused?
  {
    StepLogs(s, step);
    if Logged(s, step).Some? {
      AccountsMore(s.trace, Logged(s, step).value);
    }
  }

  lemma AccountedKept(s: State, step: Step)
    requires Accounted(s) && QueueSound(s) && Enabled(s, step)
    ensures Accounted(Next(s, step))
    ensures Logged(s, step).Some? && Logged(s, step).value.Refused? ==> FullFor(s.trace, Logged(s, step).value.cmd)
  {
    if step.PutAbort? || step.PutNormal? {
      AccountedPut(s, step);
    } else if step.Get? || step.Drain? {
      AccountedTake(s, step);
    } else if step.Receive? {
      AccountedReceive(s, step);
    } else {
      AccountedRest(s, step);
    }
  }

  lemma RefusedMore(trace: seq<Event>, e: Event)
    requires RefusedWhenFull(trace) && (e.Refused? ==> FullFor(trace, e.cmd))
    ensures RefusedWhenFull(trace + [e])
  {
    var more := trace + [e];
    assert more[..|trace|] == trace;
    assert forall i :: 0 <= i < |trace| ==> more[..i] == trace[..i];
  }

  lemma {:induction false} AccountsReachable(steps: seq<Step>)
    requires After(steps).Some?
    ensures Accounted(After(steps).value) && RefusedWhenFull(After(steps).value.trace)
  {
    if steps != [] {
      var s := After(steps[..|steps| - 1]).value;
      var step := steps[|steps| - 1];
      AccountsReachable(steps[..|steps| - 1]);
      SoundReachable(steps[..|steps| - 1]);
      AccountedKept(s, step);
      StepLogs(s, step);
      if Logged(s, step).Some? {
        RefusedMore(s.trace, Logged(s, step).value);
      }
    }
  }

  /**
   Conservation and order, over every interleaving: the commands that left the queue, those in it and the one on
   its way into it are, in this order, exactly the commands received and not refused; and a command is refused
   exactly when it comes in and sixteen are waiting.
  */
  lemma EveryCommandAccounted(steps: seq<Step>)
    requires After(steps).Some?
    ensures var s := After(steps).value;
      && Gone(s.trace) + s.queue + InHand(s.ct) == Kept(s.trace)
      && |s.queue| <= 16
      && (forall i :: 0 <= i < |s.trace| && s.trace[i].Refused? ==>
           && |Kept(s.trace[..i])| - |Gone(s.trace[..i])| == 17
           && Kept(s.trace[..i])[|Kept(s.trace[..i])| - 1] == s.trace[i].cmd)
      && (s.ct.Receiving? ==> |Kept(s.trace)| - |Gone(s.trace)| <= 16)
  {
    AccountsReachable(steps);
    SoundReachable(steps);
    var s := After(steps).value;
    forall i | 0 <= i < |s.trace| && s.trace[i].Refused? ensures FullFor(s.trace[..i], s.trace[i].cmd) {
    }
  }

  // ---------------------------------------------------------------- what is done with a command taken

  /** An abort by its flag on the wire, or by its words. */
  predicate Aborting(cmd: Command) { cmd.isAbort || cmd.saysAbort }

  /** The command taken last, and whether its abort has been sent. */
  datatype Handling = Idle | Handling(cmd: Command, sent: bool)

  ghost function Current(trace: seq<Event>): Handling {
    if trace == [] then Idle
    else
      var n := |trace| - 1;
      match trace[n]
      case Took(cmd) => Handling(cmd, false)
      case SentAbort(cmd) => Handling(cmd, true)
      case _ => Current(trace[..n])
  }

  lemma CurrentMore(trace: seq<Event>, e: Event)
    ensures Current(trace + [e]) ==
      if e.Took? then Handling(e.cmd, false) else if e.SentAbort? then Handling(e.cmd, true) else Current(trace)
  {
    assert (trace + [e])[..|trace|] == trace;
  }

  /** Nothing is left undone: an abort that was taken has been sent. */
  predicate Settled(h: Handling) { h.Handling? && Aborting(h.cmd) ==> h.sent }

  /** Mission events are of the command taken last and of no abort; an abort is sent once, for the abort taken last. */
  predicate Proper(h: Handling, e: Event) {
    match e
    case Took(_) => Settled(h)
    case SentAbort(cmd) => h == Handling(cmd, false) && Aborting(cmd)
    case WentOn(cmd, _) => h == Handling(cmd, false) && !Aborting(cmd)
    case SentTool(cmd) => h == Handling(cmd, false) && !Aborting(cmd)
    case Preempted(cmd, _) => h == Handling(cmd, false) && !Aborting(cmd)
    case _ => true
  }

  ghost predicate AllProper(trace: seq<Event>) {
    forall i :: 0 <= i < |trace| ==> Proper(Current(trace[..i]), trace[i])
  }

  /** The main thread against it. */
  ghost predicate AtWork(h: Handling, mt: MainThread) {
    && (mt.Getting? ==> Settled(h))
    && (!mt.Getting? ==> h == Handling(mt.cmd, false))
    && (mt.SendingAbort? ==> Aborting(mt.cmd))
    && (InMission(mt) ==> !Aborting(mt.cmd))
  }

  lemma AtWorkKept(h: Handling, s: State, step: Step)
    requires AtWork(h, s.mt) && Enabled(s, step)
    ensures Logged(s, step).Some? ==> Proper(h, Logged(s, step).value)
    ensures var logged := Logged(s, step);
      AtWork(if logged.Some? && logged.value.Took? then Handling(logged.value.cmd, false)
             else if logged.Some? && logged.value.SentAbort? then Handling(logged.value.cmd, true) else h,
             Next(s, step).mt)
  {
  }

  lemma ProperMore(trace: seq<Event>, e: Event)
    requires AllProper(trace) && Proper(Current(trace), e)
    ensures AllProper(trace + [e])
  {
    var more := trace + [e];
    assert more[..|trace|] == trace;
    assert forall i :: 0 <= i < |trace| ==> more[..i] == trace[..i];
  }

  /**
   Over every interleaving: every command with the abort flag or the abort keyword is answered by one abort call
   before another command is taken, and by no mission; every other command never leads to an abort call; and all
   of a mission's calls and its end belong to the command taken last.
  */
  lemma {:induction false} TakenIsAnswered(steps: seq<Step>)
    requires After(steps).Some?
    ensures var s := After(steps).value; AllProper(s.trace) && AtWork(Current(s.trace), s.mt)
  {
    if steps != [] {
      var s := After(steps[..|steps| - 1]).value;
      var step := steps[|steps| - 1];
      TakenIsAnswered(steps[..|steps| - 1]);
      AtWorkKept(Current(s.trace), s, step);
      StepLogs(s, step);
      if Logged(s, step).Some? {
        ProperMore(s.trace, Logged(s, step).value);
        CurrentMore(s.trace, Logged(s, step).value);
      }
    }
  }

  // ---------------------------------------------------------------- how many calls a decision sends

  /** The tool calls sent since the VLM last answered, and how many it asked for. */
  datatype Decision = Decision(asked: nat, sent: nat)

  function Decided(steps: seq<Step>): Decision {
    if steps == [] then Decision(0, 0)
    else
      var before := Decided(steps[..|steps| - 1]);
      match steps[|steps| - 1]
      case DecideDone(calls) => Decision(calls, 0)
      case SendTool => before.(sent := before.sent + 1)
      case _ => before
  }

  /** What is left of the batch is what was asked for and not sent; outside a batch nothing more can be sent. */
  ghost predicate LeftToSend(d: Decision, mt: MainThread) {
    && d.sent <= d.asked
    && (mt.InBatch? ==> mt.left + d.sent == d.asked)
    && (mt.Sending? ==> mt.left + 1 + d.sent == d.asked)
  }

  /** No decision ever sends more tool calls than the VLM asked for. */
  lemma {:induction false} NoMoreThanAsked(steps: seq<Step>)
    requires After(steps).Some?
    ensures Decided(steps).sent <= Decided(steps).asked && LeftToSend(Decided(steps), After(steps).value.mt)
  {
    if steps != [] {
      NoMoreThanAsked(steps[..|steps| - 1]);
    }
  }
}
