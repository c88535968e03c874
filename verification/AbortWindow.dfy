/**
 When the bound on tool calls after an abort really is lost (python/services/orchestrator/main.py).  While an
 abort is ready and no abort has been sent, more than one tool call can go out only after a loose pass: the main
 thread goes past the queue check of its mission loop with the preempt event down.  From a loose pass on there is
 no bound at all, and it can only happen while the command thread is between the drain and the put of a further
 abort.
*/
module AbortWindow {
  import opened Messages
  import opened CommandThreads
  import opened AbortBound

  /** Event `i` made an abort ready; it has not been sent, and no abort has been sent since. */
  ghost predicate Open(trace: seq<Event>, i: nat) {
    && i < |trace| && trace[i].AbortReady? && !AbortSent(trace, trace[i].cmd)
    && forall j :: i < j < |trace| ==> !trace[j].SentAbort?
  }

  predicate Loose(e: Event) { e.WentOn? && !e.signal }

  ghost predicate LooseSince(trace: seq<Event>, i: nat) {
    exists j :: i < j < |trace| && Loose(trace[j])
  }

  // ---------------------------------------------------------------- until a loose pass

  /** While some abort is ready and unsent and there has been no loose pass: the tool calls sent since. */
  function Recounted(held: Option<nat>, e: Event, alreadySent: bool): Option<nat> {
    if e.SentAbort? || Loose(e) then None
    else if e.AbortReady? then (if held.Some? then held else if alreadySent then None else Some(0))
    else if e.SentTool? && held.Some? then Some(held.value + 1)
    else held
  }

  ghost function Held(trace: seq<Event>): Option<nat> {
    if trace == [] then None
    else
      var before := trace[..|trace| - 1];
      Recounted(Held(before), trace[|trace| - 1], AbortSent(before, trace[|trace| - 1].cmd))
  }

  lemma HeldMore(trace: seq<Event>, e: Event)
    ensures Held(trace + [e]) == Recounted(Held(trace), e, AbortSent(trace, e.cmd))
  {
    assert (trace + [e])[..|trace|] == trace;
  }

  /** An abort heads the queue, is being put, or is being handled. */
  ghost predicate AbortAtHand(s: State) {
    || (s.queue != [] && s.queue[0].isAbort)
    || s.ct.Draining? || s.ct.PuttingAbort?
    || (s.mt != Getting && s.mt.cmd.isAbort && Handling(s.mt, s.mt.cmd))
  }

  /** One call at most, and none is coming: past the queue check the event is up. */
  ghost predicate HeldBy(held: Option<nat>, s: State) {
    held.Some? ==>
      && AbortAtHand(s) && held.value <= 1 && (held.value == 1 ==> !s.mt.Sending?)
      && (PastQueueCheck(s.mt) ==> s.preempt)
  }

  ghost function HeldAfter(held: Option<nat>, s: State, step: Step, sent: bool): Option<nat>
    requires Enabled(s, step)
  {
    if Logged(s, step).Some? then Recounted(held, Logged(s, step).value, sent) else held
  }

  lemma HeldByMain(held: Option<nat>, s: State, step: Step, sent: bool)
    requires HeldBy(held, s) && Enabled(s, step) && !OfCommandThread(step)
    requires s.ct.PuttingAbort? ==> s.queue == []
    ensures HeldBy(HeldAfter(held, s, step, sent), Next(s, step))
  {
  }

  lemma HeldByCommand(held: Option<nat>, s: State, step: Step, sent: bool)
    requires HeldBy(held, s) && Enabled(s, step) && OfCommandThread(step)
    requires step.PutAbort? ==> s.queue == [] && s.ct.cmd.isAbort
    requires step.SetPreempt? ==>
      s.ct.cmd.isAbort && ((s.queue != [] && s.queue[0] == s.ct.cmd) || Handling(s.mt, s.ct.cmd) || sent)
    ensures HeldBy(HeldAfter(held, s, step, sent), Next(s, step))
  {
  }

  lemma HeldKept(s: State, step: Step)
    requires Sound(s) && EarlySound(s) && HeldBy(Held(s.trace), s) && Enabled(s, step)
    ensures HeldBy(Held(Next(s, step).trace), Next(s, step))
  {
    StepLogs(s, step);
    var sent := Logged(s, step).Some? && AbortSent(s.trace, Logged(s, step).value.cmd);
    if Logged(s, step).Some? {
      HeldMore(s.trace, Logged(s, step).value);
    }
    if OfCommandThread(step) {
      HeldByCommand(Held(s.trace), s, step, sent);
    } else {
      HeldByMain(Held(s.trace), s, step, sent);
    }
  }

  lemma {:induction false} HeldReachable(steps: seq<Step>)
    requires After(steps).Some?
    ensures HeldBy(Held(After(steps).value.trace), After(steps).value)
  {
    if steps != [] {
      HeldReachable(steps[..|steps| - 1]);
      SoundReachable(steps[..|steps| - 1]);
      BoundReachable(steps[..|steps| - 1]);
      HeldKept(After(steps[..|steps| - 1]).value, steps[|steps| - 1]);
    }
  }

  /** An open window without a loose pass is held, and counts the calls sent in it. */
  lemma {:induction false} OpenIsHeld(trace: seq<Event>, i: nat)
    requires Open(trace, i) && !LooseSince(trace, i)
    ensures Held(trace).Some? && ToolsSent(trace[i + 1..]) <= Held(trace).value
    decreases |trace|
  {
    var n := |trace| - 1;
    var before, e := trace[..n], trace[n];
    assert trace == before + [e];
    HeldMore(before, e);
    SentMore(before, e, trace[i].cmd);
    if i < n {
      OpenBefore(before, e, i);
      OpenIsHeld(before, i);
      assert trace[i + 1..][..n - i - 1] == before[i + 1..];
    } else {
      assert ToolsSent(trace[i + 1..]) == 0;
    }
  }

  lemma OpenBefore(before: seq<Event>, e: Event, i: nat)
    requires Open(before + [e], i) && i < |before|
    ensures Open(before, i) && (LooseSince(before + [e], i) <==> LooseSince(before, i) || Loose(e))
  {
    var trace := before + [e];
    SentMore(before, e, trace[i].cmd);
    assert trace[|before|] == e && forall j :: 0 <= j < |before| ==> trace[j] == before[j];
    if LooseSince(before, i) {
      var j :| i < j < |before| && Loose(before[j]);
      assert Loose(trace[j]);
    }
  }

  /** The tool calls sent since event `i`. */
  ghost function CallsSince(steps: seq<Step>, i: nat): nat
    requires StaysOpen(steps, i)
  {
    ToolsSent(After(steps).value.trace[i + 1..])
  }

  ghost predicate StaysOpen(steps: seq<Step>, i: nat) {
    After(steps).Some? && Open(After(steps).value.trace, i)
  }

  /**
   In every interleaving, however many further aborts are received: from the moment an abort is ready until an
   abort is sent, at most one tool call goes out unless the main thread makes a loose pass.
  */
  lemma AtMostOneUnlessLoose(steps: seq<Step>, i: nat)
    requires StaysOpen(steps, i) && !LooseSince(After(steps).value.trace, i)
    ensures CallsSince(steps, i) <= 1 && AbortAtHand(After(steps).value)
  {
    OpenIsHeld(After(steps).value.trace, i);
    HeldReachable(steps);
  }

  /**
   The guard.  With the abort unsent, the main thread at its queue check passes it loosely exactly when it finds
   the queue empty and the event down, and the queue is empty only between a further abort's drain and its put.
  */
  lemma LoosePassIsInADrain(steps: seq<Step>, i: nat)
    requires StaysOpen(steps, i) && !LooseSince(After(steps).value.trace, i)
    requires After(steps).value.mt.CheckingQueue?
    ensures var s := After(steps).value;
      && (Logged(s, CheckQueue) == Some(WentOn(s.mt.cmd, false)) <==> s.queue == [] && !s.preempt)
      && (s.queue == [] ==> s.ct.Draining? || s.ct.PuttingAbort?)
  {
    AtMostOneUnlessLoose(steps, i);
    StepLogs(After(steps).value, CheckQueue);
  }

  // ---------------------------------------------------------------- after a loose pass

  function ToolCalls(n: nat): seq<Step> {
    if n == 0 then [] else ToolCalls(n - 1) + [CheckBatch, SendTool]
  }

  ghost function Sends(cmd: Command, k: nat): seq<Event> {
    seq(k, i => SentTool(cmd))
  }

  lemma SendsMore(cmd: Command, k: nat)
    requires k > 0
    ensures Sends(cmd, k) == Sends(cmd, k - 1) + [SentTool(cmd)]
  {
  }

  lemma Regroup<T>(a: seq<T>, b: seq<T>, c: seq<T>)
    ensures a + (b + c) == a + b + c
  {
  }

  /** `s` after `k` of the `n` tool calls of a batch. */
  ghost function Sent(s: State, cmd: Command, k: nat, n: nat): State
    requires k <= n
  {
    s.(mt := InBatch(cmd, n - k), trace := s.trace + Sends(cmd, k))
  }

  /** Past the checks and with the signal wiped, every tool call of the batch goes out. */
  lemma OneCall(steps: seq<Step>, s: State, cmd: Command, left: nat)
    requires After(steps) == Some(s) && s.mt == InBatch(cmd, left) && left > 0 && !s.preempt
    ensures After(steps + [CheckBatch, SendTool]) ==
        Some(s.(mt := InBatch(cmd, left - 1), trace := s.trace + [SentTool(cmd)]))
  {
    AfterMore(steps, CheckBatch);
    AfterMore(steps + [CheckBatch], SendTool);
    assert steps + [CheckBatch, SendTool] == steps + [CheckBatch] + [SendTool];
  }

  lemma OneMoreSent(steps: seq<Step>, s: State, cmd: Command, k: nat, n: nat)
    requires 0 < k <= n && !s.preempt && After(steps) == Some(Sent(s, cmd, k - 1, n))
    ensures After(steps + [CheckBatch, SendTool]) == Some(Sent(s, cmd, k, n))
  {
    OneCall(steps, Sent(s, cmd, k - 1, n), cmd, n - k + 1);
    SendsMore(cmd, k);
    Regroup(s.trace, Sends(cmd, k - 1), [SentTool(cmd)]);
  }

  lemma {:induction false} ToolCallsSent(steps: seq<Step>, s: State, cmd: Command, k: nat, n: nat)
    requires k <= n && !s.preempt && After(steps) == Some(Sent(s, cmd, 0, n))
    ensures After(steps + ToolCalls(k)) == Some(Sent(s, cmd, k, n))
  {
    if k == 0 {
      assert steps + ToolCalls(0) == steps;
    } else {
      ToolCallsSent(steps, s, cmd, k - 1, n);
      OneMoreSent(steps + ToolCalls(k - 1), s, cmd, k, n);
      Regroup(steps, ToolCalls(k - 1), [CheckBatch, SendTool]);
    }
  }

  /** From a loose pass on, for every n, n tool calls may go out before anything else happens. */
  lemma LoosePassLiftsTheBound(steps: seq<Step>, cmd: Command, n: nat) returns (more: seq<Step>)
    requires n > 0 && After(steps).Some?
    requires After(steps).value.mt == Thinking(cmd) && !After(steps).value.preempt
    ensures After(steps + more).Some?
    ensures After(steps + more).value.trace == After(steps).value.trace + Sends(cmd, n)
  {
    var s := After(steps).value;
    AfterMore(steps, DecideDone(n));
    assert s.trace + Sends(cmd, 0) == s.trace;
    ToolCallsSent(steps + [DecideDone(n)], s, cmd, n, n);
    more := [DecideDone(n)] + ToolCalls(n);
    Regroup(steps, [DecideDone(n)], ToolCalls(n));
  }

  ghost function AbortsReceived(events: seq<Event>): nat {
    if events == [] then 0
    else
      var e := events[|events| - 1];
      AbortsReceived(events[..|events| - 1]) + (if e.Received? && e.cmd.isAbort then 1 else 0)
  }

  lemma CountsMore(events: seq<Event>, e: Event)
    ensures ToolsSent(events + [e]) == ToolsSent(events) + (if e.SentTool? then 1 else 0)
    ensures AbortsReceived(events + [e]) == AbortsReceived(events) + (if e.Received? && e.cmd.isAbort then 1 else 0)
  {
    assert (events + [e])[..|events|] == events;
  }

  lemma {:induction false} SendsCount(start: seq<Event>, cmd: Command, k: nat)
    ensures ToolsSent(start + Sends(cmd, k)) == ToolsSent(start) + k
    ensures AbortsReceived(start + Sends(cmd, k)) == AbortsReceived(start)
  {
    if k == 0 {
      assert start + Sends(cmd, 0) == start;
    } else {
      SendsCount(start, cmd, k - 1);
      SendsMore(cmd, k);
      Regroup(start, Sends(cmd, k - 1), [SentTool(cmd)]);
      CountsMore(start + Sends(cmd, k - 1), SentTool(cmd));
    }
  }

  /** Tool calls neither send an abort nor pass the queue check: an open window stays open. */
  lemma SendsStayOpen(trace: seq<Event>, cmd: Command, k: nat, i: nat)
    requires Open(trace, i)
    ensures Open(trace + Sends(cmd, k), i)
    ensures ToolsSent((trace + Sends(cmd, k))[i + 1..]) == ToolsSent(trace[i + 1..]) + k
    ensures AbortsReceived((trace + Sends(cmd, k))[i + 1..]) == AbortsReceived(trace[i + 1..])
  {
    var t := trace + Sends(cmd, k);
    assert forall j :: 0 <= j < |trace| ==> t[j] == trace[j];
    assert forall j :: |trace| <= j < |t| ==> t[j] == SentTool(cmd);
    assert t[i + 1..] == trace[i + 1..] + Sends(cmd, k);
    SendsCount(trace[i + 1..], cmd, k);
  }

  // ---------------------------------------------------------------- exactly

  /** A step with which an open window first has a loose pass leaves the main thread thinking, the event down. */
  lemma LoosePassNow(s: State, step: Step, i: nat)
    requires Enabled(s, step) && i < |s.trace| && Open(Next(s, step).trace, i)
    ensures Open(s.trace, i)
    ensures LooseSince(Next(s, step).trace, i) && !LooseSince(s.trace, i) ==>
        Next(s, step).mt.Thinking? && !Next(s, step).preempt
  {
    StepLogs(s, step);
    var logged := Logged(s, step);
    if logged.Some? {
      OpenBefore(s.trace, logged.value, i);
      if Loose(logged.value) {
        LooseMeansThinking(s, step);
      }
    }
  }

  /** The moment of the first loose pass in a continuation. */
  lemma {:induction false} FirstLoosePass(steps: seq<Step>, more: seq<Step>, i: nat) returns (k: nat)
    requires StaysOpen(steps, i) && !LooseSince(After(steps).value.trace, i)
    requires StaysOpen(steps + more, i) && LooseSince(After(steps + more).value.trace, i)
    ensures k <= |more| && StaysOpen(steps + more[..k], i)
    ensures After(steps + more[..k]).value.mt.Thinking? && !After(steps + more[..k]).value.preempt
    decreases |more|
  {
    assert steps + [] == steps;
    var n := |more| - 1;
    LastOfMore(steps, more);
    TraceGrows(steps, more[..n]);
    LoosePassNow(After(steps + more[..n]).value, more[n], i);
    if LooseSince(After(steps + more[..n]).value.trace, i) {
      k := FirstLoosePass(steps, more[..n], i);
      assert more[..n][..k] == more[..k];
    } else {
      k := n + 1;
      assert more[..k] == more;
    }
  }

  lemma LooseMeansThinking(s: State, step: Step)
    requires Enabled(s, step) && Logged(s, step).Some? && Loose(Logged(s, step).value)
    ensures Next(s, step).mt == Thinking(Logged(s, step).value.cmd) && !Next(s, step).preempt
  {
  }

  lemma {:induction false} TraceGrows(steps: seq<Step>, more: seq<Step>)
    requires After(steps).Some? && After(steps + more).Some?
    ensures |After(steps).value.trace| <= |After(steps + more).value.trace|
    decreases |more|
  {
    if more == [] {
      assert steps + [] == steps;
    } else {
      var n := |more| - 1;
      LastOfMore(steps, more);
      TraceGrows(steps, more[..n]);
      StepLogs(After(steps + more[..n]).value, more[n]);
    }
  }

  /**
   Exactly when the main thread is bounded, for any bound of one call or more: all continuations in which no abort
   is sent yet keep to it if and only if none of them makes a loose pass.
  */
  lemma BoundedExactlyUntilLoosePass(steps: seq<Step>, i: nat, bound: nat)
    requires StaysOpen(steps, i) && !LooseSince(After(steps).value.trace, i) && bound >= 1
    ensures (forall more :: StaysOpen(steps + more, i) ==> CallsSince(steps + more, i) <= bound)
       <==> (forall more :: StaysOpen(steps + more, i) ==> !LooseSince(After(steps + more).value.trace, i))
  {
    forall more | StaysOpen(steps + more, i) && !LooseSince(After(steps + more).value.trace, i)
      ensures CallsSince(steps + more, i) <= bound
    {
      AtMostOneUnlessLoose(steps + more, i);
    }
    forall more | StaysOpen(steps + more, i) && LooseSince(After(steps + more).value.trace, i)
      ensures exists more' :: StaysOpen(steps + more', i) && CallsSince(steps + more', i) > bound
    {
      var more' := TooMany(steps, more, i, bound);
    }
  }

  lemma TooMany(steps: seq<Step>, more: seq<Step>, i: nat, bound: nat) returns (more': seq<Step>)
    requires StaysOpen(steps, i) && !LooseSince(After(steps).value.trace, i)
    requires StaysOpen(steps + more, i) && LooseSince(After(steps + more).value.trace, i)
    ensures StaysOpen(steps + more', i) && CallsSince(steps + more', i) > bound
  {
    var k := FirstLoosePass(steps, more, i);
    var cmd := After(steps + more[..k]).value.mt.cmd;
    var calls := LoosePassLiftsTheBound(steps + more[..k], cmd, bound + 1);
    SendsStayOpen(After(steps + more[..k]).value.trace, cmd, bound + 1, i);
    more' := more[..k] + calls;
    Regroup(steps, more[..k], calls);
  }

  // ---------------------------------------------------------------- a run with a loose pass

  /**
   Two aborts in quick succession: a normal command is taken, the first abort becomes ready, the main thread
   wipes its signal, and the second abort drains the first before the main thread looks at the queue.
  */
  const SECOND_ABORT: seq<Step> := [
    Receive(false, false), PutNormal, Get, ClearOffline,
    Receive(true, true), Drain, PutAbort, SetPreempt,
    ClearPreempt, CheckPreempt,
    Receive(true, true), Drain,
    CheckQueue]

  const NORMAL := Command(0, false, false)
  const FIRST := Command(1, true, true)
  const SECOND := Command(2, true, true)

  const WINDOW: State :=
    State([], false, Draining(SECOND), Thinking(NORMAL), 3,
          [Received(NORMAL), Took(NORMAL), Received(FIRST), AbortReady(FIRST), Received(SECOND), Drained(FIRST),
           WentOn(NORMAL, false)])

  lemma WindowReached()
    ensures After(SECOND_ABORT) == Some(WINDOW)
  {
    var s4 := Quarter();
    var p4 := SECOND_ABORT[..4];
    assert p4 == [Receive(false, false), PutNormal, Get, ClearOffline];
    Half(p4);
    var p8 := p4 + [Receive(true, true)] + [Drain] + [PutAbort] + [SetPreempt];
    Rest(p8);
    assert SECOND_ABORT == p8 + [ClearPreempt] + [CheckPreempt] + [Receive(true, true)] + [Drain] + [CheckQueue];
  }

  lemma Half(p4: seq<Step>)
    requires After(p4) ==
        Some(State([], false, Receiving, ClearingPreempt(NORMAL), 1, [Received(NORMAL), Took(NORMAL)]))
    ensures After(p4 + [Receive(true, true)] + [Drain] + [PutAbort] + [SetPreempt]) ==
            Some(State([FIRST], true, Receiving, ClearingPreempt(NORMAL), 2,
                       [Received(NORMAL), Took(NORMAL), Received(FIRST), AbortReady(FIRST)]))
  {
    AfterMore(p4, Receive(true, true));
    AfterMore(p4 + [Receive(true, true)], Drain);
    AfterMore(p4 + [Receive(true, true)] + [Drain], PutAbort);
    AfterMore(p4 + [Receive(true, true)] + [Drain] + [PutAbort], SetPreempt);
    var s := After(p4 + [Receive(true, true)] + [Drain] + [PutAbort] + [SetPreempt]).value;
    assert s.queue == [FIRST];
    assert s.trace == [Received(NORMAL), Took(NORMAL), Received(FIRST), AbortReady(FIRST)];
  }

  lemma Quarter() returns (s: State)
    ensures After([Receive(false, false), PutNormal, Get, ClearOffline]) == Some(s)
    ensures s == State([], false, Receiving, ClearingPreempt(NORMAL), 1, [Received(NORMAL), Took(NORMAL)])
  {
    AfterMore([], Receive(false, false));
    assert [] + [Receive(false, false)] == [Receive(false, false)];
    AfterMore([Receive(false, false)], PutNormal);
    assert [Receive(false, false)] + [PutNormal] == [Receive(false, false), PutNormal];
    AfterMore([Receive(false, false), PutNormal], Get);
    assert [Receive(false, false), PutNormal] + [Get] == [Receive(false, false), PutNormal, Get];
    AfterMore([Receive(false, false), PutNormal, Get], ClearOffline);
    assert [Receive(false, false), PutNormal, Get] + [ClearOffline] ==
        [Receive(false, false), PutNormal, Get, ClearOffline];
    s := After([Receive(false, false), PutNormal, Get, ClearOffline]).value;
  }

  lemma Rest(p8: seq<Step>)
    requires After(p8) == Some(State([FIRST], true, Receiving, ClearingPreempt(NORMAL), 2,
                                     [Received(NORMAL), Took(NORMAL), Received(FIRST), AbortReady(FIRST)]))
    ensures After(p8 + [ClearPreempt] + [CheckPreempt] + [Receive(true, true)] + [Drain] + [CheckQueue]) == Some(WINDOW)
  {
    AfterMore(p8, ClearPreempt);
    AfterMore(p8 + [ClearPreempt], CheckPreempt);
    AfterMore(p8 + [ClearPreempt] + [CheckPreempt], Receive(true, true));
    AfterMore(p8 + [ClearPreempt] + [CheckPreempt] + [Receive(true, true)], Drain);
    AfterMore(p8 + [ClearPreempt] + [CheckPreempt] + [Receive(true, true)] + [Drain], CheckQueue);
    var s := After(p8 + [ClearPreempt] + [CheckPreempt] + [Receive(true, true)] + [Drain] + [CheckQueue]).value;
    assert s.queue == [];
    assert s.trace == WINDOW.trace;
  }

  lemma WindowOpen()
    ensures Open(WINDOW.trace, 3) && ToolsSent(WINDOW.trace[4..]) == 0 && AbortsReceived(WINDOW.trace[4..]) == 1
  {
    var since := WINDOW.trace[4..];
    assert since == [] + [Received(SECOND)] + [Drained(FIRST)] + [WentOn(NORMAL, false)];
    CountsMore([], Received(SECOND));
    CountsMore([] + [Received(SECOND)], Drained(FIRST));
    CountsMore([] + [Received(SECOND)] + [Drained(FIRST)], WentOn(NORMAL, false));
    assert forall j :: 0 <= j < |WINDOW.trace| ==> !WINDOW.trace[j].SentAbort?;
  }

  /**
   A loose pass does happen.  For every n there is a run in which, after the first abort is ready and before any
   abort is sent, n tool calls go out: a second abort has been received and its drain has emptied the queue.
  */
  lemma SecondAbortLiftsTheBound(n: nat) returns (steps: seq<Step>)
    requires n > 0
    ensures After(steps).Some?
    ensures var trace := After(steps).value.trace;
      && 4 <= |trace| && trace[3] == AbortReady(FIRST) && !AbortSent(trace, FIRST)
      && ToolsSent(trace[4..]) == n && AbortsReceived(trace[4..]) == 1
      && forall j :: 0 <= j < |trace| ==> !trace[j].SentAbort?
  {
    WindowReached();
    var more := LoosePassLiftsTheBound(SECOND_ABORT, NORMAL, n);
    steps := SECOND_ABORT + more;
    WindowOpen();
    SendsStayOpen(WINDOW.trace, NORMAL, n, 3);
    var trace := After(steps).value.trace;
    assert trace == WINDOW.trace + Sends(NORMAL, n);
    NoneSentInWindow(n);
  }

  lemma NoneSentInWindow(n: nat)
    ensures forall j :: 0 <= j < |WINDOW.trace + Sends(NORMAL, n)| ==> !(WINDOW.trace + Sends(NORMAL, n))[j].SentAbort?
    ensures (WINDOW.trace + Sends(NORMAL, n))[3] == AbortReady(FIRST)
  {
    var trace := WINDOW.trace + Sends(NORMAL, n);
    assert forall j :: 0 <= j < |WINDOW.trace| ==> trace[j] == WINDOW.trace[j];
    assert forall j :: |WINDOW.trace| <= j < |trace| ==> trace[j] == SentTool(NORMAL);
  }

  // ---------------------------------------------------------------- how many further aborts it takes

  lemma {:induction false} NoneReceived(events: seq<Event>)
    ensures AbortsReceived(events) == 0 <==> !AbortReceived(events)
  {
    if events != [] {
      var n := |events| - 1;
      NoneReceived(events[..n]);
      assert forall i :: 0 <= i < n ==> events[..n][i] == events[i];
    }
  }

  /** An abort is ready and none has been sent since, with at most `further` aborts received since. */
  ghost predicate AbortOpen(steps: seq<Step>, i: nat, further: nat) {
    StaysOpen(steps, i) && AbortsReceived(After(steps).value.trace[i + 1..]) <= further
  }

  /**
   Exactly how many further aborts it takes: whatever bound is asked for, one or more tool calls, every run with
   at most `further` more aborts keeps to it until an abort is sent, if and only if `further` is zero.
  */
  lemma BoundedExactlyWithoutFurtherAborts(further: nat, bound: nat)
    requires bound >= 1
    ensures (forall steps: seq<Step>, i: nat :: AbortOpen(steps, i, further) ==> CallsSince(steps, i) <= bound) <==>
        further == 0
  {
    if further == 0 {
      forall steps: seq<Step>, i: nat | AbortOpen(steps, i, further)
        ensures CallsSince(steps, i) <= bound
      {
        NoneReceived(After(steps).value.trace[i + 1..]);
        AtMostOneMoreToolCall(steps, i);
      }
    } else {
      var steps := SecondAbortLiftsTheBound(bound + 1);
      assert AbortOpen(steps, 3, further);
      assert CallsSince(steps, 3) > bound;
    }
  }
}
