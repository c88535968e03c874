/**
 The matcher's output queue (python/lexaire/subscriber.py): one producer, the matcher thread, and a
 concurrent consumer.  The producer's drop-oldest sequence is three separate queue operations, so the
 consumer may take framesets between any two of them; every operation is one step of the machine below.
*/
module FramesetQueue {
  import Matcher
  import opened Messages

  type Frameset = Matcher.Frameset

  const CAPACITY := 16

  /** Where the producer stands with the frameset it holds. */
  datatype Producer =
    | Idle
    | Putting(item: Frameset)   // in put(fs, timeout=0.1)
    | Full(item: Frameset)      // the timed put raised Full
    | Popped(item: Frameset)    // the oldest has been taken out, put_nowait comes next

  /** `matched` is what the producer has picked up so far; `lost` what was logged as dropped. */
  datatype State = State(queue: seq<Frameset>, producer: Producer,
                         matched: seq<Frameset>, delivered: seq<Frameset>, lost: seq<Frameset>, refused: bool)

  datatype Step = Pick(item: Frameset) | PutOk | PutTimesOut | GetOldest | PutNowait | ConsumerGets

  const START := State([], Idle, [], [], [], false)

  predicate Enabled(s: State, step: Step) {
    match step
    case Pick(_) => s.producer.Idle?
    case PutOk => s.producer.Putting? && |s.queue| < CAPACITY
    case PutTimesOut => s.producer.Putting? && |s.queue| >= CAPACITY
    case GetOldest => s.producer.Full?
    case PutNowait => s.producer.Popped?
    case ConsumerGets => s.queue != []
  }

  function Next(s: State, step: Step): State
    requires Enabled(s, step)
  {
    match step
    case Pick(item) => s.(producer := Putting(item), matched := s.matched + [item])
    case PutOk => s.(queue := s.queue + [s.producer.item], producer := Idle)
    case PutTimesOut => s.(producer := Full(s.producer.item))
    case GetOldest =>
      // an empty queue raises Empty: the frameset in hand is the one given up
      if s.queue == [] then s.(producer := Idle, lost := s.lost + [s.producer.item])
      else s.(queue := s.queue[1..], producer := Popped(s.producer.item), lost := s.lost + [s.queue[0]])
    case PutNowait =>
      if |s.queue| < CAPACITY then s.(queue := s.queue + [s.producer.item], producer := Idle)
      else s.(producer := Idle, lost := s.lost + [s.producer.item], refused := true)
    case ConsumerGets => s.(queue := s.queue[1..], delivered := s.delivered + [s.queue[0]])
  }

  /** The state after a list of steps, or None when one of them was not possible. */
  ghost function After(steps: seq<Step>): Option<State> {
    if steps == [] then Some(START)
    else
      var n := |steps| - 1;
      match After(steps[..n])
      case None => None
      case Some(s) => if Enabled(s, steps[n]) then Some(Next(s, steps[n])) else None
  }

  /** `a` can be had from `b` by deleting elements. */
  ghost predicate Subsequence(a: seq<Frameset>, b: seq<Frameset>)
    decreases |b|
  {
    if a == [] then true
    else if b == [] then false
    else
      || (a[|a| - 1] == b[|b| - 1] && Subsequence(a[..|a| - 1], b[..|b| - 1]))
      || Subsequence(a, b[..|b| - 1])
  }

  lemma {:induction false} SubsequenceDelete(a: seq<Frameset>, x: Frameset, c: seq<Frameset>, b: seq<Frameset>)
    requires Subsequence(a + [x] + c, b)
    ensures Subsequence(a + c, b)
    decreases |b|
  {
    var whole := a + [x] + c;
    var shorter := b[..|b| - 1];
    if whole[|whole| - 1] == b[|b| - 1] && Subsequence(whole[..|whole| - 1], shorter) {
      if c == [] {
        assert whole[..|whole| - 1] == a && a + c == a;
        SubsequenceLonger(a, shorter, b[|b| - 1]);
        assert b == shorter + [b[|b| - 1]];
      } else {
        var c' := c[..|c| - 1];
        assert whole[..|whole| - 1] == a + [x] + c';
        SubsequenceDelete(a, x, c', shorter);
        assert (a + c)[..|a + c| - 1] == a + c';
      }
    } else {
      SubsequenceDelete(a, x, c, shorter);
    }
  }

  lemma SubsequenceLonger(a: seq<Frameset>, b: seq<Frameset>, x: Frameset)
    requires Subsequence(a, b)
    ensures Subsequence(a, b + [x])
    ensures Subsequence(a + [x], b + [x])
  {
    assert (b + [x])[..|b + [x]| - 1] == b;
    assert (a + [x])[..|a + [x]| - 1] == a;
  }

  ghost function InHand(s: State): seq<Frameset> {
    if s.producer.Idle? then [] else [s.producer.item]
  }

  ghost predicate Bounded(s: State) {
    && |s.queue| <= CAPACITY
    && (s.producer.Popped? ==> |s.queue| < CAPACITY)
    && !s.refused
    && |s.lost| + (if s.producer.Idle? || s.producer.Popped? then 0 else 1) <= |s.matched|
  }

  ghost predicate Balance(matched: seq<Frameset>, delivered: seq<Frameset>, queue: seq<Frameset>, lost: seq<Frameset>,
        hand: seq<Frameset>) {
    multiset(matched) == multiset(delivered) + multiset(queue) + multiset(lost) + multiset(hand)
  }

  ghost predicate Conserved(s: State) {
    Balance(s.matched, s.delivered, s.queue, s.lost, InHand(s))
  }

  ghost predicate Ordered(s: State) {
    Subsequence(s.delivered + s.queue + InHand(s), s.matched)
  }

  ghost predicate Invariant(s: State) {
    Bounded(s) && Conserved(s) && Ordered(s)
  }

  lemma DropHead(a: seq<Frameset>, q: seq<Frameset>, h: seq<Frameset>, b: seq<Frameset>)
    requires q != [] && Subsequence(a + q + h, b)
    ensures Subsequence(a + q[1..] + h, b)
  {
    assert q == [q[0]] + q[1..];
    assert a + q + h == a + [q[0]] + (q[1..] + h);
    SubsequenceDelete(a, q[0], q[1..] + h, b);
    assert a + (q[1..] + h) == a + q[1..] + h;
  }

  lemma PickCounts(m: seq<Frameset>, d: seq<Frameset>, q: seq<Frameset>, l: seq<Frameset>, x: Frameset)
    requires Balance(m, d, q, l, [])
    ensures Balance(m + [x], d, q, l, [x])
  {
  }

  lemma QueueCounts(m: seq<Frameset>, d: seq<Frameset>, q: seq<Frameset>, l: seq<Frameset>, x: Frameset)
    requires Balance(m, d, q, l, [x])
    ensures Balance(m, d, q + [x], l, []) && Balance(m, d, q, l + [x], [])
  {
  }

  lemma HeadCounts(m: seq<Frameset>, d: seq<Frameset>, q: seq<Frameset>, l: seq<Frameset>, h: seq<Frameset>)
    requires Balance(m, d, q, l, h) && q != []
    ensures Balance(m, d, q[1..], l + [q[0]], h) && Balance(m, d + [q[0]], q[1..], l, h)
  {
    assert q == [q[0]] + q[1..];
  }

  lemma ConservedKept(s: State, step: Step)
    requires Bounded(s) && Conserved(s) && Enabled(s, step)
    ensures Conserved(Next(s, step))
  {
    match step
    case Pick(item) => PickCounts(s.matched, s.delivered, s.queue, s.lost, item);
    case PutOk => QueueCounts(s.matched, s.delivered, s.queue, s.lost, s.producer.item);
    case PutTimesOut =>
    case GetOldest =>
      if s.queue == [] {
        QueueCounts(s.matched, s.delivered, s.queue, s.lost, s.producer.item);
      } else {
        HeadCounts(s.matched, s.delivered, s.queue, s.lost, InHand(s));
      }
    case PutNowait => QueueCounts(s.matched, s.delivered, s.queue, s.lost, s.producer.item);
    case ConsumerGets => HeadCounts(s.matched, s.delivered, s.queue, s.lost, InHand(s));
  }

  lemma OrderedKept(s: State, step: Step)
    requires Bounded(s) && Ordered(s) && Enabled(s, step)
    ensures Ordered(Next(s, step))
  {
    var t := Next(s, step);
    match step
    case Pick(item) =>
      assert s.delivered + s.queue + [] == s.delivered + s.queue;
      SubsequenceLonger(s.delivered + s.queue, s.matched, item);
    case PutOk =>
      assert t.delivered + t.queue + [] == s.delivered + s.queue + [s.producer.item];
    case PutTimesOut =>
    case GetOldest =>
      if s.queue == [] {
        WithoutHand(s.delivered + s.queue, InHand(s), s.matched);
        assert s.delivered + s.queue + [] == s.delivered + s.queue;
      } else {
        DropHead(s.delivered, s.queue, InHand(s), s.matched);
      }
    case PutNowait =>
      assert t.delivered + t.queue + [] == s.delivered + s.queue + [s.producer.item];
    case ConsumerGets =>
      assert s.queue == [s.queue[0]] + s.queue[1..];
      assert t.delivered + t.queue == s.delivered + s.queue;
  }

  /** `all` is `a` and `b` run together, each in its order. */
  ghost predicate Merge(all: seq<Frameset>, a: seq<Frameset>, b: seq<Frameset>)
    decreases |all|
  {
    if all == [] then a == [] && b == []
    else
      var n := |all| - 1;
      || (a != [] && a[|a| - 1] == all[n] && Merge(all[..n], a[..|a| - 1], b))
      || (b != [] && b[|b| - 1] == all[n] && Merge(all[..n], a, b[..|b| - 1]))
  }

  lemma MergeMore(all: seq<Frameset>, a: seq<Frameset>, b: seq<Frameset>, x: Frameset)
    requires Merge(all, a, b)
    ensures Merge(all + [x], a + [x], b) && Merge(all + [x], a, b + [x])
  {
    assert (all + [x])[..|all|] == all && (a + [x])[..|a|] == a && (b + [x])[..|b|] == b;
  }

  /** The framesets that have left the queue or been given up, in order; the others are queued behind them. */
  ghost predicate FirstInFirstOut(s: State, gone: seq<Frameset>) {
    Merge(gone, s.delivered, s.lost) && s.matched == gone + s.queue + InHand(s)
  }

  lemma HeadLeaves(gone: seq<Frameset>, queue: seq<Frameset>, hand: seq<Frameset>)
    requires queue != []
    ensures (gone + [queue[0]]) + queue[1..] + hand == gone + queue + hand
  {
  }

  lemma HandLeaves(gone: seq<Frameset>, queue: seq<Frameset>, item: Frameset)
    ensures gone + (queue + [item]) + [] == gone + queue + [item]
    ensures queue == [] ==> (gone + [item]) + queue + [] == gone + queue + [item]
  {
  }

  lemma FirstOutKept(s: State, step: Step, gone: seq<Frameset>) returns (gone': seq<Frameset>)
    requires Bounded(s) && FirstInFirstOut(s, gone) && Enabled(s, step)
    ensures FirstInFirstOut(Next(s, step), gone')
  {
    gone' := gone;
    match step {
      case Pick(item) =>
        assert gone + s.queue + [] == gone + s.queue;
      case PutTimesOut =>
      case PutOk => HandLeaves(gone, s.queue, s.producer.item);
      case PutNowait => HandLeaves(gone, s.queue, s.producer.item);
      case GetOldest =>
        if s.queue == [] {
          gone' := gone + [s.producer.item];
          MergeMore(gone, s.delivered, s.lost, s.producer.item);
          HandLeaves(gone, s.queue, s.producer.item);
        } else {
          gone' := gone + [s.queue[0]];
          MergeMore(gone, s.delivered, s.lost, s.queue[0]);
          HeadLeaves(gone, s.queue, InHand(s));
        }
      case ConsumerGets =>
        gone' := gone + [s.queue[0]];
        MergeMore(gone, s.delivered, s.lost, s.queue[0]);
        HeadLeaves(gone, s.queue, InHand(s));
    }
  }

  /**
   First in, first out: over every interleaving the framesets delivered and those dropped, run together in the
   order they left, then the queue, then the one in the producer's hand, are exactly the matched ones in order.
   So the one dropped is always the oldest.
  */
  lemma {:induction false} OldestGoesFirst(steps: seq<Step>) returns (gone: seq<Frameset>)
    requires After(steps).Some?
    ensures var s := After(steps).value;
      Merge(gone, s.delivered, s.lost) && s.matched == gone + s.queue + InHand(s)
  {
    if steps == [] {
      gone := [];
    } else {
      gone := OldestGoesFirst(steps[..|steps| - 1]);
      Reachable(steps[..|steps| - 1]);
      gone := FirstOutKept(After(steps[..|steps| - 1]).value, steps[|steps| - 1], gone);
    }
  }

  /** The timed put gives up only on a queue of sixteen, and every drop comes after such a put. */
  lemma DropsNeedAFullQueue(steps: seq<Step>, step: Step)
    requires After(steps).Some? && Enabled(After(steps).value, step)
    ensures var s := After(steps).value;
      && (step.PutTimesOut? ==> |s.queue| == 16)
      && (Next(s, step).lost != s.lost ==> s.producer.Full?)
      && (Next(s, step).producer.Full? ==> step.PutTimesOut? || s.producer.Full?)
  {
    Reachable(steps);
  }

  /**
   Over every interleaving of the producer's queue operations with the consumer: the queue never holds more
   than 16; delivered and queued framesets, in that order, are the matched ones with some deleted; every
   matched frameset is delivered, queued, dropped or still in the producer's hand, and none twice; there
   are never more drops than matched framesets; and the put after dropping the oldest is never refused.
  */
  lemma QueueSafety(steps: seq<Step>)
    requires After(steps).Some?
    ensures var s := After(steps).value;
      && |s.queue| <= 16
      && Subsequence(s.delivered + s.queue, s.matched)
      && multiset(s.matched) == multiset(s.delivered) + multiset(s.queue) + multiset(s.lost) + multiset(InHand(s))
      && |s.lost| <= |s.matched|
      && !s.refused
  {
    Reachable(steps);
    var s := After(steps).value;
    WithoutHand(s.delivered + s.queue, InHand(s), s.matched);
  }

  lemma WithoutHand(a: seq<Frameset>, hand: seq<Frameset>, b: seq<Frameset>)
    requires Subsequence(a + hand, b) && |hand| <= 1
    ensures Subsequence(a, b)
  {
    assert a + [] == a;
    if hand != [] {
      assert a + hand == a + [hand[0]] + [];
      SubsequenceDelete(a, hand[0], [], b);
    }
  }

  lemma {:induction false} Reachable(steps: seq<Step>)
    requires After(steps).Some?
    ensures Invariant(After(steps).value)
  {
    if steps != [] {
      Reachable(steps[..|steps| - 1]);
      ConservedKept(After(steps[..|steps| - 1]).value, steps[|steps| - 1]);
      OrderedKept(After(steps[..|steps| - 1]).value, steps[|steps| - 1]);
    }
  }

  /** Drops and pick-ups since `s`, with one drop more in sight while the producer holds a frameset. */
  ghost predicate DropsPaid(s: State, t: State) {
    |t.lost| - |s.lost| + (if t.producer.Putting? || t.producer.Full? then 1 else 0) <= |t.matched| - |s.matched|
  }

  lemma DropsStayPaid(s: State, t: State, step: Step)
    requires DropsPaid(s, t) && Bounded(t) && Enabled(t, step)
    ensures DropsPaid(s, Next(t, step))
  {
  }

  lemma LastOfLater(early: seq<Step>, later: seq<Step>)
    requires later != [] && After(early + later).Some?
    ensures var before := After(early + later[..|later| - 1]);
      && before.Some? && Enabled(before.value, later[|later| - 1])
      && After(early + later) == Some(Next(before.value, later[|later| - 1]))
  {
    assert (early + later)[..|early + later| - 1] == early + later[..|later| - 1];
    assert (early + later)[|early + later| - 1] == later[|later| - 1];
  }

  /** From one idle moment of the producer on, at most one frameset is dropped per frameset picked up. */
  lemma {:induction false} OneDropPerFrameset(early: seq<Step>, later: seq<Step>)
    requires After(early).Some? && After(early + later).Some?
    requires After(early).value.producer.Idle?
    ensures DropsPaid(After(early).value, After(early + later).value)
  {
    if later == [] {
      assert early + later == early;
    } else {
      var n := |later| - 1;
      LastOfLater(early, later);
      OneDropPerFrameset(early, later[..n]);
      Reachable(early + later[..n]);
      DropsStayPaid(After(early).value, After(early + later[..n]).value, later[n]);
    }
  }

  // ---------------------------------------------------------------- behind the matcher

  ghost predicate InOrder(s: seq<Frameset>) {
    forall i, j :: 0 <= i < j < |s| ==> s[i].key < s[j].key
  }

  lemma {:induction false} SeqsInOrder(s: seq<Frameset>)
    ensures |Matcher.Seqs(s)| == |s| && forall i :: 0 <= i < |s| ==> Matcher.Seqs(s)[i] == s[i].key
    ensures InOrder(s) <==> Matcher.StrictlyIncreasing(Matcher.Seqs(s))
  {
    if s != [] {
      SeqsInOrder(s[1..]);
    }
  }

  /** Whatever is left of an ordered sequence is ordered. */
  lemma {:induction false} SubsequenceInOrder(a: seq<Frameset>, b: seq<Frameset>)
    requires Subsequence(a, b) && InOrder(b)
    ensures InOrder(a) && forall fs :: fs in a ==> fs in b
    decreases |b|
  {
    if a != [] {
      var a', b' := a[..|a| - 1], b[..|b| - 1];
      if a[|a| - 1] == b[|b| - 1] && Subsequence(a', b') {
        SubsequenceInOrder(a', b');
        LastIsLargest(a', b', b[|b| - 1]);
        assert a == a' + [b[|b| - 1]] && b == b' + [b[|b| - 1]];
      } else {
        SubsequenceInOrder(a, b');
      }
    }
  }

  lemma LastIsLargest(a: seq<Frameset>, b: seq<Frameset>, last: Frameset)
    requires InOrder(a) && InOrder(b + [last]) && forall fs :: fs in a ==> fs in b
    ensures InOrder(a + [last]) && forall fs :: fs in a + [last] ==> fs in b + [last]
  {
    forall i | 0 <= i < |a| ensures a[i].key < last.key {
      assert a[i] in a;
      var j :| 0 <= j < |b| && b[j] == a[i];
      assert (b + [last])[j].key < (b + [last])[|b|].key;
    }
  }

  lemma PrefixInOrder(a: seq<Frameset>, b: seq<Frameset>)
    requires a <= b && InOrder(b)
    ensures InOrder(a)
  {
    assert forall i :: 0 <= i < |a| ==> a[i] == b[i];
  }

  /**
   Matcher and queue together: with strictly increasing streams, what the consumer has been given and what is
   queued for it is strictly increasing in sequence number, for every interleaving of arrivals, evictions and
   match passes and every interleaving of producer and consumer.
  */
  lemma DeliveredInOrder(events: seq<Matcher.Event>, size: nat, steps: seq<Step>)
    requires After(steps).Some?
    // the producer picks up what the matcher emits
    requires After(steps).value.matched <= Matcher.Run(events, size).emitted
    requires Matcher.StrictlyIncreasing(Matcher.KeysOf(Matcher.RgbArrivals(events))) &&
        Matcher.StrictlyIncreasing(Matcher.KeysOf(Matcher.DepthArrivals(events)))
    ensures Matcher.StrictlyIncreasing(Matcher.Seqs(After(steps).value.delivered + After(steps).value.queue))
  {
    var s := After(steps).value;
    Matcher.EmittedInOrder(events, size);
    SeqsInOrder(Matcher.Run(events, size).emitted);
    QueueSafety(steps);
    PrefixInOrder(s.matched, Matcher.Run(events, size).emitted);
    SubsequenceInOrder(s.delivered + s.queue, s.matched);
    SeqsInOrder(s.delivered + s.queue);
  }
}
