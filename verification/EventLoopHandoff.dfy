/**
 The hand-off between the threads that post callbacks and the loop thread that runs them: the queue of
 MpscQueue, the wake flag of the poller and the passes of private/threading/event_loop.cpp, as one machine of
 interleaved atomic steps. A wait may return for any reason (a timer, a ready descriptor, an interruption); if the
 wake flag is set it may or may not be among the events that this wait reports and clears.
 A callback that posts again is one more posting thread.
 */
module EventLoopHandoff {
  import opened Wrappers
  import MpscQueue

  datatype Stage =
    | Waiting              // about to wait, or blocked in the wait
    | Draining             // the wait returned; RunPosts dequeues
    | Running(next: nat)   // RunPosts calls runningPosts[next]
    | Stopped

  /** `waking` holds the posters whose Enqueue is over and whose Wake is not. */
  datatype Loop<T> = Loop(
    posts: MpscQueue.Queue<T>,
    wake: bool,
    waking: set<MpscQueue.Thread>,
    stage: Stage,
    running: seq<Option<T>>)

  datatype Event<T> =
    | Post(action: MpscQueue.Action<T>)
    | Wake(thread: MpscQueue.Thread)
    | Return(clears: bool)
    | Drain(action: MpscQueue.Action<T>)
    | RunPost
    | EndPass
    | Stop

  datatype Reply<T> = Refused | Broken | Accepted(loop: Loop<T>)

  function Apply<T>(l: Loop<T>, e: Event<T>): (r: Reply<T>)
  {
    match e
    case Post(a) =>
      if !(a.Fill? || a.Exchange? || a.Link?) || a.thread in l.waking then Refused
      else
        (match MpscQueue.Apply(l.posts, a)
         case Blocked => Refused
         case Fault => Broken
         case Done(q) => Accepted(l.(posts := q, waking := if a.Link? then l.waking + {a.thread} else l.waking)))
    case Wake(t) =>
      if t in l.waking then Accepted(l.(wake := true, waking := l.waking - {t})) else Refused
    case Return(clears) =>
      if !l.stage.Waiting? || (clears && !l.wake) then Refused
      else Accepted(l.(stage := Draining, wake := l.wake && !clears))
    case Drain(a) =>
      if !l.stage.Draining? || a.Fill? || a.Exchange? || a.Link? then Refused
      else
        (match MpscQueue.Apply(l.posts, a)
         case Blocked => Refused
         case Fault => Broken
         case Done(q) =>
           if a.DeleteTail? then Accepted(l.(posts := q, running := l.running + [l.posts.consumer.output]))
           else if a.LoadNext? && q.consumer.Ready? then Accepted(l.(posts := q, stage := Running(0)))
           else Accepted(l.(posts := q)))
    case RunPost =>
      if l.stage.Running? && l.stage.next < |l.running| then Accepted(l.(stage := Running(l.stage.next + 1)))
      else Refused
    case EndPass =>
      if l.stage.Running? && l.stage.next == |l.running| then Accepted(l.(stage := Waiting, running := []))
      else Refused
    case Stop =>
      if l.stage.Waiting? then Accepted(l.(stage := Stopped)) else Refused
  }

  /** The queue's history, and the callbacks that ran, in the order they ran. */
  datatype Past<T> = Past(queue: MpscQueue.History<T>, ran: seq<Option<T>>)

  function Record<T>(l: Loop<T>, p: Past<T>, e: Event<T>): (r: Past<T>)
  {
    match e
    case Post(a) => p.(queue := MpscQueue.Record(l.posts, p.queue, a))
    case Drain(a) => p.(queue := MpscQueue.Record(l.posts, p.queue, a))
    case RunPost =>
      if l.stage.Running? && l.stage.next < |l.running| then p.(ran := p.ran + [l.running[l.stage.next]]) else p
    case _ => p
  }

  /** A wake sets the flag, and nothing but the wait that reports it clears it. */
  lemma FlagUntilReported<T>(l: Loop<T>, e: Event<T>)
    requires Apply(l, e).Accepted?
    ensures Apply(l, e).loop.wake <==> e.Wake? || (l.wake && e != Return(true))
  {
  }

  // ---------------------------------------------------------------------------------------------------------
  // The invariant
  // ---------------------------------------------------------------------------------------------------------

  /** Thread t exchanged its callback in and its Post has yet to set the wake flag. */
  ghost predicate Inside<T>(l: Loop<T>, t: MpscQueue.Thread)
  {
    t in l.waking || (t in l.posts.producers && l.posts.producers[t].Exchanged?)
  }

  ghost predicate SomeInside<T>(l: Loop<T>)
  {
    exists t :: Inside(l, t)
  }

  ghost predicate Queued<T>(p: Past<T>)
  {
    p.queue.base < |p.queue.pushed|
  }

  /** The heart of the protocol: outside a drain, a queued callback has a set wake flag or a poster to set it. */
  ghost predicate WakeInv<T>(l: Loop<T>, p: Past<T>)
  {
    (l.stage.Waiting? || l.stage.Running?) && !l.wake && Queued(p) ==> SomeInside(l)
  }

  function Taken<T>(q: MpscQueue.Queue<T>): (r: seq<Option<T>>)
  {
    if q.consumer.MovedOut? || q.consumer.Advanced? then [q.consumer.output] else []
  }

  /** The part of runningPosts that has not been called yet. */
  function Batch<T>(l: Loop<T>): (r: seq<Option<T>>)
  {
    if l.stage.Running? && l.stage.next <= |l.running| then l.running[l.stage.next..] else l.running
  }

  function Lift<T>(s: seq<T>): (r: seq<Option<T>>)
    ensures |r| == |s|
    ensures forall i :: 0 <= i < |s| ==> r[i] == Some(s[i])
  {
    seq(|s|, i requires 0 <= i < |s| => Some(s[i]))
  }

  ghost predicate DeliveryInv<T>(l: Loop<T>, p: Past<T>)
  {
    && (l.stage.Running? ==> l.stage.next <= |l.running|)
    && (l.stage.Waiting? || l.stage.Stopped? ==> l.running == [])
    && (!l.stage.Draining? ==> l.posts.consumer.Ready?)
    && Lift(p.queue.popped) == p.ran + Batch(l) + Taken(l.posts)
  }

  ghost predicate LoopInv<T>(l: Loop<T>, p: Past<T>)
  {
    && MpscQueue.Inv(l.posts, p.queue)
    && l.waking !! l.posts.producers.Keys
    && WakeInv(l, p)
    && DeliveryInv(l, p)
  }

  // ---------------------------------------------------------------------------------------------------------
  // Every step keeps it
  // ---------------------------------------------------------------------------------------------------------

  lemma PostStep<T>(l: Loop<T>, p: Past<T>, e: Event<T>)
    requires LoopInv(l, p) && e.Post? && !Apply(l, e).Refused?
    ensures Apply(l, e).Accepted? && LoopInv(Apply(l, e).loop, Record(l, p, e))
  {
    MpscQueue.StepInv(l.posts, p.queue, e.action);
    var l', p' := Apply(l, e).loop, Record(l, p, e);
    assert WakeInv(l', p') by {
      if SomeInside(l) {
        var t :| Inside(l, t);
        assert Inside(l', t);
      }
      if e.action.Exchange? { assert Inside(l', e.action.thread); }
    }
  }

  lemma RunPostStep<T>(l: Loop<T>, p: Past<T>)
    requires LoopInv(l, p) && Apply(l, RunPost).Accepted?
    ensures LoopInv(Apply(l, RunPost).loop, Record(l, p, RunPost))
  {
    var l' := Apply(l, RunPost).loop;
    var k := l.stage.next;
    assert Batch(l) == [l.running[k]] + Batch(l');
    if SomeInside(l) {
      var t :| Inside(l, t);
      assert Inside(l', t);
    }
  }

  lemma WakeStep<T>(l: Loop<T>, p: Past<T>, e: Event<T>)
    requires LoopInv(l, p) && !e.Post? && !e.Drain? && !e.RunPost? && Apply(l, e).Accepted?
    ensures LoopInv(Apply(l, e).loop, p)
  {
    var l' := Apply(l, e).loop;
    assert DeliveryInv(l', p) by { assert Batch(l') == Batch(l); }
    if SomeInside(l) && !e.Wake? {
      var t :| Inside(l, t);
      assert Inside(l', t);
    }
  }

  lemma DrainStep<T>(l: Loop<T>, p: Past<T>, e: Event<T>)
    requires LoopInv(l, p) && e.Drain? && !Apply(l, e).Refused?
    ensures Apply(l, e).Accepted? && LoopInv(Apply(l, e).loop, Record(l, p, e))
  {
    var a := e.action;
    MpscQueue.StepInv(l.posts, p.queue, a);
    match a
    case LoadNext => DrainLoad(l, p);
    case MoveOut => DrainMoveOut(l, p);
    case StoreTail => DrainAdvance(l, p, a);
    case DeleteTail => DrainAdvance(l, p, a);
    case _ =>
  }

  lemma DrainMoveOut<T>(l: Loop<T>, p: Past<T>)
    requires LoopInv(l, p) && Apply(l, Drain(MpscQueue.MoveOut)).Accepted?
    ensures var l', p' := Apply(l, Drain(MpscQueue.MoveOut)).loop, Record(l, p, Drain(MpscQueue.MoveOut));
            WakeInv(l', p') && DeliveryInv(l', p')
  {
    MpscQueue.MoveOutStep(l.posts, p.queue);
    assert MpscQueue.DataOk(l.posts, p.queue, p.queue.base + 1);
  }

  lemma DrainAdvance<T>(l: Loop<T>, p: Past<T>, a: MpscQueue.Action<T>)
    requires LoopInv(l, p) && (a.StoreTail? || a.DeleteTail?) && Apply(l, Drain(a)).Accepted?
    ensures var l', p' := Apply(l, Drain(a)).loop, Record(l, p, Drain(a)); WakeInv(l', p') && DeliveryInv(l', p')
  {
  }

  /** A drain that finds no next node has emptied the queue, or the poster of the front one is still inside Post. */
  lemma DrainLoad<T>(l: Loop<T>, p: Past<T>)
    requires LoopInv(l, p) && Apply(l, Drain(MpscQueue.LoadNext)).Accepted?
    ensures WakeInv(Apply(l, Drain(MpscQueue.LoadNext)).loop, p) && DeliveryInv(Apply(l, Drain(MpscQueue.LoadNext)).loop, p)
  {
    var l' := Apply(l, Drain(MpscQueue.LoadNext)).loop;
    MpscQueue.EmptyAnswer(l.posts, p.queue);
    if l'.stage.Running? && Queued(p) { assert Inside(l', p.queue.pushed[|p.queue.popped|].thread); }
  }

  lemma StepInv<T>(l: Loop<T>, p: Past<T>, e: Event<T>)
    requires LoopInv(l, p)
    ensures !Apply(l, e).Broken?
    ensures Apply(l, e).Accepted? ==> LoopInv(Apply(l, e).loop, Record(l, p, e))
  {
    if !Apply(l, e).Refused? {
      match e
      case Post(_) => PostStep(l, p, e);
      case Drain(_) => DrainStep(l, p, e);
      case RunPost => RunPostStep(l, p);
      case _ => WakeStep(l, p, e);
    }
  }
}
