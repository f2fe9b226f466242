/**
 The loop thread on its own gets through: from a wait that reports the wake flag, and with no poster inside Post, its
 next steps take every callback out of the queue, run them and come back to the wait.
 */
module EventLoopProgress {
  import MpscQueue
  import opened EventLoopHandoff
  import opened EventLoopRuns

  ghost predicate ByLoop<T>(e: Event<T>)
  {
    e.Return? || e.Drain? || e.RunPost? || e.EndPass?
  }

  lemma PlayFirst<T>(c: Course<T>, e: Event<T>, rest: seq<Event<T>>)
    ensures Play(c, [e] + rest) == Play(Advance(c, e), rest)
  {
    assert ([e] + rest)[1..] == rest;
  }

  /** Nothing but the queue and the batch moved, and no poster did anything. */
  ghost predicate OnlyDrained<T>(c: Course<T>, d: Course<T>)
  {
    && c.Live? && d.Live? && d.loop.stage.Draining?
    && d.loop.wake == c.loop.wake && d.loop.waking == c.loop.waking
    && d.loop.posts.producers == c.loop.posts.producers
    && d.past.queue.pushed == c.past.queue.pushed
  }

  /** Action a is the consumer's next one, and if it looks for a next node it finds one. */
  ghost predicate Follows<T>(q: MpscQueue.Queue<T>, a: MpscQueue.Action<T>)
  {
    match q.consumer
    case Ready => a.LoadNext? && q.tail in q.heap && q.heap[q.tail].next.Some?
    case SawNext(_, _) => a.MoveOut?
    case MovedOut(_, _, _) => a.StoreTail?
    case Advanced(_, _) => a.DeleteTail?
  }

  /** Where the consumer stands after its step a. */
  ghost predicate Reached<T>(a: MpscQueue.Action<T>, consumer: MpscQueue.Consumer<T>)
  {
    match a
    case LoadNext => consumer.SawNext?
    case MoveOut => consumer.MovedOut?
    case StoreTail => consumer.Advanced?
    case _ => consumer.Ready?
  }

  lemma DrainEffect<T>(c: Course<T>, a: MpscQueue.Action<T>)
    requires c.Live? && c.loop.stage.Draining? && Follows(c.loop.posts, a) && !Apply(c.loop, Drain(a)).Broken?
    ensures var d := Advance(c, Drain(a));
            && Apply(c.loop, Drain(a)).Accepted? && OnlyDrained(c, d)
            && d.past.queue.base == c.past.queue.base + (if a.StoreTail? then 1 else 0)
            && Reached(a, d.loop.posts.consumer)
  {
  }

  lemma DrainMove<T>(c: Course<T>, a: MpscQueue.Action<T>)
    requires c.Live? && LoopInv(c.loop, c.past) && c.loop.stage.Draining? && Follows(c.loop.posts, a)
    ensures var d := Advance(c, Drain(a));
            && OnlyDrained(c, d) && LoopInv(d.loop, d.past)
            && d.past.queue.base == c.past.queue.base + (if a.StoreTail? then 1 else 0)
            && Reached(a, d.loop.posts.consumer)
  {
    StepInv(c.loop, c.past, Drain(a));
    DrainEffect(c, a);
  }

  /** The four steps of one dequeue. */
  function OneOut<T>(c: Course<T>): (r: Course<T>)
  {
    var moved := Advance(Advance(c, Drain(MpscQueue.LoadNext)), Drain(MpscQueue.MoveOut));
    Advance(Advance(moved, Drain(MpscQueue.StoreTail)), Drain(MpscQueue.DeleteTail))
  }

  lemma DrainOne<T>(c: Course<T>) returns (d: Course<T>)
    requires c.Live? && LoopInv(c.loop, c.past) && c.loop.stage.Draining? && c.loop.posts.consumer.Ready?
    requires Queued(c.past) && !SomeInside(c.loop)
    ensures d == OneOut(c)
    ensures OnlyDrained(c, d) && LoopInv(d.loop, d.past) && d.loop.posts.consumer.Ready?
    ensures d.past.queue.base == c.past.queue.base + 1
  {
    MpscQueue.EmptyAnswer(c.loop.posts, c.past.queue);
    assert !Inside(c.loop, c.past.queue.pushed[|c.past.queue.popped|].thread);
    DrainMove(c, MpscQueue.LoadNext);
    var c1 := Advance(c, Drain(MpscQueue.LoadNext));
    DrainMove(c1, MpscQueue.MoveOut);
    var c2 := Advance(c1, Drain(MpscQueue.MoveOut));
    DrainMove(c2, MpscQueue.StoreTail);
    var c3 := Advance(c2, Drain(MpscQueue.StoreTail));
    DrainMove(c3, MpscQueue.DeleteTail);
    d := Advance(c3, Drain(MpscQueue.DeleteTail));
  }

  /** With an empty queue the loop alone runs the rest of its batch and comes back to the wait. */
  lemma {:induction false} RunRest<T>(l: Loop<T>, p: Past<T>) returns (events: seq<Event<T>>)
    requires LoopInv(l, p) && l.stage.Running? && !SomeInside(l) && !Queued(p)
    ensures forall i :: 0 <= i < |events| ==> ByLoop(events[i])
    ensures var r := Play(Live(l, p), events);
            && r.Live? && LoopInv(r.loop, r.past) && r.loop.stage.Waiting?
            && r.loop.wake == l.wake && r.past.queue == p.queue && !SomeInside(r.loop)
    decreases |l.running| - l.stage.next
  {
    var c := Live(l, p);
    var e := if l.stage.next < |l.running| then RunPost else EndPass;
    StepInv(l, p, e);
    var c1 := Advance(c, e);
    forall t ensures !Inside(c1.loop, t) { assert !Inside(l, t); }
    var rest := [];
    if e.RunPost? { rest := RunRest(c1.loop, c1.past); }
    PlayFirst(c, e, rest);
    events := [e] + rest;
  }

  lemma StillNobody<T>(c: Course<T>, d: Course<T>)
    requires OnlyDrained(c, d) && !SomeInside(c.loop)
    ensures !SomeInside(d.loop)
  {
    forall t ensures !Inside(d.loop, t) { assert !Inside(c.loop, t); }
  }

  /** An empty queue ends the drain. */
  lemma DrainEmpty<T>(l: Loop<T>, p: Past<T>)
    requires LoopInv(l, p) && l.stage.Draining? && l.posts.consumer.Ready? && !SomeInside(l) && !Queued(p)
    ensures var r := Advance(Live(l, p), Drain(MpscQueue.LoadNext));
            && r.Live? && LoopInv(r.loop, r.past) && r.loop.stage == Running(0)
            && r.loop.wake == l.wake && !SomeInside(r.loop) && !Queued(r.past)
            && r.past.queue.pushed == p.queue.pushed
  {
    MpscQueue.EmptyAnswer(l.posts, p.queue);
    StepInv(l, p, Drain(MpscQueue.LoadNext));
    var r := Advance(Live(l, p), Drain(MpscQueue.LoadNext));
    forall t ensures !Inside(r.loop, t) { assert !Inside(l, t); }
  }

  /** From inside a drain the loop alone, with no poster in between, takes everything out of the queue, runs it and
      comes back to the wait. */
  lemma {:induction false} DrainRest<T>(l: Loop<T>, p: Past<T>) returns (events: seq<Event<T>>)
    requires LoopInv(l, p) && l.stage.Draining? && l.posts.consumer.Ready? && !SomeInside(l)
    ensures forall i :: 0 <= i < |events| ==> ByLoop(events[i])
    ensures var r := Play(Live(l, p), events);
            && r.Live? && LoopInv(r.loop, r.past) && r.loop.stage.Waiting?
            && r.loop.wake == l.wake && !SomeInside(r.loop) && !Queued(r.past)
            && r.past.queue.pushed == p.queue.pushed
    decreases |p.queue.pushed| - p.queue.base
  {
    var c := Live(l, p);
    if Queued(p) {
      var d := DrainOne(c);
      StillNobody(c, d);
      var rest := DrainRest(d.loop, d.past);
      events := PrefixDrain(c, rest);
    } else {
      DrainEmpty(l, p);
      var d := Advance(c, Drain(MpscQueue.LoadNext));
      var rest := RunRest(d.loop, d.past);
      PlayFirst(c, Drain(MpscQueue.LoadNext), rest);
      events := [Drain(MpscQueue.LoadNext)] + rest;
    }
  }

  /** The four steps that take one callback out, in front of what follows. */
  lemma PrefixDrain<T>(c: Course<T>, rest: seq<Event<T>>) returns (events: seq<Event<T>>)
    requires forall i :: 0 <= i < |rest| ==> ByLoop(rest[i])
    ensures forall i :: 0 <= i < |events| ==> ByLoop(events[i])
    ensures Play(c, events) == Play(OneOut(c), rest)
  {
    var c1 := Advance(c, Drain(MpscQueue.LoadNext));
    var c2 := Advance(c1, Drain(MpscQueue.MoveOut));
    var c3 := Advance(c2, Drain(MpscQueue.StoreTail));
    PlayFirst(c3, Drain(MpscQueue.DeleteTail), rest);
    events := [Drain(MpscQueue.DeleteTail)] + rest;
    PlayFirst(c2, Drain(MpscQueue.StoreTail), events);
    events := [Drain(MpscQueue.StoreTail)] + events;
    PlayFirst(c1, Drain(MpscQueue.MoveOut), events);
    events := [Drain(MpscQueue.MoveOut)] + events;
    PlayFirst(c, Drain(MpscQueue.LoadNext), events);
    events := [Drain(MpscQueue.LoadNext)] + events;
  }

  /** A set flag is enough: with no poster in Post, the wait that reports it and the rest of that pass, all by the
      loop thread alone, run every posted callback and come back to the wait with the flag clear. */
  lemma WakeDeliversAll<T>(l: Loop<T>, p: Past<T>) returns (events: seq<Event<T>>)
    requires LoopInv(l, p) && l.stage.Waiting? && l.wake && !SomeInside(l)
    ensures forall i :: 0 <= i < |events| ==> ByLoop(events[i])
    ensures var r := Play(Live(l, p), events);
            && r.Live? && r.loop.stage.Waiting? && !r.loop.wake
            && r.past.queue.pushed == p.queue.pushed && r.past.ran == Lift(MpscQueue.Values(p.queue.pushed))
  {
    var c := Live(l, p);
    StepInv(l, p, Return(true));
    var c1 := Advance(c, Return(true));
    forall t ensures !Inside(c1.loop, t) { assert !Inside(l, t); }
    var rest := DrainRest(c1.loop, c1.past);
    PlayFirst(c, Return(true), rest);
    events := [Return(true)] + rest;
  }
}
