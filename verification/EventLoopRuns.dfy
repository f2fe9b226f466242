/**
 Whole runs of the hand-off between posters and the event loop: any sequence of steps, by anybody, in any order.
 A step that is not possible where it is scheduled changes nothing.
 */
module EventLoopRuns {
  import MpscQueue
  import opened EventLoopHandoff

  datatype Course<T> = Dead | Live(loop: Loop<T>, past: Past<T>)

  function Start<T>(stub: MpscQueue.Address): (c: Course<T>)
  {
    Live(Loop(MpscQueue.Initial(stub), false, {}, Waiting, []), Past(MpscQueue.InitialHistory(stub), []))
  }

  function Advance<T>(c: Course<T>, e: Event<T>): (r: Course<T>)
  {
    if c.Dead? then c
    else
      match Apply(c.loop, e)
      case Refused => c
      case Broken => Dead
      case Accepted(l) => Live(l, Record(c.loop, c.past, e))
  }

  function Play<T>(c: Course<T>, events: seq<Event<T>>): (r: Course<T>)
    decreases |events|
  {
    if events == [] then c else Play(Advance(c, events[0]), events[1..])
  }

  /** What any sequence of scheduled events leads to. */
  function Run<T>(stub: MpscQueue.Address, events: seq<Event<T>>): (r: Course<T>)
  {
    Play(Start(stub), events)
  }

  lemma {:induction false} PlayInv<T>(c: Course<T>, events: seq<Event<T>>)
    requires c.Live? && LoopInv(c.loop, c.past)
    ensures var r := Play(c, events); r.Live? && LoopInv(r.loop, r.past)
    decreases |events|
  {
    if events != [] {
      StepInv(c.loop, c.past, events[0]);
      PlayInv(Advance(c, events[0]), events[1..]);
    }
  }

  lemma RunInv<T>(stub: MpscQueue.Address, events: seq<Event<T>>)
    ensures var r := Run(stub, events); r.Live? && LoopInv(r.loop, r.past)
  {
    MpscQueue.InitialInv<T>(stub);
    PlayInv(Start<T>(stub), events);
  }

  /** No lost wake-up, in every interleaving: a loop about to wait with the flag clear while a callback is queued
      has a poster inside Post that exchanged its callback in and has yet to set the flag. */
  lemma NoLostWakeup<T>(stub: MpscQueue.Address, events: seq<Event<T>>)
    ensures var r := Run(stub, events);
            && r.Live? && |r.past.queue.popped| <= |r.past.queue.pushed|
            && (r.loop.stage.Waiting? && !r.loop.wake && MpscQueue.Fifo(r.past.queue) != [] ==> SomeInside(r.loop))
  {
    RunInv(stub, events);
  }

  /** Once every poster has returned, a clear flag at the wait means that every posted callback ran, each once and
      in the order of the exchanges. */
  lemma QuietMeansAllRan<T>(stub: MpscQueue.Address, events: seq<Event<T>>)
    ensures var r := Run(stub, events);
            r.Live? && (r.loop.stage.Waiting? && !r.loop.wake && !SomeInside(r.loop) ==>
                          r.past.ran == Lift(MpscQueue.Values(r.past.queue.pushed)))
  {
    RunInv(stub, events);
  }

  /** At every moment the callbacks that ran are a prefix of those exchanged in. */
  lemma RanPrefix<T>(stub: MpscQueue.Address, events: seq<Event<T>>)
    ensures var r := Run(stub, events);
            r.Live? && r.past.ran <= Lift(MpscQueue.Values(r.past.queue.pushed))
  {
    RunInv(stub, events);
    var r := Run(stub, events);
    assert r.past.ran <= Lift(r.past.queue.popped);
  }
}
