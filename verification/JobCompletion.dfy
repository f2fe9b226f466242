/**
 Waits on job groups come to an end. From a reachable state some continuation brings every thread out of all its calls
 exactly when the waits form no knot: every step that a thread inside a call takes lowers a weight, unless the thread is
 stuck, and ties no knot. And as long as every wait is for a group younger than the one whose job makes the call, there
 never is a knot.
 */
module JobCompletion {
  import opened Wrappers
  import opened JobGroups
  import opened JobProgress

  // ---------------------------------------------------------------------------------------------------------
  // How much is left to do
  // ---------------------------------------------------------------------------------------------------------

  /** A check has one flag to read for each group up the chain, and those get older. */
  function FrameWeight(f: Frame): (r: nat)
  {
    match f
    case Counted(g, _) => g + 7
    case Pushed(_) => 1
    case Waiting(_) => 1
    case Popped(g, _) => g + 4
    case Checking(_, _, at) => at + 3
    case Body(_, _, _) => 2
    case Settling(_, _) => 1
    case Flagged(_) => 2
    case Dropping(_, _) => 1
  }

  function StackWeight(stack: seq<Frame>): (r: nat)
  {
    if stack == [] then 0 else StackWeight(stack[..|stack| - 1]) + FrameWeight(stack[|stack| - 1])
  }

  function QueueWeight(n: nat, g: GroupId): (r: nat)
  {
    if n == 0 then 0 else QueueWeight(n - 1, g) + g + 5
  }

  function GroupsWeight(gs: seq<Group>, n: nat): (r: nat)
    requires n <= |gs|
  {
    if n == 0 then 0 else GroupsWeight(gs, n - 1) + QueueWeight(|gs[n - 1].pending|, n - 1)
  }

  function ThreadsWeight(s: State, n: nat): (r: nat)
  {
    if n == 0 then 0 else ThreadsWeight(s, n - 1) + StackWeight(Of(s, n - 1).stack)
  }

  /** The weight of the queues and of the threads below n. */
  function Weight(s: State, n: nat): (r: nat)
  {
    GroupsWeight(s.groups, |s.groups|) + ThreadsWeight(s, n)
  }

  lemma StackWeightTop(stack: seq<Frame>, n: nat)
    requires n <= |stack| <= n + 1
    ensures StackWeight(stack) == StackWeight(stack[..n]) + if n < |stack| then FrameWeight(stack[n]) else 0
  {
    if n == |stack| { assert stack[..n] == stack; }
  }

  lemma {:induction false} ThreadsWeightChange(s: State, s': State, t: Thread, n: nat)
    requires forall u :: u != t ==> Of(s', u) == Of(s, u)
    ensures ThreadsWeight(s', n) - ThreadsWeight(s, n) ==
              if t < n then StackWeight(Of(s', t).stack) - StackWeight(Of(s, t).stack) else 0
  {
    if n > 0 {
      ThreadsWeightChange(s, s', t, n - 1);
      if n - 1 != t { assert Of(s', n - 1) == Of(s, n - 1); }
    }
  }

  lemma {:induction false} GroupsWeightChange(gs: seq<Group>, gs': seq<Group>, g: GroupId, n: nat)
    requires n <= |gs| == |gs'| && g < |gs|
    requires forall x :: 0 <= x < |gs| && x != g ==> gs'[x].pending == gs[x].pending
    ensures GroupsWeight(gs', n) - GroupsWeight(gs, n) ==
              if g < n then QueueWeight(|gs'[g].pending|, g) - QueueWeight(|gs[g].pending|, g) else 0
  {
    if n > 0 { GroupsWeightChange(gs, gs', g, n - 1); }
  }

  // ---------------------------------------------------------------------------------------------------------
  // A step of a thread inside a call
  // ---------------------------------------------------------------------------------------------------------

  /** The weight of the frame at position n, if there is one. */
  function WeightAt(stack: seq<Frame>, n: nat): (r: nat)
  {
    if n < |stack| then FrameWeight(stack[n]) else 0
  }

  /** The step changes at most the queue of the group its thread is busy with. */
  lemma NextQueues(s: State, t: Thread)
    requires Top(s, t).Some? && Top(s, t).value.group < |s.groups| && Apply(s, Next(s, t)).Done?
    ensures var gs, gs', g := s.groups, Apply(s, Next(s, t)).state.groups, Top(s, t).value.group;
            |gs'| == |gs| && forall x :: 0 <= x < |gs| && x != g ==> gs'[x].pending == gs[x].pending
  {
  }

  /** What goes from the frame to the queue or back weighs less afterwards. */
  lemma NextFrame(s: State, t: Thread)
    requires Top(s, t).Some? && Top(s, t).value.group < |s.groups| && ParentsOlder(s.groups)
    requires Apply(s, Next(s, t)).Done? && !Stuck(s, t)
    ensures var s', g, n := Apply(s, Next(s, t)).state, Top(s, t).value.group, Depth(s, Next(s, t));
            && |s'.groups| == |s.groups|
            && WeightAt(Of(s', t).stack, n) + QueueWeight(|s'.groups[g].pending|, g)
                 < WeightAt(Of(s, t).stack, n) + QueueWeight(|s.groups[g].pending|, g)
  {
    var s', g := Apply(s, Next(s, t)).state, Top(s, t).value.group;
    if Top(s, t).value.Waiting? && s.groups[g].pending != [] {
      assert |s'.groups[g].pending| == |s.groups[g].pending| - 1 || s'.groups[g].pending == s.groups[g].pending;
    }
  }

  lemma NextLowers(s: State, js: Jobs, t: Thread, n: nat)
    requires Inv(s, js) && Top(s, t).Some? && !Stuck(s, t) && t < n
    ensures Apply(s, Next(s, t)).Done? && Weight(Apply(s, Next(s, t)).state, n) < Weight(s, n)
  {
    var a := Next(s, t);
    NextStep(s, js, t);
    TopExists(s, js, t);
    var s', g, d := Apply(s, a).state, Top(s, t).value.group, Depth(s, a);
    StepStack(s, a);
    NextQueues(s, t);
    NextFrame(s, t);
    StackWeightTop(Of(s, t).stack, d);
    StackWeightTop(Of(s', t).stack, d);
    ThreadsWeightChange(s, s', t, n);
    GroupsWeightChange(s.groups, s'.groups, g, |s.groups|);
  }

  lemma NextStartsNoWait(s: State, t: Thread)
    requires Top(s, t).Some? && Apply(s, Next(s, t)).Done?
    ensures var stack', n := Of(Apply(s, Next(s, t)).state, t).stack, Depth(s, Next(s, t));
            n < |stack'| ==> !stack'[n].Waiting?
  {
  }

  /** A wait after the step was one before it, and so was everything underneath. */
  lemma WaitWasThere(s: State, x: Thread, t: Thread, d: nat)
    requires Top(s, x).Some? && Apply(s, Next(s, x)).Done? && IsWait(Apply(s, Next(s, x)).state, t, d)
    ensures SameUpTo(Apply(s, Next(s, x)).state, s, t, d)
  {
    var a := Next(s, x);
    StepStack(s, a);
    var stack, stack' := Of(s, t).stack, Of(Apply(s, a).state, t).stack;
    if t == x {
      NextStartsNoWait(s, x);
      forall e: nat | e <= d ensures e < |stack| && stack'[e] == stack[e] {
        assert stack'[e] == stack'[..Depth(s, a)][e] && stack[e] == stack[..Depth(s, a)][e];
      }
    }
  }

  /** Steps inside calls tie no knot. */
  lemma KnotWasThere(s: State, x: Thread, knot: Ties)
    requires Top(s, x).Some? && Apply(s, Next(s, x)).Done? && Knot(Apply(s, Next(s, x)).state, knot)
    ensures Knot(s, knot)
  {
    var s' := Apply(s, Next(s, x)).state;
    forall t | t in knot ensures Tied(s, knot, t) {
      assert Tied(s', knot, t);
      WaitWasThere(s, x, t, knot[t].depth);
      assert Tied(s', knot, knot[t].holder);
      WaitWasThere(s, x, knot[t].holder, knot[knot[t].holder].depth);
    }
  }

  // ---------------------------------------------------------------------------------------------------------
  // Everybody gets through exactly when there is no knot
  // ---------------------------------------------------------------------------------------------------------

  /** Nobody is inside a call. */
  ghost predicate Quiet(p: Progress)
  {
    p.Alive? && forall t :: !Busy(p.state, t)
  }

  ghost predicate Knotted(s: State)
  {
    exists knot :: Knot(s, knot)
  }

  ghost predicate Below(s: State, n: nat)
  {
    forall t :: t in s.threads ==> t < n
  }

  /** No new group, job, wait, cancellation or runner: threads only go on with what they are inside of. */
  predicate GoesOn(a: Action)
  {
    !(a.NewGroup? || a.Submit? || a.StartRunner? || a.BeginWait? || a.Cancel?)
  }

  ghost predicate AllGoOn(later: seq<Action>)
  {
    forall k :: 0 <= k < |later| ==> GoesOn(later[k])
  }

  lemma {:induction false} ContinueCons(p: Progress, a: Action, later: seq<Action>)
    ensures Continue(p, [a] + later) == Continue(Advance(p, a), later)
  {
    if later == [] {
      assert [a] + later == [a] && [a][..0] == [];
      assert Continue(p, []) == p;
    } else {
      var n := |later| - 1;
      ContinueCons(p, a, later[..n]);
      assert ([a] + later)[..n + 1] == [a] + later[..n];
    }
  }

  /** A state from which threads can go on: sound, without a knot, and with its threads below n. */
  ghost predicate Open(p: Progress, n: nat)
  {
    p.Alive? && Inv(p.state, p.jobs) && !Knotted(p.state) && Below(p.state, n)
  }

  lemma NoNewKnot(s: State, x: Thread)
    requires Top(s, x).Some? && Apply(s, Next(s, x)).Done? && !Knotted(s)
    ensures !Knotted(Apply(s, Next(s, x)).state)
  {
    var s' := Apply(s, Next(s, x)).state;
    if Knotted(s') {
      var knot :| Knot(s', knot);
      KnotWasThere(s, x, knot);
    }
  }

  lemma StaysBelow(s: State, a: Action, n: nat)
    requires Apply(s, a).Done? && Below(s, n) && a.thread in s.threads
    ensures Below(Apply(s, a).state, n)
  {
    StepElsewhere(s, a);
    var s' := Apply(s, a).state;
    forall t | t in s'.threads ensures t < n { if t != a.thread { assert t in s.threads; } }
  }

  /** One step of a thread that is not stuck: the state stays sound and free of knots, and less is left to do. */
  lemma Onward(p: Progress, x: Thread, n: nat)
    requires Open(p, n) && Busy(p.state, x) && !Stuck(p.state, x)
    ensures var p' := Advance(p, Next(p.state, x)); Open(p', n) && Weight(p'.state, n) < Weight(p.state, n)
  {
    var s, js, a := p.state, p.jobs, Next(p.state, x);
    TopExists(s, js, x);
    NextLowers(s, js, x, n);
    assert Allowed(s, js, a);
    StepInv(s, js, a);
    StaysBelow(s, a, n);
    NoNewKnot(s, x);
    assert Advance(p, a) == Alive(Apply(s, a).state, Record(s, js, a));
  }

  lemma StuckIsQuiet(p: Progress, n: nat)
    requires Open(p, n) && AllStuck(p.state)
    ensures Quiet(p)
  {
    forall t ensures !Busy(p.state, t) {
      if Busy(p.state, t) {
        TopExists(p.state, p.jobs, t);
        var knot := StuckMeansKnot(p.state, p.jobs, t);
      }
    }
  }

  lemma {:induction false} Unwind(p: Progress, n: nat) returns (later: seq<Action>)
    requires Open(p, n)
    ensures Quiet(Continue(p, later)) && AllGoOn(later)
    decreases Weight(p.state, n)
  {
    if AllStuck(p.state) {
      StuckIsQuiet(p, n);
      later := [];
    } else {
      var x :| x in p.state.threads && Busy(p.state, x) && !Stuck(p.state, x);
      Onward(p, x, n);
      var rest := Unwind(Advance(p, Next(p.state, x)), n);
      later := Prepended(p, x, rest);
    }
  }

  lemma Prepended(p: Progress, x: Thread, rest: seq<Action>) returns (later: seq<Action>)
    requires p.Alive? && Busy(p.state, x) && AllGoOn(rest) && Quiet(Continue(Advance(p, Next(p.state, x)), rest))
    ensures Quiet(Continue(p, later)) && AllGoOn(later)
  {
    var a := Next(p.state, x);
    ContinueCons(p, a, rest);
    later := [a] + rest;
    assert GoesOn(a);
  }

  /** Each action is the next step of a thread that is inside a call and not stuck, in any order of the threads. */
  ghost predicate Effective(p: Progress, later: seq<Action>)
  {
    later == [] ||
    (var n := |later| - 1;
     var q := Continue(p, later[..n]);
     && Effective(p, later[..n]) && q.Alive? && Busy(q.state, later[n].thread) && !Stuck(q.state, later[n].thread)
     && later[n] == Next(q.state, later[n].thread))
  }

  lemma {:induction false} EffectiveLowers(p: Progress, later: seq<Action>, n: nat)
    requires Open(p, n) && Effective(p, later)
    ensures Open(Continue(p, later), n) && |later| + Weight(Continue(p, later).state, n) <= Weight(p.state, n)
  {
    if later != [] {
      var front, a := later[..|later| - 1], later[|later| - 1];
      EffectiveLowers(p, front, n);
      Onward(Continue(p, front), a.thread, n);
    }
  }

  lemma {:induction false} SomeBound(ts: set<Thread>) returns (n: nat)
    ensures forall t :: t in ts ==> t < n
  {
    n := 0;
    if ts != {} {
      var x :| x in ts;
      var m := SomeBound(ts - {x});
      n := m + x + 1;
      forall t | t in ts ensures t < n { if t != x { assert t in ts - {x}; } }
    }
  }

  /** The continuation brings everybody out of all calls. */
  ghost predicate GetsThrough(schedule: seq<Action>, later: seq<Action>)
  {
    Quiet(Run(schedule + later))
  }

  lemma KnotIsBusy(s: State, knot: Ties) returns (t: Thread)
    requires Knot(s, knot)
    ensures Busy(s, t)
  {
    t :| t in knot;
    assert Tied(s, knot, t);
  }

  /** From every reachable state without a knot, threads that only go on with their calls get out of all of them. */
  lemma WithoutKnotThrough(schedule: seq<Action>) returns (later: seq<Action>)
    requires Run(schedule).Alive? ==> !Knotted(Run(schedule).state)
    ensures GetsThrough(schedule, later) && AllGoOn(later)
  {
    RunInv(schedule);
    var n := SomeBound(Run(schedule).state.threads.Keys);
    later := Unwind(Run(schedule), n);
    RunJoin(schedule, later);
  }

  /** However the threads are scheduled, without a knot they take at most so many effective steps, and as long as anybody
      is inside a call somebody has one. */
  lemma EveryOrderGetsThrough(schedule: seq<Action>, later: seq<Action>, n: nat)
    requires Run(schedule).Alive? && !Knotted(Run(schedule).state) && Below(Run(schedule).state, n)
    requires Effective(Run(schedule), later)
    ensures |later| <= Weight(Run(schedule).state, n)
    ensures GetsThrough(schedule, later) || exists a :: Effective(Run(schedule), later + [a])
  {
    RunInv(schedule);
    var p := Run(schedule);
    EffectiveLowers(p, later, n);
    RunJoin(schedule, later);
    var q := Continue(p, later);
    if AllStuck(q.state) {
      StuckIsQuiet(q, n);
    } else {
      var x :| x in q.state.threads && Busy(q.state, x) && !Stuck(q.state, x);
      assert (later + [Next(q.state, x)])[..|later|] == later;
      assert Effective(p, later + [Next(q.state, x)]);
    }
  }

  /** A continuation after which nobody is inside a call exists if and only if the waits form no knot. */
  lemma ThroughExactlyWithoutKnot(schedule: seq<Action>)
    ensures Run(schedule).Alive?
    ensures (exists later :: GetsThrough(schedule, later)) <==> !Knotted(Run(schedule).state)
  {
    RunInv(schedule);
    if Knotted(Run(schedule).state) {
      var knot :| Knot(Run(schedule).state, knot);
      forall later ensures !GetsThrough(schedule, later) {
        KnotForever(schedule, later, knot);
        var t := KnotIsBusy(Run(schedule + later).state, knot);
      }
    } else {
      var later := WithoutKnotThrough(schedule);
    }
  }

  // ---------------------------------------------------------------------------------------------------------
  // Nested waits
  // ---------------------------------------------------------------------------------------------------------

  /** A wait is begun outside every job, or for a group younger than the one whose job begins it. */
  ghost predicate NestedCall(p: Progress, a: Action)
  {
    p.Alive? && a.BeginWait? ==> var c := Of(p.state, a.thread).current; c.None? || c.value < a.group
  }

  ghost predicate Nested(schedule: seq<Action>)
  {
    forall k :: 0 <= k < |schedule| ==> NestedCall(Run(schedule[..k]), schedule[k])
  }

  /** Frames of a wait, or of a job taken in one or by a runner. */
  predicate Deep(f: Frame)
  {
    f.Waiting? || f.Popped? || f.Checking? || f.Body? || f.Settling?
  }

  /** The groups get younger from a body to what is above it. */
  ghost predicate Rising(stack: seq<Frame>)
  {
    forall e, d :: 0 <= e < d < |stack| && stack[e].Body? && Deep(stack[d]) ==> stack[e].group < stack[d].group
  }

  ghost predicate AllRising(s: State)
  {
    forall t :: Rising(Of(s, t).stack)
  }

  lemma {:induction false} InnermostIsYoungest(stack: seq<Frame>, e: nat)
    requires Rising(stack) && e < |stack| && stack[e].Body?
    ensures Innermost(stack).Some? && stack[e].group <= Innermost(stack).value
  {
    var n := |stack| - 1;
    if !stack[n].Body? {
      assert stack[..n][e] == stack[e];
      InnermostIsYoungest(stack[..n], e);
    }
  }

  /** The frame put on top goes on with the job or the wait underneath, is a nested wait, or is nothing deep. */
  lemma NewDeepFrame(s: State, a: Action)
    requires Apply(s, a).Done?
    ensures var stack, stack', n := Of(s, a.thread).stack, Of(Apply(s, a).state, a.thread).stack, Depth(s, a);
            n < |stack'| && Deep(stack'[n]) ==>
              || (n < |stack| && Deep(stack[n]) && stack[n].group == stack'[n].group)
              || n == 0
              || (n == |stack| && stack[n - 1].Waiting? && stack[n - 1].group == stack'[n].group)
              || (n == |stack| && a.BeginWait? && stack'[n].group == a.group)
  {
  }

  lemma NewFrameRises(s: State, js: Jobs, a: Action, e: nat)
    requires Inv(s, js) && Apply(s, a).Done? && Rising(Of(s, a.thread).stack) && NestedCall(Alive(s, js), a)
    requires var stack', n := Of(Apply(s, a).state, a.thread).stack, Depth(s, a);
             e < n < |stack'| && Deep(stack'[n]) && e < |Of(s, a.thread).stack| && Of(s, a.thread).stack[e].Body?
    ensures Of(s, a.thread).stack[e].group < Of(Apply(s, a).state, a.thread).stack[Depth(s, a)].group
  {
    NewDeepFrame(s, a);
    CurrentExists(s, js, a.thread);
    InnermostIsYoungest(Of(s, a.thread).stack, e);
  }

  lemma StepRising(s: State, js: Jobs, a: Action)
    requires Inv(s, js) && Apply(s, a).Done? && Rising(Of(s, a.thread).stack) && NestedCall(Alive(s, js), a)
    ensures Rising(Of(Apply(s, a).state, a.thread).stack)
  {
    StepStack(s, a);
    var stack, stack', n := Of(s, a.thread).stack, Of(Apply(s, a).state, a.thread).stack, Depth(s, a);
    forall e | 0 <= e < n < |stack'| && stack[e].Body? && Deep(stack'[n]) ensures stack[e].group < stack'[n].group {
      NewFrameRises(s, js, a, e);
    }
    TopRises(stack, stack', n);
  }

  lemma TopRises(stack: seq<Frame>, stack': seq<Frame>, n: nat)
    requires StackChange(stack, stack', n) && Rising(stack)
    requires forall e :: 0 <= e < n < |stack'| && stack[e].Body? && Deep(stack'[n]) ==> stack[e].group < stack'[n].group
    ensures Rising(stack')
  {
    forall e, d | 0 <= e < d < |stack'| && stack'[e].Body? && Deep(stack'[d]) ensures stack'[e].group < stack'[d].group {
      FramesStay(stack, stack', n, e);
      if d < n { FramesStay(stack, stack', n, d); }
    }
  }

  lemma {:induction false} NestedRises(schedule: seq<Action>)
    requires Nested(schedule)
    ensures Run(schedule).Alive? && AllRising(Run(schedule).state)
  {
    RunInv(schedule);
    if schedule != [] {
      var n := |schedule| - 1;
      var before, a := schedule[..n], schedule[n];
      forall k | 0 <= k < n ensures NestedCall(Run(before[..k]), before[k]) { assert before[..k] == schedule[..k]; }
      NestedRises(before);
      RunInv(before);
      var r := Run(before);
      assert NestedCall(Run(schedule[..n]), schedule[n]);
      if Allowed(r.state, r.jobs, a) {
        NoFault(r.state, r.jobs, a);
        StepRising(r.state, r.jobs, a);
        StepStack(r.state, a);
      }
    }
  }

  /** If every wait of the schedule is nested, bodies wait only for groups younger than their own, in every state
      reached. */
  lemma NestedIsInward(schedule: seq<Action>)
    requires Nested(schedule)
    ensures Run(schedule).Alive? && Inward(Run(schedule).state)
  {
    NestedRises(schedule);
    var s := Run(schedule).state;
    forall t: Thread, e: nat, d: nat, g: GroupId | IsBody(s, t, e, g) && IsWait(s, t, d) && e < d
      ensures g < WaitedFor(s, t, d) {
      assert Rising(Of(s, t).stack);
    }
  }

  /** With nested waits only there is never a knot, and all waits can always get through. */
  lemma NestedWaitsGetThrough(schedule: seq<Action>)
    requires Nested(schedule)
    ensures Run(schedule).Alive? && !Knotted(Run(schedule).state)
    ensures exists later :: GetsThrough(schedule, later)
  {
    NestedIsInward(schedule);
    RunInv(schedule);
    forall knot ensures !Knot(Run(schedule).state, knot) {
      InwardHasNoKnot(Run(schedule).state, Run(schedule).jobs, knot);
    }
    ThroughExactlyWithoutKnot(schedule);
  }
}
