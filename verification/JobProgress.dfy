/**
 When a wait on a job group gets through. Every thread inside a call has one next step of its own; a waiter for which
 nothing is queued while jobs are out can only look again. In every reachable state somebody can do better, unless the
 waits form a knot: waiters of which each waits for a job body that another of them has underneath its own wait. A knot
 is never untied, and there is none while bodies wait only for groups younger than their own.
 */
module JobProgress {
  import opened Wrappers
  import opened JobGroups

  /** The step that a thread inside a call takes next, if its body just ends. */
  function Next(s: State, t: Thread): (a: Action)
    requires Top(s, t).Some?
    ensures a.thread == t
  {
    var f := Top(s, t).value;
    match f
    case Counted(_, _) => Push(t)
    case Pushed(_) => Schedule(t)
    case Waiting(g) => if g < |s.groups| && s.groups[g].activeJobs == 0 then WaitReturn(t) else WaitRun(t)
    case Popped(_, _) => BeginCheck(t)
    case Checking(_, _, _) => ReadFlag(t)
    case Body(_, _, _) => FinishBody(t)
    case Settling(_, _) => Settle(t)
    case Flagged(_) => SwapOut(t)
    case Dropping(_, _) => Subtract(t)
  }

  /** Jobs of the group are out and none of them is queued. */
  predicate Stuck(s: State, t: Thread)
  {
    var top := Top(s, t);
    && top.Some? && top.value.Waiting? && top.value.group < |s.groups|
    && s.groups[top.value.group].activeJobs != 0 && s.groups[top.value.group].pending == []
  }

  /** The next step is always possible, and it changes nothing exactly when the thread is stuck. */
  lemma NextStep(s: State, js: Jobs, t: Thread)
    requires Inv(s, js) && Top(s, t).Some?
    ensures Apply(s, Next(s, t)).Done?
    ensures Apply(s, Next(s, t)).state == s <==> Stuck(s, t)
  {
    NoFault(s, js, Next(s, t));
    NextChanges(s, js, t);
  }

  lemma TopExists(s: State, js: Jobs, t: Thread)
    requires Inv(s, js) && Top(s, t).Some?
    ensures t in s.threads && Top(s, t).value.group < |s.groups|
  {
    assert FrameOk(s, js, t, |Of(s, t).stack| - 1);
  }

  /** Every other step lengthens, shortens or replaces the top of the stack. */
  lemma NextChanges(s: State, js: Jobs, t: Thread)
    requires Inv(s, js) && Top(s, t).Some? && Apply(s, Next(s, t)).Done?
    ensures Apply(s, Next(s, t)).state == s <==> Stuck(s, t)
  {
    TopExists(s, js, t);
    var s' := Apply(s, Next(s, t)).state;
    if !Stuck(s, t) { NewTop(s, js, t); }
  }

  lemma NewTop(s: State, js: Jobs, t: Thread)
    requires Inv(s, js) && Top(s, t).Some? && Top(s, t).value.group < |s.groups|
    requires Apply(s, Next(s, t)).Done? && !Stuck(s, t)
    ensures Of(Apply(s, Next(s, t)).state, t).stack != Of(s, t).stack
  {
    var stack, stack' := Of(s, t).stack, Of(Apply(s, Next(s, t)).state, t).stack;
    var n := |stack| - 1;
    if Top(s, t).value.Checking? {
      CheckMoves(s, js, t);
    } else {
      assert |stack'| != |stack| || stack'[n] != stack[n];
    }
  }

  /** The check goes on with the parent, which is another group. */
  lemma CheckMoves(s: State, js: Jobs, t: Thread)
    requires Inv(s, js) && Top(s, t).Some? && Top(s, t).value.Checking? && Apply(s, ReadFlag(t)).Done?
    ensures Of(Apply(s, ReadFlag(t)).state, t).stack != Of(s, t).stack
  {
    var stack, stack' := Of(s, t).stack, Of(Apply(s, ReadFlag(t)).state, t).stack;
    var n := |stack| - 1;
    assert stack'[n] != stack[n];
  }

  // ---------------------------------------------------------------------------------------------------------
  // Knots
  // ---------------------------------------------------------------------------------------------------------

  /** A thread has a wait at `depth` of its stack, and `holder` has at `body` of its own a body of the group waited for. */
  datatype Tie = Tie(depth: nat, holder: Thread, body: nat)

  type Ties = map<Thread, Tie>

  predicate IsWait(s: State, t: Thread, d: nat)
  {
    d < |Of(s, t).stack| && Of(s, t).stack[d].Waiting?
  }

  predicate IsBody(s: State, u: Thread, e: nat, g: GroupId)
  {
    e < |Of(s, u).stack| && Of(s, u).stack[e].Body? && Of(s, u).stack[e].group == g
  }

  function WaitedFor(s: State, t: Thread, d: nat): (g: GroupId)
    requires IsWait(s, t, d)
  {
    Of(s, t).stack[d].group
  }

  /** The body that t waits for is another of the knot's, underneath that one's own wait. */
  predicate Tied(s: State, knot: Ties, t: Thread)
    requires t in knot
  {
    var tie := knot[t];
    && IsWait(s, t, tie.depth) && tie.holder in knot && tie.body < knot[tie.holder].depth
    && IsBody(s, tie.holder, tie.body, WaitedFor(s, t, tie.depth))
  }

  ghost predicate Knot(s: State, knot: Ties)
  {
    knot != map[] && forall t {:trigger Tied(s, knot, t)} :: t in knot ==> Tied(s, knot, t)
  }

  predicate CounterUp(s: State, g: GroupId)
  {
    g < |s.groups| && s.groups[g].activeJobs != 0
  }

  /** A body on some stack is an unsettled job of its group, so no wait for the group returns. */
  lemma BodyKeepsCounter(s: State, js: Jobs, u: Thread, e: nat, g: GroupId)
    requires Inv(s, js) && IsBody(s, u, e, g)
    ensures CounterUp(s, g)
  {
    assert FrameOk(s, js, u, e);
    var j := Of(s, u).stack[e].job;
    assert Holds(Of(s, u).stack[e], j);
    assert j in Unsettled(js, g);
    assert s.groups[g].activeJobs == |Unsettled(js, g)|;
  }

  ghost predicate SameUpTo(s: State, s': State, t: Thread, d: nat)
  {
    && d < |Of(s, t).stack| && d < |Of(s', t).stack|
    && forall e :: 0 <= e <= d ==> Of(s', t).stack[e] == Of(s, t).stack[e]
  }

  lemma FramesStay(stack: seq<Frame>, stack': seq<Frame>, n: nat, e: nat)
    requires StackChange(stack, stack', n) && e < n
    ensures e < |stack'| && stack'[e] == stack[e]
  {
    assert stack'[e] == stack'[..n][e] && stack[e] == stack[..n][e];
  }

  /** A waiter whose counter is not zero can only take a job on top of its wait. */
  lemma WaitStays(s: State, a: Action)
    requires Apply(s, a).Done? && Top(s, a.thread).Some? && Top(s, a.thread).value.Waiting?
    requires CounterUp(s, Top(s, a.thread).value.group)
    ensures Depth(s, a) == |Of(s, a.thread).stack|
  {
  }

  /** The frames of a thread up to such a wait are out of reach of every step. */
  lemma WaitHolds(s: State, a: Action, t: Thread, d: nat)
    requires Apply(s, a).Done? && IsWait(s, t, d) && CounterUp(s, WaitedFor(s, t, d))
    ensures SameUpTo(s, Apply(s, a).state, t, d)
  {
    StepStack(s, a);
    if t == a.thread {
      var stack, stack' := Of(s, t).stack, Of(Apply(s, a).state, t).stack;
      if d == |stack| - 1 { WaitStays(s, a); }
      forall e: nat | e <= d ensures e < |stack'| && stack'[e] == stack[e] { FramesStay(stack, stack', Depth(s, a), e); }
    }
  }

  lemma TieHolds(s: State, js: Jobs, a: Action, knot: Ties, t: Thread)
    requires Inv(s, js) && Apply(s, a).Done? && t in knot && Tied(s, knot, t)
    ensures SameUpTo(s, Apply(s, a).state, t, knot[t].depth)
  {
    var tie := knot[t];
    BodyKeepsCounter(s, js, tie.holder, tie.body, WaitedFor(s, t, tie.depth));
    WaitHolds(s, a, t, tie.depth);
  }

  lemma KnotStep(s: State, js: Jobs, a: Action, knot: Ties)
    requires Inv(s, js) && Apply(s, a).Done? && Knot(s, knot)
    ensures Knot(Apply(s, a).state, knot)
  {
    forall t | t in knot ensures Tied(Apply(s, a).state, knot, t) {
      assert Tied(s, knot, t);
      TieHolds(s, js, a, knot, t);
      assert Tied(s, knot, knot[t].holder);
      TieHolds(s, js, a, knot, knot[t].holder);
    }
  }

  lemma AdvanceKeepsKnot(p: Progress, a: Action, knot: Ties)
    requires p.Alive? && Inv(p.state, p.jobs) && Knot(p.state, knot)
    ensures var r := Advance(p, a); r.Alive? && Inv(r.state, r.jobs) && Knot(r.state, knot)
  {
    if Allowed(p.state, p.jobs, a) {
      StepInv(p.state, p.jobs, a);
      KnotStep(p.state, p.jobs, a, knot);
    }
  }

  /** A knot is never untied: whatever is scheduled after it, no wait of it returns. */
  lemma KnotForever(schedule: seq<Action>, later: seq<Action>, knot: Ties)
    requires Run(schedule).Alive? && Knot(Run(schedule).state, knot)
    ensures Run(schedule + later).Alive? && Knot(Run(schedule + later).state, knot)
  {
    RunInv(schedule);
    RunJoin(schedule, later);
    KnotContinues(Run(schedule), later, knot);
  }

  ghost function Continue(p: Progress, later: seq<Action>): (r: Progress)
  {
    if later == [] then p else Advance(Continue(p, later[..|later| - 1]), later[|later| - 1])
  }

  lemma {:induction false} RunJoin(schedule: seq<Action>, later: seq<Action>)
    ensures Run(schedule + later) == Continue(Run(schedule), later)
  {
    if later == [] {
      assert schedule + later == schedule;
    } else {
      var n := |later| - 1;
      RunJoin(schedule, later[..n]);
      assert (schedule + later)[..|schedule| + n] == schedule + later[..n];
    }
  }

  lemma {:induction false} KnotContinues(p: Progress, later: seq<Action>, knot: Ties)
    requires p.Alive? && Inv(p.state, p.jobs) && Knot(p.state, knot)
    ensures var r := Continue(p, later); r.Alive? && Inv(r.state, r.jobs) && Knot(r.state, knot)
  {
    if later != [] {
      var n := |later| - 1;
      KnotContinues(p, later[..n], knot);
      AdvanceKeepsKnot(Continue(p, later[..n]), later[n], knot);
    }
  }

  // ---------------------------------------------------------------------------------------------------------
  // Nobody can move
  // ---------------------------------------------------------------------------------------------------------

  /** Inside some call. */
  predicate Busy(s: State, t: Thread)
  {
    Top(s, t).Some?
  }

  ghost predicate AllStuck(s: State)
  {
    forall t {:trigger Stuck(s, t)} :: t in s.threads && Busy(s, t) ==> Stuck(s, t)
  }

  /** Where a job sits that a stuck thread waits for. */
  ghost function TieOf(s: State, js: Jobs, t: Thread): (r: Tie)
    requires Inv(s, js) && AllStuck(s) && Stuck(s, t)
    ensures r.depth == |Of(s, t).stack| - 1 && IsWait(s, t, r.depth)
    ensures r.holder in s.threads && Busy(s, r.holder) && r.body < |Of(s, r.holder).stack| - 1
    ensures IsBody(s, r.holder, r.body, WaitedFor(s, t, r.depth))
  {
    SomeUnsettled(s, js, t);
    var j :| j in Unsettled(js, Top(s, t).value.group);
    HolderIsStuck(s, js, t, j);
    Tie(|Of(s, t).stack| - 1, js[j].place.thread, js[j].place.depth)
  }

  lemma SomeUnsettled(s: State, js: Jobs, t: Thread)
    requires Inv(s, js) && Stuck(s, t)
    ensures Unsettled(js, Top(s, t).value.group) != {}
  {
    var g := Top(s, t).value.group;
    assert s.groups[g].activeJobs == |Unsettled(js, g)|;
  }

  lemma HolderIsStuck(s: State, js: Jobs, t: Thread, j: JobId)
    requires Inv(s, js) && AllStuck(s) && Stuck(s, t) && j in Unsettled(js, Top(s, t).value.group)
    ensures js[j].place.InFrame?
    ensures var InFrame(u, e) := js[j].place;
            u in s.threads && Busy(s, u) && e < |Of(s, u).stack| - 1 && IsBody(s, u, e, js[j].group)
  {
    HolderHolds(s, js, t, j);
    var InFrame(u, e) := js[j].place;
    assert Stuck(s, u);
  }

  /** Nothing of the group is queued, so the job is held somewhere. */
  lemma HolderHolds(s: State, js: Jobs, t: Thread, j: JobId)
    requires Inv(s, js) && Stuck(s, t) && j in Unsettled(js, Top(s, t).value.group)
    ensures js[j].place.InFrame?
    ensures var InFrame(u, e) := js[j].place;
            && u in s.threads && e < |Of(s, u).stack| && Holds(Of(s, u).stack[e], j)
            && Of(s, u).stack[e].group == js[j].group
            && (e < |Of(s, u).stack| - 1 ==> Of(s, u).stack[e].Body? || Of(s, u).stack[e].Waiting?)
  {
    assert JobOk(s, js, j);
    var InFrame(u, e) := js[j].place;
    assert FrameOk(s, js, u, e);
  }

  /** If nobody who is inside a call can move, the waits are a knot. */
  lemma StuckMeansKnot(s: State, js: Jobs, t: Thread) returns (knot: Ties)
    requires Inv(s, js) && AllStuck(s) && t in s.threads && Busy(s, t)
    ensures Knot(s, knot)
  {
    knot := AllTies(s, js);
    assert Stuck(s, t) && t in knot;
    forall x | x in knot ensures Tied(s, knot, x) { StuckIsTied(s, js, x); }
  }

  ghost function AllTies(s: State, js: Jobs): (r: Ties)
    requires Inv(s, js) && AllStuck(s)
  {
    map x | x in s.threads && Stuck(s, x) :: TieOf(s, js, x)
  }

  lemma StuckIsTied(s: State, js: Jobs, x: Thread)
    requires Inv(s, js) && AllStuck(s) && x in AllTies(s, js)
    ensures Tied(s, AllTies(s, js), x)
  {
    var u := TieOf(s, js, x).holder;
    assert Stuck(s, u) && u in AllTies(s, js);
  }

  /** The thread's next step is possible and changes something. */
  ghost predicate Moves(s: State, t: Thread)
  {
    Busy(s, t) && Apply(s, Next(s, t)).Done? && Apply(s, Next(s, t)).state != s
  }

  /** In every reachable state in which somebody is inside a call, somebody can move, or the waits are a knot. */
  lemma SomebodyMoves(schedule: seq<Action>, t: Thread)
    ensures Run(schedule).Alive?
    ensures var s := Run(schedule).state;
            Busy(s, t) ==> (exists x :: Moves(s, x)) || (exists knot :: Knot(s, knot))
  {
    RunInv(schedule);
    var s, js := Run(schedule).state, Run(schedule).jobs;
    if Busy(s, t) {
      TopExists(s, js, t);
      if AllStuck(s) {
        var knot := StuckMeansKnot(s, js, t);
      } else {
        var x :| x in s.threads && Busy(s, x) && !Stuck(s, x);
        NextStep(s, js, x);
        assert Moves(s, x);
      }
    }
  }

  /** Thread 0 makes a group and submits job 7, thread 1 runs it, and the body waits for its own group. */
  function OwnWait(): (r: seq<Action>)
  {
    [NewGroup(0), Submit(0, 0, 7), Push(0), Schedule(0), StartRunner(1, 0), BeginCheck(1), ReadFlag(1), BeginWait(1, 0)]
  }

  /** One group, and two threads with these stacks. */
  ghost predicate Stands(p: Progress, g: Group, zero: seq<Frame>, one: seq<Frame>)
  {
    && p.Alive? && p.state.groups == [g] && (7 in p.jobs <==> g.activeJobs > 0)
    && Of(p.state, 0).stack == zero && Of(p.state, 1).stack == one && (one == [] ==> Of(p.state, 1).current == None)
  }

  lemma RunPrefix(a: seq<Action>, k: nat)
    requires k < |a|
    ensures Run(a[..k + 1]) == Advance(Run(a[..k]), a[k])
  {
    assert a[..k + 1][..k] == a[..k];
  }

  lemma OwnSubmit(p: Progress)
    requires p == Run([])
    ensures Stands(Advance(p, NewGroup(0)), Group(None, false, 0, [], 0), [], [])
  {
    var gs: seq<Group> := [];
    assert gs + [Group(None, false, 0, [], 0)] == [Group(None, false, 0, [], 0)];
  }

  lemma OwnCount(p: Progress)
    requires Stands(p, Group(None, false, 0, [], 0), [], [])
    ensures Stands(Advance(p, Submit(0, 0, 7)), Group(None, false, 1, [], 0), [Counted(0, 7)], [])
  {
    var none: seq<Frame> := [];
    assert none + [Counted(0, 7)] == [Counted(0, 7)];
    assert p.state.groups[0 := Group(None, false, 1, [], 0)] == [Group(None, false, 1, [], 0)];
  }

  lemma OwnPush(p: Progress)
    requires Stands(p, Group(None, false, 1, [], 0), [Counted(0, 7)], [])
    ensures Stands(Advance(p, Push(0)), Group(None, false, 1, [7], 0), [Pushed(0)], [])
  {
    var none: seq<JobId> := [];
    assert none + [7] == [7];
    assert [Counted(0, 7)][..0] + [Pushed(0)] == [Pushed(0)];
    assert p.state.groups[0 := Group(None, false, 1, [7], 0)] == [Group(None, false, 1, [7], 0)];
  }

  lemma OwnSchedule(p: Progress)
    requires Stands(p, Group(None, false, 1, [7], 0), [Pushed(0)], [])
    ensures Stands(Advance(p, Schedule(0)), Group(None, false, 1, [7], 1), [], [])
  {
    assert [Pushed(0)][..0] == [];
    assert p.state.groups[0 := Group(None, false, 1, [7], 1)] == [Group(None, false, 1, [7], 1)];
  }

  lemma OwnStart(p: Progress)
    requires Stands(p, Group(None, false, 1, [7], 1), [], [])
    ensures Stands(Advance(p, StartRunner(1, 0)), Group(None, false, 1, [], 0), [], [Popped(0, 7)])
  {
    var none: seq<Frame> := [];
    assert [7][1..] == [] && none + [Popped(0, 7)] == [Popped(0, 7)];
    var g1, g2 := Group(None, false, 1, [7], 0), Group(None, false, 1, [], 0);
    assert p.state.groups[0 := g1] == [g1] && [g1][0 := g2] == [g2];
  }

  lemma OwnRun(p: Progress)
    requires Stands(p, Group(None, false, 1, [], 0), [], [Popped(0, 7)])
    ensures Stands(Advance(p, BeginCheck(1)), Group(None, false, 1, [], 0), [], [Checking(0, 7, 0)])
  {
    assert [Popped(0, 7)][..0] + [Checking(0, 7, 0)] == [Checking(0, 7, 0)];
  }

  lemma OwnBody(p: Progress)
    requires Stands(p, Group(None, false, 1, [], 0), [], [Checking(0, 7, 0)])
    ensures var b := Body(0, 7, Of(p.state, 1).current);
            Stands(Advance(p, ReadFlag(1)), Group(None, false, 1, [], 0), [], [b])
  {
    var b := Body(0, 7, Of(p.state, 1).current);
    assert [Checking(0, 7, 0)][..0] + [b] == [b];
  }

  lemma OwnBegin(p: Progress, b: Frame)
    requires b.Body? && b.group == 0 && Stands(p, Group(None, false, 1, [], 0), [], [b])
    ensures Stands(Advance(p, BeginWait(1, 0)), Group(None, false, 1, [], 0), [], [b, Waiting(0)])
  {
    assert [b] + [Waiting(0)] == [b, Waiting(0)];
  }

  lemma OwnSubmitted(a: seq<Action>)
    requires |a| == 8 && a[0] == NewGroup(0) && a[1] == Submit(0, 0, 7) && a[2] == Push(0) && a[3] == Schedule(0)
    ensures Stands(Run(a[..4]), Group(None, false, 1, [7], 1), [], [])
  {
    assert a[..0] == [];
    OwnSubmit(Run(a[..0]));
    RunPrefix(a, 0);
    OwnCount(Run(a[..1]));
    RunPrefix(a, 1);
    OwnPush(Run(a[..2]));
    RunPrefix(a, 2);
    OwnSchedule(Run(a[..3]));
    RunPrefix(a, 3);
  }

  lemma OwnStarted(a: seq<Action>) returns (b: Frame)
    requires |a| == 8 && Stands(Run(a[..4]), Group(None, false, 1, [7], 1), [], [])
    requires a[4] == StartRunner(1, 0) && a[5] == BeginCheck(1) && a[6] == ReadFlag(1) && a[7] == BeginWait(1, 0)
    ensures b.Body? && b.group == 0 && Stands(Run(a[..8]), Group(None, false, 1, [], 0), [], [b, Waiting(0)])
  {
    OwnStart(Run(a[..4]));
    RunPrefix(a, 4);
    OwnRun(Run(a[..5]));
    RunPrefix(a, 5);
    b := Body(0, 7, Of(Run(a[..6]).state, 1).current);
    OwnBody(Run(a[..6]));
    RunPrefix(a, 6);
    OwnBegin(Run(a[..7]), b);
    RunPrefix(a, 7);
  }

  /** A job whose body waits for its own group ties a knot of one thread. */
  lemma OwnGroupKnot()
    ensures Run(OwnWait()).Alive? && Knot(Run(OwnWait()).state, map[1 := Tie(1, 1, 0)])
  {
    var a := OwnWait();
    OwnSubmitted(a);
    var b := OwnStarted(a);
    assert a[..8] == a;
    assert Tied(Run(a).state, map[1 := Tie(1, 1, 0)], 1);
  }

  // ---------------------------------------------------------------------------------------------------------
  // Nested waits are safe
  // ---------------------------------------------------------------------------------------------------------

  /** Bodies wait only for groups younger than their own, as a group that is made inside the body is. */
  ghost predicate Inward(s: State)
  {
    forall t: Thread, e: nat, d: nat, g: GroupId ::
      IsBody(s, t, e, g) && IsWait(s, t, d) && e < d ==> g < WaitedFor(s, t, d)
  }

  lemma WaitGroupExists(s: State, js: Jobs, t: Thread, d: nat)
    requires Inv(s, js) && IsWait(s, t, d)
    ensures WaitedFor(s, t, d) < |s.groups|
  {
    assert FrameOk(s, js, t, d);
  }

  /** From tie to tie the groups get younger, and there are only so many. */
  lemma {:induction false} Ascend(s: State, js: Jobs, knot: Ties, t: Thread)
    requires Inv(s, js) && Inward(s) && Knot(s, knot) && t in knot && IsWait(s, t, knot[t].depth)
    ensures false
    decreases |s.groups| - WaitedFor(s, t, knot[t].depth)
  {
    assert Tied(s, knot, t);
    var u := knot[t].holder;
    assert Tied(s, knot, u);
    WaitGroupExists(s, js, u, knot[u].depth);
    Ascend(s, js, knot, u);
  }

  lemma InwardHasNoKnot(s: State, js: Jobs, knot: Ties)
    requires Inv(s, js) && Inward(s)
    ensures !Knot(s, knot)
  {
    if Knot(s, knot) {
      var t :| t in knot;
      assert Tied(s, knot, t);
      Ascend(s, js, knot, t);
    }
  }
}
