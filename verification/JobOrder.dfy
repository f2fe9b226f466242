/**
 The queue of a job group, over whole runs: jobs leave it in the order in which they were pushed, whoever takes them or
 drops them.
 */
module JobOrder {
  import opened Wrappers
  import opened JobGroups

  /** What the step pushes onto the group's queue. */
  ghost function PushedBy(s: State, a: Action, g: GroupId): (r: seq<JobId>)
  {
    var top := Top(s, a.thread);
    if a.Push? && top.Some? && top.value.Counted? && top.value.group == g then [top.value.job] else []
  }

  /** What the acting thread holds afterwards that it took off the group's queue: one job to run, or all to drop. */
  ghost function TakenBy(s: State, a: Action, g: GroupId): (r: seq<JobId>)
    requires Apply(s, a).Done?
  {
    var stack, n := Of(Apply(s, a).state, a.thread).stack, Depth(s, a);
    if |stack| != n + 1 || stack[n].group != g then []
    else
      match stack[n]
      case Popped(_, j) => [j]
      case Dropping(_, jobs) => jobs
      case _ => []
  }

  /** The step has an effect: it is possible, and submits no job for the second time. */
  ghost predicate Counts(p: Progress, a: Action)
  {
    p.Alive? && !(a.Submit? && a.job in p.jobs) && Apply(p.state, a).Done?
  }

  ghost function PushedIn(schedule: seq<Action>, g: GroupId): (r: seq<JobId>)
  {
    if schedule == [] then []
    else
      var before, a := schedule[..|schedule| - 1], schedule[|schedule| - 1];
      PushedIn(before, g) + if Counts(Run(before), a) then PushedBy(Run(before).state, a, g) else []
  }

  ghost function TakenIn(schedule: seq<Action>, g: GroupId): (r: seq<JobId>)
  {
    if schedule == [] then []
    else
      var before, a := schedule[..|schedule| - 1], schedule[|schedule| - 1];
      TakenIn(before, g) + if Counts(Run(before), a) then TakenBy(Run(before).state, a, g) else []
  }

  ghost function Pending(s: State, g: GroupId): (r: seq<JobId>)
  {
    if g < |s.groups| then s.groups[g].pending else []
  }

  lemma PushQueues(s: State, a: Action, g: GroupId)
    requires Apply(s, a).Done? && a.Push?
    ensures TakenBy(s, a, g) == [] && Pending(Apply(s, a).state, g) == Pending(s, g) + PushedBy(s, a, g)
  {
    var stack := Of(Apply(s, a).state, a.thread).stack;
    assert stack[|stack| - 1].Pushed?;
  }

  /** The thread that takes a job takes the first one. */
  lemma TakeOneQueues(s: State, t: Thread, h: GroupId, g: GroupId)
    requires h < |s.groups|
    ensures var s', n := TakeOne(s, t, h), |Of(s, t).stack|;
            var stack := Of(s', t).stack;
            if h == g && Pending(s, g) != []
            then |stack| == n + 1 && stack[n] == Popped(g, Pending(s, g)[0]) && Pending(s', g) == Pending(s, g)[1..]
            else Pending(s', g) == Pending(s, g) && (|stack| == n || (|stack| == n + 1 && stack[n].group != g))
  {
  }

  lemma TakeQueues(s: State, a: Action, g: GroupId)
    requires Apply(s, a).Done? && (a.StartRunner? || a.WaitRun?)
    ensures TakenBy(s, a, g) + Pending(Apply(s, a).state, g) == Pending(s, g)
  {
    if a.StartRunner? {
      var s1 := SetGroup(s, a.group, s.groups[a.group].(runners := s.groups[a.group].runners - 1));
      assert Of(s1, a.thread) == Of(s, a.thread) && Pending(s1, g) == Pending(s, g);
      TakeOneQueues(s1, a.thread, a.group, g);
    } else {
      TakeOneQueues(s, a.thread, Top(s, a.thread).value.group, g);
    }
  }

  /** A cancellation takes all queued jobs off its group's queue, to drop them, and none off any other. */
  lemma CancelDropsAll(s: State, t: Thread, g: GroupId)
    requires Apply(s, SwapOut(t)).Done?
    ensures Top(s, t).Some?
    ensures var s' := Apply(s, SwapOut(t)).state;
            if g == Top(s, t).value.group
            then TakenBy(s, SwapOut(t), g) == Pending(s, g) && Pending(s', g) == []
            else TakenBy(s, SwapOut(t), g) == [] && Pending(s', g) == Pending(s, g)
  {
    var stack := Of(Apply(s, SwapOut(t)).state, t).stack;
    assert stack[|stack| - 1].Dropping?;
  }

  lemma RestQueues(s: State, a: Action, g: GroupId)
    requires Apply(s, a).Done? && !(a.Push? || a.StartRunner? || a.WaitRun? || a.SwapOut?)
    ensures TakenBy(s, a, g) == [] && Pending(Apply(s, a).state, g) == Pending(s, g)
  {
  }

  lemma StepQueues(s: State, a: Action, g: GroupId)
    requires Apply(s, a).Done?
    ensures TakenBy(s, a, g) + Pending(Apply(s, a).state, g) == Pending(s, g) + PushedBy(s, a, g)
  {
    if a.Push? {
      PushQueues(s, a, g);
    } else if a.StartRunner? || a.WaitRun? {
      TakeQueues(s, a, g);
    } else if a.SwapOut? {
      CancelDropsAll(s, a.thread, g);
    } else {
      RestQueues(s, a, g);
    }
  }

  lemma Regroup(taken: seq<JobId>, now: seq<JobId>, pending: seq<JobId>, pending': seq<JobId>, pushed: seq<JobId>)
    requires now + pending' == pending + pushed
    ensures taken + now + pending' == taken + pending + pushed
  {
    assert taken + now + pending' == taken + (now + pending');
    assert taken + (pending + pushed) == taken + pending + pushed;
  }

  /** In every run, what was taken off a group's queue and what is still on it is what was pushed, in that order. */
  lemma {:induction false} TakenInOrder(schedule: seq<Action>, g: GroupId)
    ensures Run(schedule).Alive?
    ensures TakenIn(schedule, g) + Pending(Run(schedule).state, g) == PushedIn(schedule, g)
  {
    RunInv(schedule);
    if schedule != [] {
      var before, a := schedule[..|schedule| - 1], schedule[|schedule| - 1];
      TakenInOrder(before, g);
      var p := Run(before);
      if Counts(p, a) {
        StepQueues(p.state, a, g);
        Regroup(TakenIn(before, g), TakenBy(p.state, a, g), Pending(p.state, g), Pending(Run(schedule).state, g),
                PushedBy(p.state, a, g));
      } else {
        assert TakenIn(before, g) + [] == TakenIn(before, g) && PushedIn(before, g) + [] == PushedIn(before, g);
      }
    }
  }

  // ---------------------------------------------------------------------------------------------------------
  // Runners
  // ---------------------------------------------------------------------------------------------------------

  /** How many runners of the group a pool thread began with. */
  ghost function StartedIn(schedule: seq<Action>, g: GroupId): (r: nat)
  {
    if schedule == [] then 0
    else
      var before, a := schedule[..|schedule| - 1], schedule[|schedule| - 1];
      StartedIn(before, g) + if Counts(Run(before), a) && a.StartRunner? && a.group == g then 1 else 0
  }

  ghost function Runners(s: State, g: GroupId): (r: nat)
  {
    if g < |s.groups| then s.groups[g].runners else 0
  }

  lemma StepRunners(s: State, js: Jobs, a: Action, g: GroupId)
    requires Allowed(s, js, a) && Apply(s, a).Done?
    ensures Runners(Apply(s, a).state, g) + |Pushers(Apply(s, a).state, g)| + (if a.StartRunner? && a.group == g then 1 else 0)
            == Runners(s, g) + |Pushers(s, g)| + |PushedBy(s, a, g)|
  {
    StepPushers(s, js, a, g);
    PushersCount(Pushers(s, g), a.thread, a.Push? && Top(s, a.thread).value.group == g);
    RunnersMove(s, a, g);
  }

  lemma RunnersMove(s: State, a: Action, g: GroupId)
    requires Apply(s, a).Done?
    ensures a.Push? || a.Schedule? ==> Top(s, a.thread).Some?
    ensures |PushedBy(s, a, g)| == if a.Push? && Top(s, a.thread).value.group == g then 1 else 0
    ensures Runners(Apply(s, a).state, g) + (if a.StartRunner? && a.group == g then 1 else 0)
            == Runners(s, g) + if a.Schedule? && Top(s, a.thread).value.group == g then 1 else 0
  {
    if g < |s.groups| { QueueAndRunners(s, a, g); }
  }

  /** In every run each job pushed onto a group's queue has handed out one runner, or its thread is about to: the runners
      in the pool, those about to be handed to it and those that a thread began with are as many as the jobs pushed. */
  lemma {:induction false} OneRunnerPerJob(schedule: seq<Action>, g: GroupId)
    ensures Run(schedule).Alive?
    ensures var s := Run(schedule).state;
            Runners(s, g) + |Pushers(s, g)| + StartedIn(schedule, g) == |PushedIn(schedule, g)|
  {
    RunInv(schedule);
    if schedule != [] {
      var before, a := schedule[..|schedule| - 1], schedule[|schedule| - 1];
      OneRunnerPerJob(before, g);
      RunInv(before);
      var p := Run(before);
      if Counts(p, a) { StepRunners(p.state, p.jobs, a, g); }
    }
  }
}
