/**
 What became of the jobs of private/threading/job_group.cpp: every settled job was either run, its body begun exactly
 once, or skipped or dropped because its group or an ancestor of it was cancelled. A wait that returns for a group that
 was not cancelled has seen every job of it run.
 */
module JobFates {
  import opened Wrappers
  import opened JobGroups

  /** Group `a` is g or an ancestor of it. */
  ghost predicate Above(gs: seq<Group>, g: GroupId, a: GroupId)
    requires ParentsOlder(gs) && g < |gs|
    decreases g
  {
    a == g || (gs[g].parent.Some? && Above(gs, gs[g].parent.value, a))
  }

  lemma {:induction false} AboveParent(gs: seq<Group>, g: GroupId, a: GroupId)
    requires ParentsOlder(gs) && g < |gs| && Above(gs, g, a) && a < |gs| && gs[a].parent.Some?
    ensures Above(gs, g, gs[a].parent.value)
    decreases g
  {
    if a == g {
      assert Above(gs, gs[a].parent.value, gs[a].parent.value);
    } else {
      AboveParent(gs, gs[g].parent.value, a);
    }
  }

  lemma {:induction false} AboveGrows(gs: seq<Group>, gs': seq<Group>, g: GroupId, a: GroupId)
    requires ParentsOlder(gs) && ParentsOlder(gs') && Grows(gs, gs') && g < |gs| && Above(gs, g, a)
    ensures Above(gs', g, a)
    decreases g
  {
    if a != g { AboveGrows(gs, gs', gs[g].parent.value, a); }
  }

  /** A cancelled ancestor cancels. */
  lemma {:induction false} AboveCancels(gs: seq<Group>, g: GroupId, a: GroupId)
    requires ParentsOlder(gs) && g < |gs| && Above(gs, g, a) && a < |gs| && gs[a].cancelled
    ensures IsCancelled(gs, g)
    decreases g
  {
    if a != g { AboveCancels(gs, gs[g].parent.value, a); }
  }

  // ---------------------------------------------------------------------------------------------------------
  // The invariant
  // ---------------------------------------------------------------------------------------------------------

  /** What a frame knows about its group and the starts of its job. */
  ghost predicate FrameFate(gs: seq<Group>, js: Jobs, f: Frame)
    requires ParentsOlder(gs)
  {
    f.group < |gs| &&
    match f
    case Flagged(g) => gs[g].cancelled
    case Dropping(g, _) => gs[g].cancelled
    case Checking(g, j, at) => Above(gs, g, at)
    case Body(g, j, _) => j in js && js[j].starts == 1
    case Settling(g, j) => j in js && (js[j].starts == 0 ==> IsCancelled(gs, g))
    case _ => true
  }

  /** A body begins at most once, and not at all only if the group is cancelled once the job is over. */
  ghost predicate JobFate(gs: seq<Group>, job: Job)
    requires ParentsOlder(gs)
  {
    job.starts <= 1 && (job.place.Settled? && job.starts == 0 ==> job.group < |gs| && IsCancelled(gs, job.group))
  }

  ghost predicate Fates(s: State, js: Jobs)
  {
    && ParentsOlder(s.groups)
    && (forall t, i :: t in s.threads && 0 <= i < |Of(s, t).stack| ==> FrameFate(s.groups, js, Of(s, t).stack[i]))
    && (forall j :: j in js ==> JobFate(s.groups, js[j]))
  }

  // ---------------------------------------------------------------------------------------------------------
  // Steps keep it
  // ---------------------------------------------------------------------------------------------------------

  /** The step does not touch the job of a frame that it leaves alone. */
  lemma OldFrameJob(s: State, js: Jobs, a: Action, t: Thread, i: nat, j: JobId)
    requires Allowed(s, js, a) && Apply(s, a).Done? && t in s.threads && i < |Of(s, t).stack|
    requires t != a.thread || i < Depth(s, a)
    requires Holds(Of(s, t).stack[i], j)
    ensures j in js && j in Record(s, js, a) && Record(s, js, a)[j] == js[j]
  {
    assert FrameOk(s, js, t, i);
    assert JobInFrame(s, js, j, Of(s, t).stack[i], InFrame(t, i));
    if Touches(s, a, j) { TouchedPlace(s, js, a, j); }
    RecordIsLocal(s, js, a, j);
  }

  lemma KeepFate(gs: seq<Group>, gs': seq<Group>, js: Jobs, js': Jobs, f: Frame)
    requires ParentsOlder(gs) && ParentsOlder(gs') && Grows(gs, gs') && FrameFate(gs, js, f)
    requires HoldsJob(f) && f.job in js ==> f.job in js' && js'[f.job] == js[f.job]
    ensures FrameFate(gs', js', f)
  {
    match f
    case Checking(g, _, at) => AboveGrows(gs, gs', g, at);
    case Settling(g, j) => if js[j].starts == 0 { CancellationSticks(gs, gs', g); }
    case _ =>
  }

  lemma OldFrameFate(s: State, js: Jobs, a: Action, t: Thread, i: nat)
    requires Allowed(s, js, a) && Apply(s, a).Done? && Fates(s, js)
    requires t in s.threads && i < |Of(Apply(s, a).state, t).stack| && (t != a.thread || i < Depth(s, a))
    ensures ParentsOlder(Apply(s, a).state.groups)
    ensures FrameFate(Apply(s, a).state.groups, Record(s, js, a), Of(Apply(s, a).state, t).stack[i])
  {
    StepGroups(s, js, a);
    OldFrameStays(s, a, t, i);
    var f := Of(s, t).stack[i];
    assert FrameFate(s.groups, js, f);
    if HoldsJob(f) { OldFrameJob(s, js, a, t, i, f.job); }
    KeepFate(s.groups, Apply(s, a).state.groups, js, Record(s, js, a), f);
  }

  /** The check of one more flag ends in a skip because an ancestor is cancelled, goes up, or starts the body. */
  lemma ReadFate(s: State, js: Jobs, t: Thread)
    requires Apply(s, ReadFlag(t)).Done? && ParentsOlder(s.groups)
    requires FrameFate(s.groups, js, Top(s, t).value)
    requires var j := Top(s, t).value.job; j in js && js[j].starts == 0
    ensures Top(Apply(s, ReadFlag(t)).state, t).Some?
    ensures FrameFate(s.groups, Record(s, js, ReadFlag(t)), Top(Apply(s, ReadFlag(t)).state, t).value)
  {
    var Checking(g, j, at) := Top(s, t).value;
    if s.groups[at].cancelled {
      AboveCancels(s.groups, g, at);
    } else if s.groups[at].parent.Some? {
      AboveParent(s.groups, g, at);
    }
  }

  /** The frames of a job before its body have no start, and a body frame has one. */
  lemma TopStarts(s: State, js: Jobs, a: Action)
    requires Local(s, js, a) && Top(s, a.thread).Some? && HoldsJob(Top(s, a.thread).value)
    ensures var f := Top(s, a.thread).value;
            f.job in js && (f.Checking? || f.Popped? || f.Counted? ==> js[f.job].starts == 0)
  {
    var stack := Of(s, a.thread).stack;
    var f := stack[|stack| - 1];
    assert Holds(f, f.job);
    assert JobInFrame(s, js, f.job, f, InFrame(a.thread, |stack| - 1));
  }

  lemma RunFrameFate(s: State, js: Jobs, a: Action)
    requires Local(s, js, a) && Apply(s, a).Done? && (a.ReadFlag? || a.BeginCheck? || a.FinishBody?)
    requires FrameFate(s.groups, js, Top(s, a.thread).value)
    ensures Apply(s, a).state.groups == s.groups && Top(Apply(s, a).state, a.thread).Some?
    ensures FrameFate(s.groups, Record(s, js, a), Top(Apply(s, a).state, a.thread).value)
  {
    TopStarts(s, js, a);
    if a.ReadFlag? { ReadFate(s, js, a.thread); }
  }

  /** The other steps that put a frame on top open a call, take a job or go on with a call that holds no body. */
  lemma CallFrameFate(s: State, js: Jobs, a: Action)
    requires Apply(s, a).Done? && !(a.ReadFlag? || a.BeginCheck? || a.FinishBody?) && ParentsOlder(s.groups)
    requires Top(s, a.thread).Some? ==> FrameFate(s.groups, js, Top(s, a.thread).value)
    requires |Of(Apply(s, a).state, a.thread).stack| == Depth(s, a) + 1
    requires ParentsOlder(Apply(s, a).state.groups)
    ensures FrameFate(Apply(s, a).state.groups, Record(s, js, a), Of(Apply(s, a).state, a.thread).stack[Depth(s, a)])
  {
  }

  lemma NewFrameFate(s: State, js: Jobs, a: Action)
    requires Local(s, js, a) && Apply(s, a).Done? && ParentsOlder(Apply(s, a).state.groups)
    requires Top(s, a.thread).Some? ==> FrameFate(s.groups, js, Top(s, a.thread).value)
    requires |Of(Apply(s, a).state, a.thread).stack| == Depth(s, a) + 1
    ensures FrameFate(Apply(s, a).state.groups, Record(s, js, a), Of(Apply(s, a).state, a.thread).stack[Depth(s, a)])
  {
    if a.ReadFlag? || a.BeginCheck? || a.FinishBody? {
      RunFrameFate(s, js, a);
    } else {
      CallFrameFate(s, js, a);
    }
  }

  lemma StepFrameFate(s: State, js: Jobs, a: Action, t: Thread, i: nat)
    requires Allowed(s, js, a) && Apply(s, a).Done? && Fates(s, js) && ParentsOlder(Apply(s, a).state.groups)
    requires t in Apply(s, a).state.threads && i < |Of(Apply(s, a).state, t).stack|
    ensures FrameFate(Apply(s, a).state.groups, Record(s, js, a), Of(Apply(s, a).state, t).stack[i])
  {
    InvLocal(s, js, a);
    StepStack(s, a);
    if t == a.thread && i == Depth(s, a) {
      if Top(s, t).Some? { assert FrameFate(s.groups, js, Of(s, t).stack[|Of(s, t).stack| - 1]); }
      NewFrameFate(s, js, a);
    } else {
      OldFrameFate(s, js, a, t, i);
    }
  }

  /** What a step does to the record of a job: it may begin its body, and it may settle it. */
  lemma RecordFate(s: State, js: Jobs, a: Action, j: JobId)
    requires Apply(s, a).Done? && j in js && (a.Submit? ==> a.job !in js)
    ensures j in Record(s, js, a)
    ensures var job, job', top := js[j], Record(s, js, a)[j], Top(s, a.thread);
            && job'.group == job.group
            && (job'.starts == job.starts
                || (job'.starts == job.starts + 1 && top.Some? && top.value.Checking? && Holds(top.value, j)
                    && job'.place == job.place))
            && (job'.place.Settled? && !job.place.Settled? ==>
                  top.Some? && (top.value.Settling? || top.value.Dropping?) && Holds(top.value, j))
  {
  }

  lemma StepJobFate(s: State, js: Jobs, a: Action, j: JobId)
    requires Allowed(s, js, a) && Apply(s, a).Done? && Fates(s, js) && ParentsOlder(Apply(s, a).state.groups)
    requires j in Record(s, js, a)
    ensures JobFate(Apply(s, a).state.groups, Record(s, js, a)[j])
  {
    RecordIsLocal(s, js, a, j);
    if j in js {
      StepGroups(s, js, a);
      RecordFate(s, js, a, j);
      HeldJobFate(s, js, a.thread, j);
      var gs, gs', job := s.groups, Apply(s, a).state.groups, Record(s, js, a)[j];
      if job.place.Settled? && job.starts == 0 { CancellationSticks(gs, gs', job.group); }
    }
  }

  /** A job about to be settled without a start is of a cancelled group, and one under check has no start yet. */
  lemma HeldJobFate(s: State, js: Jobs, t: Thread, j: JobId)
    requires Inv(s, js) && Fates(s, js) && j in js
    ensures JobFate(s.groups, js[j]) && js[j].group < |s.groups|
    ensures var top := Top(s, t);
            top.Some? && Holds(top.value, j) ==>
              && ((top.value.Settling? || top.value.Dropping?) && js[j].starts == 0 ==> IsCancelled(s.groups, js[j].group))
              && (top.value.Checking? ==> js[j].starts == 0 && !js[j].place.Settled?)
  {
    assert JobOk(s, js, j);
    if Top(s, t).Some? && Holds(Top(s, t).value, j) {
      var i := |Of(s, t).stack| - 1;
      HolderKnows(s, js, t, i, j);
      FrameKnows(s, js, Of(s, t).stack[i], j, InFrame(t, i));
    }
  }

  lemma HolderKnows(s: State, js: Jobs, t: Thread, i: nat, j: JobId)
    requires Inv(s, js) && Fates(s, js) && i < |Of(s, t).stack| && Holds(Of(s, t).stack[i], j)
    ensures j in js && JobInFrame(s, js, j, Of(s, t).stack[i], InFrame(t, i))
    ensures FrameFate(s.groups, js, Of(s, t).stack[i])
  {
    assert FrameOk(s, js, t, i);
  }

  lemma FrameKnows(s: State, js: Jobs, f: Frame, j: JobId, p: Place)
    requires ParentsOlder(s.groups) && j in js && Holds(f, j) && JobInFrame(s, js, j, f, p) && FrameFate(s.groups, js, f)
    requires p.InFrame?
    ensures (f.Settling? || f.Dropping?) && js[j].starts == 0 ==> IsCancelled(s.groups, js[j].group)
    ensures f.Checking? ==> js[j].starts == 0 && !js[j].place.Settled?
  {
  }

  lemma StepFates(s: State, js: Jobs, a: Action)
    requires Allowed(s, js, a) && Apply(s, a).Done? && Fates(s, js)
    ensures Fates(Apply(s, a).state, Record(s, js, a))
  {
    var s', js' := Apply(s, a).state, Record(s, js, a);
    StepGroups(s, js, a);
    forall t, i | t in s'.threads && 0 <= i < |Of(s', t).stack| ensures FrameFate(s'.groups, js', Of(s', t).stack[i]) {
      StepFrameFate(s, js, a, t, i);
    }
    forall j | j in js' ensures JobFate(s'.groups, js'[j]) { StepJobFate(s, js, a, j); }
  }

  lemma {:induction false} RunFates(schedule: seq<Action>)
    ensures Run(schedule).Alive? && Inv(Run(schedule).state, Run(schedule).jobs)
    ensures Fates(Run(schedule).state, Run(schedule).jobs)
  {
    RunInv(schedule);
    if schedule != [] {
      var before, a := schedule[..|schedule| - 1], schedule[|schedule| - 1];
      RunFates(before);
      var r := Run(before);
      if Allowed(r.state, r.jobs, a) {
        StepInv(r.state, r.jobs, a);
        StepFates(r.state, r.jobs, a);
      }
    }
  }

  // ---------------------------------------------------------------------------------------------------------
  // Every run
  // ---------------------------------------------------------------------------------------------------------

  /** Each job is settled at most once and exactly once when it is over; its body begins at most once; and a job that is
      over without having begun belongs to a group that is cancelled, itself or through an ancestor. */
  lemma SettledOnce(schedule: seq<Action>, j: JobId)
    ensures var r := Run(schedule);
            && r.Alive? && ParentsOlder(r.state.groups)
            && (j in r.jobs ==>
                  var job := r.jobs[j];
                  && job.group < |r.state.groups|
                  && job.settlements == (if job.place.Settled? then 1 else 0) && job.starts <= 1
                  && (job.place.Settled? ==> job.starts == 1 || IsCancelled(r.state.groups, job.group)))
  {
    RunFates(schedule);
    var r := Run(schedule);
    if j in r.jobs {
      assert JobOk(r.state, r.jobs, j);
      assert JobFate(r.state.groups, r.jobs[j]);
    }
  }

  /** When Wait returns and the group is not cancelled, every job ever counted for it was run exactly once. */
  lemma WaitSawAllRun(schedule: seq<Action>, t: Thread, j: JobId)
    ensures var r := Run(schedule);
            && r.Alive? && ParentsOlder(r.state.groups)
            && (Apply(r.state, WaitReturn(t)).Done? ==>
                  var g := Top(r.state, t).value.group;
                  && g < |r.state.groups|
                  && (!IsCancelled(r.state.groups, g) && j in r.jobs && r.jobs[j].group == g ==>
                        r.jobs[j].starts == 1 && r.jobs[j].settlements == 1))
  {
    SettledOnce(schedule, j);
    WaitSawAllSettled(schedule, t, j);
  }
}
