/**
 CJobGroup of private/threading/job_group.cpp as a machine of atomic steps: any number of threads submit jobs, run
 them (as pool runners or inline in Wait), create nested groups and cancel groups, in any interleaving. A thread is
 a stack of the calls it is inside of; job bodies may do everything a thread can do.
 Atomics are taken as sequentially consistent; a locked section is one step.
 */
module JobGroups {
  import opened Wrappers

  type GroupId = nat
  type JobId = nat
  type Thread = nat

  /** `runners` counts the runner closures handed to the pool that have not popped yet. */
  datatype Group = Group(
    parent: Option<GroupId>,
    cancelled: bool,
    activeJobs: nat,
    pending: seq<JobId>,
    runners: nat)

  datatype Frame =
    | Counted(group: GroupId, job: JobId)                  // SubmitJob: counter raised, job not queued yet
    | Pushed(group: GroupId)                               // SubmitJob: job queued, runner not handed out yet
    | Waiting(group: GroupId)                              // inside Wait
    | Popped(group: GroupId, job: JobId)                   // RunOnePending: job taken, check not begun
    | Checking(group: GroupId, job: JobId, at: GroupId)    // IsCancelled: about to read the flag of `at`
    | Body(group: GroupId, job: JobId, prev: Option<GroupId>)
    | Settling(group: GroupId, job: JobId)                 // body run or skipped, counter not lowered yet
    | Flagged(group: GroupId)                              // Cancel: flag stored, queue not swapped yet
    | Dropping(group: GroupId, jobs: seq<JobId>)           // Cancel: queue swapped out, counter not lowered yet

  /** `current` is the thread's tCurrent. */
  datatype ThreadState = ThreadState(current: Option<GroupId>, stack: seq<Frame>)

  datatype State = State(groups: seq<Group>, threads: map<Thread, ThreadState>)

  datatype Action =
    | NewGroup(thread: Thread)
    | Submit(thread: Thread, group: GroupId, job: JobId)
    | Push(thread: Thread)
    | Schedule(thread: Thread)
    | StartRunner(thread: Thread, group: GroupId)
    | BeginWait(thread: Thread, group: GroupId)
    | WaitRun(thread: Thread)
    | WaitReturn(thread: Thread)
    | BeginCheck(thread: Thread)
    | ReadFlag(thread: Thread)
    | FinishBody(thread: Thread)
    | Settle(thread: Thread)
    | Cancel(thread: Thread, group: GroupId)
    | SwapOut(thread: Thread)
    | Subtract(thread: Thread)

  /** `Fault`: the counter would underflow, or a group that does not exist was used. */
  datatype Outcome = Blocked | Fault | Done(state: State)

  function Of(s: State, t: Thread): (r: ThreadState)
  {
    if t in s.threads then s.threads[t] else ThreadState(None, [])
  }

  function Top(s: State, t: Thread): (r: Option<Frame>)
  {
    var stack := Of(s, t).stack;
    if stack == [] then None else Some(stack[|stack| - 1])
  }

  /** A thread outside every job, or inside the body of one, may call anything. */
  predicate MayCall(s: State, t: Thread)
  {
    var top := Top(s, t);
    top.None? || top.value.Body?
  }

  function Enter(s: State, t: Thread, f: Frame): (r: State)
  {
    var th := Of(s, t);
    s.(threads := s.threads[t := th.(stack := th.stack + [f])])
  }

  function Leave(s: State, t: Thread): (r: State)
    requires Top(s, t).Some?
  {
    var th := Of(s, t);
    s.(threads := s.threads[t := th.(stack := th.stack[..|th.stack| - 1])])
  }

  function Replace(s: State, t: Thread, f: Frame): (r: State)
    requires Top(s, t).Some?
  {
    var th := Of(s, t);
    s.(threads := s.threads[t := th.(stack := th.stack[..|th.stack| - 1] + [f])])
  }

  function SetGroup(s: State, g: GroupId, x: Group): (r: State)
    requires g < |s.groups|
  {
    s.(groups := s.groups[g := x])
  }

  function TakeOne(s: State, t: Thread, g: GroupId): (r: State)
    requires g < |s.groups|
  {
    var x := s.groups[g];
    if x.pending == [] then s
    else Enter(SetGroup(s, g, x.(pending := x.pending[1..])), t, Popped(g, x.pending[0]))
  }

  function Apply(s: State, a: Action): (r: Outcome)
  {
    var t := a.thread;
    var top := Top(s, t);
    if top.Some? && top.value.group >= |s.groups| then Fault
    else
      match a
      case NewGroup(_) =>
        if !MayCall(s, t) then Blocked
        else Done(s.(groups := s.groups + [Group(Of(s, t).current, false, 0, [], 0)]))
      case Submit(_, g, j) =>
        if !MayCall(s, t) || g >= |s.groups| then Blocked
        else
          var x := s.groups[g];
          Done(Enter(SetGroup(s, g, x.(activeJobs := x.activeJobs + 1)), t, Counted(g, j)))
      case Push(_) =>
        if !(top.Some? && top.value.Counted?) then Blocked
        else
          var Counted(g, j) := top.value;
          var x := s.groups[g];
          Done(Replace(SetGroup(s, g, x.(pending := x.pending + [j])), t, Pushed(g)))
      case Schedule(_) =>
        if !(top.Some? && top.value.Pushed?) then Blocked
        else
          var g := top.value.group;
          var x := s.groups[g];
          Done(Leave(SetGroup(s, g, x.(runners := x.runners + 1)), t))
      case StartRunner(_, g) =>
        if top.Some? || g >= |s.groups| || s.groups[g].runners == 0 then Blocked
        else
          var x := s.groups[g];
          Done(TakeOne(SetGroup(s, g, x.(runners := x.runners - 1)), t, g))
      case BeginWait(_, g) =>
        if !MayCall(s, t) || g >= |s.groups| then Blocked else Done(Enter(s, t, Waiting(g)))
      case WaitRun(_) =>
        if !(top.Some? && top.value.Waiting?) then Blocked else Done(TakeOne(s, t, top.value.group))
      case WaitReturn(_) =>
        if !(top.Some? && top.value.Waiting?) || s.groups[top.value.group].activeJobs != 0 then Blocked
        else Done(Leave(s, t))
      case BeginCheck(_) =>
        if !(top.Some? && top.value.Popped?) then Blocked
        else Done(Replace(s, t, Checking(top.value.group, top.value.job, top.value.group)))
      case ReadFlag(_) =>
        if !(top.Some? && top.value.Checking?) then Blocked
        else
          var Checking(g, j, at) := top.value;
          if at >= |s.groups| then Fault
          else if s.groups[at].cancelled then Done(Replace(s, t, Settling(g, j)))
          else if s.groups[at].parent.Some? then Done(Replace(s, t, Checking(g, j, s.groups[at].parent.value)))
          else
            var th := Of(s, t);
            var stack := th.stack[..|th.stack| - 1] + [Body(g, j, th.current)];
            Done(s.(threads := s.threads[t := ThreadState(Some(g), stack)]))
      case FinishBody(_) =>
        if !(top.Some? && top.value.Body?) then Blocked
        else
          var th := Of(s, t);
          var stack := th.stack[..|th.stack| - 1] + [Settling(top.value.group, top.value.job)];
          Done(s.(threads := s.threads[t := ThreadState(top.value.prev, stack)]))
      case Settle(_) =>
        if !(top.Some? && top.value.Settling?) then Blocked
        else
          var g := top.value.group;
          var x := s.groups[g];
          if x.activeJobs == 0 then Fault
          else Done(Leave(SetGroup(s, g, x.(activeJobs := x.activeJobs - 1)), t))
      case Cancel(_, g) =>
        if !MayCall(s, t) || g >= |s.groups| then Blocked
        else Done(Enter(SetGroup(s, g, s.groups[g].(cancelled := true)), t, Flagged(g)))
      case SwapOut(_) =>
        if !(top.Some? && top.value.Flagged?) then Blocked
        else
          var g := top.value.group;
          var x := s.groups[g];
          Done(Replace(SetGroup(s, g, x.(pending := [])), t, Dropping(g, x.pending)))
      case Subtract(_) =>
        if !(top.Some? && top.value.Dropping?) then Blocked
        else
          var Dropping(g, jobs) := top.value;
          var x := s.groups[g];
          if x.activeJobs < |jobs| then Fault
          else Done(Leave(SetGroup(s, g, x.(activeJobs := x.activeJobs - |jobs|)), t))
  }

  // ---------------------------------------------------------------------------------------------------------
  // What became of every job
  // ---------------------------------------------------------------------------------------------------------

  datatype Place = InFrame(thread: Thread, depth: nat) | InQueue | Settled

  /** `checked`: its cancellation check began, and `doomed` says whether the group or an ancestor was cancelled then;
      `starts` counts how often its body was begun and `settlements` how often the counter was lowered for it. */
  datatype Job = Job(group: GroupId, place: Place, checked: bool, doomed: bool, starts: nat, settlements: nat)

  type Jobs = map<JobId, Job>

  ghost predicate ParentsOlder(gs: seq<Group>)
  {
    forall g :: 0 <= g < |gs| && gs[g].parent.Some? ==> gs[g].parent.value < g
  }

  /** The group's own flag or that of any ancestor. */
  ghost predicate IsCancelled(gs: seq<Group>, g: GroupId)
    requires ParentsOlder(gs) && g < |gs|
    decreases g
  {
    gs[g].cancelled || (gs[g].parent.Some? && IsCancelled(gs, gs[g].parent.value))
  }

  ghost function Moved(js: Jobs, j: JobId, p: Place): (r: Jobs)
  {
    if j in js then js[j := js[j].(place := p)] else js
  }

  ghost function TakenOne(s: State, js: Jobs, t: Thread, g: GroupId): (r: Jobs)
  {
    if g < |s.groups| && s.groups[g].pending != []
    then Moved(js, s.groups[g].pending[0], InFrame(t, |Of(s, t).stack|))
    else js
  }

  ghost function AllMoved(js: Jobs, moved: seq<JobId>, p: Place): (r: Jobs)
  {
    map j | j in js :: if j in moved then js[j].(place := p) else js[j]
  }

  ghost function AllSettled(js: Jobs, gone: seq<JobId>): (r: Jobs)
  {
    map j | j in js :: if j in gone then js[j].(place := Settled, settlements := js[j].settlements + 1) else js[j]
  }

  /** The step left the thread inside the body of the job. */
  ghost predicate InBody(o: Outcome, t: Thread, j: JobId)
  {
    o.Done? && Top(o.state, t).Some? && Top(o.state, t).value.Body? && Top(o.state, t).value.job == j
  }

  /** The records after action `a`, which Apply accepts. */
  ghost function Record(s: State, js: Jobs, a: Action): (r: Jobs)
  {
    var t := a.thread;
    var top := Top(s, t);
    match a
    case Submit(_, g, j) => js[j := Job(g, InFrame(t, |Of(s, t).stack|), false, false, 0, 0)]
    case Push(_) => if top.Some? && top.value.Counted? then Moved(js, top.value.job, InQueue) else js
    case StartRunner(_, g) => TakenOne(s, js, t, g)
    case WaitRun(_) => if top.Some? then TakenOne(s, js, t, top.value.group) else js
    case BeginCheck(_) =>
      if top.Some? && top.value.Popped? && top.value.job in js && ParentsOlder(s.groups) && top.value.group < |s.groups|
      then js[top.value.job := js[top.value.job].(checked := true, doomed := IsCancelled(s.groups, top.value.group))]
      else js
    case ReadFlag(_) =>
      if top.Some? && top.value.Checking? && top.value.job in js && InBody(Apply(s, a), t, top.value.job)
      then js[top.value.job := js[top.value.job].(starts := js[top.value.job].starts + 1)]
      else js
    case Settle(_) => if top.Some? && top.value.Settling? then AllSettled(js, [top.value.job]) else js
    case SwapOut(_) =>
      if top.Some? && top.value.Flagged? && top.value.group < |s.groups|
      then AllMoved(js, s.groups[top.value.group].pending, InFrame(t, |Of(s, t).stack| - 1))
      else js
    case Subtract(_) => if top.Some? && top.value.Dropping? then AllSettled(js, top.value.jobs) else js
    case _ => js
  }

  /** Jobs of a group that were counted and not settled. */
  ghost function Unsettled(js: Jobs, g: GroupId): (r: set<JobId>)
  {
    set j | j in js && js[j].group == g && js[j].place != Settled
  }

  // ---------------------------------------------------------------------------------------------------------
  // The invariant
  // ---------------------------------------------------------------------------------------------------------

  /** The group of the innermost job body on a stack. */
  ghost function Innermost(stack: seq<Frame>): (r: Option<GroupId>)
  {
    if stack == [] then None
    else
      var top := stack[|stack| - 1];
      if top.Body? then Some(top.group) else Innermost(stack[..|stack| - 1])
  }

  predicate HoldsJob(f: Frame)
  {
    f.Counted? || f.Popped? || f.Checking? || f.Body? || f.Settling?
  }

  /** Job j sits in this frame. */
  ghost predicate Holds(f: Frame, j: JobId)
  {
    (HoldsJob(f) && f.job == j) || (f.Dropping? && j in f.jobs)
  }

  ghost predicate FrameOk(s: State, js: Jobs, t: Thread, i: nat)
    requires ParentsOlder(s.groups)
    requires i < |Of(s, t).stack|
  {
    var stack := Of(s, t).stack;
    var f := stack[i];
    && f.group < |s.groups|
    && (i < |stack| - 1 ==> f.Body? || f.Waiting?)
    && (f.Body? ==> f.prev == Innermost(stack[..i]))
    && (f.Dropping? ==> Unique(f.jobs))
    && (forall j :: Holds(f, j) ==> j in js && JobInFrame(s, js, j, f, InFrame(t, i)))
  }

  ghost predicate JobInFrame(s: State, js: Jobs, j: JobId, f: Frame, p: Place)
    requires ParentsOlder(s.groups) && j in js
  {
    && js[j].place == p && js[j].group == f.group
    && (f.Checking? || f.Body? ==> js[j].checked)
    && (f.Counted? || f.Popped? || f.Dropping? ==> !js[j].checked)
    && (js[j].starts > 0 ==> f.Body? || f.Settling?)
    && (f.Checking? ==> f.at < |s.groups| && (js[j].doomed ==> IsCancelled(s.groups, f.at)))
  }

  ghost predicate Unique(q: seq<JobId>)
  {
    forall x, y :: 0 <= x < y < |q| ==> q[x] != q[y]
  }

  ghost predicate QueueOk(s: State, js: Jobs, g: GroupId)
    requires g < |s.groups|
  {
    var q := s.groups[g].pending;
    Unique(q) && forall j :: j in q ==>
      j in js && js[j].place == InQueue && js[j].group == g && !js[j].checked && js[j].starts == 0
  }

  /** Every record tells the truth about where its job is. */
  ghost predicate JobOk(s: State, js: Jobs, j: JobId)
    requires j in js
  {
    && js[j].group < |s.groups|
    && js[j].settlements == (if js[j].place.Settled? then 1 else 0)
    && (js[j].starts > 0 ==> js[j].checked && !js[j].doomed)
    && match js[j].place
       case InQueue => j in s.groups[js[j].group].pending
       case InFrame(t, i) => i < |Of(s, t).stack| && Holds(Of(s, t).stack[i], j)
       case Settled => true
  }

  /** Threads that queued a job of the group and still have to hand out its runner. */
  ghost function Pushers(s: State, g: GroupId): (r: set<Thread>)
  {
    set t | t in s.threads && Top(s, t) == Some(Pushed(g))
  }

  ghost predicate Inv(s: State, js: Jobs)
  {
    && ParentsOlder(s.groups)
    && (forall t, i :: t in s.threads && 0 <= i < |Of(s, t).stack| ==> FrameOk(s, js, t, i))
    && (forall t :: t in s.threads ==> s.threads[t].current == Innermost(s.threads[t].stack))
    && (forall g :: 0 <= g < |s.groups| ==> QueueOk(s, js, g))
    && (forall j :: j in js ==> JobOk(s, js, j))
    && (forall g :: 0 <= g < |s.groups| ==> s.groups[g].activeJobs == |Unsettled(js, g)|)
    && (forall g :: 0 <= g < |s.groups| ==> |s.groups[g].pending| <= s.groups[g].runners + |Pushers(s, g)|)
  }

  /** Groups are never removed, keep their parent and never lose a cancellation. */
  ghost predicate Grows(gs: seq<Group>, gs': seq<Group>)
  {
    |gs| <= |gs'| && forall g :: 0 <= g < |gs| ==> gs'[g].parent == gs[g].parent && (gs[g].cancelled ==> gs'[g].cancelled)
  }

  lemma {:induction false} CancellationSticks(gs: seq<Group>, gs': seq<Group>, g: GroupId)
    requires ParentsOlder(gs) && ParentsOlder(gs') && Grows(gs, gs') && g < |gs| && IsCancelled(gs, g)
    ensures IsCancelled(gs', g)
    decreases g
  {
    if !gs[g].cancelled {
      CancellationSticks(gs, gs', gs[g].parent.value);
    }
  }

  // ---------------------------------------------------------------------------------------------------------
  // Steps keep the invariant, clause by clause
  // ---------------------------------------------------------------------------------------------------------

  ghost predicate Allowed(s: State, js: Jobs, a: Action)
  {
    Inv(s, js) && !Apply(s, a).Blocked? && (a.Submit? ==> a.job !in js)
  }

  lemma CurrentExists(s: State, js: Jobs, t: Thread)
    requires Inv(s, js)
    ensures Of(s, t).current == Innermost(Of(s, t).stack)
    ensures Of(s, t).current.Some? ==> Of(s, t).current.value < |s.groups|
  {
    if t in s.threads {
      InnermostExists(s, js, t, |Of(s, t).stack|);
      assert Of(s, t).stack[..|Of(s, t).stack|] == Of(s, t).stack;
    }
  }

  lemma {:induction false} InnermostExists(s: State, js: Jobs, t: Thread, n: nat)
    requires Inv(s, js) && t in s.threads && n <= |Of(s, t).stack|
    ensures var r := Innermost(Of(s, t).stack[..n]); r.Some? ==> r.value < |s.groups|
  {
    if n > 0 {
      InnermostExists(s, js, t, n - 1);
      assert FrameOk(s, js, t, n - 1);
      assert Of(s, t).stack[..n][..n - 1] == Of(s, t).stack[..n - 1];
    }
  }

  lemma NoFault(s: State, js: Jobs, a: Action)
    requires Allowed(s, js, a)
    ensures Apply(s, a).Done?
  {
    var t := a.thread;
    var stack := Of(s, t).stack;
    if stack != [] {
      var i := |stack| - 1;
      var f := stack[i];
      assert FrameOk(s, js, t, i);
      if a.Settle? && f.Settling? {
        assert Holds(f, f.job);
        assert f.job in Unsettled(js, f.group);
      }
      if a.Subtract? && f.Dropping? { DroppedAreUnsettled(s, js, t); }
      if f.Checking? { assert Holds(f, f.job); }
    }
  }

  ghost function Members(q: seq<JobId>): (r: set<JobId>)
  {
    set x | x in q
  }

  lemma {:induction false} MembersCount(q: seq<JobId>)
    requires Unique(q)
    ensures |Members(q)| == |q|
  {
    if q != [] {
      MembersCount(q[1..]);
      assert Members(q) == {q[0]} + Members(q[1..]);
    }
  }

  lemma DroppedAreUnsettled(s: State, js: Jobs, t: Thread)
    requires Inv(s, js) && Top(s, t).Some? && Top(s, t).value.Dropping?
    ensures var f := Top(s, t).value;
            f.group < |s.groups| && Members(f.jobs) <= Unsettled(js, f.group)
            && |Members(f.jobs)| == |f.jobs| <= |Unsettled(js, f.group)|
  {
    var i := |Of(s, t).stack| - 1;
    assert FrameOk(s, js, t, i);
    var f := Of(s, t).stack[i];
    forall j | j in f.jobs ensures j in Unsettled(js, f.group) { assert Holds(f, j); }
    MembersCount(f.jobs);
    assert Unsettled(js, f.group) == Members(f.jobs) + (Unsettled(js, f.group) - Members(f.jobs));
  }

  lemma GroupsGrow(s: State, a: Action)
    requires ParentsOlder(s.groups) && Apply(s, a).Done?
    requires Of(s, a.thread).current.Some? ==> Of(s, a.thread).current.value < |s.groups|
    ensures ParentsOlder(Apply(s, a).state.groups) && Grows(s.groups, Apply(s, a).state.groups)
  {
  }

  lemma StepGroups(s: State, js: Jobs, a: Action)
    requires Allowed(s, js, a) && Apply(s, a).Done?
    ensures ParentsOlder(Apply(s, a).state.groups) && Grows(s.groups, Apply(s, a).state.groups)
  {
    CurrentExists(s, js, a.thread);
    GroupsGrow(s, a);
  }

  /** What a step does to the acting thread's stack: nothing, or it replaces everything above `n` by at most one
      frame. */
  ghost predicate StackChange(stack: seq<Frame>, stack': seq<Frame>, n: nat)
  {
    n <= |stack| && n <= |stack'| <= n + 1 && stack'[..n] == stack[..n] && |stack| <= n + 1
  }

  ghost function Depth(s: State, a: Action): (n: nat)
  {
    var stack := Of(s, a.thread).stack;
    if a.NewGroup? || a.Submit? || a.StartRunner? || a.BeginWait? || a.WaitRun? || a.Cancel? || stack == [] then |stack|
    else |stack| - 1
  }

  lemma StepStack(s: State, a: Action)
    requires Apply(s, a).Done?
    ensures StackChange(Of(s, a.thread).stack, Of(Apply(s, a).state, a.thread).stack, Depth(s, a))
    ensures forall t :: t != a.thread ==> Of(Apply(s, a).state, t) == Of(s, t)
    ensures forall t :: t in Apply(s, a).state.threads <==> t in s.threads || (t == a.thread && t in Apply(s, a).state.threads)
  {
    StepElsewhere(s, a);
    if a.BeginCheck? || a.ReadFlag? || a.FinishBody? || a.Push? || a.SwapOut? { StackReplaced(s, a); } else { StackMoved(s, a); }
  }

  /** A step touches no thread but its own. */
  lemma StepElsewhere(s: State, a: Action)
    requires Apply(s, a).Done?
    ensures forall t :: t != a.thread ==>
              Of(Apply(s, a).state, t) == Of(s, t) && (t in Apply(s, a).state.threads <==> t in s.threads)
    ensures a.thread in s.threads ==> a.thread in Apply(s, a).state.threads
  {
  }

  lemma StackReplaced(s: State, a: Action)
    requires Apply(s, a).Done? && (a.BeginCheck? || a.ReadFlag? || a.FinishBody? || a.Push? || a.SwapOut?)
    ensures StackChange(Of(s, a.thread).stack, Of(Apply(s, a).state, a.thread).stack, Depth(s, a))
  {
  }

  lemma StackMoved(s: State, a: Action)
    requires Apply(s, a).Done? && !(a.BeginCheck? || a.ReadFlag? || a.FinishBody? || a.Push? || a.SwapOut?)
    ensures StackChange(Of(s, a.thread).stack, Of(Apply(s, a).state, a.thread).stack, Depth(s, a))
  {
  }

  /** A frame that the step did not touch keeps its meaning. */
  lemma KeepFrame(s: State, js: Jobs, s': State, js': Jobs, t: Thread, i: nat)
    requires ParentsOlder(s.groups) && ParentsOlder(s'.groups) && Grows(s.groups, s'.groups)
    requires i < |Of(s, t).stack| && i < |Of(s', t).stack|
    requires Of(s', t).stack[..i] == Of(s, t).stack[..i] && Of(s', t).stack[i] == Of(s, t).stack[i]
    requires FrameOk(s, js, t, i)
    requires i < |Of(s', t).stack| - 1 ==> Of(s, t).stack[i].Body? || Of(s, t).stack[i].Waiting?
    requires forall j :: j in js && js[j].place == InFrame(t, i) ==> j in js' && js'[j] == js[j]
    ensures FrameOk(s', js', t, i)
  {
    var f := Of(s, t).stack[i];
    forall j | Holds(f, j) ensures j in js' && JobInFrame(s', js', j, f, InFrame(t, i)) {
      assert JobInFrame(s, js, j, f, InFrame(t, i));
      if f.Checking? && js[j].doomed { CancellationSticks(s.groups, s'.groups, f.at); }
    }
  }

  /** The jobs whose record the step changes. */
  ghost predicate Touches(s: State, a: Action, j: JobId)
  {
    var top := Top(s, a.thread);
    match a
    case Submit(_, _, job) => j == job
    case StartRunner(_, g) => g < |s.groups| && s.groups[g].pending != [] && j == s.groups[g].pending[0]
    case WaitRun(_) =>
      && top.Some? && top.value.group < |s.groups| && s.groups[top.value.group].pending != []
      && j == s.groups[top.value.group].pending[0]
    case SwapOut(_) => top.Some? && top.value.group < |s.groups| && j in s.groups[top.value.group].pending
    case Push(_) => top.Some? && Holds(top.value, j)
    case BeginCheck(_) => top.Some? && Holds(top.value, j)
    case ReadFlag(_) => top.Some? && Holds(top.value, j)
    case Settle(_) => top.Some? && Holds(top.value, j)
    case Subtract(_) => top.Some? && Holds(top.value, j)
    case _ => false
  }

  lemma RecordIsLocal(s: State, js: Jobs, a: Action, j: JobId)
    requires Apply(s, a).Done?
    ensures j in Record(s, js, a) <==> j in js || (a.Submit? && j == a.job)
    ensures j in js && !Touches(s, a, j) ==> Record(s, js, a)[j] == js[j]
  {
  }

  lemma TouchedPlace(s: State, js: Jobs, a: Action, j: JobId)
    requires Allowed(s, js, a) && Apply(s, a).Done? && j in js && Touches(s, a, j)
    ensures js[j].place == InQueue ||
            (|Of(s, a.thread).stack| > 0 && Depth(s, a) == |Of(s, a.thread).stack| - 1
             && js[j].place == InFrame(a.thread, Depth(s, a)))
  {
    var stack := Of(s, a.thread).stack;
    if a.StartRunner? {
      assert QueueOk(s, js, a.group);
    } else {
      var f := stack[|stack| - 1];
      assert FrameOk(s, js, a.thread, |stack| - 1);
      assert QueueOk(s, js, f.group);
      if Holds(f, j) { assert JobInFrame(s, js, j, f, InFrame(a.thread, |stack| - 1)); }
    }
  }

  /** Frames of other threads and below the change. */
  lemma StepOldFrame(s: State, js: Jobs, a: Action, t: Thread, i: nat)
    requires Allowed(s, js, a) && Apply(s, a).Done? && ParentsOlder(Apply(s, a).state.groups)
    requires t in s.threads && i < |Of(Apply(s, a).state, t).stack| && (t != a.thread || i < Depth(s, a))
    ensures FrameOk(Apply(s, a).state, Record(s, js, a), t, i)
  {
    var s', js' := Apply(s, a).state, Record(s, js, a);
    StepGroups(s, js, a);
    StepStack(s, a);
    assert FrameOk(s, js, t, i);
    forall j | j in js && js[j].place == InFrame(t, i) ensures j in js' && js'[j] == js[j] {
      if Touches(s, a, j) { TouchedPlace(s, js, a, j); }
      RecordIsLocal(s, js, a, j);
    }
    OldFrameStays(s, a, t, i);
    KeepFrame(s, js, s', js', t, i);
  }

  /** A frame below the change stays, and only a body or a wait gets something on top of it. */
  lemma OldFrameStays(s: State, a: Action, t: Thread, i: nat)
    requires Apply(s, a).Done? && i < |Of(Apply(s, a).state, t).stack| && (t != a.thread || i < Depth(s, a))
    ensures i < |Of(s, t).stack|
    ensures var stack, stack' := Of(s, t).stack, Of(Apply(s, a).state, t).stack;
            && stack'[..i] == stack[..i] && stack'[i] == stack[i]
            && (i == |stack| - 1 && i < |stack'| - 1 ==> stack[i].Body? || stack[i].Waiting?)
  {
    StepStack(s, a);
    var stack, stack' := Of(s, t).stack, Of(Apply(s, a).state, t).stack;
    if t == a.thread {
      var n := Depth(s, a);
      assert stack'[..i] == stack'[..n][..i] && stack[..i] == stack[..n][..i];
      assert stack'[i] == stack'[..n][i] && stack[i] == stack[..n][i];
      if i == |stack| - 1 { assert Top(s, t) == Some(stack[i]); }
    }
  }

  /** The top frame after a job was taken from a queue. */
  lemma TakenFrame(s: State, js: Jobs, t: Thread, g: GroupId)
    requires ParentsOlder(s.groups) && g < |s.groups| && QueueOk(s, js, g) && s.groups[g].pending != []
    ensures var s', js' := TakeOne(s, t, g), TakenOne(s, js, t, g);
            ParentsOlder(s'.groups) && |Of(s', t).stack| == |Of(s, t).stack| + 1
            && FrameOk(s', js', t, |Of(s, t).stack|)
  {
    var s', js', n := TakeOne(s, t, g), TakenOne(s, js, t, g), |Of(s, t).stack|;
    var j := s.groups[g].pending[0];
    assert Of(s', t).stack[n] == Popped(g, j);
    forall x | Holds(Popped(g, j), x) ensures x in js' && JobInFrame(s', js', x, Popped(g, j), InFrame(t, n)) {}
  }

  /** The top frame after a step that begins, advances or ends the run of one job. */
  lemma RunFrame(s: State, js: Jobs, a: Action)
    requires ParentsOlder(s.groups) && Apply(s, a).Done? && (a.BeginCheck? || a.ReadFlag? || a.FinishBody?)
    requires Of(s, a.thread).stack != [] && FrameOk(s, js, a.thread, |Of(s, a.thread).stack| - 1)
    requires Of(s, a.thread).current == Innermost(Of(s, a.thread).stack)
    ensures FrameOk(Apply(s, a).state, Record(s, js, a), a.thread, |Of(s, a.thread).stack| - 1)
  {
    var t := a.thread;
    var s', js' := Apply(s, a).state, Record(s, js, a);
    var stack, stack' := Of(s, t).stack, Of(s', t).stack;
    var n := |stack| - 1;
    var f, f' := stack[n], stack'[n];
    assert Holds(f, f.job) && JobInFrame(s, js, f.job, f, InFrame(t, n));
    assert stack'[..n] == stack[..n];
    forall x | Holds(f', x) ensures x in js' && JobInFrame(s', js', x, f', InFrame(t, n)) {}
  }

  lemma DroppingFrame(s: State, js: Jobs, t: Thread)
    requires ParentsOlder(s.groups) && Apply(s, SwapOut(t)).Done?
    requires Top(s, t).Some? && QueueOk(s, js, Top(s, t).value.group)
    ensures var s', n := Apply(s, SwapOut(t)).state, |Of(s, t).stack| - 1;
            ParentsOlder(s'.groups) && FrameOk(s', Record(s, js, SwapOut(t)), t, n)
  {
    var s', js', n := Apply(s, SwapOut(t)).state, Record(s, js, SwapOut(t)), |Of(s, t).stack| - 1;
    var g := Top(s, t).value.group;
    var f' := Dropping(g, s.groups[g].pending);
    assert Of(s', t).stack[n] == f';
    forall x | Holds(f', x) ensures x in js' && JobInFrame(s', js', x, f', InFrame(t, n)) {}
  }

  /** The top frame after a step that opens a call or queues a job. */
  lemma CallFrame(s: State, js: Jobs, a: Action)
    requires ParentsOlder(s.groups) && Apply(s, a).Done? && (a.Submit? || a.Push? || a.BeginWait? || a.Cancel?)
    ensures var s' := Apply(s, a).state;
            ParentsOlder(s'.groups) && |Of(s', a.thread).stack| == Depth(s, a) + 1
            && FrameOk(s', Record(s, js, a), a.thread, Depth(s, a))
  {
    var f := Of(Apply(s, a).state, a.thread).stack[Depth(s, a)];
    match a
    case Submit(_, g, j) => assert f == Counted(g, j);
    case Push(_) => assert f == Pushed(Top(s, a.thread).value.group);
    case BeginWait(_, g) => assert f == Waiting(g);
    case Cancel(_, g) => assert f == Flagged(g);
  }

  /** What the invariant says about the queues and the frame that the step looks at. */
  ghost predicate Local(s: State, js: Jobs, a: Action)
  {
    var t := a.thread;
    var stack := Of(s, t).stack;
    && ParentsOlder(s.groups)
    && Of(s, t).current == Innermost(stack)
    && (stack != [] ==> FrameOk(s, js, t, |stack| - 1) && QueueOk(s, js, stack[|stack| - 1].group))
    && (a.StartRunner? && a.group < |s.groups| ==> QueueOk(s, js, a.group))
  }

  lemma InvLocal(s: State, js: Jobs, a: Action)
    requires Inv(s, js)
    ensures Local(s, js, a)
  {
    CurrentExists(s, js, a.thread);
    var stack := Of(s, a.thread).stack;
    if stack != [] {
      assert FrameOk(s, js, a.thread, |stack| - 1);
      assert QueueOk(s, js, stack[|stack| - 1].group);
    }
    if a.StartRunner? && a.group < |s.groups| { assert QueueOk(s, js, a.group); }
  }

  lemma StartedFrame(s: State, js: Jobs, a: Action)
    requires Local(s, js, a) && Apply(s, a).Done? && (a.StartRunner? || a.WaitRun?)
    requires ParentsOlder(Apply(s, a).state.groups)
    requires |Of(Apply(s, a).state, a.thread).stack| == Depth(s, a) + 1
    ensures FrameOk(Apply(s, a).state, Record(s, js, a), a.thread, Depth(s, a))
  {
    if a.StartRunner? {
      var s1 := SetGroup(s, a.group, s.groups[a.group].(runners := s.groups[a.group].runners - 1));
      assert QueueOk(s1, js, a.group);
      TakenFrame(s1, js, a.thread, a.group);
    } else {
      TakenFrame(s, js, a.thread, Top(s, a.thread).value.group);
    }
  }

  /** The frame that the step put on top. */
  lemma StepNewFrame(s: State, js: Jobs, a: Action)
    requires Local(s, js, a) && Apply(s, a).Done?
    requires ParentsOlder(Apply(s, a).state.groups)
    requires |Of(Apply(s, a).state, a.thread).stack| == Depth(s, a) + 1
    ensures FrameOk(Apply(s, a).state, Record(s, js, a), a.thread, Depth(s, a))
  {
    match a
    case StartRunner(_, g) => StartedFrame(s, js, a);
    case WaitRun(_) => StartedFrame(s, js, a);
    case SwapOut(_) => DroppingFrame(s, js, a.thread);
    case BeginCheck(_) => RunFrame(s, js, a);
    case ReadFlag(_) => RunFrame(s, js, a);
    case FinishBody(_) => RunFrame(s, js, a);
    case Submit(_, _, _) => CallFrame(s, js, a);
    case Push(_) => CallFrame(s, js, a);
    case BeginWait(_, _) => CallFrame(s, js, a);
    case Cancel(_, _) => CallFrame(s, js, a);
    case _ =>
  }

  /** How the acting thread's stack and tCurrent move together. */
  lemma StepTop(s: State, a: Action)
    requires Apply(s, a).Done?
    ensures var th, th' := Of(s, a.thread), Of(Apply(s, a).state, a.thread);
            var n := Depth(s, a);
            && (n < |th.stack| ==> th'.current == if th.stack[n].Body? then th.stack[n].prev else
                                     if |th'.stack| > n && th'.stack[n].Body? then Some(th'.stack[n].group) else th.current)
            && (n == |th.stack| ==> th'.current == th.current)
            && (n == |th.stack| && |th'.stack| > n ==> !th'.stack[n].Body?)
            && (|th'.stack| > n && th'.stack[n].Body? ==> a.ReadFlag? && n < |th.stack| && th.stack[n].Checking?)
  {
  }

  lemma InnermostTop(stack: seq<Frame>, n: nat)
    requires n <= |stack| <= n + 1
    ensures Innermost(stack) == if n < |stack| && stack[n].Body? then Some(stack[n].group) else Innermost(stack[..n])
  {
    if n == |stack| { assert stack[..n] == stack; }
  }

  lemma StepCurrent(s: State, js: Jobs, a: Action)
    requires Local(s, js, a) && Apply(s, a).Done?
    ensures var th := Of(Apply(s, a).state, a.thread); th.current == Innermost(th.stack)
  {
    var stack, stack' := Of(s, a.thread).stack, Of(Apply(s, a).state, a.thread).stack;
    var n := Depth(s, a);
    StepStack(s, a);
    StepTop(s, a);
    InnermostTop(stack, n);
    InnermostTop(stack', n);
  }

  /** The group whose queue the step changes, if any. */
  ghost function QueueOf(s: State, a: Action): (r: Option<GroupId>)
  {
    if a.StartRunner? then Some(a.group)
    else if (a.Push? || a.WaitRun? || a.SwapOut?) && Top(s, a.thread).Some? then Some(Top(s, a.thread).value.group)
    else None
  }

  lemma StepQueueElsewhere(s: State, js: Jobs, a: Action, g: GroupId)
    requires Local(s, js, a) && Apply(s, a).Done? && (a.Submit? ==> a.job !in js)
    requires g < |s.groups| && QueueOk(s, js, g) && QueueOf(s, a) != Some(g)
    ensures Apply(s, a).state.groups[g].pending == s.groups[g].pending
    ensures QueueOk(Apply(s, a).state, Record(s, js, a), g)
  {
    forall j | j in s.groups[g].pending ensures !Touches(s, a, j) {}
    forall j | j in s.groups[g].pending ensures j in Record(s, js, a) && Record(s, js, a)[j] == js[j] {
      RecordIsLocal(s, js, a, j);
    }
  }

  lemma StepQueueHere(s: State, js: Jobs, a: Action)
    requires Local(s, js, a) && Apply(s, a).Done? && QueueOf(s, a).Some?
    ensures QueueOf(s, a).value < |s.groups|
    ensures QueueOk(Apply(s, a).state, Record(s, js, a), QueueOf(s, a).value)
  {
    var g := QueueOf(s, a).value;
    var q, q' := s.groups[g].pending, Apply(s, a).state.groups[g].pending;
    if a.Push? {
      var stack := Of(s, a.thread).stack;
      var f := stack[|stack| - 1];
      assert Holds(f, f.job) && JobInFrame(s, js, f.job, f, InFrame(a.thread, |stack| - 1));
      assert q' == q + [f.job];
    } else if !a.SwapOut? && q != [] {
      assert q' == q[1..];
      forall j | j in q' ensures j in q && j != q[0] {}
    }
  }

  lemma StepQueue(s: State, js: Jobs, a: Action, g: GroupId)
    requires Allowed(s, js, a) && Apply(s, a).Done? && g < |Apply(s, a).state.groups|
    ensures QueueOk(Apply(s, a).state, Record(s, js, a), g)
  {
    InvLocal(s, js, a);
    if g < |s.groups| {
      assert QueueOk(s, js, g);
      if QueueOf(s, a) == Some(g) { StepQueueHere(s, js, a); } else { StepQueueElsewhere(s, js, a, g); }
    }
  }

  // --- the records ---

  lemma StepTouchedJob(s: State, js: Jobs, a: Action, j: JobId)
    requires Local(s, js, a) && Apply(s, a).Done? && Touches(s, a, j)
    requires (a.Submit? && j !in js) || (j in js && JobOk(s, js, j))
    ensures j in Record(s, js, a) && JobOk(Apply(s, a).state, Record(s, js, a), j)
  {
    var t := a.thread;
    var stack := Of(s, t).stack;
    if stack != [] && Holds(stack[|stack| - 1], j) {
      assert JobInFrame(s, js, j, stack[|stack| - 1], InFrame(t, |stack| - 1));
    }
    var s', js' := Apply(s, a).state, Record(s, js, a);
    if js'[j].place.InFrame? { assert Holds(Of(s', t).stack[js'[j].place.depth], j); }
    if a.Push? { assert j in s'.groups[js'[j].group].pending; }
  }

  /** A queued job that the step does not touch stays queued. */
  lemma StepQueuedJob(s: State, a: Action, g: GroupId, j: JobId)
    requires Apply(s, a).Done? && !Touches(s, a, j) && g < |s.groups| && j in s.groups[g].pending
    ensures g < |Apply(s, a).state.groups| && j in Apply(s, a).state.groups[g].pending
  {
  }

  /** A frame that holds a job which the step does not touch goes on holding it. */
  lemma StepHeldJob(s: State, a: Action, t: Thread, i: nat, j: JobId)
    requires Apply(s, a).Done? && !Touches(s, a, j) && i < |Of(s, t).stack| && Holds(Of(s, t).stack[i], j)
    ensures i < |Of(Apply(s, a).state, t).stack| && Holds(Of(Apply(s, a).state, t).stack[i], j)
  {
    StepStack(s, a);
    var stack, stack' := Of(s, t).stack, Of(Apply(s, a).state, t).stack;
    if t == a.thread {
      var n := Depth(s, a);
      if i < n {
        assert stack'[i] == stack'[..n][i] == stack[..n][i];
      } else {
        assert Top(s, t) == Some(stack[i]);
      }
    }
  }

  lemma StepOtherJob(s: State, js: Jobs, a: Action, j: JobId)
    requires Apply(s, a).Done? && !Touches(s, a, j)
    requires j in js && JobOk(s, js, j) && |s.groups| <= |Apply(s, a).state.groups|
    ensures j in Record(s, js, a) && JobOk(Apply(s, a).state, Record(s, js, a), j)
  {
    RecordIsLocal(s, js, a, j);
    match js[j].place
    case InQueue => StepQueuedJob(s, a, js[j].group, j);
    case InFrame(t, i) => StepHeldJob(s, a, t, i, j);
    case Settled =>
  }

  lemma StepJob(s: State, js: Jobs, a: Action, j: JobId)
    requires Allowed(s, js, a) && Apply(s, a).Done? && j in Record(s, js, a)
    ensures JobOk(Apply(s, a).state, Record(s, js, a), j)
  {
    InvLocal(s, js, a);
    StepGroups(s, js, a);
    RecordIsLocal(s, js, a, j);
    if j in js { assert JobOk(s, js, j); }
    if Touches(s, a, j) { StepTouchedJob(s, js, a, j); } else { StepOtherJob(s, js, a, j); }
  }

  // --- the counters ---

  lemma StepSettledness(s: State, js: Jobs, a: Action, j: JobId)
    requires Allowed(s, js, a) && Apply(s, a).Done? && j in js
    ensures j in Record(s, js, a) && Record(s, js, a)[j].group == js[j].group
    ensures Record(s, js, a)[j].place.Settled? <==>
              js[j].place.Settled? || ((a.Settle? || a.Subtract?) && Holds(Top(s, a.thread).value, j))
  {
    RecordIsLocal(s, js, a, j);
    if Touches(s, a, j) { TouchedPlace(s, js, a, j); }
  }

  /** The jobs that the step settles: at most one group's. */
  ghost function Gone(s: State, a: Action): (r: set<JobId>)
  {
    var top := Top(s, a.thread);
    if a.Settle? && top.Some? && top.value.Settling? then {top.value.job}
    else if a.Subtract? && top.Some? && top.value.Dropping? then Members(top.value.jobs)
    else {}
  }

  lemma StepUnsettledJob(s: State, js: Jobs, a: Action, g: GroupId, j: JobId)
    requires Allowed(s, js, a) && Apply(s, a).Done?
    ensures j in Unsettled(Record(s, js, a), g) <==>
              (j in Unsettled(js, g) && j !in Gone(s, a)) || (a.Submit? && a.group == g && j == a.job)
  {
    if j in js {
      StepSettledness(s, js, a, j);
      GoneIsHeld(s, a, j);
    } else {
      RecordIsLocal(s, js, a, j);
    }
  }

  lemma GoneIsHeld(s: State, a: Action, j: JobId)
    requires Apply(s, a).Done?
    ensures j in Gone(s, a) <==> (a.Settle? || a.Subtract?) && Holds(Top(s, a.thread).value, j)
  {
  }

  lemma StepUnsettled(s: State, js: Jobs, a: Action, g: GroupId)
    requires Allowed(s, js, a) && Apply(s, a).Done?
    ensures Unsettled(Record(s, js, a), g) ==
              (Unsettled(js, g) - Gone(s, a)) + if a.Submit? && a.group == g then {a.job} else {}
  {
    var u, u', gone := Unsettled(js, g), Unsettled(Record(s, js, a), g), Gone(s, a);
    var extra := if a.Submit? && a.group == g then {a.job} else {};
    forall j ensures j in u' <==> j in (u - gone) + extra {
      StepUnsettledJob(s, js, a, g, j);
    }
  }

  lemma SetMoves(u: set<JobId>, gone: set<JobId>, extra: set<JobId>)
    requires (gone <= u || gone !! u) && extra !! u
    ensures |(u - gone) + extra| == |u| - (if gone <= u then |gone| else 0) + |extra|
  {
    if gone <= u {
      assert u == (u - gone) + gone;
    } else {
      assert u - gone == u;
    }
  }

  lemma NewGroupIsEmpty(s: State, js: Jobs, g: GroupId)
    requires Inv(s, js) && |s.groups| <= g
    ensures Unsettled(js, g) == {}
  {
    forall j ensures j !in Unsettled(js, g) { if j in js { assert JobOk(s, js, j); } }
  }

  lemma StepCount(s: State, js: Jobs, a: Action, g: GroupId)
    requires Allowed(s, js, a) && Apply(s, a).Done? && g < |Apply(s, a).state.groups|
    ensures Apply(s, a).state.groups[g].activeJobs == |Unsettled(Record(s, js, a), g)|
  {
    StepUnsettled(s, js, a, g);
    if g >= |s.groups| {
      NewGroupIsEmpty(s, js, g);
      NewGroupCounter(s, a, g);
    } else {
      assert s.groups[g].activeJobs == |Unsettled(js, g)|;
      GoneIsUnsettled(s, js, a);
      OldGroupCounter(s, js, a, g);
    }
  }

  lemma NewGroupCounter(s: State, a: Action, g: GroupId)
    requires Apply(s, a).Done? && |s.groups| <= g < |Apply(s, a).state.groups|
    ensures a.NewGroup? && Apply(s, a).state.groups[g].activeJobs == 0 && Apply(s, a).state.groups[g].pending == []
  {
  }

  lemma OldGroupCounter(s: State, js: Jobs, a: Action, g: GroupId)
    requires Apply(s, a).Done? && g < |s.groups| && s.groups[g].activeJobs == |Unsettled(js, g)|
    requires a.Submit? ==> a.job !in js
    requires forall j :: j in Gone(s, a) ==> j in js && js[j].group == GoneGroup(s, a) && !js[j].place.Settled?
    requires GoneGroup(s, a) >= 0 && a.Subtract? ==> |Gone(s, a)| == |Top(s, a.thread).value.jobs|
    ensures g < |Apply(s, a).state.groups|
    ensures Apply(s, a).state.groups[g].activeJobs ==
              |(Unsettled(js, g) - Gone(s, a)) + if a.Submit? && a.group == g then {a.job} else {}|
  {
    CounterMoves(s, a, g);
    SetMoves(Unsettled(js, g), Gone(s, a), if a.Submit? && a.group == g then {a.job} else {});
  }

  ghost function GoneGroup(s: State, a: Action): (r: int)
  {
    if (a.Settle? || a.Subtract?) && Top(s, a.thread).Some? then Top(s, a.thread).value.group else -1
  }

  lemma GoneIsUnsettled(s: State, js: Jobs, a: Action)
    requires Allowed(s, js, a) && Apply(s, a).Done?
    ensures forall j :: j in Gone(s, a) ==> j in js && js[j].group == GoneGroup(s, a) && !js[j].place.Settled?
    ensures GoneGroup(s, a) >= 0 && a.Subtract? ==> |Gone(s, a)| == |Top(s, a.thread).value.jobs|
  {
    forall j | j in Gone(s, a) ensures j in js && js[j].group == GoneGroup(s, a) && !js[j].place.Settled? {
      TopJob(s, js, a.thread, j);
    }
    if a.Subtract? { DroppedAreUnsettled(s, js, a.thread); }
  }

  lemma TopJob(s: State, js: Jobs, t: Thread, j: JobId)
    requires Inv(s, js) && Top(s, t).Some? && Holds(Top(s, t).value, j)
    ensures j in js && js[j].group == Top(s, t).value.group && js[j].place == InFrame(t, |Of(s, t).stack| - 1)
  {
    var i := |Of(s, t).stack| - 1;
    assert FrameOk(s, js, t, i);
    assert JobInFrame(s, js, j, Of(s, t).stack[i], InFrame(t, i));
  }

  /** The counter moves by one per submitted job and by the number of settled ones. */
  lemma CounterMoves(s: State, a: Action, g: GroupId)
    requires Apply(s, a).Done? && g < |s.groups|
    ensures g < |Apply(s, a).state.groups|
    ensures Apply(s, a).state.groups[g].activeJobs ==
              s.groups[g].activeJobs
              + (if a.Submit? && a.group == g then 1 else 0)
              - (if GoneGroup(s, a) != g then 0 else if a.Settle? then 1 else |Top(s, a.thread).value.jobs|)
  {
  }

  // --- the runners ---

  /** After a step the acting thread is about to hand out a runner exactly when it just queued the job. */
  lemma StepTopPusher(s: State, js: Jobs, a: Action)
    requires Allowed(s, js, a) && Apply(s, a).Done?
    ensures var top, top' := Top(s, a.thread), Top(Apply(s, a).state, a.thread);
            top'.Some? && top'.value.Pushed? ==> a.Push? && top'.value.group == top.value.group
    ensures a.Push? ==> Top(Apply(s, a).state, a.thread) == Some(Pushed(Top(s, a.thread).value.group))
  {
    StepStack(s, a);
    NewTopIsNoPusher(s, a);
    var stack, stack', n := Of(s, a.thread).stack, Of(Apply(s, a).state, a.thread).stack, Depth(s, a);
    if 0 < n && |stack'| == n {
      assert FrameOk(s, js, a.thread, n - 1);
      assert stack'[n - 1] == stack'[..n][n - 1] == stack[n - 1];
    }
  }

  lemma StepPusher(s: State, js: Jobs, a: Action, g: GroupId, t: Thread)
    requires Allowed(s, js, a) && Apply(s, a).Done?
    ensures t in Pushers(Apply(s, a).state, g) <==>
              if t == a.thread then a.Push? && Top(s, t).value.group == g else t in Pushers(s, g)
  {
    StepStack(s, a);
    if t == a.thread {
      StepTopPusher(s, js, a);
    } else {
      assert Of(Apply(s, a).state, t) == Of(s, t);
    }
  }

  lemma ActingPusher(s: State, a: Action, g: GroupId)
    requires Apply(s, a).Done?
    ensures a.Push? ==> Top(s, a.thread).Some?
    ensures a.thread in Pushers(s, g) <==> a.Schedule? && Top(s, a.thread).value.group == g
  {
    NewTopIsNoPusher(s, a);
  }

  lemma StepPushers(s: State, js: Jobs, a: Action, g: GroupId)
    requires Allowed(s, js, a) && Apply(s, a).Done?
    ensures a.Push? ==> Top(s, a.thread).Some?
    ensures Pushers(Apply(s, a).state, g) ==
              (Pushers(s, g) - {a.thread}) + if a.Push? && Top(s, a.thread).value.group == g then {a.thread} else {}
    ensures a.thread in Pushers(s, g) <==> a.Schedule? && Top(s, a.thread).value.group == g
  {
    ActingPusher(s, a, g);
    var p' := Pushers(Apply(s, a).state, g);
    forall t ensures t in p' <==> if t == a.thread then a.Push? && Top(s, t).value.group == g else t in Pushers(s, g) {
      StepPusher(s, js, a, g, t);
    }
    PushersMove(Pushers(s, g), p', a.thread, a.Push? && Top(s, a.thread).value.group == g);
  }

  lemma PushersMove(p: set<Thread>, p': set<Thread>, actor: Thread, pushed: bool)
    requires forall t :: t in p' <==> if t == actor then pushed else t in p
    ensures p' == (p - {actor}) + if pushed then {actor} else {}
  {
  }

  lemma NewTopIsNoPusher(s: State, a: Action)
    requires Apply(s, a).Done?
    ensures var stack' := Of(Apply(s, a).state, a.thread).stack;
            |stack'| == Depth(s, a) + 1 ==>
              (if a.Push? then stack'[Depth(s, a)] == Pushed(Top(s, a.thread).value.group)
               else !stack'[Depth(s, a)].Pushed?)
    ensures Top(s, a.thread).Some? && Top(s, a.thread).value.Pushed? ==> a.Schedule?
    ensures a.Schedule? ==> Top(s, a.thread).Some? && Top(s, a.thread).value.Pushed?
    ensures a.Push? ==> Top(s, a.thread).Some? && Top(s, a.thread).value.Counted?
  {
  }

  lemma PushersCount(p: set<Thread>, t: Thread, pushed: bool)
    ensures |(p - {t}) + if pushed then {t} else {}| == |p| - (if t in p then 1 else 0) + (if pushed then 1 else 0)
  {
    if t in p { assert p == (p - {t}) + {t}; } else { assert p - {t} == p; }
  }

  lemma StepCover(s: State, js: Jobs, a: Action, g: GroupId)
    requires Allowed(s, js, a) && Apply(s, a).Done? && g < |Apply(s, a).state.groups|
    ensures var x := Apply(s, a).state.groups[g];
            |x.pending| <= x.runners + |Pushers(Apply(s, a).state, g)|
  {
    if g < |s.groups| {
      assert |s.groups[g].pending| <= s.groups[g].runners + |Pushers(s, g)|;
      StepPushers(s, js, a, g);
      OldGroupCover(s, a, g);
    } else {
      NewGroupCounter(s, a, g);
    }
  }

  lemma OldGroupCover(s: State, a: Action, g: GroupId)
    requires Apply(s, a).Done? && g < |s.groups|
    requires |s.groups[g].pending| <= s.groups[g].runners + |Pushers(s, g)|
    requires a.Push? || a.Schedule? ==> Top(s, a.thread).Some?
    requires Pushers(Apply(s, a).state, g) ==
               (Pushers(s, g) - {a.thread}) + if a.Push? && Top(s, a.thread).value.group == g then {a.thread} else {}
    requires a.thread in Pushers(s, g) <==> a.Schedule? && Top(s, a.thread).value.group == g
    ensures g < |Apply(s, a).state.groups|
    ensures var x := Apply(s, a).state.groups[g];
            |x.pending| <= x.runners + |Pushers(Apply(s, a).state, g)|
  {
    QueueAndRunners(s, a, g);
    PushersCount(Pushers(s, g), a.thread, a.Push? && Top(s, a.thread).value.group == g);
  }

  lemma QueueAndRunners(s: State, a: Action, g: GroupId)
    requires Apply(s, a).Done? && g < |s.groups|
    ensures g < |Apply(s, a).state.groups|
    ensures var x, x' := s.groups[g], Apply(s, a).state.groups[g];
            && |x'.pending| <= |x.pending| + (if a.Push? && Top(s, a.thread).value.group == g then 1 else 0)
            && (if a.Schedule? && Top(s, a.thread).value.group == g then x'.runners == x.runners + 1
                else if a.StartRunner? && a.group == g
                then x'.runners == x.runners - 1 && (x'.pending == [] || |x'.pending| == |x.pending| - 1)
                else x'.runners == x.runners)
  {
  }

  // --- all together ---

  lemma StepFrame(s: State, js: Jobs, a: Action, t: Thread, i: nat)
    requires Allowed(s, js, a) && Apply(s, a).Done? && ParentsOlder(Apply(s, a).state.groups)
    requires t in Apply(s, a).state.threads && i < |Of(Apply(s, a).state, t).stack|
    ensures FrameOk(Apply(s, a).state, Record(s, js, a), t, i)
  {
    InvLocal(s, js, a);
    StepStack(s, a);
    if t == a.thread && i == Depth(s, a) { StepNewFrame(s, js, a); } else { StepOldFrame(s, js, a, t, i); }
  }

  lemma StepThread(s: State, js: Jobs, a: Action, t: Thread)
    requires Allowed(s, js, a) && Apply(s, a).Done? && t in Apply(s, a).state.threads
    ensures var th := Apply(s, a).state.threads[t]; th.current == Innermost(th.stack)
  {
    InvLocal(s, js, a);
    StepStack(s, a);
    var s' := Apply(s, a).state;
    assert Of(s', t) == s'.threads[t];
    if t == a.thread { StepCurrent(s, js, a); } else { assert Of(s, t) == s.threads[t]; }
  }

  lemma StepInv(s: State, js: Jobs, a: Action)
    requires Allowed(s, js, a)
    ensures Apply(s, a).Done? && Inv(Apply(s, a).state, Record(s, js, a))
  {
    NoFault(s, js, a);
    var s', js' := Apply(s, a).state, Record(s, js, a);
    StepGroups(s, js, a);
    forall t, i | t in s'.threads && 0 <= i < |Of(s', t).stack| ensures FrameOk(s', js', t, i) {
      StepFrame(s, js, a, t, i);
    }
    forall t | t in s'.threads ensures s'.threads[t].current == Innermost(s'.threads[t].stack) {
      StepThread(s, js, a, t);
    }
    forall g | 0 <= g < |s'.groups| ensures QueueOk(s', js', g) { StepQueue(s, js, a, g); }
    forall j | j in js' ensures JobOk(s', js', j) { StepJob(s, js, a, j); }
    forall g | 0 <= g < |s'.groups| ensures s'.groups[g].activeJobs == |Unsettled(js', g)| { StepCount(s, js, a, g); }
    forall g | 0 <= g < |s'.groups|
      ensures |s'.groups[g].pending| <= s'.groups[g].runners + |Pushers(s', g)| { StepCover(s, js, a, g); }
  }

  // ---------------------------------------------------------------------------------------------------------
  // Every run
  // ---------------------------------------------------------------------------------------------------------

  datatype Progress = Crashed | Alive(state: State, jobs: Jobs)

  /** One scheduled action. What the program order does not allow changes nothing, and neither does submitting a job
      twice: a job is owned by the one that submits it. */
  ghost function Advance(p: Progress, a: Action): (r: Progress)
  {
    if p.Crashed? || (a.Submit? && a.job in p.jobs) then p
    else
      match Apply(p.state, a)
      case Blocked => p
      case Fault => Crashed
      case Done(s) => Alive(s, Record(p.state, p.jobs, a))
  }

  ghost function Run(schedule: seq<Action>): (r: Progress)
  {
    if schedule == [] then Alive(State([], map[]), map[])
    else Advance(Run(schedule[..|schedule| - 1]), schedule[|schedule| - 1])
  }

  lemma {:induction false} RunInv(schedule: seq<Action>)
    ensures Run(schedule).Alive? && Inv(Run(schedule).state, Run(schedule).jobs)
  {
    if schedule != [] {
      var before, a := schedule[..|schedule| - 1], schedule[|schedule| - 1];
      RunInv(before);
      var r := Run(before);
      if Allowed(r.state, r.jobs, a) { StepInv(r.state, r.jobs, a); }
    }
  }

  datatype Stage = NotQueued | Queued | Taken | Dropped | Over

  /** Where an unsettled job is on its way. */
  ghost function StageOf(s: State, job: Job): (r: Stage)
  {
    match job.place
    case InQueue => Queued
    case Settled => Over
    case InFrame(t, i) =>
      if i >= |Of(s, t).stack| then Over
      else if Of(s, t).stack[i].Counted? then NotQueued
      else if Of(s, t).stack[i].Dropping? then Dropped
      else Taken
  }

  ghost function Stages(s: State, js: Jobs, g: GroupId): (r: map<JobId, Stage>)
  {
    map j | j in js && js[j].group == g :: StageOf(s, js[j])
  }

  ghost function InStage(m: map<JobId, Stage>, stage: Stage): (r: set<JobId>)
  {
    set j | j in m && m[j] == stage
  }

  ghost function At(s: State, js: Jobs, g: GroupId, stage: Stage): (r: set<JobId>)
  {
    InStage(Stages(s, js, g), stage)
  }

  lemma StagesPartition(m: map<JobId, Stage>, u: set<JobId>)
    requires forall j :: j in u <==> j in m && m[j] != Over
    ensures |u| == |InStage(m, NotQueued)| + |InStage(m, Queued)| + |InStage(m, Taken)| + |InStage(m, Dropped)|
  {
    var n, q, k, d := InStage(m, NotQueued), InStage(m, Queued), InStage(m, Taken), InStage(m, Dropped);
    var one, two := n + q, n + q + k;
    assert u == two + d;
    Joined(n, q);
    Joined(one, k);
    Joined(two, d);
  }

  lemma Joined(a: set<JobId>, b: set<JobId>)
    requires a !! b
    ensures |a + b| == |a| + |b|
  {
  }

  lemma QueuedStage(s: State, js: Jobs, g: GroupId)
    requires Inv(s, js) && g < |s.groups|
    ensures |At(s, js, g, Queued)| == |s.groups[g].pending|
  {
    assert QueueOk(s, js, g);
    var q := At(s, js, g, Queued);
    forall j | j in q ensures j in s.groups[g].pending { assert JobOk(s, js, j); }
    assert q == Members(s.groups[g].pending);
    MembersCount(s.groups[g].pending);
  }

  lemma UnsettledStage(s: State, js: Jobs, j: JobId)
    requires Inv(s, js) && j in js
    ensures js[j].place.Settled? <==> StageOf(s, js[j]) == Over
  {
    assert JobOk(s, js, j);
  }

  /** Job accounting, in every interleaving: the counter never underflows and equals the jobs counted but not queued,
      plus pending, plus taken but not settled, plus dropped but not subtracted. */
  lemma JobAccounting(schedule: seq<Action>, g: GroupId)
    requires Run(schedule).Alive? ==> g < |Run(schedule).state.groups|
    ensures var r := Run(schedule);
            && r.Alive?
            && r.state.groups[g].activeJobs ==
                 |At(r.state, r.jobs, g, NotQueued)| + |r.state.groups[g].pending|
                 + |At(r.state, r.jobs, g, Taken)| + |At(r.state, r.jobs, g, Dropped)|
  {
    RunInv(schedule);
    var r := Run(schedule);
    var m := Stages(r.state, r.jobs, g);
    forall j ensures j in Unsettled(r.jobs, g) <==> j in m && m[j] != Over {
      if j in r.jobs { UnsettledStage(r.state, r.jobs, j); }
    }
    StagesPartition(m, Unsettled(r.jobs, g));
    QueuedStage(r.state, r.jobs, g);
  }

  /** Runners in the pool, with those about to be handed to it, cover the pending jobs of every group. */
  lemma RunnersCoverPending(schedule: seq<Action>, g: GroupId)
    ensures var r := Run(schedule);
            r.Alive? && (g < |r.state.groups| ==>
                           |r.state.groups[g].pending| <= r.state.groups[g].runners + |Pushers(r.state, g)|)
  {
    RunInv(schedule);
  }

  /** When Wait returns, every job ever counted for its group has settled. */
  lemma WaitSawAllSettled(schedule: seq<Action>, t: Thread, j: JobId)
    ensures var r := Run(schedule);
            && r.Alive?
            && (Apply(r.state, WaitReturn(t)).Done? ==>
                  j in r.jobs && r.jobs[j].group == Top(r.state, t).value.group ==> r.jobs[j].settlements == 1)
  {
    RunInv(schedule);
    var r := Run(schedule);
    if Apply(r.state, WaitReturn(t)).Done? && j in r.jobs && r.jobs[j].group == Top(r.state, t).value.group {
      var g := Top(r.state, t).value.group;
      assert r.state.groups[g].activeJobs == |Unsettled(r.jobs, g)|;
      assert j !in Unsettled(r.jobs, g);
      assert JobOk(r.state, r.jobs, j);
    }
  }

  // ---------------------------------------------------------------------------------------------------------
  // The cancellation cascade
  // ---------------------------------------------------------------------------------------------------------

  /** In every run a thread's tCurrent is the group of the innermost job body on it; a group created there gets
      exactly that parent; and parents are older than their children, so the walk up the chain ends. */
  lemma CurrentIsInnermost(schedule: seq<Action>, t: Thread)
    ensures var r := Run(schedule);
            && r.Alive? && ParentsOlder(r.state.groups)
            && Of(r.state, t).current == Innermost(Of(r.state, t).stack)
            && (Apply(r.state, NewGroup(t)).Done? ==>
                  var gs := Apply(r.state, NewGroup(t)).state.groups;
                  |gs| == |r.state.groups| + 1 && gs[|gs| - 1].parent == Innermost(Of(r.state, t).stack))
  {
    RunInv(schedule);
    CurrentExists(Run(schedule).state, Run(schedule).jobs, t);
  }

  /** A body starts only if, when its cancellation check began, neither its group nor any ancestor was cancelled -
      although the check reads the flags of the chain one at a time. */
  lemma StartedWasNotDoomed(schedule: seq<Action>, j: JobId)
    ensures var r := Run(schedule);
            r.Alive? && (j in r.jobs && r.jobs[j].starts > 0 ==> r.jobs[j].checked && !r.jobs[j].doomed)
  {
    RunInv(schedule);
    if j in Run(schedule).jobs { assert JobOk(Run(schedule).state, Run(schedule).jobs, j); }
  }

  lemma StepKeepsDoom(s: State, js: Jobs, a: Action, g: GroupId, j: JobId)
    requires Allowed(s, js, a) && Apply(s, a).Done? && g < |s.groups| && IsCancelled(s.groups, g)
    requires j in js ==> js[j].group == g && (js[j].checked ==> js[j].doomed)
    requires a.Submit? && a.job == j ==> a.group == g
    ensures ParentsOlder(Apply(s, a).state.groups) && g < |Apply(s, a).state.groups|
    ensures IsCancelled(Apply(s, a).state.groups, g)
    ensures var js' := Record(s, js, a); j in js' ==> js'[j].group == g && (js'[j].checked ==> js'[j].doomed)
  {
    StepGroups(s, js, a);
    CancellationSticks(s.groups, Apply(s, a).state.groups, g);
    StepKeepsDoomed(s, js, a, g, j);
  }

  /** A check that begins in a cancelled group finds the job doomed. */
  lemma StepKeepsDoomed(s: State, js: Jobs, a: Action, g: GroupId, j: JobId)
    requires Allowed(s, js, a) && Apply(s, a).Done? && g < |s.groups| && IsCancelled(s.groups, g)
    requires j in js ==> js[j].group == g && (js[j].checked ==> js[j].doomed)
    requires a.Submit? && a.job == j ==> a.group == g
    ensures var js' := Record(s, js, a); j in js' ==> js'[j].group == g && (js'[j].checked ==> js'[j].doomed)
  {
    RecordIsLocal(s, js, a, j);
    if j in js {
      RecordChecks(s, js, a, j);
      if a.BeginCheck? && Holds(Top(s, a.thread).value, j) {
        InvLocal(s, js, a);
        var stack := Of(s, a.thread).stack;
        assert JobInFrame(s, js, j, stack[|stack| - 1], InFrame(a.thread, |stack| - 1));
      }
    }
  }

  /** Nothing but the beginning of a job's check marks it as checked. */
  lemma RecordChecks(s: State, js: Jobs, a: Action, j: JobId)
    requires Apply(s, a).Done? && ParentsOlder(s.groups) && j in js && (a.Submit? ==> a.job !in js)
    ensures j in Record(s, js, a) && Record(s, js, a)[j].group == js[j].group
    ensures var r := Record(s, js, a)[j];
            if a.BeginCheck? && Holds(Top(s, a.thread).value, j)
            then r.checked && r.doomed == IsCancelled(s.groups, Top(s, a.thread).value.group)
            else r.checked == js[j].checked && r.doomed == js[j].doomed
  {
  }

  /** The group is cancelled, itself or through an ancestor, and job j of it was not checked before that. */
  ghost predicate Doomed(p: Progress, g: GroupId, j: JobId)
  {
    && p.Alive? && ParentsOlder(p.state.groups) && g < |p.state.groups| && IsCancelled(p.state.groups, g)
    && (j in p.jobs ==> p.jobs[j].group == g && (p.jobs[j].checked ==> p.jobs[j].doomed))
  }

  lemma AdvanceKeepsDoom(p: Progress, a: Action, g: GroupId, j: JobId)
    requires p.Alive? && Inv(p.state, p.jobs) && Doomed(p, g, j)
    requires a.Submit? && a.job == j ==> a.group == g
    ensures Doomed(Advance(p, a), g, j)
  {
    if Allowed(p.state, p.jobs, a) {
      NoFault(p.state, p.jobs, a);
      StepKeepsDoom(p.state, p.jobs, a, g, j);
    }
  }

  lemma {:induction false} DoomStays(schedule: seq<Action>, later: seq<Action>, g: GroupId, j: JobId)
    requires Doomed(Run(schedule), g, j)
    requires forall k :: 0 <= k < |later| && later[k].Submit? && later[k].job == j ==> later[k].group == g
    ensures Doomed(Run(schedule + later), g, j)
    decreases |later|
  {
    if later == [] {
      assert schedule + later == schedule;
    } else {
      var front, a := later[..|later| - 1], later[|later| - 1];
      DoomStays(schedule, front, g, j);
      assert (schedule + later)[..|schedule + later| - 1] == schedule + front;
      assert (schedule + later)[|schedule + later| - 1] == a;
      RunInv(schedule + front);
      AdvanceKeepsDoom(Run(schedule + front), a, g, j);
    }
  }

  /** Once a group or an ancestor is cancelled, no job of it whose check comes later ever starts, for the rest of the
      run: `later` is any continuation of `schedule`. */
  lemma CancelledNeverStarts(schedule: seq<Action>, later: seq<Action>, g: GroupId, j: JobId)
    requires var r := Run(schedule);
             r.Alive? && ParentsOlder(r.state.groups) && g < |r.state.groups| && IsCancelled(r.state.groups, g)
             && (j in r.jobs ==> r.jobs[j].group == g && !r.jobs[j].checked)
    requires forall k :: 0 <= k < |later| && later[k].Submit? && later[k].job == j ==> later[k].group == g
    ensures var r := Run(schedule + later);
            r.Alive? && (j in r.jobs ==> r.jobs[j].starts == 0)
  {
    DoomStays(schedule, later, g, j);
    StartedWasNotDoomed(schedule + later, j);
  }
}
