/**
 * ParallelFor on top of the job group: its chunks are jobs of a group of its
 * own, and Wait returns once all of them are settled.
 */
module ParallelJobs {
  import opened Wrappers
  import opened JobGroups
  import ParallelFor
  import JobCompletion
  import JobFates

  /** Chunk k is the body of job ids[k]: how often the bodies begun so far visit an index. */
  ghost function Visited(js: Jobs, ids: seq<JobId>, chunks: seq<ParallelFor.Range>, x: int): nat
    requires |ids| == |chunks| && forall k :: 0 <= k < |ids| ==> ids[k] in js
  {
    if ids == [] then 0
    else
      var n := |ids| - 1;
      Visited(js, ids[..n], chunks[..n], x) + (if chunks[n].lo <= x < chunks[n].hi then js[ids[n]].starts else 0)
  }

  lemma {:induction false} VisitedAtMost(js: Jobs, ids: seq<JobId>, chunks: seq<ParallelFor.Range>, x: int)
    requires |ids| == |chunks| && forall k :: 0 <= k < |ids| ==> ids[k] in js && js[ids[k]].starts <= 1
    ensures Visited(js, ids, chunks, x) <= ParallelFor.Visits(chunks, x)
    ensures (forall k :: 0 <= k < |ids| ==> js[ids[k]].starts == 1) ==>
              Visited(js, ids, chunks, x) == ParallelFor.Visits(chunks, x)
  {
    if ids != [] { VisitedAtMost(js, ids[..|ids| - 1], chunks[..|ids| - 1], x); }
  }

  /** The jobs were submitted to group g. */
  ghost predicate JobsOf(js: Jobs, ids: seq<JobId>, g: GroupId)
  {
    forall k :: 0 <= k < |ids| ==> ids[k] in js && js[ids[k]].group == g
  }

  /** No index of a cut range is ever visited twice, in any run; and when Wait returns for the group of the chunks and
      it is not cancelled, each index of the range was visited exactly once and no other one. */
  lemma EachIndexOnce(
    schedule: seq<Action>, t: Thread, ids: seq<JobId>, chunks: seq<ParallelFor.Range>, lo: int, hi: int, x: int)
    requires ParallelFor.Tiles(chunks, lo, hi) && |ids| == |chunks|
    requires Run(schedule).Alive? && Top(Run(schedule).state, t).Some?
    requires JobsOf(Run(schedule).jobs, ids, Top(Run(schedule).state, t).value.group)
    ensures ParentsOlder(Run(schedule).state.groups)
    ensures var r, g := Run(schedule), Top(Run(schedule).state, t).value.group;
            && Visited(r.jobs, ids, chunks, x) <= ParallelFor.In(x, lo, hi)
            && (Apply(r.state, WaitReturn(t)).Done? ==>
                  g < |r.state.groups| && (!IsCancelled(r.state.groups, g) ==>
                    Visited(r.jobs, ids, chunks, x) == ParallelFor.In(x, lo, hi)))
  {
    ParallelFor.TilesVisitOnce(chunks, lo, hi, x);
    RunInv(schedule);
    forall k | 0 <= k < |ids| ensures Run(schedule).jobs[ids[k]].starts <= 1 { JobFates.SettledOnce(schedule, ids[k]); }
    VisitedAtMost(Run(schedule).jobs, ids, chunks, x);
    if Apply(Run(schedule).state, WaitReturn(t)).Done? {
      JobFates.WaitSawAllRun(schedule, t, 0);
      if !IsCancelled(Run(schedule).state.groups, Top(Run(schedule).state, t).value.group) {
        forall k | 0 <= k < |ids| ensures Run(schedule).jobs[ids[k]].starts == 1 {
          JobFates.WaitSawAllRun(schedule, t, ids[k]);
        }
      }
    }
  }

  /** ParallelFor waits for a group made in the same call, whose parent is the thread's current group: such a wait is
      nested, whatever job it is made in. */
  lemma OwnGroupIsNested(schedule: seq<Action>, t: Thread, g: GroupId)
    requires Run(schedule).Alive? && g < |Run(schedule).state.groups|
    requires Run(schedule).state.groups[g].parent == Of(Run(schedule).state, t).current
    ensures JobCompletion.NestedCall(Run(schedule), BeginWait(t, g))
  {
    RunInv(schedule);
  }
}
