/**
 * The thread pool: the order in which work is handed out, the condition
 * variable the idle workers sleep on, and the drain at termination, as a
 * machine of steps.
 *
 * What happens under the queue's mutex is one step. Notifying comes after the
 * mutex is released and is therefore a step of its own; a sleeping worker may
 * also wake for no reason.
 */
module ThreadPool {
  import opened Wrappers

  /** Priorities by their number: High is 0, Normal is 1, Low is 2. */
  datatype Item = Item(priority: nat, sequence: nat)

  /** The comparison of the priority queue, which pops the greatest item. */
  predicate Less(a: Item, b: Item) {
    if a.priority != b.priority then a.priority > b.priority else a.sequence > b.sequence
  }

  datatype Worker =
    | Awake                  // about to take the mutex
    | Asleep                 // waiting on the condition
    | Running(item: Item)
    | Exited

  datatype Pool = Pool(
    queue: seq<Item>,
    nextSequence: nat,
    shouldTerminate: bool,
    workers: seq<Worker>,
    notifyOwed: nat,         // calls of Execute between the unlock and notify_one
    broadcastOwed: nat)      // calls of Terminate between the unlock and notify_all

  datatype Action =
    | Execute(caller: Option<nat>, work: bool, priority: nat)  // by a running worker, or from outside
    | NotifyOne(worker: nat)
    | NotifyNobody
    | Terminate
    | NotifyAll
    | SpuriousWake(worker: nat)
    | Acquire(worker: nat)
    | Finish(worker: nat)

  function Start(numThreads: nat): Pool {
    Pool([], 0, false, seq(numThreads, _ => Awake), 0, 0)
  }

  predicate IsWorker(s: Pool, i: nat, w: Worker) {
    i < |s.workers| && s.workers[i] == w
  }

  predicate IsRunning(s: Pool, i: nat) {
    i < |s.workers| && s.workers[i].Running?
  }

  predicate Enabled(s: Pool, a: Action) {
    match a
    case Execute(caller, _, _) => caller.Some? ==> IsRunning(s, caller.value)
    case NotifyOne(i) => s.notifyOwed > 0 && IsWorker(s, i, Asleep)
    case NotifyNobody => s.notifyOwed > 0 && Asleep !in s.workers
    case Terminate => true
    case NotifyAll => s.broadcastOwed > 0
    case SpuriousWake(i) => IsWorker(s, i, Asleep)
    case Acquire(i) => IsWorker(s, i, Awake)
    case Finish(i) => IsRunning(s, i)
  }

  /** The position of the greatest item. */
  function Top(queue: seq<Item>): (k: nat)
    requires queue != []
    ensures k < |queue|
    ensures forall i :: 0 <= i < |queue| ==> !Less(queue[k], queue[i])
  {
    if |queue| == 1 then 0
    else
      var n := |queue| - 1;
      var k := Top(queue[..n]);
      assert forall i :: 0 <= i < n ==> queue[i] == queue[..n][i];
      if Less(queue[k], queue[n]) then n else k
  }

  function Pop(queue: seq<Item>): seq<Item>
    requires queue != []
  {
    var k := Top(queue);
    queue[..k] + queue[k + 1..]
  }

  function WakeAll(workers: seq<Worker>): (r: seq<Worker>)
    ensures |r| == |workers|
    ensures forall i :: 0 <= i < |r| ==> r[i] == if workers[i].Asleep? then Awake else workers[i]
  {
    seq(|workers|, i requires 0 <= i < |workers| => if workers[i].Asleep? then Awake else workers[i])
  }

  /** A worker with the mutex: sleep, leave, or take the greatest item. */
  function Turn(s: Pool, i: nat): Pool
    requires IsWorker(s, i, Awake)
  {
    if !s.shouldTerminate && s.queue == [] then s.(workers := s.workers[i := Asleep])
    else if s.shouldTerminate && s.queue == [] then s.(workers := s.workers[i := Exited])
    else s.(queue := Pop(s.queue), workers := s.workers[i := Running(s.queue[Top(s.queue)])])
  }

  function Apply(s: Pool, a: Action): (r: Pool)
    requires Enabled(s, a)
    ensures |r.workers| == |s.workers|
  {
    match a
    case Execute(_, work, priority) =>
      if work then
        s.(queue := s.queue + [Item(priority, s.nextSequence)],
           nextSequence := s.nextSequence + 1,
           notifyOwed := s.notifyOwed + 1)
      else s
    case NotifyOne(i) => s.(workers := s.workers[i := Awake], notifyOwed := s.notifyOwed - 1)
    case NotifyNobody => s.(notifyOwed := s.notifyOwed - 1)
    case Terminate => s.(shouldTerminate := true, broadcastOwed := s.broadcastOwed + 1)
    case NotifyAll => s.(workers := WakeAll(s.workers), broadcastOwed := s.broadcastOwed - 1)
    case SpuriousWake(i) => s.(workers := s.workers[i := Awake])
    case Acquire(i) => Turn(s, i)
    case Finish(i) => s.(workers := s.workers[i := Awake])
  }

  /** The items that workers run afterwards and did not run before. */
  function Begun(before: seq<Worker>, after: seq<Worker>): seq<Item>
    requires |before| == |after|
  {
    if after == [] then []
    else
      var n := |after| - 1;
      Begun(before[..n], after[..n]) + if after[n].Running? && after[n] != before[n] then [after[n].item] else []
  }

  /** What the step hands out: the items that workers begin to run. */
  function HandedOut(s: Pool, a: Action): seq<Item>
    requires Enabled(s, a)
  {
    Begun(s.workers, Apply(s, a).workers)
  }

  function Accepted(s: Pool, a: Action): seq<Item> {
    if a.Execute? && a.work then [Item(a.priority, s.nextSequence)] else []
  }

  /** A pool with all it was given and all that its workers began to run, each in order. */
  datatype Log = Log(pool: Pool, accepted: seq<Item>, handed: seq<Item>)

  function Extend(l: Log, a: Action): Log
    requires Enabled(l.pool, a)
  {
    Log(Apply(l.pool, a), l.accepted + Accepted(l.pool, a), l.handed + HandedOut(l.pool, a))
  }

  /** A run of steps, or nothing if one of them was not possible. */
  function Run(numThreads: nat, run: seq<Action>): Option<Log> {
    if run == [] then Some(Log(Start(numThreads), [], []))
    else
      var before, a := Run(numThreads, run[..|run| - 1]), run[|run| - 1];
      if before.None? || !Enabled(before.value.pool, a) then None else Some(Extend(before.value, a))
  }

  // ------------------------------------------------------ the hand-out order

  /** `Less` is a strict total order on items with different sequence numbers. */
  lemma OrderIsStrictTotal(a: Item, b: Item, c: Item)
    ensures !Less(a, a)
    ensures Less(a, b) && Less(b, c) ==> Less(a, c)
    ensures a.sequence != b.sequence ==> (Less(a, b) <==> !Less(b, a))
  {
  }

  /** Only a higher priority excuses handing out the later of two items first. */
  ghost predicate Fair(first: Item, second: Item) {
    second.sequence < first.sequence ==> first.priority < second.priority
  }

  /** Sequence numbers count the accepted items, and each of these is queued or handed out, exactly once. */
  ghost predicate EachOnce(l: Log) {
    && |l.accepted| == l.pool.nextSequence
    && (forall n :: 0 <= n < |l.accepted| ==> l.accepted[n].sequence == n)
    && multiset(l.accepted) == multiset(l.pool.queue) + multiset(l.handed)
  }

  ghost predicate FairOrder(l: Log) {
    FairLists(l.handed, l.pool.queue)
  }

  ghost predicate FairLists(handed: seq<Item>, queue: seq<Item>) {
    && (forall i, j :: 0 <= i < j < |handed| ==> Fair(handed[i], handed[j]))
    && (forall h, q :: h in handed && q in queue ==> Fair(h, q))
  }

  lemma PopTakesTop(queue: seq<Item>)
    requires queue != []
    ensures multiset(queue) == multiset(Pop(queue)) + multiset{queue[Top(queue)]}
    ensures forall q :: q in Pop(queue) ==> q in queue
  {
    var k := Top(queue);
    assert queue == queue[..k] + [queue[k]] + queue[k + 1..];
  }

  lemma {:induction false} BegunAt(workers: seq<Worker>, i: nat, x: Worker)
    requires i < |workers|
    ensures Begun(workers, workers[i := x]) == if x.Running? && x != workers[i] then [x.item] else []
  {
    var n := |workers| - 1;
    if i < n {
      BegunAt(workers[..n], i, x);
      assert workers[i := x][..n] == workers[..n][i := x];
    } else {
      assert workers[i := x][..n] == workers[..n];
      NoneBegun(workers[..n], workers[..n]);
    }
  }

  lemma {:induction false} NoneBegun(before: seq<Worker>, after: seq<Worker>)
    requires |before| == |after| && forall i :: 0 <= i < |after| && after[i].Running? ==> after[i] == before[i]
    ensures Begun(before, after) == []
  {
    if after != [] { NoneBegun(before[..|after| - 1], after[..|after| - 1]); }
  }

  /** The one step that makes a worker run something is taking the mutex with work queued. */
  lemma BegunByStep(s: Pool, a: Action)
    requires Enabled(s, a)
    ensures HandedOut(s, a) == if a.Acquire? && s.queue != [] then [s.queue[Top(s.queue)]] else []
  {
    if a.Acquire? {
      BegunAt(s.workers, a.worker, Apply(s, a).workers[a.worker]);
    } else {
      NoneBegun(s.workers, Apply(s, a).workers);
    }
  }

  lemma EachOnceStep(l: Log, a: Action)
    requires EachOnce(l) && Enabled(l.pool, a)
    ensures EachOnce(Extend(l, a))
  {
    BegunByStep(l.pool, a);
    if a.Execute? && a.work {
      AcceptedOnce(l, a);
    } else if a.Acquire? && l.pool.queue != [] {
      HandedOnce(l, a);
    } else {
      assert l.accepted + [] == l.accepted && l.handed + [] == l.handed;
    }
  }

  lemma AcceptedOnce(l: Log, a: Action)
    requires EachOnce(l) && Enabled(l.pool, a) && a.Execute? && a.work
    ensures EachOnce(Extend(l, a))
  {
    BegunByStep(l.pool, a);
    assert l.handed + [] == l.handed;
  }

  lemma HandedOnce(l: Log, a: Action)
    requires EachOnce(l) && Enabled(l.pool, a) && a.Acquire? && l.pool.queue != []
    ensures EachOnce(Extend(l, a))
  {
    BegunByStep(l.pool, a);
    TopMoves(multiset(l.accepted), l.pool.queue, l.handed);
    assert l.accepted + [] == l.accepted;
  }

  lemma TopMoves(accepted: multiset<Item>, queue: seq<Item>, handed: seq<Item>)
    requires queue != [] && accepted == multiset(queue) + multiset(handed)
    ensures accepted == multiset(Pop(queue)) + multiset(handed + [queue[Top(queue)]])
  {
    PopTakesTop(queue);
  }

  lemma HandedAreOld(l: Log, h: Item)
    requires EachOnce(l) && h in l.handed
    ensures h.sequence < l.pool.nextSequence
  {
    assert h in multiset(l.handed) && h in multiset(l.accepted);
    assert h in l.accepted;
  }

  lemma FairStep(l: Log, a: Action)
    requires EachOnce(l) && FairOrder(l) && Enabled(l.pool, a)
    ensures FairOrder(Extend(l, a))
  {
    BegunByStep(l.pool, a);
    if a.Acquire? && l.pool.queue != [] {
      FairTaken(l.handed, l.pool.queue);
    } else {
      assert l.handed + [] == l.handed;
      if a.Execute? && a.work {
        forall h | h in l.handed ensures h.sequence < l.pool.nextSequence { HandedAreOld(l, h); }
        FairAdded(l.handed, l.pool.queue, Item(a.priority, l.pool.nextSequence));
      }
    }
  }

  lemma FairTaken(handed: seq<Item>, queue: seq<Item>)
    requires FairLists(handed, queue) && queue != []
    ensures FairLists(handed + [queue[Top(queue)]], Pop(queue))
  {
    PopTakesTop(queue);
    var top := queue[Top(queue)];
    assert top in queue && forall q :: q in queue ==> Fair(top, q);
  }

  lemma FairAdded(handed: seq<Item>, queue: seq<Item>, item: Item)
    requires FairLists(handed, queue) && forall h :: h in handed ==> h.sequence < item.sequence
    ensures FairLists(handed, queue + [item])
  {
  }

  // ------------------------------------------------------------- no lost wake

  function Number(s: Pool, w: Worker): nat { multiset(s.workers)[w] }

  /**
   * While a worker sleeps, every queued item has a notification still to come
   * or a worker that is awake; and termination leaves nobody asleep once its
   * notification is out.
   */
  ghost predicate WakesCover(s: Pool) {
    && (Asleep in s.workers ==> |s.queue| <= s.notifyOwed + Number(s, Awake))
    && (Asleep in s.workers && s.shouldTerminate ==> s.broadcastOwed > 0)
    && (Exited in s.workers ==> s.shouldTerminate)
  }

  lemma WakesCoverStep(s: Pool, a: Action)
    requires WakesCover(s) && Enabled(s, a)
    ensures WakesCover(Apply(s, a))
  {
    match a
    case NotifyOne(i) => WakeCovers(s, i);
    case SpuriousWake(i) => WakeCovers(s, i);
    case Finish(i) => WakeCovers(s, i);
    case Acquire(i) => TurnCovers(s, i);
    case _ =>
  }

  /** One more worker is awake. */
  lemma WakeCovers(s: Pool, i: nat)
    requires i < |s.workers| && s.workers[i] != Awake
    ensures var r := s.workers[i := Awake];
            && multiset(r)[Awake] == multiset(s.workers)[Awake] + 1
            && (Asleep in r ==> Asleep in s.workers) && (Exited in r ==> Exited in s.workers)
  {
    WorkerChanges(s.workers, i, Awake, Awake);
    WorkerChanges(s.workers, i, Awake, Asleep);
    WorkerChanges(s.workers, i, Awake, Exited);
  }

  /** A worker that takes its turn is awake no more. */
  lemma TurnCovers(s: Pool, i: nat)
    requires WakesCover(s) && IsWorker(s, i, Awake)
    ensures WakesCover(Turn(s, i))
  {
    var x := Turn(s, i).workers[i];
    assert Turn(s, i).workers == s.workers[i := x];
    WorkerChanges(s.workers, i, x, Awake);
    WorkerChanges(s.workers, i, x, Asleep);
    WorkerChanges(s.workers, i, x, Exited);
  }

  lemma WorkerChanges(workers: seq<Worker>, i: nat, x: Worker, w: Worker)
    requires i < |workers|
    ensures var r := workers[i := x];
            && multiset(r)[w] == multiset(workers)[w] - (if workers[i] == w then 1 else 0) + (if x == w then 1 else 0)
            && (w in r ==> w in workers || w == x)
  {
  }

  // ------------------------------------------------------------------ draining

  predicate AllExited(s: Pool) {
    forall i :: 0 <= i < |s.workers| ==> s.workers[i].Exited?
  }

  /** Work comes while a worker is still there to take it. */
  predicate InTime(s: Pool, a: Action) {
    a.Execute? && a.work ==> !AllExited(s)
  }

  /** Once termination has started, only running work submits. */
  predicate Polite(s: Pool, a: Action) {
    a.Execute? && a.work && s.shouldTerminate ==> a.caller.Some?
  }

  /** Every step of the run, in the state it was made in, satisfies `p`. */
  predicate Throughout(numThreads: nat, run: seq<Action>, p: (Pool, Action) -> bool) {
    run == [] ||
    (var before := Run(numThreads, run[..|run| - 1]);
     Throughout(numThreads, run[..|run| - 1], p) && (before.Some? ==> p(before.value.pool, run[|run| - 1])))
  }

  lemma DrainStep(s: Pool, a: Action)
    requires Enabled(s, a) && InTime(s, a)
    requires AllExited(s) ==> s.queue == []
    ensures AllExited(Apply(s, a)) ==> Apply(s, a).queue == []
  {
    var s' := Apply(s, a);
    if AllExited(s') {
      if a.NotifyOne? || a.SpuriousWake? || a.Acquire? || a.Finish? {
        assert s'.workers[a.worker].Exited?;
      } else {
        assert forall i :: 0 <= i < |s.workers| ==> s'.workers[i].Exited? ==> s.workers[i].Exited?;
        assert AllExited(s);
      }
    }
  }

  /** With all workers gone nothing is ever handed out again. */
  lemma ExitedStays(s: Pool, a: Action)
    requires AllExited(s) && Enabled(s, a)
    ensures HandedOut(s, a) == [] && AllExited(Apply(s, a)) && |Apply(s, a).queue| >= |s.queue|
  {
    NoneBegun(s.workers, Apply(s, a).workers);
  }

  // ------------------------------------------------------------- whole runs

  ghost predicate Keeps(numThreads: nat, l: Log) {
    EachOnce(l) && FairOrder(l) && WakesCover(l.pool) && |l.pool.workers| == numThreads
  }

  lemma StepKeeps(numThreads: nat, l: Log, a: Action)
    requires Keeps(numThreads, l) && Enabled(l.pool, a)
    ensures Keeps(numThreads, Extend(l, a))
  {
    EachOnceStep(l, a);
    FairStep(l, a);
    WakesCoverStep(l.pool, a);
  }

  /** What every run keeps, whoever calls what and when. */
  lemma {:induction false} RunKeeps(numThreads: nat, run: seq<Action>)
    requires Run(numThreads, run).Some?
    ensures Keeps(numThreads, Run(numThreads, run).value)
  {
    if run != [] {
      RunKeeps(numThreads, run[..|run| - 1]);
      StepKeeps(numThreads, Run(numThreads, run[..|run| - 1]).value, run[|run| - 1]);
    }
  }

  /** A worker that takes the mutex with work queued runs one of the queued items, which no other outranks, and that one
      alone leaves the queue. */
  lemma RunsTheBest(s: Pool, i: nat) returns (h: Item)
    requires IsWorker(s, i, Awake) && s.queue != []
    ensures h in s.queue
    ensures forall q :: q in s.queue ==> h.priority < q.priority || (h.priority == q.priority && h.sequence <= q.sequence)
    ensures var s' := Apply(s, Acquire(i));
            && s'.workers == s.workers[i := Running(h)] && multiset(s'.queue) == multiset(s.queue) - multiset{h}
            && s' == s.(workers := s'.workers, queue := s'.queue)
  {
    h := s.queue[Top(s.queue)];
    PopTakesTop(s.queue);
    assert forall q :: q in s.queue ==> !Less(h, q);
  }

  /** No worker sleeps through work: with nothing left to notify, a sleeper means an awake worker per queued item. */
  lemma NoLostWakeup(numThreads: nat, run: seq<Action>)
    requires Run(numThreads, run).Some?
    ensures var s := Run(numThreads, run).value.pool;
            s.notifyOwed == 0 && Asleep in s.workers ==> |s.queue| <= Number(s, Awake)
    ensures var s := Run(numThreads, run).value.pool;
            s.shouldTerminate && s.broadcastOwed == 0 ==> Asleep !in s.workers
  {
    RunKeeps(numThreads, run);
  }

  /** Within one priority, items leave in the order in which they were accepted. */
  lemma FifoWithinPriority(numThreads: nat, run: seq<Action>, i: nat, j: nat)
    requires Run(numThreads, run).Some?
    requires i < j < |Run(numThreads, run).value.handed|
    ensures var h := Run(numThreads, run).value.handed;
            h[i].priority == h[j].priority ==> h[i].sequence < h[j].sequence
  {
    RunKeeps(numThreads, run);
    HandedDistinct(Run(numThreads, run).value, i, j);
  }

  lemma HandedDistinct(l: Log, i: nat, j: nat)
    requires EachOnce(l) && i < j < |l.handed|
    ensures l.handed[i].sequence != l.handed[j].sequence
  {
    if l.handed[i].sequence == l.handed[j].sequence {
      var h := l.handed[i];
      HandedAreOld(l, h);
      assert h in multiset(l.accepted) && l.handed[j] in multiset(l.accepted);
      assert l.handed[j] == h == l.accepted[h.sequence];
      TwiceInSeq(l.handed, i, j);
      OnceInSeq(l.accepted, h.sequence);
    }
  }

  lemma TwiceInSeq(s: seq<Item>, i: nat, j: nat)
    requires i < j < |s| && s[i] == s[j]
    ensures multiset(s)[s[i]] >= 2
  {
    assert s == s[..j] + s[j..];
    assert s[i] in s[..j] && s[j] in s[j..];
  }

  lemma OnceInSeq(s: seq<Item>, k: nat)
    requires k < |s| && forall n :: 0 <= n < |s| ==> s[n].sequence == n
    ensures multiset(s)[s[k]] == 1
  {
    assert s == s[..k] + [s[k]] + s[k + 1..];
    assert s[k] !in s[..k] && s[k] !in s[k + 1..];
  }

  /**
   * Once every worker has left, the queue is empty, and so every accepted item
   * has been handed out, exactly when no work came after the last of them.
   */
  lemma {:induction false} DrainedExactlyWhenInTime(numThreads: nat, run: seq<Action>)
    requires numThreads > 0
    requires Run(numThreads, run).Some?
    requires AllExited(Run(numThreads, run).value.pool)
    ensures Throughout(numThreads, run, InTime) <==> Run(numThreads, run).value.pool.queue == []
    ensures var l := Run(numThreads, run).value;
            Throughout(numThreads, run, InTime) <==> multiset(l.accepted) == multiset(l.handed)
  {
    Draining(numThreads, run);
    RunKeeps(numThreads, run);
    AllHandedOut(Run(numThreads, run).value);
  }

  lemma {:induction false} Draining(numThreads: nat, run: seq<Action>)
    requires numThreads > 0
    requires Run(numThreads, run).Some?
    ensures var s := Run(numThreads, run).value.pool;
            if Throughout(numThreads, run, InTime) then AllExited(s) ==> s.queue == []
            else AllExited(s) && s.queue != []
  {
    if run != [] {
      var before, a := Run(numThreads, run[..|run| - 1]).value.pool, run[|run| - 1];
      Draining(numThreads, run[..|run| - 1]);
      if Throughout(numThreads, run, InTime) {
        DrainStep(before, a);
      } else if AllExited(before) {
        ExitedStays(before, a);
      }
    }
  }

  /** The only worker leaves, and then work comes: it is accepted, and by ExitedStays never handed out. */
  lemma LateWorkIsLost(run: seq<Action>)
    requires run == [Terminate, Acquire(0), Execute(None, true, 1)]
    ensures var r := Run(1, run);
            r.Some? && AllExited(r.value.pool) && r.value.pool.queue == [Item(1, 0)] && r.value.handed == []
  {
    assert run[..0] == [] && run[..3] == run;
    RunPrefix(1, run, 0);
    var l1 := Run(1, run[..1]).value;
    LateStep(Log(Start(1), [], []), Terminate);
    RunPrefix(1, run, 1);
    LateStep(l1, Acquire(0));
    assert Run(1, run[..2]).value.pool.workers == [Exited];
    RunPrefix(1, run, 2);
    LateStep(Run(1, run[..2]).value, Execute(None, true, 1));
  }

  lemma LateStep(l: Log, a: Action)
    requires Enabled(l.pool, a) && (a.Acquire? ==> l.pool.queue == [])
    ensures Extend(l, a).handed == l.handed
  {
    BegunByStep(l.pool, a);
  }

  /** If only running work submits after termination has begun, all of it is in time. */
  lemma {:induction false} PoliteIsInTime(numThreads: nat, run: seq<Action>)
    requires numThreads > 0
    requires Run(numThreads, run).Some? && Throughout(numThreads, run, Polite)
    ensures Throughout(numThreads, run, InTime)
  {
    if run != [] {
      var l := Run(numThreads, run[..|run| - 1]).value;
      PoliteIsInTime(numThreads, run[..|run| - 1]);
      RunKeeps(numThreads, run[..|run| - 1]);
      assert l.pool.workers[0] in l.pool.workers;
    }
  }

  /** Termination does not get stuck: until all have left, a worker can move or the notification is still to come. */
  lemma TerminationMoves(numThreads: nat, run: seq<Action>)
    requires Run(numThreads, run).Some? && Run(numThreads, run).value.pool.shouldTerminate
    ensures var s := Run(numThreads, run).value.pool;
            AllExited(s) || s.broadcastOwed > 0 || exists i: nat :: IsWorker(s, i, Awake) || IsRunning(s, i)
  {
    RunKeeps(numThreads, run);
    var s := Run(numThreads, run).value.pool;
    if !AllExited(s) {
      var i: nat :| i < |s.workers| && !s.workers[i].Exited?;
      assert s.workers[i] != Asleep ==> IsWorker(s, i, Awake) || IsRunning(s, i);
    }
  }

  // ------------------------------------------------------- termination ends

  predicate WorkerStep(a: Action) { a.Acquire? || a.Finish? }

  function WorkerWeight(w: Worker): nat { if w.Running? then 2 else if w.Awake? then 1 else 0 }

  function WorkersWeight(workers: seq<Worker>): nat {
    if workers == [] then 0
    else WorkersWeight(workers[..|workers| - 1]) + WorkerWeight(workers[|workers| - 1])
  }

  /** What is left for the workers to do: an item is taken, run and finished. */
  function Weight(s: Pool): nat { 3 * |s.queue| + WorkersWeight(s.workers) }

  lemma {:induction false} WorkersWeightChange(workers: seq<Worker>, i: nat, x: Worker)
    requires i < |workers|
    ensures WorkersWeight(workers[i := x]) == WorkersWeight(workers) - WorkerWeight(workers[i]) + WorkerWeight(x)
  {
    var n := |workers| - 1;
    if i < n {
      WorkersWeightChange(workers[..n], i, x);
      assert workers[i := x][..n] == workers[..n][i := x];
    } else {
      assert workers[i := x][..n] == workers[..n];
    }
  }

  /** Once termination has begun, every step of a worker leaves less to do. */
  lemma WorkerStepLowers(s: Pool, a: Action)
    requires Enabled(s, a) && WorkerStep(a) && s.shouldTerminate
    ensures Weight(Apply(s, a)) < Weight(s)
  {
    WorkersWeightChange(s.workers, a.worker, Apply(s, a).workers[a.worker]);
  }

  /** Termination has begun, its notification is out, and nobody left work behind. */
  ghost predicate Ending(s: Pool) {
    s.shouldTerminate && s.broadcastOwed == 0 && (AllExited(s) ==> s.queue == [])
  }

  lemma EndingMove(s: Pool) returns (a: Action)
    requires WakesCover(s) && Ending(s) && !AllExited(s)
    ensures WorkerStep(a) && Enabled(s, a)
  {
    var i: nat :| i < |s.workers| && !s.workers[i].Exited?;
    assert s.workers[i] != Asleep;
    a := if IsRunning(s, i) then Finish(i) else Acquire(i);
  }

  lemma EndingStep(s: Pool, a: Action)
    requires Enabled(s, a) && WorkerStep(a) && WakesCover(s) && Ending(s)
    ensures WakesCover(Apply(s, a)) && Ending(Apply(s, a)) && Weight(Apply(s, a)) < Weight(s)
  {
    WorkerStepLowers(s, a);
    WakesCoverStep(s, a);
    DrainStep(s, a);
  }

  /** The pool after further steps, or nothing if one of them was not possible. */
  function After(s: Pool, rest: seq<Action>): Option<Pool>
    decreases |rest|
  {
    if rest == [] then Some(s) else if Enabled(s, rest[0]) then After(Apply(s, rest[0]), rest[1..]) else None
  }

  lemma RunPrefix(numThreads: nat, run: seq<Action>, k: nat)
    requires k < |run| && Run(numThreads, run[..k]).Some? && Enabled(Run(numThreads, run[..k]).value.pool, run[k])
    ensures Run(numThreads, run[..k + 1]) == Some(Extend(Run(numThreads, run[..k]).value, run[k]))
  {
    assert run[..k + 1][..k] == run[..k];
  }

  lemma {:induction false} RunAfter(numThreads: nat, run: seq<Action>, k: nat)
    requires k <= |run| && Run(numThreads, run[..k]).Some?
    requires After(Run(numThreads, run[..k]).value.pool, run[k..]).Some?
    ensures Run(numThreads, run).Some?
    ensures After(Run(numThreads, run[..k]).value.pool, run[k..]) == Some(Run(numThreads, run).value.pool)
    decreases |run| - k
  {
    if k == |run| {
      assert run[..k] == run;
    } else {
      assert run[k..][0] == run[k] && run[k..][1..] == run[k + 1..];
      RunPrefix(numThreads, run, k);
      RunAfter(numThreads, run, k + 1);
    }
  }

  predicate AllWorkers(rest: seq<Action>) {
    forall k :: 0 <= k < |rest| ==> WorkerStep(rest[k])
  }

  predicate Drained(s: Option<Pool>) {
    s.Some? && AllExited(s.value) && s.value.queue == []
  }

  lemma {:induction false} EndingRest(s: Pool) returns (rest: seq<Action>)
    requires WakesCover(s) && Ending(s)
    ensures AllWorkers(rest) && Drained(After(s, rest))
    decreases Weight(s)
  {
    if AllExited(s) {
      rest := [];
    } else {
      var a := EndingMove(s);
      EndingStep(s, a);
      var later := EndingRest(Apply(s, a));
      rest := [a] + later;
      assert rest[1..] == later;
    }
  }

  /**
   * From a reachable state in which termination has begun and its notification
   * is out, the workers' own steps, finitely many, lead to where all of them
   * have left; and every accepted item has then been handed out, unless work
   * came after the last worker had left.
   */
  lemma TerminationEnds(numThreads: nat, run: seq<Action>) returns (rest: seq<Action>)
    requires Run(numThreads, run).Some?
    requires var s := Run(numThreads, run).value.pool; s.shouldTerminate && s.broadcastOwed == 0
    ensures AllWorkers(rest) && Run(numThreads, run + rest).Some? && AllExited(Run(numThreads, run + rest).value.pool)
    ensures var s, l := Run(numThreads, run).value.pool, Run(numThreads, run + rest).value;
            multiset(l.accepted) == multiset(l.handed) <==> (AllExited(s) ==> s.queue == [])
  {
    var s := Run(numThreads, run).value.pool;
    RunKeeps(numThreads, run);
    if Ending(s) { rest := EndingRest(s); } else { rest := []; }
    assert (run + rest)[..|run|] == run && (run + rest)[|run|..] == rest;
    RunAfter(numThreads, run + rest, |run|);
    RunKeeps(numThreads, run + rest);
    AllHandedOut(Run(numThreads, run + rest).value);
  }

  lemma AllHandedOut(l: Log)
    requires EachOnce(l)
    ensures multiset(l.accepted) == multiset(l.handed) <==> l.pool.queue == []
  {
    assert l.pool.queue != [] ==> l.pool.queue[0] in multiset(l.pool.queue);
  }
}
