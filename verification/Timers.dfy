/**
 * The event loop's timers, and the pass that runs the due ones while their
 * callbacks schedule and cancel timers at will.
 *
 * A callback is given by what it does to the timers: `script(id)` lists the
 * operations of the callback of timer `id`. A timer runs at most once, so one
 * script per pass describes every behaviour its callbacks can have.
 */
module Timers {
  import opened Wrappers

  datatype Timer = Timer(id: nat, when: int)

  /** Ids are shared with the watches, so a new watch also takes one. */
  datatype Operation = Schedule(when: int) | Cancel(id: nat) | TakeId

  type Script = nat -> seq<Operation>

  datatype Timers = Timers(entries: seq<Timer>, nextId: nat) {
    /** No id is used twice, and none that is still to be given out. */
    ghost predicate Valid() {
      && (forall t :: t in entries ==> t.id < nextId)
      && Distinct(entries)
    }

    ghost predicate Has(id: nat) {
      exists t :: t in entries && t.id == id
    }
  }

  ghost predicate Distinct(entries: seq<Timer>) {
    forall i, j :: 0 <= i < j < |entries| ==> entries[i].id != entries[j].id
  }

  predicate IsSooner(a: Timer, b: Timer) {
    a.when < b.when || (a.when == b.when && a.id < b.id)
  }

  function Without(entries: seq<Timer>, id: nat): (r: seq<Timer>)
    ensures forall t :: t in r <==> t in entries && t.id != id
    ensures |r| <= |entries|
  {
    if entries == [] then []
    else
      var front, last := Without(entries[..|entries| - 1], id), entries[|entries| - 1];
      if last.id == id then front else front + [last]
  }

  function Perform(s: Timers, op: Operation): Timers {
    match op
    case Schedule(when) => Timers(s.entries + [Timer(s.nextId, when)], s.nextId + 1)
    case Cancel(id) => Timers(Without(s.entries, id), s.nextId)
    case TakeId => Timers(s.entries, s.nextId + 1)
  }

  function PerformAll(s: Timers, ops: seq<Operation>): Timers {
    if ops == [] then s
    else Perform(PerformAll(s, ops[..|ops| - 1]), ops[|ops| - 1])
  }

  /** Taking timer `t` off and running its callback. */
  function Fire(s: Timers, t: Timer, script: Script): Timers {
    PerformAll(Timers(Without(s.entries, t.id), s.nextId), script(t.id))
  }

  /** Running the callbacks of `ran`, in order, and nothing else. */
  function Replay(s: Timers, ran: seq<Timer>, script: Script): Timers {
    if ran == [] then s
    else Fire(Replay(s, ran[..|ran| - 1], script), ran[|ran| - 1], script)
  }

  // ------------------------------------------------------------ single steps

  lemma {:induction false} WithoutDistinct(entries: seq<Timer>, id: nat)
    requires Distinct(entries)
    ensures Distinct(Without(entries, id))
  {
    if entries != [] {
      var front, last := entries[..|entries| - 1], entries[|entries| - 1];
      WithoutDistinct(front, id);
      var r := Without(front, id);
      forall i | 0 <= i < |r| ensures r[i].id != last.id {
        var k :| 0 <= k < |front| && r[i] == front[k];
        assert front[k] == entries[k];
      }
    }
  }

  /** What operations do to timers that existed before them: only a cancellation removes one. */
  ghost predicate Follows(s: Timers, s': Timers, ops: seq<Operation>) {
    && s'.Valid()
    && s.nextId <= s'.nextId
    && (forall t :: t in s'.entries && t.id < s.nextId ==> t in s.entries && Cancel(t.id) !in ops)
    && (forall t :: t in s.entries && t !in s'.entries ==> Cancel(t.id) in ops)
  }

  lemma PerformValid(s: Timers, op: Operation)
    requires s.Valid()
    ensures Perform(s, op).Valid()
  {
    if op.Cancel? {
      WithoutDistinct(s.entries, op.id);
    }
  }

  lemma {:induction false} PerformAllFollows(s: Timers, ops: seq<Operation>)
    requires s.Valid()
    ensures Follows(s, PerformAll(s, ops), ops)
  {
    if ops != [] {
      var front, op := ops[..|ops| - 1], ops[|ops| - 1];
      PerformAllFollows(s, front);
      PerformValid(PerformAll(s, front), op);
      assert ops == front + [op];
    }
  }

  // ------------------------------------------------------- what is scheduled

  /** How many ids the operations take. */
  function Taken(ops: seq<Operation>): nat {
    if ops == [] then 0 else Taken(ops[..|ops| - 1]) + if ops[|ops| - 1].Cancel? then 0 else 1
  }

  /** Operation k schedules this timer. */
  ghost predicate Schedules(s: Timers, ops: seq<Operation>, k: nat, t: Timer) {
    k < |ops| && ops[k] == Schedule(t.when) && t.id == s.nextId + Taken(ops[..k])
  }

  /** The timers that are new afterwards are those that some operation schedules, with its deadline and the next free id,
      and that no later one cancels. */
  ghost predicate Scheduled(s: Timers, s': Timers, ops: seq<Operation>) {
    && s'.nextId == s.nextId + Taken(ops)
    && (forall t :: t in s'.entries && s.nextId <= t.id ==> exists k: nat :: Schedules(s, ops, k, t))
    && (forall k: nat, t :: Schedules(s, ops, k, t) ==> (t in s'.entries <==> Cancel(t.id) !in ops[k + 1..]))
  }

  lemma {:induction false} PerformAllSchedules(s: Timers, ops: seq<Operation>)
    requires s.Valid()
    ensures Scheduled(s, PerformAll(s, ops), ops)
  {
    if ops != [] {
      var front, op := ops[..|ops| - 1], ops[|ops| - 1];
      PerformAllSchedules(s, front);
      ScheduledNext(s, PerformAll(s, front), front, op);
      assert ops == front + [op];
    }
  }

  lemma ScheduledNext(s: Timers, s': Timers, front: seq<Operation>, op: Operation)
    requires Scheduled(s, s', front)
    ensures Scheduled(s, Perform(s', op), front + [op])
  {
    var ops, n := front + [op], |front|;
    assert ops[..n] == front;
    forall t | t in Perform(s', op).entries && s.nextId <= t.id ensures exists k: nat :: Schedules(s, ops, k, t) {
      if t in s'.entries {
        var k: nat :| Schedules(s, front, k, t);
        SchedulesStill(s, front, op, k, t);
      } else {
        assert Schedules(s, ops, n, t);
      }
    }
    forall k: nat, t | Schedules(s, ops, k, t)
      ensures t in Perform(s', op).entries <==> Cancel(t.id) !in ops[k + 1..] {
      SchedulesStill(s, front, op, k, t);
      if k < n { EarlierStays(s, s', front, k, t, op); }
    }
  }

  lemma SchedulesStill(s: Timers, front: seq<Operation>, op: Operation, k: nat, t: Timer)
    requires k <= |front|
    ensures k < |front| ==> (Schedules(s, front + [op], k, t) <==> Schedules(s, front, k, t))
    ensures (front + [op])[k + 1..] == if k < |front| then front[k + 1..] + [op] else []
  {
    assert (front + [op])[..k] == front[..k];
  }

  lemma EarlierStays(s: Timers, s': Timers, front: seq<Operation>, k: nat, t: Timer, op: Operation)
    requires Schedules(s, front, k, t) && Scheduled(s, s', front)
    ensures t in Perform(s', op).entries <==> Cancel(t.id) !in front[k + 1..] + [op]
  {
    TakenGrows(front, k);
    KeptByLast(s', op, t);
  }

  lemma KeptByLast(s: Timers, op: Operation, t: Timer)
    requires t.id < s.nextId
    ensures t in Perform(s, op).entries <==> t in s.entries && op != Cancel(t.id)
  {
  }

  lemma {:induction false} TakenGrows(ops: seq<Operation>, k: nat)
    requires k < |ops| && !ops[k].Cancel?
    ensures Taken(ops[..k]) < Taken(ops)
  {
    var n := |ops| - 1;
    if k < n {
      assert ops[..n][..k] == ops[..k];
      TakenGrows(ops[..n], k);
    }
  }

  // ---------------------------------------------------------------- the pass

  /** A callback that ran cancelled timer `id`. */
  ghost predicate CancelledBy(ran: seq<Timer>, script: Script, id: nat) {
    exists i :: 0 <= i < |ran| && Cancel(id) in script(ran[i].id)
  }

  ghost predicate Increasing(ran: seq<Timer>) {
    forall i, j :: 0 <= i < j < |ran| ==> IsSooner(ran[i], ran[j])
  }

  /** By deadline, and those of one deadline in the order they were scheduled. */
  ghost predicate ByDeadline(ran: seq<Timer>) {
    forall i, j :: 0 <= i < j < |ran| ==>
      ran[i].when < ran[j].when || (ran[i].when == ran[j].when && ran[i].id < ran[j].id)
  }

  /** No callback ran after an earlier one of the pass had cancelled its timer. */
  ghost predicate RespectsCancels(ran: seq<Timer>, script: Script) {
    forall i, j :: 0 <= i < j < |ran| ==> Cancel(ran[j].id) !in script(ran[i].id)
  }

  /** Every timer of before the pass ran, was cancelled, or is still there. */
  ghost predicate AllAccounted(s0: Timers, s: Timers, script: Script, ran: seq<Timer>) {
    forall t :: t in s0.entries ==> t in ran || t in s.entries || CancelledBy(ran, script, t.id)
  }

  /** A pass that began at `s0` has run the callbacks of `ran` and stands at `s`. */
  ghost predicate Passing(s0: Timers, s: Timers, now: int, script: Script, ran: seq<Timer>) {
    && s.Valid()
    && s0.nextId <= s.nextId
    && s == Replay(s0, ran, script)
    && (forall t :: t in ran ==> t in s0.entries && t.when <= now)
    && Increasing(ran)
    && RespectsCancels(ran, script)
    && (forall t :: t in s.entries && t.id < s0.nextId ==> t in s0.entries && !CancelledBy(ran, script, t.id))
    && (forall t, u :: t in ran && u in s.entries && u.id < s0.nextId ==> IsSooner(t, u))
    && AllAccounted(s0, s, script, ran)
  }

  ghost predicate IsNext(s: Timers, t: Timer) {
    t in s.entries && forall u :: u in s.entries ==> u == t || IsSooner(t, u)
  }

  /** One more callback keeps everything the pass has established. */
  lemma PassingStep(s0: Timers, s: Timers, now: int, script: Script, ran: seq<Timer>, t: Timer)
    requires Passing(s0, s, now, script, ran)
    requires IsNext(s, t) && t.when <= now && t.id < s0.nextId
    ensures Passing(s0, Fire(s, t, script), now, script, ran + [t])
    ensures OldOnes(Fire(s, t, script), s0.nextId) < OldOnes(s, s0.nextId)
  {
    var taken := Timers(Without(s.entries, t.id), s.nextId);
    WithoutDistinct(s.entries, t.id);
    PerformAllFollows(taken, script(t.id));
    var s', ran' := Fire(s, t, script), ran + [t];
    assert ran'[..|ran|] == ran;
    forall u | u in s'.entries && u.id < s0.nextId
      ensures u in s.entries && u != t && IsSooner(t, u) && !CancelledBy(ran', script, u.id)
    {
      assert u in taken.entries;
      assert !CancelledBy(ran, script, u.id);
    }
    assert !CancelledBy(ran, script, t.id);
    forall u | u in s0.entries ensures u in ran' || u in s'.entries || CancelledBy(ran', script, u.id) {
      StillAccounted(s, s', script, ran, t, u);
    }
    assert t in OldOnes(s, s0.nextId);
  }

  lemma StillAccounted(s: Timers, s': Timers, script: Script, ran: seq<Timer>, t: Timer, u: Timer)
    requires s.Valid() && t in s.entries
    requires Follows(Timers(Without(s.entries, t.id), s.nextId), s', script(t.id))
    requires u in ran || u in s.entries || CancelledBy(ran, script, u.id)
    ensures u in ran + [t] || u in s'.entries || CancelledBy(ran + [t], script, u.id)
  {
    var ran' := ran + [t];
    if CancelledBy(ran, script, u.id) {
      var i :| 0 <= i < |ran| && Cancel(u.id) in script(ran[i].id);
      assert ran'[i] == ran[i];
    } else if u in s.entries && u != t {
      assert ran'[|ran|] == t;
    }
  }

  ghost function OldOnes(s: Timers, limit: nat): set<Timer> {
    set t | t in s.entries && t.id < limit
  }

  /** A due timer of before the pass is left only behind a timer that the pass itself has scheduled. */
  ghost predicate LeftOnlyBehindNew(s0: Timers, s: Timers, now: int) {
    forall t :: t in s0.entries && t in s.entries && t.when <= now ==>
      exists n :: n in s.entries && s0.nextId <= n.id && n.when < t.when
  }

  /** A timer that ran, or that a callback which ran has cancelled, is gone, whatever is done afterwards. */
  lemma GoneForGood(s0: Timers, s: Timers, now: int, script: Script, ran: seq<Timer>, t: Timer, later: seq<Operation>)
    requires s0.Valid() && Passing(s0, s, now, script, ran)
    requires t in s0.entries && (t in ran || CancelledBy(ran, script, t.id))
    ensures !PerformAll(s, later).Has(t.id)
  {
    PerformAllFollows(s, later);
    forall u | u in PerformAll(s, later).entries && u.id < s0.nextId ensures u.id != t.id {
      assert u in s.entries && u in s0.entries;
    }
  }

  // --------------------------------------------------------------- the class

  /** The timer part of the event loop's state. */
  class EventLoop {
    var timers: seq<Timer>
    var nextId: nat

    ghost function Value(): Timers reads this { Timers(timers, nextId) }

    constructor ()
      ensures Value() == Timers([], 0) && Value().Valid()
    {
      timers := [];
      nextId := 0;
    }

    method ScheduleAt(when: int) returns (id: nat)
      requires Value().Valid()
      modifies this
      ensures Value() == Perform(old(Value()), Schedule(when)) && Value().Valid()
      ensures id == old(nextId) && !old(Value().Has(id))
      ensures forall t :: t in timers <==> t in old(timers) || t == Timer(id, when)
    {
      PerformValid(Value(), Schedule(when));
      id := nextId;
      nextId := nextId + 1;
      timers := timers + [Timer(id, when)];
    }

    method CancelTimer(id: nat)
      requires Value().Valid()
      modifies this
      ensures Value() == Perform(old(Value()), Cancel(id)) && Value().Valid()
      ensures forall t :: t in timers <==> t in old(timers) && t.id != id
    {
      PerformValid(Value(), Cancel(id));
      var kept: seq<Timer> := [];
      for i := 0 to |timers|
        invariant kept == Without(timers[..i], id)
        invariant Value() == old(Value())
      {
        assert timers[..i + 1][..i] == timers[..i];
        if timers[i].id != id {
          kept := kept + [timers[i]];
        }
      }
      assert timers[..|timers|] == timers;
      timers := kept;
    }

    /** A callback, as the operations it calls. */
    method Callback(ops: seq<Operation>)
      requires Value().Valid()
      modifies this
      ensures Value() == PerformAll(old(Value()), ops) && Value().Valid()
    {
      for i := 0 to |ops|
        invariant Value() == PerformAll(old(Value()), ops[..i]) && Value().Valid()
      {
        assert ops[..i + 1][..i] == ops[..i];
        match ops[i]
        case Schedule(when) => var _ := ScheduleAt(when);
        case Cancel(id) => CancelTimer(id);
        case TakeId => nextId := nextId + 1;
      }
      assert ops[..|ops|] == ops;
    }

    /** The first least entry, as a search for the minimum finds it. */
    method SoonestTimer() returns (next: Option<nat>)
      requires Value().Valid()
      ensures next.None? <==> timers == []
      ensures next.Some? ==> next.value < |timers| && IsNext(Value(), timers[next.value])
    {
      if timers == [] {
        return None;
      }
      var best := 0;
      for i := 1 to |timers|
        invariant best < i <= |timers|
        invariant forall k :: 0 <= k < i ==> k == best || IsSooner(timers[best], timers[k])
      {
        if IsSooner(timers[i], timers[best]) {
          best := i;
        }
      }
      return Some(best);
    }

    /** Takes one timer off and runs its callback. */
    method RunTimer(k: nat, script: Script)
      requires Value().Valid() && k < |timers|
      modifies this
      ensures Value() == Fire(old(Value()), old(timers[k]), script) && Value().Valid()
    {
      var timer := timers[k];
      EraseAt(timers, k);
      WithoutDistinct(timers, timer.id);
      timers := timers[..k] + timers[k + 1..];
      Callback(script(timer.id));
    }

    /**
     * One pass. It ends whatever the callbacks do; `ran` are the timers whose
     * callbacks it ran, in order.
     */
    method RunDueTimers(now: int, script: Script) returns (ran: seq<Timer>)
      requires Value().Valid()
      modifies this
      ensures Passing(old(Value()), Value(), now, script, ran)
      ensures LeftOnlyBehindNew(old(Value()), Value(), now) && ByDeadline(ran)
    {
      var passEnd := nextId;
      var isDue := true;
      ran := [];
      while isDue
        invariant Passing(old(Value()), Value(), now, script, ran)
        invariant !isDue ==> forall t :: IsNext(Value(), t) ==> now < t.when || passEnd <= t.id
        invariant !isDue ==> timers == [] || exists t :: IsNext(Value(), t)
        decreases isDue, OldOnes(Value(), passEnd)
      {
        var next := SoonestTimer();
        isDue := next.Some? && timers[next.value].when <= now && timers[next.value].id < passEnd;
        if isDue {
          var timer := timers[next.value];
          PassingStep(old(Value()), Value(), now, script, ran, timer);
          RunTimer(next.value, script);
          ran := ran + [timer];
        }
      }
    }
  }

  lemma {:induction false} WithoutAbsent(entries: seq<Timer>, id: nat)
    requires forall t :: t in entries ==> t.id != id
    ensures Without(entries, id) == entries
  {
    if entries != [] {
      var front, last := entries[..|entries| - 1], entries[|entries| - 1];
      assert entries == front + [last] && last in entries;
      assert forall t :: t in front ==> t in entries;
      WithoutAbsent(front, id);
    }
  }

  /** Erasing one position of a list of distinct ids is dropping its id. */
  lemma {:induction false} EraseAt(entries: seq<Timer>, k: nat)
    requires k < |entries|
    requires Distinct(entries)
    ensures entries[..k] + entries[k + 1..] == Without(entries, entries[k].id)
  {
    var n := |entries| - 1;
    var front := entries[..n];
    if k == n {
      WithoutAbsent(front, entries[k].id);
      assert entries[..k] + entries[k + 1..] == front;
    } else {
      EraseAt(front, k);
      EraseInside(entries, k);
    }
  }

  lemma EraseInside(entries: seq<Timer>, k: nat)
    requires k < |entries| - 1
    ensures var n := |entries| - 1;
            && entries[..n][k] == entries[k]
            && entries[..k] + entries[k + 1..] == entries[..n][..k] + entries[..n][k + 1..] + [entries[n]]
  {
    var n := |entries| - 1;
    assert entries[..n][..k] == entries[..k];
    assert entries[k + 1..] == entries[..n][k + 1..] + [entries[n]];
  }
}
