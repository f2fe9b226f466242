/**
 CSystem of private/events/system.cpp: handler lists with tombstones, a snapshot per event type that is rebuilt
 lazily, compaction when the dead outnumber the living, and a handle map. Every operation is proved to do to the
 plain list of Subscriptions what that module's function does. A dispatch is cut at its handler calls, since a
 handler may call any operation and other threads run in between.
 */
module EventSystem {
  import opened Wrappers
  import opened Subscriptions

  datatype Slot = Slot(handlers: seq<Handle>, snapshot: Option<seq<Handle>>, numDead: nat, dirty: bool)

  /** An EmitErased under way: the snapshot it walks and the entry whose turn is next. */
  datatype Emission = Emission(snapshot: seq<Handle>, next: nat)

  /** The entries whose alive flag is set. */
  function LiveOnly(hs: seq<Handle>, alive: map<Handle, bool>): (r: seq<Handle>)
  {
    if hs == [] then []
    else
      var h := hs[|hs| - 1];
      LiveOnly(hs[..|hs| - 1], alive) + if h in alive && alive[h] then [h] else []
  }

  function Removed(s: seq<Handle>, h: Handle): (r: seq<Handle>)
  {
    if s == [] then []
    else
      var x := s[|s| - 1];
      Removed(s[..|s| - 1], h) + if x == h then [] else [x]
  }

  // ---------------------------------------------------------------------------------------------------------
  // Lists and flags
  // ---------------------------------------------------------------------------------------------------------

  lemma OfKindAppend(live: seq<Sub>, s: Sub, kind: EventType)
    ensures OfKind(live + [s], kind) == OfKind(live, kind) + if s.kind == kind then [s.handle] else []
  {
    assert (live + [s])[..|live|] == live;
  }

  lemma LiveOnlyAppend(hs: seq<Handle>, h: Handle, alive: map<Handle, bool>)
    ensures LiveOnly(hs + [h], alive) == LiveOnly(hs, alive) + if h in alive && alive[h] then [h] else []
  {
    assert (hs + [h])[..|hs|] == hs;
  }

  lemma RemovedAppend(s: seq<Handle>, x: Handle, h: Handle)
    ensures Removed(s + [x], h) == Removed(s, h) + if x == h then [] else [x]
  {
    assert (s + [x])[..|s|] == s;
  }

  lemma {:induction false} LiveOnlyMembers(hs: seq<Handle>, alive: map<Handle, bool>, h: Handle)
    ensures h in LiveOnly(hs, alive) <==> h in hs && h in alive && alive[h]
    ensures |LiveOnly(hs, alive)| <= |hs|
  {
    if hs != [] {
      LiveOnlyMembers(hs[..|hs| - 1], alive, h);
      assert hs == hs[..|hs| - 1] + [hs[|hs| - 1]];
    }
  }

  lemma {:induction false} LiveOnlySame(hs: seq<Handle>, a: map<Handle, bool>, b: map<Handle, bool>)
    requires forall h :: h in hs ==> (h in a && a[h] <==> h in b && b[h])
    ensures LiveOnly(hs, a) == LiveOnly(hs, b)
  {
    if hs != [] { LiveOnlySame(hs[..|hs| - 1], a, b); }
  }

  lemma {:induction false} LiveOnlyTwice(hs: seq<Handle>, alive: map<Handle, bool>)
    ensures LiveOnly(LiveOnly(hs, alive), alive) == LiveOnly(hs, alive)
  {
    if hs != [] {
      var front := LiveOnly(hs[..|hs| - 1], alive);
      LiveOnlyTwice(hs[..|hs| - 1], alive);
      var h := hs[|hs| - 1];
      LiveOnlyAppend(front, h, alive);
      assert front + [] == front;
    }
  }

  lemma {:induction false} LiveOnlyIncreasing(hs: seq<Handle>, alive: map<Handle, bool>)
    requires Increasing(hs)
    ensures Increasing(LiveOnly(hs, alive))
  {
    if hs != [] {
      var front, h := hs[..|hs| - 1], hs[|hs| - 1];
      LiveOnlyIncreasing(front, alive);
      forall x | x in LiveOnly(front, alive) ensures x < h { LiveOnlyMembers(front, alive, x); }
      IncreasingAppend(LiveOnly(front, alive), h);
    }
  }

  /** Clearing a flag removes the entry from the live ones. */
  lemma {:induction false} LiveOnlyKilled(hs: seq<Handle>, alive: map<Handle, bool>, h: Handle)
    ensures LiveOnly(hs, alive[h := false]) == Removed(LiveOnly(hs, alive), h)
  {
    if hs != [] {
      LiveOnlyKilled(hs[..|hs| - 1], alive, h);
      var front, x := LiveOnly(hs[..|hs| - 1], alive), hs[|hs| - 1];
      RemovedAppend(front, x, h);
      assert front + [] == front && Removed(front, h) + [] == Removed(front, h);
    }
  }

  lemma {:induction false} RemovedAbsent(s: seq<Handle>, h: Handle)
    requires h !in s
    ensures Removed(s, h) == s
  {
    if s != [] {
      var front, x := s[..|s| - 1], s[|s| - 1];
      assert s == front + [x] && x in s;
      RemovedAbsent(front, h);
      RemovedAppend(front, x, h);
    }
  }

  lemma {:induction false} RemovedCount(s: seq<Handle>, h: Handle)
    requires Increasing(s) && h in s
    ensures |Removed(s, h)| == |s| - 1
  {
    var front, x := s[..|s| - 1], s[|s| - 1];
    assert s == front + [x];
    if x == h {
      RemovedAbsent(front, h);
    } else {
      RemovedCount(front, h);
    }
  }

  lemma {:induction false} OfKindWithout(live: seq<Sub>, h: Handle, kind: EventType)
    ensures OfKind(Without(live, h), kind) == Removed(OfKind(live, kind), h)
  {
    if live != [] {
      OfKindWithout(live[..|live| - 1], h, kind);
      var front, last := live[..|live| - 1], live[|live| - 1];
      var w, o := Without(front, h), OfKind(front, kind);
      OfKindAppend(w, last, kind);
      RemovedAppend(o, last.handle, h);
      assert w + [] == w && o + [] == o && Removed(o, h) + [] == Removed(o, h);
    }
  }

  lemma {:induction false} WithoutAbsent(live: seq<Sub>, h: Handle)
    requires !IsLive(live, h)
    ensures Without(live, h) == live
  {
    if live != [] {
      var front := live[..|live| - 1];
      WithoutAbsent(front, h);
      assert live[|live| - 1].handle != h;
      assert live == front + [live[|live| - 1]];
    }
  }

  // ---------------------------------------------------------------------------------------------------------
  // One event type
  // ---------------------------------------------------------------------------------------------------------

  /** The slot stands for the list `l` of live handles: its live entries are `l` in order, numDead counts the
      tombstones and never exceeds half of the list, and a clean slot's snapshot is exactly `l`. */
  ghost predicate SlotOk(x: Slot, alive: map<Handle, bool>, l: seq<Handle>)
  {
    && Increasing(x.handlers) && (forall h :: h in x.handlers ==> h in alive)
    && LiveOnly(x.handlers, alive) == l
    && x.numDead + |l| == |x.handlers|
    && x.numDead * 2 <= |x.handlers|
    && (!x.dirty ==> match x.snapshot case None => l == [] case Some(s) => s == l)
  }

  /** Drops the tombstones. */
  function Compacted(x: Slot, alive: map<Handle, bool>): (r: Slot)
  {
    x.(handlers := LiveOnly(x.handlers, alive), numDead := 0)
  }

  lemma CompactedOk(x: Slot, alive: map<Handle, bool>, l: seq<Handle>)
    requires Increasing(x.handlers) && LiveOnly(x.handlers, alive) == l && x.dirty
    ensures SlotOk(Compacted(x, alive), alive, l)
  {
    LiveOnlyIncreasing(x.handlers, alive);
    LiveOnlyTwice(x.handlers, alive);
    forall h | h in l ensures h in alive { LiveOnlyMembers(x.handlers, alive, h); }
  }

  /** Marking one live entry dead. */
  lemma KilledOk(x: Slot, alive: map<Handle, bool>, l: seq<Handle>, h: Handle)
    requires SlotOk(x, alive, l) && h in l
    ensures var y := x.(numDead := x.numDead + 1, dirty := true);
            var alive' := alive[h := false];
            && Increasing(y.handlers) && (forall k :: k in y.handlers ==> k in alive')
            && LiveOnly(y.handlers, alive') == Removed(l, h)
            && y.numDead + |Removed(l, h)| == |y.handlers|
  {
    LiveOnlyKilled(x.handlers, alive, h);
    LiveOnlyIncreasing(x.handlers, alive);
    RemovedCount(l, h);
  }

  /** Flags of handles that a slot does not list are none of its business. */
  lemma SlotElsewhere(x: Slot, alive: map<Handle, bool>, l: seq<Handle>, h: Handle, flag: bool)
    requires SlotOk(x, alive, l) && (h !in x.handlers || (h in alive && !alive[h] && !flag))
    ensures SlotOk(x, alive[h := flag], l)
  {
    LiveOnlySame(x.handlers, alive, alive[h := flag]);
  }

  // ---------------------------------------------------------------------------------------------------------
  // All of them
  // ---------------------------------------------------------------------------------------------------------

  /** A flag is set exactly as long as the handle is subscribed. */
  ghost predicate FlagsOk(next: Handle, alive: map<Handle, bool>, live: seq<Sub>)
  {
    && (forall h: Handle :: h in alive ==> h < next && (alive[h] <==> IsLive(live, h)))
    && (forall i :: 0 <= i < |live| ==> live[i].handle in alive)
  }

  ghost predicate MapOk(subscriptions: map<Handle, EventType>, live: seq<Sub>)
  {
    && (forall h: Handle :: h in subscriptions ==> Sub(h, subscriptions[h]) in live)
    && (forall i :: 0 <= i < |live| ==> live[i].handle in subscriptions)
  }

  ghost predicate SlotsOk(slots: seq<Slot>, alive: map<Handle, bool>, live: seq<Sub>)
  {
    && (forall k :: 0 <= k < |slots| ==> SlotOk(slots[k], alive, OfKind(live, k)))
    && (forall i :: 0 <= i < |live| ==> live[i].kind < |slots|)
  }

  ghost predicate EmissionOk(e: Emission, alive: map<Handle, bool>, todo: seq<Handle>)
  {
    e.next <= |e.snapshot| && todo == e.snapshot[e.next..] && forall h :: h in e.snapshot ==> h in alive
  }

  ghost predicate EmissionsOk(es: seq<Emission>, alive: map<Handle, bool>, ds: seq<Dispatch>)
  {
    |es| == |ds| && forall d :: 0 <= d < |es| ==> EmissionOk(es[d], alive, ds[d].todo)
  }

  /** The fields stand for the plain list. */
  ghost predicate Ties(
    slots: seq<Slot>, subs: map<Handle, EventType>, alive: map<Handle, bool>, es: seq<Emission>, p: Plain)
  {
    && Inv(p)
    && FlagsOk(p.next, alive, p.live)
    && MapOk(subs, p.live)
    && SlotsOk(slots, alive, p.live)
    && EmissionsOk(es, alive, p.dispatches)
  }

  lemma LiveAppend(live: seq<Sub>, s: Sub, h: Handle)
    ensures IsLive(live + [s], h) <==> IsLive(live, h) || h == s.handle
  {
    if IsLive(live, h) { var i :| 0 <= i < |live| && live[i].handle == h; assert (live + [s])[i].handle == h; }
    assert (live + [s])[|live|] == s;
  }

  lemma FlagsSubscribed(next: Handle, alive: map<Handle, bool>, live: seq<Sub>, kind: EventType)
    requires FlagsOk(next, alive, live)
    ensures FlagsOk(next + 1, alive[next := true], live + [Sub(next, kind)])
  {
    forall h: Handle | h in alive[next := true]
      ensures h < next + 1 && (alive[next := true][h] <==> IsLive(live + [Sub(next, kind)], h))
    {
      LiveAppend(live, Sub(next, kind), h);
    }
  }

  lemma FlagsUnsubscribed(next: Handle, alive: map<Handle, bool>, live: seq<Sub>, h: Handle)
    requires FlagsOk(next, alive, live) && h in alive
    ensures FlagsOk(next, alive[h := false], Without(live, h))
  {
    var l := Without(live, h);
    forall x: Handle | x in alive[h := false] ensures x < next && (alive[h := false][x] <==> IsLive(l, x)) {
      WithoutLive(live, h, x);
    }
    forall i | 0 <= i < |l| ensures l[i].handle in alive { WithoutMembers(live, h, l[i]); }
  }

  lemma MapUnsubscribed(subscriptions: map<Handle, EventType>, live: seq<Sub>, h: Handle)
    requires MapOk(subscriptions, live)
    ensures MapOk(subscriptions - {h}, Without(live, h))
  {
    var l := Without(live, h);
    forall x: Handle | x in subscriptions && x != h ensures Sub(x, subscriptions[x]) in l {
      WithoutMembers(live, h, Sub(x, subscriptions[x]));
    }
    forall i | 0 <= i < |l| ensures l[i].handle in subscriptions - {h} { WithoutMembers(live, h, l[i]); }
  }

  lemma SlotSubscribed(x: Slot, alive: map<Handle, bool>, l: seq<Handle>, h: Handle)
    requires SlotOk(x, alive, l) && h !in alive && forall y :: y in alive ==> y < h
    ensures SlotOk(x.(handlers := x.handlers + [h], dirty := true), alive[h := true], l + [h])
  {
    SlotElsewhere(x, alive, l, h, true);
    IncreasingAppend(x.handlers, h);
    LiveOnlyAppend(x.handlers, h, alive[h := true]);
  }

  lemma SlotsSubscribed(slots: seq<Slot>, alive: map<Handle, bool>, live: seq<Sub>, kind: EventType, h: Handle)
    requires SlotsOk(slots, alive, live) && kind < |slots| && h !in alive
    requires forall x :: x in alive ==> x < h
    ensures var x := slots[kind];
            SlotsOk(slots[kind := x.(handlers := x.handlers + [h], dirty := true)], alive[h := true], live + [Sub(h, kind)])
  {
    var x := slots[kind];
    var slots' := slots[kind := x.(handlers := x.handlers + [h], dirty := true)];
    forall k | 0 <= k < |slots| ensures SlotOk(slots'[k], alive[h := true], OfKind(live + [Sub(h, kind)], k)) {
      OfKindAppend(live, Sub(h, kind), k);
      if k == kind {
        SlotSubscribed(x, alive, OfKind(live, k), h);
      } else {
        SlotElsewhere(slots[k], alive, OfKind(live, k), h, true);
      }
    }
  }

  /** The slot of a handle that is unsubscribed: marked, and compacted if the dead then outnumber the living. */
  function Buried(x: Slot, alive: map<Handle, bool>): (r: Slot)
  {
    var y := x.(numDead := x.numDead + 1, dirty := true);
    if y.numDead * 2 > |y.handlers| then Compacted(y, alive) else y
  }

  /** The dead are dropped exactly when they are more than half of the list. */
  lemma BuriedMeaning(x: Slot, alive: map<Handle, bool>, l: seq<Handle>, h: Handle)
    requires SlotOk(x, alive, l) && h in l
    ensures var r, alive' := Buried(x, alive[h := false]), alive[h := false];
            if (|x.handlers| - |l| + 1) * 2 > |x.handlers| then r.handlers == Removed(l, h) && r.numDead == 0
            else r.handlers == x.handlers && r.numDead == |x.handlers| - |l| + 1
  {
    KilledOk(x, alive, l, h);
  }

  lemma SlotsUnsubscribed(slots: seq<Slot>, alive: map<Handle, bool>, live: seq<Sub>, kind: EventType, h: Handle)
    requires SlotsOk(slots, alive, live) && Ordered(live) && Sub(h, kind) in live && kind < |slots| && h in alive
    ensures SlotsOk(slots[kind := Buried(slots[kind], alive[h := false])], alive[h := false], Without(live, h))
  {
    var alive' := alive[h := false];
    var slots' := slots[kind := Buried(slots[kind], alive')];
    forall k | 0 <= k < |slots| ensures SlotOk(slots'[k], alive', OfKind(Without(live, h), k)) {
      var l := OfKind(live, k);
      OfKindWithout(live, h, k);
      OfKindMembers(live, k, h);
      if k == kind {
        KilledOk(slots[k], alive, l, h);
        CompactedOk(slots[k].(numDead := slots[k].numDead + 1, dirty := true), alive', Removed(l, h));
      } else {
        assert h !in l by { if h in l { OneKind(live, h, k, kind); } }
        RemovedAbsent(l, h);
        LiveOnlyMembers(slots[k].handlers, alive, h);
        LiveFlagElsewhere(slots[k], alive, l, h);
      }
    }
    forall i | 0 <= i < |Without(live, h)| ensures Without(live, h)[i].kind < |slots| {
      WithoutMembers(live, h, Without(live, h)[i]);
    }
  }

  lemma OneKind(live: seq<Sub>, h: Handle, k: EventType, j: EventType)
    requires Ordered(live) && Sub(h, k) in live && Sub(h, j) in live
    ensures k == j
  {
    var a :| 0 <= a < |live| && live[a] == Sub(h, k);
    var b :| 0 <= b < |live| && live[b] == Sub(h, j);
  }

  /** A handle that is not among a slot's live ones may die without changing the slot's meaning. */
  lemma LiveFlagElsewhere(x: Slot, alive: map<Handle, bool>, l: seq<Handle>, h: Handle)
    requires SlotOk(x, alive, l) && h !in l && h in alive
    ensures SlotOk(x, alive[h := false], l)
  {
    LiveOnlyMembers(x.handlers, alive, h);
    LiveOnlySame(x.handlers, alive, alive[h := false]);
  }

  lemma EmissionsKept(es: seq<Emission>, alive: map<Handle, bool>, ds: seq<Dispatch>, h: Handle, flag: bool)
    requires EmissionsOk(es, alive, ds)
    ensures EmissionsOk(es, alive[h := flag], ds)
  {
    forall d | 0 <= d < |es| ensures EmissionOk(es[d], alive[h := flag], ds[d].todo) {
      assert EmissionOk(es[d], alive, ds[d].todo);
    }
  }

  lemma EmissionsTurned(es: seq<Emission>, alive: map<Handle, bool>, p: Plain, d: nat)
    requires EmissionsOk(es, alive, p.dispatches) && d < |es|
    ensures var e := es[d];
            EmissionsOk(if e.next < |e.snapshot| then es[d := Emission(e.snapshot, e.next + 1)] else es, alive, Turn(p, d).dispatches)
  {
    assert EmissionOk(es[d], alive, p.dispatches[d].todo);
  }

  lemma SubscribeTies(
    slots: seq<Slot>, subs: map<Handle, EventType>, alive: map<Handle, bool>, es: seq<Emission>, p: Plain, kind: EventType)
    requires Ties(slots, subs, alive, es, p) && kind < |slots|
    ensures p.next !in alive && !IsLive(p.live, p.next)
    ensures var x := slots[kind];
            Ties(slots[kind := x.(handlers := x.handlers + [p.next], dirty := true)], subs[p.next := kind],
                 alive[p.next := true], es, Subscribe(p, kind))
  {
    FlagsSubscribed(p.next, alive, p.live, kind);
    SlotsSubscribed(slots, alive, p.live, kind, p.next);
    EmissionsKept(es, alive, p.dispatches, p.next, true);
    StepInv(p, DoSubscribe(kind));
  }

  lemma UnsubscribeTies(
    slots: seq<Slot>, subs: map<Handle, EventType>, alive: map<Handle, bool>, es: seq<Emission>, p: Plain, h: Handle)
    requires Ties(slots, subs, alive, es, p)
    ensures h in subs ==>
              subs[h] < |slots|
              && Ties(slots[subs[h] := Buried(slots[subs[h]], alive[h := false])], subs - {h}, alive[h := false], es,
                      Subscriptions.Unsubscribe(p, h))
    ensures h !in subs ==> Subscriptions.Unsubscribe(p, h) == p
    ensures Subscriptions.Unsubscribe(p, h).next == p.next
  {
    if h in subs {
      var i :| 0 <= i < |p.live| && p.live[i] == Sub(h, subs[h]);
      FlagsUnsubscribed(p.next, alive, p.live, h);
      MapUnsubscribed(subs, p.live, h);
      SlotsUnsubscribed(slots, alive, p.live, subs[h], h);
      EmissionsKept(es, alive, p.dispatches, h, false);
      StepInv(p, DoUnsubscribe(h));
    } else {
      WithoutAbsent(p.live, h);
    }
  }

  /** A dispatch that starts with the live handlers of its type joins those under way. */
  lemma BeginTies(
    slots: seq<Slot>, subs: map<Handle, EventType>, alive: map<Handle, bool>, es: seq<Emission>, p: Plain, kind: EventType)
    requires Ties(slots, subs, alive, es, p)
    ensures Ties(slots, subs, alive, es + [Emission(OfKind(p.live, kind), 0)], Begin(p, kind))
  {
    StepInv(p, DoBegin(kind));
    var hs := OfKind(p.live, kind);
    forall h | h in hs ensures h in alive {
      OfKindMembers(p.live, kind, h);
      var i :| 0 <= i < |p.live| && p.live[i] == Sub(h, kind);
    }
    assert hs[0..] == hs;
  }

  // ---------------------------------------------------------------------------------------------------------
  // The system
  // ---------------------------------------------------------------------------------------------------------

  class System {
    var nextHandle: Handle
    var slots: seq<Slot>
    var subscriptions: map<Handle, EventType>
    var alive: map<Handle, bool>
    var emissions: seq<Emission>
    ghost var plain: Plain

    ghost predicate Valid()
      reads this
    {
      nextHandle == plain.next && Ties(slots, subscriptions, alive, emissions, plain)
    }

    constructor ()
      ensures Valid() && plain == EMPTY
    {
      nextHandle, slots, subscriptions, alive, emissions := 1, [], map[], map[], [];
      plain := EMPTY;
    }

    /** Slots up to this type exist; new ones are empty and clean. */
    method Grow(kind: EventType)
      requires Valid()
      modifies `slots
      ensures Valid() && kind < |slots| && old(slots) <= slots
    {
      if kind >= |slots| {
        ghost var n := |slots|;
        slots := slots + seq(kind + 1 - |slots|, _ => Slot([], None, 0, false));
        forall k | n <= k < |slots| ensures SlotOk(slots[k], alive, OfKind(plain.live, k)) {
          assert slots[k] == Slot([], None, 0, false);
          NoneOfKind(plain.live, k);
        }
      }
    }

    /** A new handle, never handed out before, at the end of its type's list. */
    method SubscribeErased(kind: EventType) returns (handle: Handle)
      requires Valid()
      modifies this
      ensures Valid() && plain == Subscribe(old(plain), kind)
      ensures handle == old(nextHandle) && handle !in old(alive) && !IsLive(old(plain).live, handle)
    {
      handle := nextHandle;
      Grow(kind);
      SubscribeTies(slots, subscriptions, alive, emissions, plain, kind);
      nextHandle := nextHandle + 1;
      slots := slots[kind := slots[kind].(handlers := slots[kind].handlers + [handle], dirty := true)];
      subscriptions := subscriptions[handle := kind];
      alive := alive[handle := true];
      plain := Subscribe(plain, kind);
    }

    /** An unknown handle changes nothing; a known one is gone from the plain list, for good. */
    method Unsubscribe(handle: Handle)
      requires Valid()
      modifies this
      ensures Valid() && plain == Subscriptions.Unsubscribe(old(plain), handle)
    {
      UnsubscribeTies(slots, subscriptions, alive, emissions, plain, handle);
      plain := Subscriptions.Unsubscribe(plain, handle);
      if handle in subscriptions {
        var kind := subscriptions[handle];
        alive := alive[handle := false];
        slots := slots[kind := Buried(slots[kind], alive)];
        subscriptions := subscriptions - {handle};
      }
    }

    /** The snapshot is the list of live handlers in subscription order; null only if there are none. */
    method GetSnapshot(kind: EventType) returns (snapshot: Option<seq<Handle>>)
      requires Valid()
      modifies `slots
      ensures Valid()
      ensures match snapshot case None => OfKind(plain.live, kind) == [] case Some(s) => s == OfKind(plain.live, kind)
    {
      snapshot := None;
      if kind < |slots| {
        assert SlotOk(slots[kind], alive, OfKind(plain.live, kind));
        if slots[kind].dirty {
          var handlers := LiveOnly(slots[kind].handlers, alive);
          CompactedOk(slots[kind], alive, OfKind(plain.live, kind));
          slots := slots[kind := Slot(handlers, Some(handlers), 0, false)];
        }
        snapshot := slots[kind].snapshot;
      } else {
        NoneOfKind(plain.live, kind);
      }
    }

    /** EmitErased up to its loop. */
    method BeginEmit(kind: EventType)
      requires Valid()
      modifies this
      ensures Valid() && plain == Begin(old(plain), kind)
    {
      var snapshot := GetSnapshot(kind);
      var hs := if snapshot.Some? then snapshot.value else [];
      BeginTies(slots, subscriptions, alive, emissions, plain, kind);
      emissions := emissions + [Emission(hs, 0)];
      plain := Begin(plain, kind);
    }

    /** One round of EmitErased's loop: the handler to call, if the entry is still alive. */
    method NextHandler(d: nat) returns (call: Option<Handle>)
      requires Valid() && d < |emissions|
      modifies `emissions, `plain
      ensures Valid() && plain == Turn(old(plain), d)
      ensures var todo := old(plain).dispatches[d].todo;
              call == if todo != [] && IsLive(old(plain).live, todo[0]) then Some(todo[0]) else None
    {
      TurnEntry(emissions[d], alive, nextHandle, plain, d);
      EmissionsTurned(emissions, alive, plain, d);
      TurnInv(plain, d);
      call := None;
      var e := emissions[d];
      if e.next < |e.snapshot| {
        var h := e.snapshot[e.next];
        if alive[h] {
          call := Some(h);
        }
        emissions := emissions[d := Emission(e.snapshot, e.next + 1)];
      }
      plain := Turn(plain, d);
    }
  }

  lemma TurnEntry(e: Emission, alive: map<Handle, bool>, next: Handle, p: Plain, d: nat)
    requires FlagsOk(next, alive, p.live) && d < |p.dispatches| && EmissionOk(e, alive, p.dispatches[d].todo)
    ensures e.next < |e.snapshot| <==> p.dispatches[d].todo != []
    ensures e.next < |e.snapshot| ==>
              var h := e.snapshot[e.next];
              h == p.dispatches[d].todo[0] && h in alive && (alive[h] <==> IsLive(p.live, h))
  {
    if e.next < |e.snapshot| { assert e.snapshot[e.next] in e.snapshot; }
  }

  lemma TurnInv(p: Plain, d: nat)
    requires Inv(p)
    ensures Inv(Turn(p, d)) && Turn(p, d).live == p.live && Turn(p, d).next == p.next
  {
    StepInv(p, DoTurn(d));
  }

  lemma {:induction false} NoneOfKind(live: seq<Sub>, kind: EventType)
    requires forall i :: 0 <= i < |live| ==> live[i].kind != kind
    ensures OfKind(live, kind) == []
  {
    if live != [] { NoneOfKind(live[..|live| - 1], kind); }
  }
}
