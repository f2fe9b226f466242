/**
 What the event system promises, on a plain list of live subscriptions: a dispatch takes the handlers that are live
 when it starts and calls, in order, those that are still live at their turn. Handlers may subscribe, unsubscribe
 and start further dispatches; any number of dispatches are under way at once.
 */
module Subscriptions {

  type Handle = nat
  type EventType = nat

  datatype Sub = Sub(handle: Handle, kind: EventType)

  /** `begun` is the list a dispatch started with, `todo` what is left of it, `ran` the handlers it called. */
  datatype Dispatch = Dispatch(begun: seq<Handle>, todo: seq<Handle>, ran: seq<Handle>)

  datatype Plain = Plain(next: Handle, live: seq<Sub>, dispatches: seq<Dispatch>)

  /** The handles of one event type, in subscription order. */
  function OfKind(live: seq<Sub>, kind: EventType): (r: seq<Handle>)
  {
    if live == [] then []
    else
      var last := live[|live| - 1];
      OfKind(live[..|live| - 1], kind) + if last.kind == kind then [last.handle] else []
  }

  function Without(live: seq<Sub>, h: Handle): (r: seq<Sub>)
  {
    if live == [] then []
    else
      var last := live[|live| - 1];
      Without(live[..|live| - 1], h) + if last.handle == h then [] else [last]
  }

  predicate IsLive(live: seq<Sub>, h: Handle)
  {
    exists i :: 0 <= i < |live| && live[i].handle == h
  }

  function Subscribe(p: Plain, kind: EventType): (r: Plain)
  {
    p.(next := p.next + 1, live := p.live + [Sub(p.next, kind)])
  }

  function Unsubscribe(p: Plain, h: Handle): (r: Plain)
  {
    p.(live := Without(p.live, h))
  }

  function Begin(p: Plain, kind: EventType): (r: Plain)
  {
    var l := OfKind(p.live, kind);
    p.(dispatches := p.dispatches + [Dispatch(l, l, [])])
  }

  /** The next handler's turn in dispatch d. */
  function Turn(p: Plain, d: nat): (r: Plain)
  {
    if d < |p.dispatches| && p.dispatches[d].todo != [] then
      var x := p.dispatches[d];
      var h := x.todo[0];
      p.(dispatches := p.dispatches[d := Dispatch(x.begun, x.todo[1..], if IsLive(p.live, h) then x.ran + [h] else x.ran)])
    else p
  }

  datatype Action = DoSubscribe(kind: EventType) | DoUnsubscribe(handle: Handle) | DoBegin(kind: EventType) | DoTurn(d: nat)

  function Step(p: Plain, a: Action): (r: Plain)
  {
    match a
    case DoSubscribe(kind) => Subscribe(p, kind)
    case DoUnsubscribe(h) => Unsubscribe(p, h)
    case DoBegin(kind) => Begin(p, kind)
    case DoTurn(d) => Turn(p, d)
  }

  function Run(p: Plain, actions: seq<Action>): (r: Plain)
    decreases |actions|
  {
    if actions == [] then p else Run(Step(p, actions[0]), actions[1..])
  }

  const EMPTY := Plain(1, [], [])

  // ---------------------------------------------------------------------------------------------------------
  // Lists of subscriptions
  // ---------------------------------------------------------------------------------------------------------

  ghost predicate Increasing(s: seq<Handle>)
  {
    forall i, j :: 0 <= i < j < |s| ==> s[i] < s[j]
  }

  ghost predicate Ordered(live: seq<Sub>)
  {
    forall i, j :: 0 <= i < j < |live| ==> live[i].handle < live[j].handle
  }

  lemma IncreasingAppend(s: seq<Handle>, x: Handle)
    requires Increasing(s) && forall h :: h in s ==> h < x
    ensures Increasing(s + [x])
  {
    forall i, j | 0 <= i < j < |s| + 1 ensures (s + [x])[i] < (s + [x])[j] {
      if j < |s| { assert s[i] < s[j]; } else { assert s[i] in s; }
    }
  }

  lemma {:induction false} OfKindMembers(live: seq<Sub>, kind: EventType, h: Handle)
    ensures h in OfKind(live, kind) <==> Sub(h, kind) in live
  {
    if live != [] {
      OfKindMembers(live[..|live| - 1], kind, h);
      assert live == live[..|live| - 1] + [live[|live| - 1]];
    }
  }

  lemma {:induction false} OfKindIncreasing(live: seq<Sub>, kind: EventType)
    requires Ordered(live)
    ensures Increasing(OfKind(live, kind))
  {
    if live != [] {
      var front, last := live[..|live| - 1], live[|live| - 1];
      OfKindIncreasing(front, kind);
      forall h | h in OfKind(front, kind) ensures h < last.handle {
        OfKindMembers(front, kind, h);
        var i :| 0 <= i < |front| && front[i] == Sub(h, kind);
        assert live[i].handle < last.handle;
      }
      IncreasingAppend(OfKind(front, kind), last.handle);
    }
  }

  lemma {:induction false} WithoutMembers(live: seq<Sub>, h: Handle, s: Sub)
    ensures s in Without(live, h) <==> s in live && s.handle != h
  {
    if live != [] {
      WithoutMembers(live[..|live| - 1], h, s);
      assert live == live[..|live| - 1] + [live[|live| - 1]];
    }
  }

  lemma {:induction false} WithoutOrdered(live: seq<Sub>, h: Handle)
    requires Ordered(live)
    ensures Ordered(Without(live, h))
  {
    if live != [] {
      var front, last := live[..|live| - 1], live[|live| - 1];
      WithoutOrdered(front, h);
      forall s | s in Without(front, h) ensures s.handle < last.handle {
        WithoutMembers(front, h, s);
        var i :| 0 <= i < |front| && front[i] == s;
        assert live[i].handle < last.handle;
      }
    }
  }

  lemma IsLiveMembers(live: seq<Sub>, h: Handle)
    ensures IsLive(live, h) <==> exists s :: s in live && s.handle == h
  {
    if IsLive(live, h) {
      var i :| 0 <= i < |live| && live[i].handle == h;
      assert live[i] in live;
    }
  }

  lemma WithoutLive(live: seq<Sub>, h: Handle, x: Handle)
    ensures IsLive(Without(live, h), x) <==> IsLive(live, x) && x != h
  {
    IsLiveMembers(Without(live, h), x);
    IsLiveMembers(live, x);
    if IsLive(live, x) && x != h {
      var s :| s in live && s.handle == x;
      WithoutMembers(live, h, s);
    }
    if IsLive(Without(live, h), x) {
      var s :| s in Without(live, h) && s.handle == x;
      WithoutMembers(live, h, s);
    }
  }

  // ---------------------------------------------------------------------------------------------------------
  // Every run
  // ---------------------------------------------------------------------------------------------------------

  ghost predicate DispatchOk(p: Plain, x: Dispatch)
  {
    && Increasing(x.begun)
    && (forall h :: h in x.begun ==> h < p.next)
    && |x.todo| <= |x.begun| && x.todo == x.begun[|x.begun| - |x.todo|..]
    && Increasing(x.ran)
    && (forall h :: h in x.ran ==> h in x.begun[..|x.begun| - |x.todo|])
    && (forall h :: h in x.begun[..|x.begun| - |x.todo|] && IsLive(p.live, h) ==> h in x.ran)
  }

  ghost predicate Inv(p: Plain)
  {
    && Ordered(p.live) && (forall i :: 0 <= i < |p.live| ==> p.live[i].handle < p.next)
    && (forall d :: 0 <= d < |p.dispatches| ==> DispatchOk(p, p.dispatches[d]))
  }

  lemma TurnOk(p: Plain, d: nat)
    requires Inv(p) && d < |p.dispatches| && p.dispatches[d].todo != []
    ensures DispatchOk(p, Turn(p, d).dispatches[d])
  {
    var x, y := p.dispatches[d], Turn(p, d).dispatches[d];
    var n := |x.begun| - |x.todo|;
    assert DispatchOk(p, x);
    assert x.todo[0] == x.begun[n];
    assert x.begun[..n + 1] == x.begun[..n] + [x.begun[n]];
    forall h | h in x.ran ensures h < x.begun[n] {
      var i :| 0 <= i < n && x.begun[..n][i] == h;
      assert x.begun[i] < x.begun[n];
    }
    IncreasingAppend(x.ran, x.begun[n]);
  }

  /** Adding or removing subscriptions keeps every dispatch in order, as a handle that is gone stays gone. */
  lemma DispatchKept(p: Plain, q: Plain, x: Dispatch)
    requires DispatchOk(p, x) && p.next <= q.next
    requires forall h: Handle :: h < p.next && IsLive(q.live, h) ==> IsLive(p.live, h)
    ensures DispatchOk(q, x)
  {
    var n := |x.begun| - |x.todo|;
    forall h | h in x.begun[..n] && IsLive(q.live, h) ensures h in x.ran {
      var i :| 0 <= i < n && x.begun[..n][i] == h;
      assert x.begun[i] in x.begun;
    }
  }

  lemma StepInv(p: Plain, a: Action)
    requires Inv(p)
    ensures Inv(Step(p, a)) && p.next <= Step(p, a).next
    ensures forall h: Handle :: h < p.next && IsLive(Step(p, a).live, h) ==> IsLive(p.live, h)
  {
    var q := Step(p, a);
    forall h: Handle | h < p.next && IsLive(q.live, h) ensures IsLive(p.live, h) {
      if a.DoUnsubscribe? { WithoutLive(p.live, a.handle, h); }
      if a.DoSubscribe? { var i :| 0 <= i < |q.live| && q.live[i].handle == h; assert p.live[i].handle == h; }
    }
    if a.DoUnsubscribe? {
      WithoutOrdered(p.live, a.handle);
      forall i | 0 <= i < |q.live| ensures q.live[i].handle < q.next { WithoutMembers(p.live, a.handle, q.live[i]); }
    }
    forall d | 0 <= d < |q.dispatches| ensures DispatchOk(q, q.dispatches[d]) {
      if d == |p.dispatches| {
        OfKindIncreasing(p.live, a.kind);
        forall h | h in OfKind(p.live, a.kind) ensures h < p.next { OfKindMembers(p.live, a.kind, h); }
      } else if a.DoTurn? && a.d == d && p.dispatches[d].todo != [] {
        TurnOk(p, d);
        DispatchKept(p, q, q.dispatches[d]);
      } else {
        assert DispatchOk(p, p.dispatches[d]);
        DispatchKept(p, q, p.dispatches[d]);
      }
    }
  }

  lemma {:induction false} RunInv(p: Plain, actions: seq<Action>)
    requires Inv(p)
    ensures Inv(Run(p, actions)) && p.next <= Run(p, actions).next
    ensures forall h: Handle :: h < p.next && IsLive(Run(p, actions).live, h) ==> IsLive(p.live, h)
    decreases |actions|
  {
    if actions != [] {
      StepInv(p, actions[0]);
      RunInv(Step(p, actions[0]), actions[1..]);
    }
  }

  /** In every run each dispatch called, in subscription order and once each, only handlers that were live at its
      start and whose turn has come; and those of them that are still live were all called. */
  lemma DispatchOrder(actions: seq<Action>, d: nat)
    requires d < |Run(EMPTY, actions).dispatches|
    ensures var p := Run(EMPTY, actions);
            var x := p.dispatches[d];
            && Increasing(x.begun) && Increasing(x.ran)
            && |x.todo| <= |x.begun| && x.todo == x.begun[|x.begun| - |x.todo|..]
            && (forall h :: h in x.ran ==> h in x.begun[..|x.begun| - |x.todo|])
            && (forall h :: h in x.begun[..|x.begun| - |x.todo|] && IsLive(p.live, h) ==> h in x.ran)
  {
    RunInv(EMPTY, actions);
    assert DispatchOk(Run(EMPTY, actions), Run(EMPTY, actions).dispatches[d]);
  }

  // ---------------------------------------------------------------------------------------------------------
  // Who is live
  // ---------------------------------------------------------------------------------------------------------

  /** How many handles were given out. */
  function Handles(actions: seq<Action>): (r: nat)
  {
    if actions == [] then 0 else Handles(actions[..|actions| - 1]) + if actions[|actions| - 1].DoSubscribe? then 1 else 0
  }

  /** Action i gave out the handle, for the event type. */
  ghost predicate SubscribedAt(actions: seq<Action>, i: nat, h: Handle, kind: EventType)
  {
    i < |actions| && actions[i] == DoSubscribe(kind) && h == 1 + Handles(actions[..i])
  }

  /** The handle was given out for the event type and not unsubscribed since. */
  ghost predicate StillSubscribed(actions: seq<Action>, h: Handle, kind: EventType)
  {
    exists i: nat :: SubscribedAt(actions, i, h, kind) && DoUnsubscribe(h) !in actions[i + 1..]
  }

  lemma AtStill(front: seq<Action>, a: Action, i: nat, h: Handle, kind: EventType)
    requires i <= |front|
    ensures i < |front| ==> (SubscribedAt(front + [a], i, h, kind) <==> SubscribedAt(front, i, h, kind))
    ensures (front + [a])[i + 1..] == if i < |front| then front[i + 1..] + [a] else []
    ensures (front + [a])[..i] == front[..i]
  {
    assert (front + [a])[..i] == front[..i];
  }

  lemma StillNext(front: seq<Action>, a: Action, h: Handle, kind: EventType)
    ensures StillSubscribed(front + [a], h, kind) <==>
              (a == DoSubscribe(kind) && h == 1 + Handles(front)) || (StillSubscribed(front, h, kind) && a != DoUnsubscribe(h))
  {
    var all, n := front + [a], |front|;
    AtStill(front, a, n, h, kind);
    assert front[..n] == front;
    if StillSubscribed(all, h, kind) {
      var i: nat :| SubscribedAt(all, i, h, kind) && DoUnsubscribe(h) !in all[i + 1..];
      if i < n { StaysAt(front, a, i, h, kind); }
    }
    if StillSubscribed(front, h, kind) && a != DoUnsubscribe(h) {
      var i: nat :| SubscribedAt(front, i, h, kind) && DoUnsubscribe(h) !in front[i + 1..];
      AtStill(front, a, i, h, kind);
      assert SubscribedAt(all, i, h, kind) && DoUnsubscribe(h) !in all[i + 1..];
    }
    if a == DoSubscribe(kind) && h == 1 + Handles(front) {
      assert SubscribedAt(all, n, h, kind) && DoUnsubscribe(h) !in all[n + 1..];
    }
  }

  lemma StaysAt(front: seq<Action>, a: Action, i: nat, h: Handle, kind: EventType)
    requires i < |front| && SubscribedAt(front + [a], i, h, kind) && DoUnsubscribe(h) !in (front + [a])[i + 1..]
    ensures StillSubscribed(front, h, kind) && a != DoUnsubscribe(h)
  {
    AtStill(front, a, i, h, kind);
    assert (front[i + 1..] + [a])[|front[i + 1..]|] == a;
    assert SubscribedAt(front, i, h, kind) && DoUnsubscribe(h) !in front[i + 1..];
  }

  lemma {:induction false} RunLast(p: Plain, actions: seq<Action>, a: Action)
    ensures Run(p, actions + [a]) == Step(Run(p, actions), a)
    decreases |actions|
  {
    if actions == [] {
      assert [] + [a] == [a] && [a][1..] == [];
    } else {
      assert (actions + [a])[1..] == actions[1..] + [a];
      RunLast(Step(p, actions[0]), actions[1..], a);
    }
  }

  lemma StepLive(p: Plain, a: Action, s: Sub)
    ensures s in Step(p, a).live <==>
              (a == DoSubscribe(s.kind) && s.handle == p.next) || (s in p.live && a != DoUnsubscribe(s.handle))
  {
    if a.DoUnsubscribe? { WithoutMembers(p.live, a.handle, s); }
  }

  /** In every run the live subscriptions are those of the actions themselves. */
  lemma {:induction false} LiveMeaning(actions: seq<Action>, s: Sub)
    ensures var p := Run(EMPTY, actions);
            p.next == 1 + Handles(actions) && (s in p.live <==> StillSubscribed(actions, s.handle, s.kind))
    decreases |actions|
  {
    if actions != [] {
      var front, a := actions[..|actions| - 1], actions[|actions| - 1];
      assert actions == front + [a];
      LiveMeaning(front, s);
      RunLast(EMPTY, front, a);
      StepLive(Run(EMPTY, front), a, s);
      StillNext(front, a, s.handle, s.kind);
    }
  }

  /** A dispatch starts, in every run, with exactly the handlers of its event type that were subscribed and not
      unsubscribed since, in the order of their subscription, and has called none. */
  lemma BegunWithTheLive(actions: seq<Action>, kind: EventType, h: Handle)
    ensures var p, q := Run(EMPTY, actions), Run(EMPTY, actions + [DoBegin(kind)]);
            && |q.dispatches| == |p.dispatches| + 1
            && var x := q.dispatches[|p.dispatches|];
            && Increasing(x.begun) && x.todo == x.begun && x.ran == []
            && (h in x.begun <==> StillSubscribed(actions, h, kind))
  {
    RunInv(EMPTY, actions);
    RunLast(EMPTY, actions, DoBegin(kind));
    LiveMeaning(actions, Sub(h, kind));
    OfKindMembers(Run(EMPTY, actions).live, kind, h);
    OfKindIncreasing(Run(EMPTY, actions).live, kind);
  }

  /** At its turn a handler is called exactly if it is subscribed then. */
  lemma CalledIfSubscribed(actions: seq<Action>, d: nat)
    requires d < |Run(EMPTY, actions).dispatches| && Run(EMPTY, actions).dispatches[d].todo != []
    ensures d < |Run(EMPTY, actions + [DoTurn(d)]).dispatches|
    ensures var x, y := Run(EMPTY, actions).dispatches[d], Run(EMPTY, actions + [DoTurn(d)]).dispatches[d];
            && y.begun == x.begun && y.todo == x.todo[1..]
            && (if exists kind :: StillSubscribed(actions, x.todo[0], kind) then y.ran == x.ran + [x.todo[0]] else y.ran == x.ran)
  {
    RunLast(EMPTY, actions, DoTurn(d));
    var p, h := Run(EMPTY, actions), Run(EMPTY, actions).dispatches[d].todo[0];
    if IsLive(p.live, h) {
      var i :| 0 <= i < |p.live| && p.live[i].handle == h;
      LiveMeaning(actions, p.live[i]);
    }
    forall kind | StillSubscribed(actions, h, kind) ensures IsLive(p.live, h) {
      LiveMeaning(actions, Sub(h, kind));
      IsLiveMembers(p.live, h);
    }
  }

  /** What dispatch d was started with never changes, and a handler that is gone before its turn is never called. */
  ghost predicate NotCalled(p: Plain, d: nat, h: Handle, begun: seq<Handle>)
  {
    && Inv(p) && d < |p.dispatches| && h < p.next && !IsLive(p.live, h)
    && h !in p.dispatches[d].ran && p.dispatches[d].begun == begun
  }

  lemma {:induction false} UnsubscribedNeverCalled(p: Plain, actions: seq<Action>, d: nat, h: Handle, begun: seq<Handle>)
    requires NotCalled(p, d, h, begun)
    ensures NotCalled(Run(p, actions), d, h, begun)
    decreases |actions|
  {
    if actions != [] {
      StepInv(p, actions[0]);
      UnsubscribedNeverCalled(Step(p, actions[0]), actions[1..], d, h, begun);
    }
  }
}
