/**
 Messages on their way to listeners: who is called with what, the stable sort of a replay, and the accounting of calls
 that a thread still has to make.
 */
module Deliveries {

  type Listener = nat   // one registration; a key that registers again is a new one

  /** Messages are numbered per channel in the order written; the stamp is what the clock said, which may go back. */
  datatype Message = Message(channel: nat, number: nat, stamp: int)

  datatype Delivery = Delivery(to: Listener, message: Message)

  /** Every message to every listener, message by message. */
  function Fan(ms: seq<Message>, ls: seq<Listener>): (r: seq<Delivery>)
  {
    if ms == [] then [] else Fan(ms[..|ms| - 1], ls) + Each(ms[|ms| - 1], ls)
  }

  function Each(m: Message, ls: seq<Listener>): (r: seq<Delivery>)
  {
    if ls == [] then [] else Each(m, ls[..|ls| - 1]) + [Delivery(ls[|ls| - 1], m)]
  }

  /** What one listener was assigned from one channel, in order. */
  function Share(ds: seq<Delivery>, l: Listener, c: nat): (r: seq<Message>)
  {
    if ds == [] then []
    else
      var d := ds[|ds| - 1];
      Share(ds[..|ds| - 1], l, c) + if d.to == l && d.message.channel == c then [d.message] else []
  }

  lemma {:induction false} ShareAppend(a: seq<Delivery>, b: seq<Delivery>, l: Listener, c: nat)
    ensures Share(a + b, l, c) == Share(a, l, c) + Share(b, l, c)
  {
    if b == [] {
      assert a + b == a;
    } else {
      ShareAppend(a, b[..|b| - 1], l, c);
      assert (a + b)[..|a + b| - 1] == a + b[..|b| - 1];
    }
  }

  ghost predicate Unique(ls: seq<Listener>)
  {
    forall i, j :: 0 <= i < j < |ls| ==> ls[i] != ls[j]
  }

  lemma {:induction false} ShareOfEach(m: Message, ls: seq<Listener>, l: Listener, c: nat)
    requires Unique(ls)
    ensures Share(Each(m, ls), l, c) == if l in ls && m.channel == c then [m] else []
  {
    if ls != [] {
      var front, last := ls[..|ls| - 1], ls[|ls| - 1];
      ShareOfEach(m, front, l, c);
      assert ls == front + [last];
      ShareAppend(Each(m, front), [Delivery(last, m)], l, c);
      assert Share([Delivery(last, m)], l, c) == if last == l && m.channel == c then [m] else [];
      if l == last { assert l !in front; }
    }
  }

  lemma {:induction false} ShareOfFan(ms: seq<Message>, ls: seq<Listener>, l: Listener, c: nat)
    requires Unique(ls)
    ensures Share(Fan(ms, ls), l, c) == if l in ls then OnChannel(ms, c) else []
  {
    if ms != [] {
      ShareOfFan(ms[..|ms| - 1], ls, l, c);
      ShareAppend(Fan(ms[..|ms| - 1], ls), Each(ms[|ms| - 1], ls), l, c);
      ShareOfEach(ms[|ms| - 1], ls, l, c);
    }
  }

  function OnChannel(ms: seq<Message>, c: nat): (r: seq<Message>)
  {
    if ms == [] then []
    else
      var m := ms[|ms| - 1];
      OnChannel(ms[..|ms| - 1], c) + if m.channel == c then [m] else []
  }

  ghost predicate AllOn(ms: seq<Message>, c: nat)
  {
    forall i :: 0 <= i < |ms| ==> ms[i].channel == c
  }

  lemma {:induction false} OnOwnChannel(ms: seq<Message>, c: nat, d: nat)
    requires AllOn(ms, c)
    ensures OnChannel(ms, d) == if c == d then ms else []
  {
    if ms != [] {
      OnOwnChannel(ms[..|ms| - 1], c, d);
      assert ms == ms[..|ms| - 1] + [ms[|ms| - 1]];
    }
  }

  lemma {:induction false} OnChannelAppend(a: seq<Message>, b: seq<Message>, c: nat)
    ensures OnChannel(a + b, c) == OnChannel(a, c) + OnChannel(b, c)
  {
    if b == [] {
      assert a + b == a;
    } else {
      OnChannelAppend(a, b[..|b| - 1], c);
      assert (a + b)[..|a + b| - 1] == a + b[..|b| - 1];
    }
  }

  lemma FanShare(promised: seq<Delivery>, ms: seq<Message>, ls: seq<Listener>, c: nat, l: Listener, d: nat)
    requires Unique(ls) && AllOn(ms, c)
    ensures Share(promised + Fan(ms, ls), l, d) == Share(promised, l, d) + if l in ls && d == c then ms else []
  {
    ShareAppend(promised, Fan(ms, ls), l, d);
    ShareOfFan(ms, ls, l, d);
    OnOwnChannel(ms, c, d);
  }

  // ---------------------------------------------------------------------------------------------------------
  // The order of calls
  // ---------------------------------------------------------------------------------------------------------

  function Messages(ds: seq<Delivery>): (r: seq<Message>)
  {
    seq(|ds|, i requires 0 <= i < |ds| => ds[i].message)
  }

  ghost predicate AllTo(ds: seq<Delivery>, l: Listener)
  {
    forall i :: 0 <= i < |ds| ==> ds[i].to == l
  }

  /** Who is called with the message, in order. */
  function Hearers(ds: seq<Delivery>, m: Message): (r: seq<Listener>)
  {
    if ds == [] then []
    else
      var d := ds[|ds| - 1];
      Hearers(ds[..|ds| - 1], m) + if d.message == m then [d.to] else []
  }

  ghost predicate InNumberOrder(ds: seq<Delivery>)
  {
    forall i, j :: 0 <= i < j < |ds| ==> ds[i].message.number <= ds[j].message.number
  }

  /** Message by message, each of them to all of these listeners in their order, and to nobody else. */
  ghost predicate Dispatches(ds: seq<Delivery>, ms: seq<Message>, ls: seq<Listener>)
  {
    && (forall i :: 0 <= i < |ds| ==> ds[i].message in ms)
    && (forall m :: m in ms ==> Hearers(ds, m) == ls)
    && InNumberOrder(ds)
  }

  /** Messages as a channel numbers them. */
  ghost predicate Increasing(ms: seq<Message>)
  {
    forall i, j :: 0 <= i < j < |ms| ==> ms[i].number < ms[j].number
  }

  lemma {:induction false} FanToOne(ms: seq<Message>, l: Listener)
    ensures |Fan(ms, [l])| == |ms| && forall i :: 0 <= i < |ms| ==> Fan(ms, [l])[i] == Delivery(l, ms[i])
    ensures AllTo(Fan(ms, [l]), l) && Messages(Fan(ms, [l])) == ms
  {
    if ms != [] {
      FanToOne(ms[..|ms| - 1], l);
      assert Each(ms[|ms| - 1], [l]) == [Delivery(l, ms[|ms| - 1])];
    }
  }

  lemma {:induction false} HearersJoin(a: seq<Delivery>, b: seq<Delivery>, m: Message)
    ensures Hearers(a + b, m) == Hearers(a, m) + Hearers(b, m)
  {
    if b == [] {
      assert a + b == a;
    } else {
      HearersJoin(a, b[..|b| - 1], m);
      assert (a + b)[..|a + b| - 1] == a + b[..|b| - 1];
    }
  }

  lemma HearersLast(ds: seq<Delivery>, d: Delivery, m: Message)
    ensures Hearers(ds + [d], m) == Hearers(ds, m) + if d.message == m then [d.to] else []
  {
    assert (ds + [d])[..|ds|] == ds;
  }

  lemma {:induction false} EachIsOne(m: Message, ls: seq<Listener>)
    ensures forall i :: 0 <= i < |Each(m, ls)| ==> Each(m, ls)[i].message == m
  {
    if ls != [] { EachIsOne(m, ls[..|ls| - 1]); }
  }

  lemma {:induction false} EachHearers(m: Message, ls: seq<Listener>)
    ensures Hearers(Each(m, ls), m) == ls
  {
    if ls != [] {
      var front, l := ls[..|ls| - 1], ls[|ls| - 1];
      EachHearers(m, front);
      HearersLast(Each(m, front), Delivery(l, m), m);
      assert ls == front + [l];
    }
  }

  lemma {:induction false} FanDispatches(ms: seq<Message>, ls: seq<Listener>)
    requires Increasing(ms)
    ensures Dispatches(Fan(ms, ls), ms, ls)
  {
    if ms != [] {
      var front, last := ms[..|ms| - 1], ms[|ms| - 1];
      FanDispatches(front, ls);
      assert ms == front + [last];
      forall m | m in ms ensures Hearers(Fan(ms, ls), m) == ls { FanHearers(front, last, ls, m); }
      FanGoesOn(front, last, ls);
    }
  }

  lemma FanGoesOn(front: seq<Message>, last: Message, ls: seq<Listener>)
    requires Increasing(front + [last]) && Dispatches(Fan(front, ls), front, ls)
    ensures var ds := Fan(front, ls) + Each(last, ls);
            InNumberOrder(ds) && forall i :: 0 <= i < |ds| ==> ds[i].message in front + [last]
  {
    EachIsOne(last, ls);
    forall m | m in front ensures m.number < last.number {
      var k :| 0 <= k < |front| && front[k] == m;
      assert (front + [last])[k].number < (front + [last])[|front|].number;
    }
  }

  lemma FanHearers(front: seq<Message>, last: Message, ls: seq<Listener>, m: Message)
    requires Increasing(front + [last]) && Dispatches(Fan(front, ls), front, ls) && m in front + [last]
    ensures Hearers(Fan(front, ls) + Each(last, ls), m) == ls
  {
    HearersJoin(Fan(front, ls), Each(last, ls), m);
    if m == last {
      LastIsNew(front, last);
      NobodyHears(Fan(front, ls), m);
      EachHearers(last, ls);
    } else {
      EachIsOne(last, ls);
      NobodyHears(Each(last, ls), m);
    }
  }

  lemma LastIsNew(front: seq<Message>, last: Message)
    requires Increasing(front + [last])
    ensures last !in front
  {
    forall i | 0 <= i < |front| ensures front[i] != last { assert (front + [last])[i].number < (front + [last])[|front|].number; }
  }

  lemma {:induction false} NobodyHears(ds: seq<Delivery>, m: Message)
    requires forall i :: 0 <= i < |ds| ==> ds[i].message != m
    ensures Hearers(ds, m) == []
  {
    if ds != [] { NobodyHears(ds[..|ds| - 1], m); }
  }

  // ---------------------------------------------------------------------------------------------------------
  // Sorting by time stamp
  // ---------------------------------------------------------------------------------------------------------

  /** Behind everything that is not later. */
  function InsertByStamp(ms: seq<Message>, m: Message): (r: seq<Message>)
    ensures multiset(r) == multiset(ms) + multiset{m}
  {
    if ms == [] || ms[|ms| - 1].stamp <= m.stamp then ms + [m]
    else
      var front, last := ms[..|ms| - 1], ms[|ms| - 1];
      assert ms == front + [last];
      InsertByStamp(front, m) + [last]
  }

  function SortByStamp(ms: seq<Message>): (r: seq<Message>)
    ensures multiset(r) == multiset(ms)
  {
    if ms == [] then []
    else
      assert ms == ms[..|ms| - 1] + [ms[|ms| - 1]];
      InsertByStamp(SortByStamp(ms[..|ms| - 1]), ms[|ms| - 1])
  }

  ghost predicate InStampOrder(ms: seq<Message>)
  {
    forall i, j :: 0 <= i < j < |ms| ==> ms[i].stamp <= ms[j].stamp
  }

  /** The messages of one time stamp, in order. */
  function AtStamp(ms: seq<Message>, t: int): (r: seq<Message>)
  {
    if ms == [] then []
    else
      var m := ms[|ms| - 1];
      AtStamp(ms[..|ms| - 1], t) + if m.stamp == t then [m] else []
  }

  lemma AtStampAppend(ms: seq<Message>, m: Message, t: int)
    ensures AtStamp(ms + [m], t) == AtStamp(ms, t) + if m.stamp == t then [m] else []
  {
    assert (ms + [m])[..|ms|] == ms;
  }

  lemma {:induction false} InsertedAtStamp(ms: seq<Message>, m: Message, t: int)
    requires InStampOrder(ms)
    ensures AtStamp(InsertByStamp(ms, m), t) == AtStamp(ms, t) + if m.stamp == t then [m] else []
  {
    if ms == [] || ms[|ms| - 1].stamp <= m.stamp {
      AtStampAppend(ms, m, t);
    } else {
      var front, last := ms[..|ms| - 1], ms[|ms| - 1];
      InsertedAtStamp(front, m, t);
      AtStampAppend(InsertByStamp(front, m), last, t);
      if t == last.stamp {
        assert AtStamp(front, t) + [] == AtStamp(front, t);
      } else {
        assert AtStamp(ms, t) == AtStamp(front, t) + [] == AtStamp(front, t);
      }
    }
  }

  lemma {:induction false} InsertedInOrder(ms: seq<Message>, m: Message)
    requires InStampOrder(ms)
    ensures InStampOrder(InsertByStamp(ms, m))
  {
    if ms != [] && m.stamp < ms[|ms| - 1].stamp {
      var front, last := ms[..|ms| - 1], ms[|ms| - 1];
      InsertedInOrder(front, m);
      var r := InsertByStamp(front, m);
      forall i | 0 <= i < |r| ensures r[i].stamp <= last.stamp {
        assert r[i] in multiset(r);
        assert r[i] in front || r[i] == m;
      }
    }
  }

  /** The sort is one, and it is stable: messages of one time stamp keep their order. */
  lemma {:induction false} SortIsStable(ms: seq<Message>, t: int)
    ensures InStampOrder(SortByStamp(ms)) && AtStamp(SortByStamp(ms), t) == AtStamp(ms, t)
  {
    if ms != [] {
      var front, last := ms[..|ms| - 1], ms[|ms| - 1];
      SortIsStable(front, t);
      InsertedInOrder(SortByStamp(front), last);
      InsertedAtStamp(SortByStamp(front), last, t);
    }
  }

  lemma OnChannelLast(ms: seq<Message>, m: Message, c: nat)
    ensures OnChannel(ms + [m], c) == OnChannel(ms, c) + if m.channel == c then [m] else []
  {
    assert (ms + [m])[..|ms|] == ms;
  }

  lemma {:induction false} OnChannelAtStamp(ms: seq<Message>, c: nat, t: int)
    ensures OnChannel(AtStamp(ms, t), c) == AtStamp(OnChannel(ms, c), t)
  {
    if ms != [] {
      var front, m := ms[..|ms| - 1], ms[|ms| - 1];
      OnChannelAtStamp(front, c, t);
      AtStampAppend(OnChannel(front, c), m, t);
      OnChannelLast(AtStamp(front, t), m, c);
      if m.stamp != t { assert AtStamp(ms, t) == AtStamp(front, t); }
      if m.channel != c { assert OnChannel(ms, c) == OnChannel(front, c); }
    }
  }

  /** A channel's messages are the same however they are arranged. */
  lemma {:induction false} OnChannelCount(ms: seq<Message>, c: nat, m: Message)
    ensures multiset(OnChannel(ms, c))[m] == if m.channel == c then multiset(ms)[m] else 0
  {
    if ms != [] {
      var front, last := ms[..|ms| - 1], ms[|ms| - 1];
      OnChannelCount(front, c, m);
      assert ms == front + [last];
    }
  }

  lemma SortOnChannel(ms: seq<Message>, c: nat)
    ensures multiset(OnChannel(SortByStamp(ms), c)) == multiset(OnChannel(ms, c))
  {
    forall m: Message ensures multiset(OnChannel(SortByStamp(ms), c))[m] == multiset(OnChannel(ms, c))[m] {
      OnChannelCount(SortByStamp(ms), c, m);
      OnChannelCount(ms, c, m);
    }
  }

  // ---------------------------------------------------------------------------------------------------------
  // Calls made and calls owed
  // ---------------------------------------------------------------------------------------------------------

  ghost function Bag(tasks: seq<seq<Delivery>>): (r: multiset<Delivery>)
  {
    if tasks == [] then multiset{} else Bag(tasks[..|tasks| - 1]) + multiset(tasks[|tasks| - 1])
  }

  lemma {:induction false} BagTake(tasks: seq<seq<Delivery>>, k: nat)
    requires k < |tasks| && tasks[k] != []
    ensures Bag(tasks) == Bag(tasks[k := tasks[k][1..]]) + multiset{tasks[k][0]}
  {
    var n := |tasks| - 1;
    var less := tasks[k := tasks[k][1..]];
    if k == n {
      assert less[..n] == tasks[..n];
      TakeFirst(tasks[k]);
    } else {
      BagTake(tasks[..n], k);
      assert less[..n] == tasks[..n][k := tasks[k][1..]];
    }
  }

  lemma TakeFirst(task: seq<Delivery>)
    requires task != []
    ensures multiset(task) == multiset(task[1..]) + multiset{task[0]}
  {
    assert task == [task[0]] + task[1..];
  }

  /** Every promised call was made once or is still to be made once. */
  ghost predicate Balanced(promised: seq<Delivery>, delivered: seq<Delivery>, tasks: seq<seq<Delivery>>)
  {
    multiset(promised) == multiset(delivered) + Bag(tasks)
  }

  lemma {:induction false} ShareCount(ds: seq<Delivery>, l: Listener, m: Message)
    ensures multiset(ds)[Delivery(l, m)] == multiset(Share(ds, l, m.channel))[m]
  {
    if ds != [] {
      var front, d := ds[..|ds| - 1], ds[|ds| - 1];
      ShareCount(front, l, m);
      assert ds == front + [d];
    }
  }

  lemma LeavesOthers(ls: seq<Listener>, k: nat)
    requires Unique(ls) && k < |ls|
    ensures Unique(ls[..k] + ls[k + 1..])
    ensures forall x :: x in ls[..k] + ls[k + 1..] <==> x in ls && x != ls[k]
  {
    var r := ls[..k] + ls[k + 1..];
    forall x | x in ls && x != ls[k] ensures x in r {
      var i :| 0 <= i < |ls| && ls[i] == x;
      assert r[if i < k then i else i - 1] == x;
    }
  }
}
