/**
 The lock-free multi-producer queue of public/tge/threading/mpsc_queue.hpp, as a machine of atomic steps.

 Nodes live in a heap whose addresses may be handed out again after a delete. Every step that dereferences a
 node which is not allocated is a `Fault`; the main theorem says that no interleaving of producers and the
 consumer ever faults, and that the values leave in exchange order.
 Atomics are taken as sequentially consistent steps.
 */
module MpscQueue {
  import opened Wrappers

  type Address = nat
  type Thread = nat

  datatype Node<T> = Node(data: Option<T>, next: Option<Address>)

  /** Where a producer stands inside Enqueue; a thread outside it has no entry. */
  datatype Producer<T> =
    | Filled(node: Address, value: T)            // node private: data written, next null
    | Exchanged(node: Address, prev: Address)    // m_head exchanged, prev->next not stored yet

  /** Where the only consumer stands inside Dequeue. */
  datatype Consumer<T> =
    | Ready
    | SawNext(spent: Address, next: Address)
    | MovedOut(spent: Address, next: Address, output: Option<T>)
    | Advanced(spent: Address, output: Option<T>)  // m_tail stored, old tail not deleted yet

  datatype Queue<T> = Queue(
    heap: map<Address, Node<T>>,
    head: Address,
    tail: Address,
    producers: map<Thread, Producer<T>>,
    consumer: Consumer<T>)

  datatype Action<T> =
    | Fill(thread: Thread, node: Address, value: T)
    | Exchange(thread: Thread)
    | Link(thread: Thread)
    | LoadNext
    | MoveOut
    | StoreTail
    | DeleteTail

  /** `Blocked`: program order does not allow the action here. `Fault`: it touched memory that is not allocated. */
  datatype Outcome<T> = Blocked | Fault | Done(queue: Queue<T>)

  function Initial<T>(stub: Address): (q: Queue<T>)
  {
    Queue(map[stub := Node(None, None)], stub, stub, map[], Ready)
  }

  function Apply<T>(q: Queue<T>, a: Action<T>): (r: Outcome<T>)
  {
    match a
    case Fill(t, n, v) =>
      if t in q.producers || n in q.heap then Blocked
      else Done(q.(heap := q.heap[n := Node(Some(v), None)], producers := q.producers[t := Filled(n, v)]))
    case Exchange(t) =>
      if t in q.producers && q.producers[t].Filled? then
        var n := q.producers[t].node;
        Done(q.(head := n, producers := q.producers[t := Exchanged(n, q.head)]))
      else Blocked
    case Link(t) =>
      if t in q.producers && q.producers[t].Exchanged? then
        var Exchanged(n, prev) := q.producers[t];
        if prev !in q.heap then Fault
        else Done(q.(heap := q.heap[prev := q.heap[prev].(next := Some(n))], producers := q.producers - {t}))
      else Blocked
    case LoadNext =>
      if !q.consumer.Ready? then Blocked
      else if q.tail !in q.heap then Fault
      else
        var next := q.heap[q.tail].next;
        if next == None then Done(q) else Done(q.(consumer := SawNext(q.tail, next.value)))
    case MoveOut =>
      if !q.consumer.SawNext? then Blocked
      else
        var SawNext(spent, n) := q.consumer;
        if n !in q.heap then Fault
        else Done(q.(heap := q.heap[n := q.heap[n].(data := None)], consumer := MovedOut(spent, n, q.heap[n].data)))
    case StoreTail =>
      if !q.consumer.MovedOut? then Blocked
      else Done(q.(tail := q.consumer.next, consumer := Advanced(q.consumer.spent, q.consumer.output)))
    case DeleteTail =>
      if !q.consumer.Advanced? then Blocked
      else if q.consumer.spent !in q.heap then Fault
      else Done(q.(heap := q.heap - {q.consumer.spent}, consumer := Ready))
  }

  // ---------------------------------------------------------------------------------------------------------
  // What happened so far
  // ---------------------------------------------------------------------------------------------------------

  datatype Push<T> = Push(thread: Thread, value: T)

  /** nodes[0] is the first stub and nodes[k + 1] carried pushed[k]; nodes[base] is the tail, and `at` finds the
      latest index of an address in `nodes`. `writer` is the thread that last filled an address, `filled` lists the
      values in the order the producers wrote them into nodes, `popped` those moved out of the queue. */
  datatype History<T> = History(
    nodes: seq<Address>,
    at: map<Address, nat>,
    base: nat,
    writer: map<Address, Thread>,
    filled: seq<Push<T>>,
    pushed: seq<Push<T>>,
    popped: seq<T>)

  function InitialHistory<T>(stub: Address): (h: History<T>)
  {
    History([stub], map[stub := 0], 0, map[], [], [], [])
  }

  /** The history after action `a`, which `Apply` accepts in `q`. */
  function Record<T>(q: Queue<T>, h: History<T>, a: Action<T>): (r: History<T>)
  {
    match a
    case Fill(t, n, v) => h.(writer := h.writer[n := t], filled := h.filled + [Push(t, v)])
    case Exchange(t) =>
      if t in q.producers && q.producers[t].Filled? then
        var n := q.producers[t].node;
        h.(nodes := h.nodes + [n], at := h.at[n := |h.nodes|], pushed := h.pushed + [Push(t, q.producers[t].value)])
      else h
    case MoveOut =>
      if q.consumer.SawNext? && q.consumer.next in q.heap && q.heap[q.consumer.next].data.Some? then
        h.(popped := h.popped + [q.heap[q.consumer.next].data.value])
      else h
    case StoreTail => h.(base := h.base + 1)
    case _ => h
  }

  function Values<T>(s: seq<Push<T>>): (r: seq<T>)
    ensures |r| == |s|
    ensures forall i :: 0 <= i < |s| ==> r[i] == s[i].value
  {
    seq(|s|, i requires 0 <= i < |s| => s[i].value)
  }

  /** The values one thread pushed, in order. */
  function Own<T>(s: seq<Push<T>>, t: Thread): (r: seq<T>)
  {
    if s == [] then []
    else
      var last := s[|s| - 1];
      Own(s[..|s| - 1], t) + if last.thread == t then [last.value] else []
  }

  // ---------------------------------------------------------------------------------------------------------
  // The invariant
  // ---------------------------------------------------------------------------------------------------------

  ghost predicate Shape<T>(q: Queue<T>, h: History<T>)
  {
    && |h.nodes| == |h.pushed| + 1
    && h.base < |h.nodes|
    && q.tail == h.nodes[h.base]
    && q.head == h.nodes[|h.nodes| - 1]
    && (forall i :: h.base <= i < |h.nodes| ==> h.nodes[i] in q.heap && h.nodes[i] in h.at && h.at[h.nodes[i]] == i)
    && q.heap[q.head].next == None
  }

  /** The address carries a node that is still between tail and head. */
  ghost predicate Linked<T>(h: History<T>, a: Address)
  {
    a in h.at && h.base <= h.at[a] < |h.nodes| && h.nodes[h.at[a]] == a
  }

  /** Node i points at its successor, or the producer of that successor still has to store the link. */
  ghost predicate LinkOk<T>(q: Queue<T>, h: History<T>, i: nat)
    requires Shape(q, h)
    requires h.base <= i < |h.nodes| - 1
  {
    var next := q.heap[h.nodes[i]].next;
    var t := h.pushed[i].thread;
    || next == Some(h.nodes[i + 1])
    || (next == None && t in q.producers && q.producers[t] == Exchanged(h.nodes[i + 1], h.nodes[i]))
  }

  ghost predicate DataOk<T>(q: Queue<T>, h: History<T>, i: nat)
    requires Shape(q, h)
    requires h.base < i < |h.nodes|
  {
    (i == h.base + 1 && q.consumer.MovedOut?) || q.heap[h.nodes[i]].data == Some(h.pushed[i - 1].value)
  }

  ghost predicate ProducerOk<T>(q: Queue<T>, h: History<T>, t: Thread)
    requires Shape(q, h)
    requires t in q.producers
  {
    match q.producers[t]
    case Filled(n, v) =>
      && n in q.heap && q.heap[n] == Node(Some(v), None) && !Linked(h, n)
      && n in h.writer && h.writer[n] == t
      && (q.consumer.Advanced? ==> q.consumer.spent != n)
    case Exchanged(n, prev) =>
      && Linked(h, prev) && h.at[prev] < |h.nodes| - 1
      && n == h.nodes[h.at[prev] + 1]
      && h.pushed[h.at[prev]].thread == t
      && q.heap[prev].next == None
  }

  ghost predicate ConsumerOk<T>(q: Queue<T>, h: History<T>)
    requires Shape(q, h)
  {
    match q.consumer
    case Ready => |h.popped| == h.base
    case SawNext(spent, n) =>
      && |h.popped| == h.base && h.base + 1 < |h.nodes|
      && spent == q.tail && n == h.nodes[h.base + 1] && q.heap[spent].next == Some(n)
    case MovedOut(spent, n, out) =>
      && |h.popped| == h.base + 1 && h.base + 1 < |h.nodes|
      && spent == q.tail && n == h.nodes[h.base + 1] && q.heap[spent].next == Some(n)
      && out == Some(h.popped[h.base])
    case Advanced(spent, out) =>
      && |h.popped| == h.base > 0 && spent in q.heap && !Linked(h, spent) && out == Some(h.popped[h.base - 1])
  }

  ghost predicate Inv<T>(q: Queue<T>, h: History<T>)
  {
    && Shape(q, h)
    && (forall i :: h.base <= i < |h.nodes| - 1 ==> LinkOk(q, h, i))
    && (forall i :: h.base < i < |h.nodes| ==> DataOk(q, h, i))
    && (forall t :: t in q.producers ==> ProducerOk(q, h, t))
    && ConsumerOk(q, h)
    && |h.popped| <= |h.pushed| && (forall i :: 0 <= i < |h.popped| ==> h.popped[i] == h.pushed[i].value)
  }


  // ---------------------------------------------------------------------------------------------------------
  // Every step keeps the invariant and touches allocated memory only
  // ---------------------------------------------------------------------------------------------------------

  lemma InitialInv<T>(stub: Address)
    ensures Inv(Initial<T>(stub), InitialHistory<T>(stub))
  {
  }

  lemma FillStep<T>(q: Queue<T>, h: History<T>, a: Action<T>)
    requires Inv(q, h) && a.Fill? && Apply(q, a).Done?
    ensures Inv(Apply(q, a).queue, Record(q, h, a))
  {
    var q', h' := Apply(q, a).queue, Record(q, h, a);
    forall i | h'.base <= i < |h'.nodes| - 1 ensures LinkOk(q', h', i) { assert LinkOk(q, h, i); }
    forall i | h'.base < i < |h'.nodes| ensures DataOk(q', h', i) { assert DataOk(q, h, i); }
    forall t | t in q'.producers ensures ProducerOk(q', h', t) {
      if t in q.producers {
        assert ProducerOk(q, h, t);
      }
    }
  }

  lemma ExchangeProducers<T>(q: Queue<T>, h: History<T>, a: Action<T>, t: Thread)
    requires Inv(q, h) && a.Exchange? && Apply(q, a).Done? && t in q.producers
    ensures Shape(Apply(q, a).queue, Record(q, h, a))
    ensures ProducerOk(Apply(q, a).queue, Record(q, h, a), t)
  {
    var q', h' := Apply(q, a).queue, Record(q, h, a);
    assert ProducerOk(q, h, a.thread);
    assert ProducerOk(q, h, t);
  }

  lemma ExchangeStep<T>(q: Queue<T>, h: History<T>, a: Action<T>)
    requires Inv(q, h) && a.Exchange? && Apply(q, a).Done?
    ensures Inv(Apply(q, a).queue, Record(q, h, a))
  {
    var q', h' := Apply(q, a).queue, Record(q, h, a);
    var last := |h.nodes| - 1;
    ExchangeProducers(q, h, a, a.thread);
    assert ProducerOk(q, h, a.thread);
    forall i | h'.base <= i < |h'.nodes| - 1 ensures LinkOk(q', h', i) {
      if i < last { assert LinkOk(q, h, i); }
    }
    forall i | h'.base < i < |h'.nodes| ensures DataOk(q', h', i) {
      if i <= last { assert DataOk(q, h, i); }
    }
    forall t | t in q'.producers ensures ProducerOk(q', h', t) { ExchangeProducers(q, h, a, t); }
  }

  lemma LinkLinks<T>(q: Queue<T>, h: History<T>, t0: Thread, i: nat)
    requires Inv(q, h) && t0 in q.producers && q.producers[t0].Exchanged?
    requires h.base <= i < |h.nodes| - 1
    ensures Apply(q, Link(t0)).Done? && Shape(Apply(q, Link(t0)).queue, h)
    ensures LinkOk(Apply(q, Link(t0)).queue, h, i)
  {
    assert ProducerOk(q, h, t0);
    assert LinkOk(q, h, i);
  }

  lemma LinkProducers<T>(q: Queue<T>, h: History<T>, t0: Thread, t: Thread)
    requires Inv(q, h) && t0 in q.producers && q.producers[t0].Exchanged?
    requires t in q.producers && t != t0
    ensures Apply(q, Link(t0)).Done? && Shape(Apply(q, Link(t0)).queue, h)
    ensures ProducerOk(Apply(q, Link(t0)).queue, h, t)
  {
    assert ProducerOk(q, h, t0);
    assert ProducerOk(q, h, t);
  }

  lemma LinkStep<T>(q: Queue<T>, h: History<T>, a: Action<T>)
    requires Inv(q, h) && a.Link? && !Apply(q, a).Blocked?
    ensures Apply(q, a).Done? && Inv(Apply(q, a).queue, Record(q, h, a))
  {
    assert ProducerOk(q, h, a.thread);
    var q' := Apply(q, a).queue;
    assert Shape(q', h);
    forall i | h.base <= i < |h.nodes| - 1 ensures LinkOk(q', h, i) { LinkLinks(q, h, a.thread, i); }
    forall i | h.base < i < |h.nodes| ensures DataOk(q', h, i) { assert DataOk(q, h, i); }
    forall t | t in q'.producers ensures ProducerOk(q', h, t) { LinkProducers(q, h, a.thread, t); }
  }

  lemma LoadNextStep<T>(q: Queue<T>, h: History<T>)
    requires Inv(q, h) && q.consumer.Ready?
    ensures Apply(q, LoadNext).Done? && Inv(Apply(q, LoadNext).queue, h)
  {
    var q' := Apply(q, LoadNext).queue;
    if h.base < |h.nodes| - 1 { assert LinkOk(q, h, h.base); }
    forall i | h.base <= i < |h.nodes| - 1 ensures LinkOk(q', h, i) { assert LinkOk(q, h, i); }
    forall i | h.base < i < |h.nodes| ensures DataOk(q', h, i) { assert DataOk(q, h, i); }
    forall t | t in q'.producers ensures ProducerOk(q', h, t) {
      assert ProducerOk(q, h, t);
    }
  }

  lemma MoveOutProducers<T>(q: Queue<T>, h: History<T>, t: Thread)
    requires Inv(q, h) && q.consumer.SawNext? && t in q.producers
    ensures Apply(q, MoveOut).Done? && Shape(Apply(q, MoveOut).queue, Record(q, h, MoveOut))
    ensures ProducerOk(Apply(q, MoveOut).queue, Record(q, h, MoveOut), t)
  {
    assert ProducerOk(q, h, t);
  }

  lemma MoveOutStep<T>(q: Queue<T>, h: History<T>)
    requires Inv(q, h) && q.consumer.SawNext?
    ensures Apply(q, MoveOut).Done? && Inv(Apply(q, MoveOut).queue, Record(q, h, MoveOut))
    ensures Record(q, h, MoveOut).popped == h.popped + [h.pushed[h.base].value]
  {
    var q', h' := Apply(q, MoveOut).queue, Record(q, h, MoveOut);
    assert DataOk(q, h, h.base + 1);
    forall i | h'.base <= i < |h'.nodes| - 1 ensures LinkOk(q', h', i) { assert LinkOk(q, h, i); }
    forall i | h'.base < i < |h'.nodes| ensures DataOk(q', h', i) { assert DataOk(q, h, i); }
    forall t | t in q'.producers ensures ProducerOk(q', h', t) { MoveOutProducers(q, h, t); }
  }

  lemma StoreTailStep<T>(q: Queue<T>, h: History<T>)
    requires Inv(q, h) && q.consumer.MovedOut?
    ensures Inv(Apply(q, StoreTail).queue, Record(q, h, StoreTail))
  {
    var q', h' := Apply(q, StoreTail).queue, Record(q, h, StoreTail);
    forall i | h'.base <= i < |h'.nodes| - 1 ensures LinkOk(q', h', i) { assert LinkOk(q, h, i); }
    forall i | h'.base < i < |h'.nodes| ensures DataOk(q', h', i) { assert DataOk(q, h, i); }
    assert Linked(h, h.nodes[h.base]);
    forall t | t in q'.producers ensures ProducerOk(q', h', t) {
      assert ProducerOk(q, h, t);
    }
  }

  lemma DeleteTailStep<T>(q: Queue<T>, h: History<T>)
    requires Inv(q, h) && q.consumer.Advanced?
    ensures Apply(q, DeleteTail).Done? && Inv(Apply(q, DeleteTail).queue, h)
  {
    var q' := Apply(q, DeleteTail).queue;
    forall i | h.base <= i < |h.nodes| ensures h.nodes[i] in q'.heap { assert Linked(h, h.nodes[i]); }
    assert Shape(q', h);
    forall i | h.base <= i < |h.nodes| - 1 ensures LinkOk(q', h, i) { assert LinkOk(q, h, i); }
    forall i | h.base < i < |h.nodes| ensures DataOk(q', h, i) { assert DataOk(q, h, i); }
    forall t | t in q'.producers ensures ProducerOk(q', h, t) {
      assert ProducerOk(q, h, t);
    }
  }

  /** One step: no fault, and the invariant carries over. */
  lemma StepInv<T>(q: Queue<T>, h: History<T>, a: Action<T>)
    requires Inv(q, h)
    ensures !Apply(q, a).Fault?
    ensures Apply(q, a).Done? ==> Inv(Apply(q, a).queue, Record(q, h, a))
  {
    if !Apply(q, a).Blocked? {
      match a
      case Fill(_, _, _) => FillStep(q, h, a);
      case Exchange(_) => ExchangeStep(q, h, a);
      case Link(_) => LinkStep(q, h, a);
      case LoadNext => LoadNextStep(q, h);
      case MoveOut => MoveOutStep(q, h);
      case StoreTail => StoreTailStep(q, h);
      case DeleteTail => DeleteTailStep(q, h);
    }
  }

  // ---------------------------------------------------------------------------------------------------------
  // Every run
  // ---------------------------------------------------------------------------------------------------------

  datatype Progress<T> = Crashed | Alive(queue: Queue<T>, history: History<T>)

  /** One scheduled action; an action that program order does not allow leaves everything as it is. */
  function Advance<T>(p: Progress<T>, a: Action<T>): (r: Progress<T>)
  {
    if p.Crashed? then p
    else
      match Apply(p.queue, a)
      case Blocked => p
      case Fault => Crashed
      case Done(q) => Alive(q, Record(p.queue, p.history, a))
  }

  function Run<T>(stub: Address, schedule: seq<Action<T>>): (r: Progress<T>)
  {
    if schedule == [] then Alive(Initial(stub), InitialHistory(stub))
    else Advance(Run(stub, schedule[..|schedule| - 1]), schedule[|schedule| - 1])
  }

  lemma {:induction false} RunInv<T>(stub: Address, schedule: seq<Action<T>>)
    ensures var r := Run(stub, schedule); r.Alive? && Inv(r.queue, r.history)
  {
    if schedule == [] {
      InitialInv<T>(stub);
    } else {
      var before := schedule[..|schedule| - 1];
      RunInv(stub, before);
      var r := Run(stub, before);
      StepInv(r.queue, r.history, schedule[|schedule| - 1]);
    }
  }

  /** Safe reclamation: in every interleaving no step dereferences or deletes a node that is not allocated, the
      head stays allocated, and a node that a stalled producer still has to link from is allocated, has a null
      next and lies between tail and head. */
  lemma SafeReclamation<T>(stub: Address, schedule: seq<Action<T>>)
    ensures var r := Run(stub, schedule);
            && r.Alive?
            && r.queue.head in r.queue.heap && r.queue.tail in r.queue.heap
            && forall t :: t in r.queue.producers && r.queue.producers[t].Exchanged? ==>
                 var prev := r.queue.producers[t].prev;
                 && prev in r.queue.heap && r.queue.heap[prev].next == None && Linked(r.history, prev)
                 && (r.queue.consumer.Advanced? ==> r.queue.consumer.spent != prev)
  {
    RunInv(stub, schedule);
    var r := Run(stub, schedule);
    forall t | t in r.queue.producers ensures ProducerOk(r.queue, r.history, t) {}
  }

  /** The abstract queue: what was exchanged in and not moved out. */
  function Fifo<T>(h: History<T>): (r: seq<T>)
    requires |h.popped| <= |h.pushed|
  {
    Values(h.pushed)[|h.popped|..]
  }

  /** Each step refines an operation of a plain FIFO: an exchange appends, moving out takes the front, every other
      step does nothing. */
  lemma StepRefinesFifo<T>(q: Queue<T>, h: History<T>, a: Action<T>)
    requires Inv(q, h) && Apply(q, a).Done?
    ensures |Record(q, h, a).popped| <= |Record(q, h, a).pushed|
    ensures match a
            case Exchange(t) => Fifo(Record(q, h, a)) == Fifo(h) + [q.producers[t].value]
            case MoveOut => Fifo(h) != [] && Apply(q, a).queue.consumer.output == Some(Fifo(h)[0])
                            && Fifo(Record(q, h, a)) == Fifo(h)[1..]
            case _ => Fifo(Record(q, h, a)) == Fifo(h)
  {
    if a.MoveOut? { MoveOutStep(q, h); }
  }

  /** Over every run the values moved out are a prefix of those exchanged in: none lost, repeated or reordered. */
  lemma DequeuedPrefix<T>(stub: Address, schedule: seq<Action<T>>)
    ensures var r := Run(stub, schedule); r.Alive? && r.history.popped <= Values(r.history.pushed)
  {
    RunInv(stub, schedule);
  }

  /** A dequeue that finds no next node: the queue is empty, or the producer of its front value sits between its
      exchange and its link. */
  lemma EmptyAnswer<T>(q: Queue<T>, h: History<T>)
    requires Inv(q, h) && q.consumer.Ready?
    ensures q.heap[q.tail].next == None <==>
              (Fifo(h) == []
               || (var t := h.pushed[|h.popped|].thread;
                   t in q.producers && q.producers[t].Exchanged? && q.producers[t].prev == q.tail))
  {
    if h.base < |h.nodes| - 1 {
      assert LinkOk(q, h, h.base);
      var t := h.pushed[h.base].thread;
      if t in q.producers { assert ProducerOk(q, h, t); }
    }
  }

  lemma {:induction false} OwnAppend<T>(s: seq<Push<T>>, x: Push<T>, t: Thread)
    ensures Own(s + [x], t) == Own(s, t) + if x.thread == t then [x.value] else []
  {
    assert (s + [x])[..|s|] == s;
  }

  lemma {:induction false} OwnPrefix<T>(s: seq<Push<T>>, n: nat, t: Thread)
    requires n <= |s|
    ensures Own(s[..n], t) <= Own(s, t)
  {
    if n < |s| {
      OwnPrefix(s[..|s| - 1], n, t);
      assert s[..|s| - 1][..n] == s[..n];
    } else {
      assert s[..n] == s;
    }
  }

  /** The value a thread filled into its node but did not exchange in yet, if any. */
  function InFlight<T>(q: Queue<T>, t: Thread): (r: seq<T>)
  {
    if t in q.producers && q.producers[t].Filled? then [q.producers[t].value] else []
  }

  lemma StepOwnOrder<T>(q: Queue<T>, h: History<T>, a: Action<T>, t: Thread)
    requires Apply(q, a).Done?
    requires Own(h.filled, t) == Own(h.pushed, t) + InFlight(q, t)
    ensures var h' := Record(q, h, a);
            Own(h'.filled, t) == Own(h'.pushed, t) + InFlight(Apply(q, a).queue, t)
  {
    match a
    case Fill(u, _, v) => FillOwnOrder(q, h, a, t);
    case Exchange(u) => ExchangeOwnOrder(q, h, a, t);
    case _ =>
  }

  lemma FillOwnOrder<T>(q: Queue<T>, h: History<T>, a: Action<T>, t: Thread)
    requires Apply(q, a).Done? && a.Fill?
    requires Own(h.filled, t) == Own(h.pushed, t) + InFlight(q, t)
    ensures var h' := Record(q, h, a);
            Own(h'.filled, t) == Own(h'.pushed, t) + InFlight(Apply(q, a).queue, t)
  {
    OwnAppend(h.filled, Push(a.thread, a.value), t);
  }

  lemma ExchangeOwnOrder<T>(q: Queue<T>, h: History<T>, a: Action<T>, t: Thread)
    requires Apply(q, a).Done? && a.Exchange?
    requires Own(h.filled, t) == Own(h.pushed, t) + InFlight(q, t)
    ensures var h' := Record(q, h, a);
            Own(h'.filled, t) == Own(h'.pushed, t) + InFlight(Apply(q, a).queue, t)
  {
    OwnAppend(h.pushed, Push(a.thread, q.producers[a.thread].value), t);
  }

  /** Each thread pushed what it filled, in that order, except a value it is about to exchange in. */
  lemma {:induction false} RunOwnOrder<T>(stub: Address, schedule: seq<Action<T>>, t: Thread)
    ensures var r := Run(stub, schedule);
            r.Alive? ==> Own(r.history.filled, t) == Own(r.history.pushed, t) + InFlight(r.queue, t)
  {
    if schedule != [] {
      var before := schedule[..|schedule| - 1];
      RunOwnOrder(stub, before, t);
      var r, a := Run(stub, before), schedule[|schedule| - 1];
      if r.Alive? && Apply(r.queue, a).Done? { StepOwnOrder(r.queue, r.history, a, t); }
    }
  }

  /** Per-producer order: what the consumer took from one thread is a prefix of what that thread enqueued. */
  lemma ProducerOrderKept<T>(stub: Address, schedule: seq<Action<T>>, t: Thread)
    ensures var r := Run(stub, schedule);
            r.Alive? && |r.history.popped| <= |r.history.pushed|
            && Own(r.history.pushed[..|r.history.popped|], t) <= Own(r.history.filled, t)
  {
    RunInv(stub, schedule);
    RunOwnOrder(stub, schedule, t);
    var h := Run(stub, schedule).history;
    OwnPrefix(h.pushed, |h.popped|, t);
  }

  // ---------------------------------------------------------------------------------------------------------
  // No leak, and the destructor
  // ---------------------------------------------------------------------------------------------------------

  /** Every allocated node is in the queue, or private to a producer, or about to be deleted. */
  ghost predicate Owned<T>(q: Queue<T>, h: History<T>, a: Address)
  {
    || Linked(h, a)
    || (a in h.writer && h.writer[a] in q.producers && q.producers[h.writer[a]].Filled?
        && q.producers[h.writer[a]].node == a)
    || (q.consumer.Advanced? && q.consumer.spent == a)
  }

  ghost predicate NoLeak<T>(q: Queue<T>, h: History<T>)
  {
    forall a :: a in q.heap ==> Owned(q, h, a)
  }

  lemma StepNoLeak<T>(q: Queue<T>, h: History<T>, a: Action<T>)
    requires Inv(q, h) && NoLeak(q, h) && Apply(q, a).Done?
    ensures NoLeak(Apply(q, a).queue, Record(q, h, a))
  {
    var q', h' := Apply(q, a).queue, Record(q, h, a);
    forall x | x in q'.heap ensures Owned(q', h', x) {
      if x in q.heap { assert Owned(q, h, x); }
      if a.Fill? || a.Exchange? || a.Link? {
        ProducerKeepsOwned(q, h, a, x);
      } else {
        ConsumerKeepsOwned(q, h, a, x);
      }
    }
  }

  lemma ProducerKeepsOwned<T>(q: Queue<T>, h: History<T>, a: Action<T>, x: Address)
    requires Inv(q, h) && Apply(q, a).Done? && (a.Fill? || a.Exchange? || a.Link?)
    requires x in Apply(q, a).queue.heap && (x in q.heap ==> Owned(q, h, x))
    ensures Owned(Apply(q, a).queue, Record(q, h, a), x)
  {
    if a.Exchange? { assert ProducerOk(q, h, a.thread); }
  }

  lemma ConsumerKeepsOwned<T>(q: Queue<T>, h: History<T>, a: Action<T>, x: Address)
    requires Inv(q, h) && Apply(q, a).Done? && !(a.Fill? || a.Exchange? || a.Link?)
    requires x in Apply(q, a).queue.heap && (x in q.heap ==> Owned(q, h, x))
    ensures Owned(Apply(q, a).queue, Record(q, h, a), x)
  {
    if a.StoreTail? && x == q.tail { assert h.at[x] == h.base; }
  }

  lemma {:induction false} RunNoLeak<T>(stub: Address, schedule: seq<Action<T>>)
    ensures var r := Run(stub, schedule); r.Alive? && NoLeak(r.queue, r.history)
  {
    RunInv(stub, schedule);
    if schedule == [] {
      assert NoLeak(Initial<T>(stub), InitialHistory<T>(stub));
    } else {
      var before := schedule[..|schedule| - 1];
      RunNoLeak(stub, before);
      RunInv(stub, before);
      var r := Run(stub, before);
      if Apply(r.queue, schedule[|schedule| - 1]).Done? {
        StepNoLeak(r.queue, r.history, schedule[|schedule| - 1]);
      }
    }
  }

  /** The destructor's walk: with nobody inside an operation it deletes every node, each once, and nothing else. */
  method Destroy<T>(q: Queue<T>, ghost h: History<T>) returns (heap: map<Address, Node<T>>)
    requires Inv(q, h) && NoLeak(q, h) && q.producers == map[] && q.consumer.Ready?
    ensures heap == map[]
  {
    heap := q.heap;
    var node := Some(q.tail);
    ghost var i := h.base;
    while node != None
      invariant h.base <= i <= |h.nodes|
      invariant node == if i < |h.nodes| then Some(h.nodes[i]) else None
      invariant forall a :: a in heap <==> Linked(h, a) && h.at[a] >= i
      invariant forall a :: a in heap ==> a in q.heap && heap[a] == q.heap[a]
      decreases |h.nodes| - i
    {
      assert Linked(h, h.nodes[i]);
      if i < |h.nodes| - 1 { assert LinkOk(q, h, i); }
      var next := heap[node.value].next;
      heap := heap - {node.value};
      node := next;
      i := i + 1;
    }
  }
}
