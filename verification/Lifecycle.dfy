/**
 The module lifecycle of private/module/runtime.cpp: initialization in the resolved order, termination in reverse.
 What the modules' Initialize calls answer is a parameter; the calls that the runtime makes into the modules are
 recorded in the order they are made.
 */
module Lifecycle {
  import opened Wrappers
  import opened Dependencies
  import opened ModuleGraph

  datatype Call =
    | Initialize(id: ModuleId, ok: bool)
    | Terminate(id: ModuleId)
    | DependencyInitialized(dependent: ModuleId, dependency: ModuleId)
    | DependencyTerminating(dependent: ModuleId, dependency: ModuleId)

  predicate Declares(dependent: Module, m: Module)
  {
    exists d :: d in dependent.dependencies && d.target == Some(m.id)
  }

  function Ids(ms: seq<Module>): (r: seq<ModuleId>)
    ensures |r| == |ms|
    ensures forall k :: 0 <= k < |ms| ==> r[k] == ms[k].id
  {
    seq(|ms|, k requires 0 <= k < |ms| => ms[k].id)
  }

  // ---------------------------------------------------------------------------------------------------------
  // Reading a record of calls
  // ---------------------------------------------------------------------------------------------------------

  /** What a record of calls comes to: the modules that were initialized with success and not terminated since, all
      whose Initialize and all whose Terminate was called, and whether it was orderly throughout. */
  datatype Ledger = Ledger(orderly: bool, active: seq<ModuleId>, started: seq<ModuleId>, terminated: seq<ModuleId>)

  /** Only the active module initialized last may be announced as terminating, and only other active modules hear. */
  ghost predicate GoodNotice(act: seq<ModuleId>, c: Call)
  {
    c.DependencyTerminating? ==>
      c.dependent in act && act != [] && c.dependency == act[|act| - 1] && c.dependent != c.dependency
  }

  function ActiveNext(act: seq<ModuleId>, c: Call): (r: seq<ModuleId>)
  {
    match c
    case Initialize(id, ok) => if ok then act + [id] else act
    case Terminate(id) => if act != [] && act[|act| - 1] == id then act[..|act| - 1] else act
    case _ => act
  }

  /** One more call. It is orderly if the active modules are then still a prefix of the resolved order. */
  ghost function Enter(l: Ledger, c: Call, ids: seq<ModuleId>): (r: Ledger)
  {
    Ledger(
      l.orderly && ActiveNext(l.active, c) <= ids && GoodNotice(l.active, c),
      ActiveNext(l.active, c),
      l.started + (if c.Initialize? then [c.id] else []),
      l.terminated + (if c.Terminate? then [c.id] else []))
  }

  ghost function EnterAll(l: Ledger, calls: seq<Call>, ids: seq<ModuleId>): (r: Ledger)
  {
    if calls == [] then l else Enter(EnterAll(l, calls[..|calls| - 1], ids), calls[|calls| - 1], ids)
  }

  ghost function Read(calls: seq<Call>, ids: seq<ModuleId>): (r: Ledger)
  {
    EnterAll(Ledger(true, [], [], []), calls, ids)
  }

  function Reversed(s: seq<ModuleId>): (r: seq<ModuleId>)
    ensures |r| == |s|
    ensures forall k :: 0 <= k < |s| ==> r[k] == s[|s| - 1 - k]
  {
    seq(|s|, k requires 0 <= k < |s| => s[|s| - 1 - k])
  }

  lemma {:induction false} EnterJoin(l: Ledger, a: seq<Call>, b: seq<Call>, ids: seq<ModuleId>)
    ensures EnterAll(l, a + b, ids) == EnterAll(EnterAll(l, a, ids), b, ids)
  {
    if b == [] {
      assert a + b == a;
    } else {
      var n := |b| - 1;
      EnterJoin(l, a, b[..n], ids);
      assert a + b == a + b[..n] + [b[n]] && b == b[..n] + [b[n]];
      EnterLast(l, a + b, a + b[..n], b[n], ids);
      EnterLast(EnterAll(l, a, ids), b, b[..n], b[n], ids);
    }
  }

  lemma EnterLast(l: Ledger, calls: seq<Call>, front: seq<Call>, c: Call, ids: seq<ModuleId>)
    requires calls == front + [c]
    ensures EnterAll(l, calls, ids) == Enter(EnterAll(l, front, ids), c, ids)
  {
    assert calls[..|calls| - 1] == front;
  }

  lemma EnterOne(l: Ledger, c: Call, ids: seq<ModuleId>)
    ensures EnterAll(l, [c], ids) == Enter(l, c, ids)
  {
    assert [c][..0] == [];
    assert EnterAll(l, [], ids) == l;
  }

  // ---------------------------------------------------------------------------------------------------------
  // The calls of a life
  // ---------------------------------------------------------------------------------------------------------

  /** The notices that follow one initialization: every registered module that declares it, whatever the kind. */
  function Notices(ms: seq<Module>, m: Module): (r: seq<Call>)
  {
    if ms == [] then []
    else
      var last := ms[|ms| - 1];
      Notices(ms[..|ms| - 1], m) + if Declares(last, m) then [DependencyInitialized(last.id, m.id)] else []
  }

  function Welcome(ms: seq<Module>, m: Module, ok: bool): (r: seq<Call>)
  {
    [Initialize(m.id, ok)] + if ok then Notices(ms, m) else [Terminate(m.id)]
  }

  function Welcomes(ms: seq<Module>, tried: seq<Module>, outcome: ModuleId -> bool): (r: seq<Call>)
  {
    if tried == [] then []
    else
      var last := tried[|tried| - 1];
      Welcomes(ms, tried[..|tried| - 1], outcome) + Welcome(ms, last, outcome(last.id))
  }

  lemma WelcomesNext(ms: seq<Module>, order: seq<Module>, n: nat, outcome: ModuleId -> bool)
    requires n < |order|
    ensures Welcomes(ms, order[..n + 1], outcome) ==
            Welcomes(ms, order[..n], outcome) + Welcome(ms, order[n], outcome(order[n].id))
    ensures order[..n + 1] == order[..n] + [order[n]]
  {
    assert order[..n + 1][..n] == order[..n];
  }

  /** Who hears that m terminates: every other active module that declares it, in the order of their start. */
  function Warnings(act: seq<Module>, m: Module): (r: seq<Call>)
  {
    if act == [] then []
    else
      var last := act[|act| - 1];
      Warnings(act[..|act| - 1], m) + if last != m && Declares(last, m) then [DependencyTerminating(last.id, m.id)] else []
  }

  function Farewell(act: seq<Module>): (r: seq<Call>)
    requires act != []
  {
    Warnings(act, act[|act| - 1]) + [Terminate(act[|act| - 1].id)]
  }

  function Farewells(act: seq<Module>): (r: seq<Call>)
  {
    if act == [] then [] else Farewell(act) + Farewells(act[..|act| - 1])
  }

  /** The first `count` modules succeed and the next one, if there is one, does not. */
  ghost predicate FirstFailure(order: seq<Module>, count: nat, outcome: ModuleId -> bool)
    requires count <= |order|
  {
    Succeeded(order, count, outcome) && (count < |order| ==> !outcome(order[count].id))
  }

  ghost predicate Succeeded(order: seq<Module>, count: nat, outcome: ModuleId -> bool)
    requires count <= |order|
  {
    forall x :: 0 <= x < count ==> outcome(order[x].id)
  }

  /** The first `index` modules of the order were tried, and `ok` says whether the last of them succeeded. */
  ghost predicate Booting(
    ms: seq<Module>, order: seq<Module>, outcome: ModuleId -> bool, index: nat, ok: bool, act: seq<Module>, calls: seq<Call>)
  {
    && index <= |order| && (!ok ==> index > 0 && !outcome(order[index - 1].id))
    && Succeeded(order, if ok then index else index - 1, outcome)
    && act == order[..if ok then index else index - 1]
    && calls == Welcomes(ms, order[..index], outcome)
  }

  lemma BootingStep(
    ms: seq<Module>, order: seq<Module>, outcome: ModuleId -> bool, index: nat, act: seq<Module>, calls: seq<Call>)
    requires Booting(ms, order, outcome, index, true, act, calls) && index < |order|
    ensures var m := order[index];
            var ok := outcome(m.id);
            Booting(ms, order, outcome, index + 1, ok, if ok then act + [m] else act, calls + Welcome(ms, m, ok))
  {
    WelcomesNext(ms, order, index, outcome);
  }

  /** How many modules were tried if `count` of them succeeded. */
  function Tried(order: seq<Module>, count: nat): (r: nat)
    requires count <= |order|
    ensures r <= |order|
  {
    if count < |order| then count + 1 else count
  }

  // ---------------------------------------------------------------------------------------------------------
  // Who hears of what, and when
  // ---------------------------------------------------------------------------------------------------------

  /** Some entry of the module, whatever its kind, names the id. */
  ghost predicate Names(m: Module, id: ModuleId)
  {
    exists d :: d in m.dependencies && d.target == Some(id)
  }

  ghost predicate Rising(s: seq<nat>)
  {
    forall i, j :: 0 <= i < j < |s| ==> s[i] < s[j]
  }

  /** The positions of the modules that name the id. */
  ghost function Hearers(ms: seq<Module>, id: ModuleId): (r: seq<nat>)
    ensures Rising(r) && forall i :: i in r <==> 0 <= i < |ms| && Names(ms[i], id)
  {
    if ms == [] then []
    else
      var n := |ms| - 1;
      var front := Hearers(ms[..n], id);
      assert forall i :: 0 <= i < n ==> ms[..n][i] == ms[i];
      assert forall k :: 0 <= k < |front| ==> front[k] in front;
      front + if Names(ms[n], id) then [n] else []
  }

  /** Each module of the list that names the id is told of its initialization, once and in the order of the list. */
  ghost predicate Tells(ms: seq<Module>, id: ModuleId, cs: seq<Call>)
  {
    var h := Hearers(ms, id);
    |cs| == |h| && forall k :: 0 <= k < |h| ==> h[k] < |ms| && cs[k] == DependencyInitialized(ms[h[k]].id, id)
  }

  /** The calls that start one module. */
  ghost predicate StartBlock(ms: seq<Module>, m: Module, ok: bool, cs: seq<Call>)
  {
    && cs != [] && cs[0] == Initialize(m.id, ok)
    && if ok then Tells(ms, m.id, cs[1..]) else cs[1..] == [Terminate(m.id)]
  }

  /** Each active module but the last that names the last one is told that it terminates, once and in the order of
      their start. */
  ghost predicate Warns(act: seq<Module>, cs: seq<Call>)
    requires act != []
  {
    var id := act[|act| - 1].id;
    var h := Hearers(act[..|act| - 1], id);
    |cs| == |h| && forall k :: 0 <= k < |h| ==> h[k] < |act| && cs[k] == DependencyTerminating(act[h[k]].id, id)
  }

  /** The calls that stop the module started last. */
  ghost predicate StopBlock(act: seq<Module>, cs: seq<Call>)
  {
    act != [] && cs != [] && cs[|cs| - 1] == Terminate(act[|act| - 1].id) && Warns(act, cs[..|cs| - 1])
  }

  function Flat(blocks: seq<seq<Call>>): (r: seq<Call>)
  {
    if blocks == [] then [] else Flat(blocks[..|blocks| - 1]) + blocks[|blocks| - 1]
  }

  /** The calls of a start-up in which the first `count` modules succeeded and the next one, if there is one, did not. */
  ghost predicate StartRecord(ms: seq<Module>, order: seq<Module>, count: nat, calls: seq<Call>, blocks: seq<seq<Call>>)
  {
    && calls == Flat(blocks) && count <= |order| && |blocks| == (if count < |order| then count + 1 else count)
    && forall k :: 0 <= k < |blocks| ==> StartBlock(ms, order[k], k < count, blocks[k])
  }

  /** The calls of a shut-down. */
  ghost predicate StopRecord(act: seq<Module>, calls: seq<Call>, blocks: seq<seq<Call>>)
  {
    && calls == Flat(blocks) && |blocks| == |act|
    && forall k :: 0 <= k < |blocks| ==> StopBlock(act[..|act| - k], blocks[k])
  }

  lemma {:induction false} NoticesTell(ms: seq<Module>, m: Module)
    ensures Tells(ms, m.id, Notices(ms, m))
  {
    if ms != [] {
      NoticesTell(ms[..|ms| - 1], m);
      TellsNext(ms, m, Notices(ms[..|ms| - 1], m));
    }
  }

  /** The last module of the list hears last, if it names the id. */
  lemma TellsNext(ms: seq<Module>, m: Module, front: seq<Call>)
    requires ms != [] && Tells(ms[..|ms| - 1], m.id, front)
    ensures var last := ms[|ms| - 1];
            Tells(ms, m.id, front + if Declares(last, m) then [DependencyInitialized(last.id, m.id)] else [])
  {
    var n := |ms| - 1;
    var h := Hearers(ms[..n], m.id);
    assert Declares(ms[n], m) <==> Names(ms[n], m.id);
    assert Hearers(ms, m.id) == h + if Names(ms[n], m.id) then [n] else [];
    assert forall k :: 0 <= k < |h| ==> ms[..n][h[k]] == ms[h[k]];
  }

  lemma WelcomeStarts(ms: seq<Module>, m: Module, ok: bool)
    ensures StartBlock(ms, m, ok, Welcome(ms, m, ok))
  {
    NoticesTell(ms, m);
    var rest := if ok then Notices(ms, m) else [Terminate(m.id)];
    assert Welcome(ms, m, ok)[1..] == rest;
  }

  lemma {:induction false} WelcomesStart(ms: seq<Module>, order: seq<Module>, n: nat, outcome: ModuleId -> bool)
      returns (blocks: seq<seq<Call>>)
    requires n <= |order|
    ensures |blocks| == n && Flat(blocks) == Welcomes(ms, order[..n], outcome)
    ensures forall k :: 0 <= k < n ==> StartBlock(ms, order[k], outcome(order[k].id), blocks[k])
  {
    blocks := [];
    if n > 0 {
      var front := WelcomesStart(ms, order, n - 1, outcome);
      WelcomesNext(ms, order, n - 1, outcome);
      WelcomeStarts(ms, order[n - 1], outcome(order[n - 1].id));
      blocks := front + [Welcome(ms, order[n - 1], outcome(order[n - 1].id))];
      assert blocks[..n - 1] == front;
    }
  }

  lemma StartUpRecorded(ms: seq<Module>, order: seq<Module>, count: nat, outcome: ModuleId -> bool)
      returns (blocks: seq<seq<Call>>)
    requires count <= |order| && FirstFailure(order, count, outcome)
    ensures StartRecord(ms, order, count, Welcomes(ms, order[..Tried(order, count)], outcome), blocks)
  {
    blocks := WelcomesStart(ms, order, Tried(order, count), outcome);
  }

  lemma {:induction false} WarningsWarn(act: seq<Module>, k: nat, m: Module)
    requires k <= |act| && forall i :: 0 <= i < k ==> act[i] != m
    ensures var h := Hearers(act[..k], m.id);
            && |Warnings(act[..k], m)| == |h|
            && forall x :: 0 <= x < |h| ==>
                 h[x] < |act| && Warnings(act[..k], m)[x] == DependencyTerminating(act[h[x]].id, m.id)
  {
    if k > 0 {
      WarningsWarn(act, k - 1, m);
      assert act[..k][..k - 1] == act[..k - 1];
    }
  }

  lemma FarewellStops(act: seq<Module>)
    requires act != [] && forall i :: 0 <= i < |act| - 1 ==> act[i] != act[|act| - 1]
    ensures StopBlock(act, Farewell(act))
  {
    var n := |act| - 1;
    WarningsWarn(act, n, act[n]);
    var cs := Farewell(act);
    assert cs[..|cs| - 1] == Warnings(act, act[n]) == Warnings(act[..n], act[n]);
  }

  lemma {:induction false} FlatCons(block: seq<Call>, blocks: seq<seq<Call>>)
    ensures Flat([block] + blocks) == block + Flat(blocks)
  {
    if blocks == [] {
      assert [block] + blocks == [block] && [block][..0] == [];
    } else {
      var n := |blocks| - 1;
      FlatCons(block, blocks[..n]);
      assert ([block] + blocks)[..n + 1] == [block] + blocks[..n];
    }
  }

  /** No module stands twice in the list. */
  ghost predicate NoRepeat(act: seq<Module>)
  {
    forall i, j :: 0 <= i < j < |act| ==> act[i] != act[j]
  }

  lemma {:induction false} ShutDownRecorded(act: seq<Module>) returns (blocks: seq<seq<Call>>)
    requires NoRepeat(act)
    ensures StopRecord(act, Farewells(act), blocks)
    decreases |act|
  {
    blocks := [];
    if act != [] {
      var n := |act| - 1;
      var rest := ShutDownRecorded(act[..n]);
      FarewellStops(act);
      FlatCons(Farewell(act), rest);
      blocks := [Farewell(act)] + rest;
      StopsGoOn(act, Farewell(act), rest);
    }
  }

  lemma StopsGoOn(act: seq<Module>, block: seq<Call>, rest: seq<seq<Call>>)
    requires act != [] && StopBlock(act, block) && |rest| == |act| - 1
    requires forall k :: 0 <= k < |rest| ==> StopBlock(act[..|act| - 1][..|act| - 1 - k], rest[k])
    ensures forall k :: 0 <= k < |rest| + 1 ==> StopBlock(act[..|act| - k], ([block] + rest)[k])
  {
    forall k | 0 <= k < |rest| + 1 ensures StopBlock(act[..|act| - k], ([block] + rest)[k]) {
      if k == 0 {
        assert act[..|act|] == act;
      } else {
        assert act[..|act| - 1][..|act| - 1 - (k - 1)] == act[..|act| - k];
        assert StopBlock(act[..|act| - 1][..|act| - 1 - (k - 1)], rest[k - 1]);
      }
    }
  }

  /** A whole life: the blocks that start modules and then those that stop them. Active modules are told apart as the
      registered ones are. */
  ghost predicate LifeRecord(
    ms: seq<Module>, order: seq<Module>, count: nat, calls: seq<Call>, starts: seq<seq<Call>>, stops: seq<seq<Call>>)
  {
    && calls == Flat(starts) + Flat(stops) && StartRecord(ms, order, count, Flat(starts), starts)
    && (NoRepeat(order) ==> StopRecord(order[..count], Flat(stops), stops))
  }

  lemma LifeRecorded(ms: seq<Module>, order: seq<Module>, count: nat, outcome: ModuleId -> bool)
      returns (starts: seq<seq<Call>>, stops: seq<seq<Call>>)
    requires count <= |order| && FirstFailure(order, count, outcome)
    ensures LifeRecord(ms, order, count,
                       Welcomes(ms, order[..Tried(order, count)], outcome) + Farewells(order[..count]), starts, stops)
  {
    starts := StartUpRecorded(ms, order, count, outcome);
    if NoRepeat(order) {
      stops := ShutDownRecorded(order[..count]);
    } else {
      var none: seq<seq<Call>> := [];
      FlatCons(Farewells(order[..count]), none);
      stops := [Farewells(order[..count])];
      assert [Farewells(order[..count])] + none == stops;
    }
  }

  lemma PickedOnce(ms: seq<Module>, o: seq<nat>)
    requires NoRepeat(ms) && Selection(|ms|, o)
    ensures NoRepeat(Pick(ms, o))
  {
    forall i, j | 0 <= i < j < |o| ensures ms[o[i]] != ms[o[j]] {
      if o[i] < o[j] { assert ms[o[i]] != ms[o[j]]; } else { assert ms[o[j]] != ms[o[i]]; }
    }
  }

  // ---------------------------------------------------------------------------------------------------------
  // The runtime
  // ---------------------------------------------------------------------------------------------------------

  /** The order resolves exactly if there is one to find, and is then the least. */
  ghost predicate Ordered(ms: seq<Module>, resolved: bool, o: seq<nat>)
  {
    (resolved <==> Valid(ms) && SingleEntries(ms) && Acyclic(ms)) && (resolved ==> LeastOrder(ms, o))
  }

  class Runtime {
    var modules: seq<Module>
    var active: seq<Module>
    var calls: seq<Call>
    const graph: Graph

    constructor (registered: seq<Module>)
      ensures modules == registered && active == [] && calls == [] && fresh(graph)
    {
      modules, active, calls := registered, [], [];
      graph := new Graph();
    }

    method NotifyDependentsInitialized(m: Module)
      modifies `calls
      ensures calls == old(calls) + Notices(modules, m) && Tells(modules, m.id, Notices(modules, m))
    {
      NoticesTell(modules, m);
      for k := 0 to |modules|
        invariant calls == old(calls) + Notices(modules[..k], m)
      {
        assert modules[..k + 1][..k] == modules[..k];
        if Declares(modules[k], m) {
          calls := calls + [DependencyInitialized(modules[k].id, m.id)];
        }
      }
      assert modules[..|modules|] == modules;
    }

    /** One module of the order: initialized and announced, or initialized in vain and terminated at once. */
    method InitializeModule(m: Module, ok: bool)
      modifies `active, `calls
      ensures active == if ok then old(active) + [m] else old(active)
      ensures calls == old(calls) + Welcome(modules, m, ok)
    {
      calls := calls + [Initialize(m.id, ok)];
      if ok {
        active := active + [m];
        NotifyDependentsInitialized(m);
      } else {
        calls := calls + [Terminate(m.id)];
      }
    }

    method InitializeInOrder(order: seq<Module>, outcome: ModuleId -> bool)
      returns (initialized: bool, ghost count: nat)
      requires active == [] && calls == []
      modifies `active, `calls
      ensures count <= |order| && (initialized <==> count == |order|) && FirstFailure(order, count, outcome)
      ensures active == order[..count] && calls == Welcomes(modules, order[..Tried(order, count)], outcome)
    {
      initialized := true;
      var index := 0;
      while index < |order| && initialized
        invariant Booting(modules, order, outcome, index, initialized, active, calls)
      {
        BootingStep(modules, order, outcome, index, active, calls);
        initialized := outcome(order[index].id);
        InitializeModule(order[index], initialized);
        index := index + 1;
      }
      count := if initialized then index else index - 1;
    }

    /** Modules are initialized in the order of the graph, for ordinary modules the least dependency order, up to the
        first that fails; `count` succeeded. */
    method InitializeModules(outcome: ModuleId -> bool)
      returns (initialized: bool, ghost resolved: bool, ghost o: seq<nat>, ghost count: nat, ghost starts: seq<seq<Call>>)
      requires active == [] && calls == []
      modifies `active, `calls, graph
      ensures Outcome(modules, resolved, o) && (Ordinary(modules) ==> Ordered(modules, resolved, o))
      ensures !resolved ==> !initialized && active == [] && calls == []
      ensures resolved ==>
                var order := Pick(modules, o);
                && count <= |order| && (initialized <==> count == |order|) && FirstFailure(order, count, outcome)
                && active == order[..count] && calls == Welcomes(modules, order[..Tried(order, count)], outcome)
                && StartRecord(modules, order, count, calls, starts)
    {
      ghost var cycle;
      initialized, o, cycle := graph.Resolve(modules);
      resolved, count, starts := initialized, 0, [];
      if initialized {
        initialized, count := InitializeInOrder(graph.order, outcome);
        starts := StartUpRecorded(modules, Pick(modules, o), count, outcome);
      }
    }

    method NotifyTerminating(m: Module)
      modifies `calls
      ensures calls == old(calls) + Warnings(active, m)
    {
      for k := 0 to |active|
        invariant calls == old(calls) + Warnings(active[..k], m)
      {
        assert active[..k + 1][..k] == active[..k];
        if active[k] != m && Declares(active[k], m) {
          calls := calls + [DependencyTerminating(active[k].id, m.id)];
        }
      }
      assert active[..|active|] == active;
    }

    /** The active module initialized last is announced as terminating, terminated and dropped. */
    method TerminateLast()
      requires active != []
      modifies `active, `calls
      ensures active == old(active)[..|old(active)| - 1] && calls == old(calls) + Farewell(old(active))
    {
      var m := active[|active| - 1];
      NotifyTerminating(m);
      calls := calls + [Terminate(m.id)];
      active := active[..|active| - 1];
    }

    /** Every active module is terminated once, the last initialized first. */
    method TerminateModules()
      modifies `active, `calls, `modules
      ensures active == [] && modules == [] && calls == old(calls) + Farewells(old(active))
    {
      ghost var done: seq<Call> := [];
      while active != []
        invariant calls == old(calls) + done && Farewells(old(active)) == done + Farewells(active)
        decreases |active|
      {
        Associative(done, Farewell(active), Farewells(active[..|active| - 1]));
        Associative(old(calls), done, Farewell(active));
        done := done + Farewell(active);
        TerminateLast();
      }
      assert done + [] == done;
      modules := [];
    }

    /** A whole life, call by call: the modules of the order are started up to the first whose Initialize fails, which is
        terminated at once, and those that succeeded are announced and terminated in reverse. */
    method Live(outcome: ModuleId -> bool)
      returns (initialized: bool, ghost resolved: bool, ghost o: seq<nat>, ghost count: nat,
               ghost starts: seq<seq<Call>>, ghost stops: seq<seq<Call>>)
      requires active == [] && calls == []
      modifies this, graph
      ensures active == [] && modules == []
      ensures Outcome(old(modules), resolved, o) && (Ordinary(old(modules)) ==> Ordered(old(modules), resolved, o))
      ensures !resolved ==> !initialized && calls == []
      ensures var ms := old(modules);
              resolved ==>
                var order := Pick(ms, o);
                && count <= |order| && (initialized <==> count == |order|) && FirstFailure(order, count, outcome)
                && calls == Welcomes(ms, order[..Tried(order, count)], outcome) + Farewells(order[..count])
                && LifeRecord(ms, order, count, calls, starts, stops) && (NoRepeat(ms) ==> NoRepeat(order))
    {
      initialized, resolved, o, count, starts := InitializeModules(outcome);
      stops := [];
      if resolved {
        starts, stops := LifeRecorded(modules, Pick(modules, o), count, outcome);
        if NoRepeat(modules) { PickedOnce(modules, o); }
      }
      TerminateModules();
    }
  }

  lemma Associative<T>(a: seq<T>, b: seq<T>, c: seq<T>)
    ensures a + (b + c) == a + b + c
  {
  }

  // ---------------------------------------------------------------------------------------------------------
  // What these calls come to
  // ---------------------------------------------------------------------------------------------------------

  lemma {:induction false} EnterNotices(l: Ledger, ms: seq<Module>, m: Module, ids: seq<ModuleId>)
    requires l.orderly && l.active <= ids
    ensures EnterAll(l, Notices(ms, m), ids) == l
  {
    if ms != [] {
      var n := |ms| - 1;
      EnterNotices(l, ms[..n], m, ids);
      if Declares(ms[n], m) {
        var c := DependencyInitialized(ms[n].id, m.id);
        EnterJoin(l, Notices(ms[..n], m), [c], ids);
        EnterQuiet(l, c, ids);
      } else {
        assert Notices(ms[..n], m) + [] == Notices(ms[..n], m);
      }
    }
  }

  /** A notice changes nothing. */
  lemma EnterQuiet(l: Ledger, c: Call, ids: seq<ModuleId>)
    requires (c.DependencyInitialized? || c.DependencyTerminating?) && l.orderly && l.active <= ids && GoodNotice(l.active, c)
    ensures EnterAll(l, [c], ids) == l
  {
    EnterOne(l, c, ids);
    assert l.started + [] == l.started && l.terminated + [] == l.terminated;
  }

  lemma EnterStart(l: Ledger, id: ModuleId, ok: bool, ids: seq<ModuleId>)
    requires l.orderly && l.active <= ids && |l.active| < |ids| && id == ids[|l.active|]
    ensures var act := if ok then l.active + [id] else l.active;
            act <= ids && EnterAll(l, [Initialize(id, ok)], ids) == Ledger(true, act, l.started + [id], l.terminated)
  {
    EnterOne(l, Initialize(id, ok), ids);
    assert l.terminated + [] == l.terminated;
  }

  lemma EnterStop(l: Ledger, id: ModuleId, ids: seq<ModuleId>)
    requires l.orderly && l.active <= ids
    ensures var act := if l.active != [] && l.active[|l.active| - 1] == id then l.active[..|l.active| - 1] else l.active;
            EnterAll(l, [Terminate(id)], ids) == Ledger(true, act, l.started, l.terminated + [id])
  {
    EnterOne(l, Terminate(id), ids);
    assert l.started + [] == l.started;
  }

  /** The next module of the order is started, with success or in vain. */
  lemma EnterWelcome(l: Ledger, ms: seq<Module>, m: Module, ok: bool, ids: seq<ModuleId>)
    requires l.orderly && l.active <= ids && |l.active| < |ids| && m.id == ids[|l.active|] && m.id !in l.active
    ensures EnterAll(l, Welcome(ms, m, ok), ids) ==
            Ledger(true, if ok then l.active + [m.id] else l.active, l.started + [m.id],
                   if ok then l.terminated else l.terminated + [m.id])
  {
    EnterStart(l, m.id, ok, ids);
    var begun := EnterAll(l, [Initialize(m.id, ok)], ids);
    EnterJoin(l, [Initialize(m.id, ok)], if ok then Notices(ms, m) else [Terminate(m.id)], ids);
    if ok {
      EnterNotices(begun, ms, m, ids);
    } else {
      EnterStop(begun, m.id, ids);
    }
  }

  /** What was read once the first n modules of the order had succeeded. */
  ghost function Up(ids: seq<ModuleId>, n: nat): (r: Ledger)
    requires n <= |ids|
  {
    Ledger(true, ids[..n], ids[..n], [])
  }

  lemma OneMore(ids: seq<ModuleId>, n: nat)
    requires n < |ids| && Distinct(ids)
    ensures ids[n] !in ids[..n] && ids[..n] + [ids[n]] == ids[..n + 1] && [] + [ids[n]] == [ids[n]]
  {
  }

  lemma EnterNext(ms: seq<Module>, m: Module, ok: bool, ids: seq<ModuleId>, n: nat)
    requires n < |ids| && Distinct(ids) && m.id == ids[n]
    ensures EnterAll(Up(ids, n), Welcome(ms, m, ok), ids) ==
            if ok then Up(ids, n + 1) else Ledger(true, ids[..n], ids[..n + 1], [ids[n]])
  {
    OneMore(ids, n);
    EnterWelcome(Up(ids, n), ms, m, ok, ids);
  }

  lemma {:induction false} ReadWelcomes(ms: seq<Module>, order: seq<Module>, n: nat, outcome: ModuleId -> bool)
    requires Distinct(Ids(order)) && n <= |order| && Succeeded(order, n, outcome)
    ensures Read(Welcomes(ms, order[..n], outcome), Ids(order)) == Up(Ids(order), n)
  {
    if n > 0 {
      var ids, front := Ids(order), Welcomes(ms, order[..n - 1], outcome);
      ReadWelcomes(ms, order, n - 1, outcome);
      WelcomesNext(ms, order, n - 1, outcome);
      EnterJoin(Up(ids, 0), front, Welcome(ms, order[n - 1], true), ids);
      EnterNext(ms, order[n - 1], true, ids, n - 1);
    }
  }

  lemma ReadBoot(ms: seq<Module>, order: seq<Module>, count: nat, outcome: ModuleId -> bool)
    requires Distinct(Ids(order)) && count <= |order| && FirstFailure(order, count, outcome)
    ensures var ids := Ids(order);
            Read(Welcomes(ms, order[..Tried(order, count)], outcome), ids) ==
            Ledger(true, ids[..count], ids[..Tried(order, count)], Failed(ids, count))
  {
    ReadWelcomes(ms, order, count, outcome);
    if count < |order| {
      var ids, front := Ids(order), Welcomes(ms, order[..count], outcome);
      WelcomesNext(ms, order, count, outcome);
      EnterJoin(Up(ids, 0), front, Welcome(ms, order[count], false), ids);
      EnterNext(ms, order[count], false, ids, count);
    }
  }

  /** The module whose Initialize failed, if one did. */
  function Failed(ids: seq<ModuleId>, count: nat): (r: seq<ModuleId>)
    requires count <= |ids|
  {
    if count < |ids| then [ids[count]] else []
  }

  lemma {:induction false} EnterWarnings(l: Ledger, act: seq<Module>, k: nat, ids: seq<ModuleId>)
    requires l.orderly && l.active == Ids(act) && Ids(act) <= ids && Distinct(ids) && act != [] && k <= |act|
    ensures EnterAll(l, Warnings(act[..k], act[|act| - 1]), ids) == l
    decreases k
  {
    var m := act[|act| - 1];
    if k > 0 {
      EnterWarnings(l, act, k - 1, ids);
      assert act[..k][..k - 1] == act[..k - 1];
      var front := Warnings(act[..k - 1], m);
      if act[k - 1] != m && Declares(act[k - 1], m) {
        var c := DependencyTerminating(act[k - 1].id, m.id);
        AnotherActive(act, k - 1, ids);
        EnterJoin(l, front, [c], ids);
        EnterQuiet(l, c, ids);
      } else {
        assert front + [] == front;
      }
    }
  }

  lemma AnotherActive(act: seq<Module>, k: nat, ids: seq<ModuleId>)
    requires Ids(act) <= ids && Distinct(ids) && k < |act| && act[k] != act[|act| - 1]
    ensures act[k].id in Ids(act) && act[k].id != act[|act| - 1].id && Ids(act)[|act| - 1] == act[|act| - 1].id
  {
    assert Ids(act)[k] == ids[k] && Ids(act)[|act| - 1] == ids[|act| - 1];
  }

  lemma EnterFarewell(l: Ledger, act: seq<Module>, ids: seq<ModuleId>)
    requires l.orderly && l.active == Ids(act) && Ids(act) <= ids && Distinct(ids) && act != []
    ensures var n := |act| - 1;
            && EnterAll(l, Farewell(act), ids) == Ledger(true, Ids(act[..n]), l.started, l.terminated + [act[n].id])
            && Ids(act[..n]) <= ids
  {
    var n := |act| - 1;
    assert act[..|act|] == act && Ids(act)[..n] == Ids(act[..n]);
    EnterWarnings(l, act, |act|, ids);
    EnterJoin(l, Warnings(act, act[n]), [Terminate(act[n].id)], ids);
    EnterStop(l, act[n].id, ids);
  }

  lemma {:induction false} EnterFarewells(l: Ledger, act: seq<Module>, ids: seq<ModuleId>)
    requires l.orderly && l.active == Ids(act) && Ids(act) <= ids && Distinct(ids)
    ensures EnterAll(l, Farewells(act), ids) == Ledger(true, [], l.started, l.terminated + Reversed(Ids(act)))
    decreases |act|
  {
    if act == [] {
      assert Ids(act) == [] && Reversed(Ids(act)) == [] && l.terminated + [] == l.terminated;
    } else {
      var n := |act| - 1;
      EnterFarewell(l, act, ids);
      EnterJoin(l, Farewell(act), Farewells(act[..n]), ids);
      EnterFarewells(EnterAll(l, Farewell(act), ids), act[..n], ids);
      ReversedLast(act);
      Associative(l.terminated, [act[n].id], Reversed(Ids(act[..n])));
    }
  }

  lemma ReversedLast(act: seq<Module>)
    requires act != []
    ensures Reversed(Ids(act)) == [act[|act| - 1].id] + Reversed(Ids(act[..|act| - 1]))
  {
  }

  /** Over a whole life the active modules are a prefix of the order after every call, none is left in the end, every
      module that was started was terminated, the one that failed first and then those that succeeded in reverse. */
  lemma LifeIsOrderly(ms: seq<Module>, order: seq<Module>, count: nat, outcome: ModuleId -> bool)
    requires Distinct(Ids(order)) && count <= |order| && FirstFailure(order, count, outcome)
    ensures var ids := Ids(order);
            Read(Welcomes(ms, order[..Tried(order, count)], outcome) + Farewells(order[..count]), ids) ==
            Ledger(true, [], ids[..Tried(order, count)], Failed(ids, count) + Reversed(ids[..count]))
  {
    var ids, booted := Ids(order), Welcomes(ms, order[..Tried(order, count)], outcome);
    ReadBoot(ms, order, count, outcome);
    EnterJoin(Ledger(true, [], [], []), booted, Farewells(order[..count]), ids);
    assert Ids(order[..count]) == ids[..count];
    EnterFarewells(Read(booted, ids), order[..count], ids);
  }

  lemma OrderedIdsDistinct(ms: seq<Module>, o: seq<nat>)
    requires DistinctIds(ms) && IsOrder(ms, o)
    ensures Distinct(Ids(Pick(ms, o)))
  {
    var ids := Ids(Pick(ms, o));
    forall p, q | 0 <= p < q < |ids| ensures ids[p] != ids[q] {
      assert o[p] != o[q];
      if o[p] < o[q] { assert ms[o[p]].id != ms[o[q]].id; } else { assert ms[o[q]].id != ms[o[p]].id; }
    }
  }

  // ---------------------------------------------------------------------------------------------------------
  // What an orderly record means
  // ---------------------------------------------------------------------------------------------------------

  lemma {:induction false} OrderlyPrefix(calls: seq<Call>, ids: seq<ModuleId>, n: nat)
    requires Read(calls, ids).orderly && n <= |calls|
    ensures Read(calls[..n], ids).orderly && Read(calls[..n], ids).active <= ids
  {
    if n < |calls| {
      OrderlyPrefix(calls[..|calls| - 1], ids, n);
      assert calls[..|calls| - 1][..n] == calls[..n];
    } else {
      assert calls[..n] == calls;
    }
  }

  lemma PrefixPosition(ms: seq<Module>, o: seq<nat>, act: seq<ModuleId>, i: nat)
    requires DistinctIds(ms) && IsOrder(ms, o) && act <= Ids(Pick(ms, o)) && i < |ms|
    ensures ms[i].id in act <==> PositionIn(o, i) < |act|
  {
    var ids, p := Ids(Pick(ms, o)), PositionIn(o, i);
    assert ids[p] == ms[i].id;
    if ms[i].id in act {
      var q :| 0 <= q < |act| && act[q] == ms[i].id;
      OrderedIdsDistinct(ms, o);
      assert ids[q] == ids[p];
    }
  }

  /** At every moment of start-up and shut-down the active modules are closed under the ordering dependencies. */
  lemma ActiveClosed(ms: seq<Module>, o: seq<nat>, calls: seq<Call>, n: nat, i: nat, j: nat)
    requires DistinctIds(ms) && IsOrder(ms, o) && Read(calls, Ids(Pick(ms, o))).orderly && n <= |calls|
    requires i < |ms| && j < |ms| && DependsOn(ms, i, j) && ms[i].id in Read(calls[..n], Ids(Pick(ms, o))).active
    ensures ms[j].id in Read(calls[..n], Ids(Pick(ms, o))).active
  {
    OrderlyPrefix(calls, Ids(Pick(ms, o)), n);
    var act := Read(calls[..n], Ids(Pick(ms, o))).active;
    PrefixPosition(ms, o, act, i);
    PrefixPosition(ms, o, act, j);
    assert DependsOn(ms, o[PositionIn(o, i)], o[PositionIn(o, j)]);
  }

  /** Who hears that a dependency terminates never ordered itself after it: it declared a Notify entry only. */
  lemma TerminationHeardByNotifyOnly(ms: seq<Module>, o: seq<nat>, calls: seq<Call>, n: nat, i: nat, j: nat)
    requires DistinctIds(ms) && IsOrder(ms, o) && Read(calls, Ids(Pick(ms, o))).orderly && n < |calls|
    requires i < |ms| && j < |ms| && calls[n] == DependencyTerminating(ms[i].id, ms[j].id)
    ensures !DependsOn(ms, i, j)
  {
    var ids := Ids(Pick(ms, o));
    var act := Read(calls[..n], ids).active;
    NoticeAt(calls, ids, n);
    PrefixPosition(ms, o, act, i);
    LastOfPrefix(ms, o, act, j);
    assert i == o[PositionIn(o, i)];
  }

  lemma NoticeAt(calls: seq<Call>, ids: seq<ModuleId>, n: nat)
    requires Read(calls, ids).orderly && n < |calls|
    ensures Read(calls[..n], ids).active <= ids && GoodNotice(Read(calls[..n], ids).active, calls[n])
  {
    OrderlyPrefix(calls, ids, n);
    OrderlyPrefix(calls, ids, n + 1);
    assert calls[..n + 1][..n] == calls[..n];
  }

  lemma LastOfPrefix(ms: seq<Module>, o: seq<nat>, act: seq<ModuleId>, j: nat)
    requires DistinctIds(ms) && IsOrder(ms, o) && act <= Ids(Pick(ms, o)) && act != []
    requires j < |ms| && ms[j].id == act[|act| - 1]
    ensures o[|act| - 1] == j
  {
    var k := o[|act| - 1];
    assert Pick(ms, o)[|act| - 1] == ms[k];
  }

  /** The two halves of a whole life match: the terminated modules are the started ones, each once. */
  lemma StartedAreTerminated(ids: seq<ModuleId>, count: nat)
    requires count <= |ids|
    ensures var on := ids[..if count < |ids| then count + 1 else count];
            var off := (if count < |ids| then [ids[count]] else []) + Reversed(ids[..count]);
            multiset(off) == multiset(on)
  {
    ReversedSame(ids[..count]);
    if count < |ids| { assert ids[..count + 1] == ids[..count] + [ids[count]]; }
  }

  lemma {:induction false} ReversedSame(s: seq<ModuleId>)
    ensures multiset(Reversed(s)) == multiset(s)
  {
    if s != [] {
      var front := s[..|s| - 1];
      ReversedSame(front);
      assert Reversed(s) == [s[|s| - 1]] + Reversed(front);
      assert s == front + [s[|s| - 1]];
    }
  }
}
