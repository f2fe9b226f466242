/**
 CModuleGraph of private/module/module_graph.cpp: validation of the declared dependencies, then Kahn's algorithm
 with the lowest input index first.
 */
module ModuleGraph {
  import opened Wrappers
  import opened Dependencies
  import opened Words

  /** Marks a placed module in the pending counters. */
  const EMITTED: U32 := 0xFFFF_FFFF

  /** The modules at these input indices. */
  function Pick(ms: seq<Module>, o: seq<nat>): (r: seq<Module>)
    requires forall k :: 0 <= k < |o| ==> o[k] < |ms|
    ensures |r| == |o|
    ensures forall k :: 0 <= k < |o| ==> r[k] == ms[o[k]]
  {
    seq(|o|, k requires 0 <= k < |o| => ms[o[k]])
  }

  method ValidateDependencies(dependent: Module, ms: seq<Module>) returns (valid: bool)
    ensures valid <==> forall d :: d in dependent.dependencies ==> Acceptable(ms, d)
  {
    valid := true;
    var ds := dependent.dependencies;
    for k := 0 to |ds|
      invariant valid <==> forall d :: d in ds[..k] ==> Acceptable(ms, d)
    {
      var d := ds[k];
      assert ds[..k + 1] == ds[..k] + [d] && d in ds[..k + 1];
      if d.target == None {
        valid := false;
      } else {
        var j := FindLoaded(ms, d.target.value);
        if j == |ms| {
          if d.kind == Required {
            valid := false;
          }
        } else if IsConstrained(d.minVersion) && !Satisfies(ms[j].version, d.minVersion) {
          valid := false;
        }
      }
    }
    assert ds[..|ds|] == ds;
  }

  method Depends(dependent: Module, dependency: Module) returns (depends: bool)
    ensures depends <==>
              exists d :: d in dependent.dependencies && IsOrdering(d.kind) && d.target == Some(dependency.id)
  {
    depends := false;
    var ds := dependent.dependencies;
    for k := 0 to |ds|
      invariant depends <==> exists d :: d in ds[..k] && IsOrdering(d.kind) && d.target == Some(dependency.id)
    {
      assert ds[..k + 1] == ds[..k] + [ds[k]];
      depends := depends || (IsOrdering(ds[k].kind) && ds[k].target == Some(dependency.id));
    }
    assert ds[..|ds|] == ds;
  }

  /** The counters that the modules start with. */
  method CountWaiting(ms: seq<Module>) returns (pending: seq<U32>)
    ensures pending == Waiting(ms)
  {
    pending := [];
    for i := 0 to |ms|
      invariant |pending| == i
      invariant forall x :: 0 <= x < i ==> pending[x] == Wrap32(|Entries(ms, x)|)
    {
      var waiting := CountEntries(ms, ms[i].dependencies);
      pending := pending + [waiting];
    }
  }

  method CountEntries(ms: seq<Module>, ds: seq<Dependency>) returns (waiting: U32)
    ensures waiting == Wrap32(|Targets(ms, ds)|)
  {
    waiting := 0;
    for k := 0 to |ds|
      invariant waiting == Wrap32(|Targets(ms, ds[..k])|)
    {
      var d := ds[k];
      TargetsNext(ms, ds, k);
      CountUp(|Targets(ms, ds[..k])|);
      if IsOrdering(d.kind) && d.target.Some? && FindLoaded(ms, d.target.value) < |ms| {
        waiting := Wrap32(waiting + 1);
      }
    }
    assert ds[..|ds|] == ds;
  }

  lemma TargetsNext(ms: seq<Module>, ds: seq<Dependency>, k: nat)
    requires k < |ds|
    ensures var d := ds[k];
            |Targets(ms, ds[..k + 1])| == |Targets(ms, ds[..k])|
              + if IsOrdering(d.kind) && d.target.Some? && FindLoaded(ms, d.target.value) < |ms| then 1 else 0
  {
    assert ds[..k + 1][..k] == ds[..k];
  }

  lemma CountUp(n: nat)
    ensures Wrap32(Wrap32(n) + 1) == Wrap32(n + 1)
  {
  }

  // ---------------------------------------------------------------------------------------------------------
  // The counters
  // ---------------------------------------------------------------------------------------------------------

  function Waiting(ms: seq<Module>): (r: seq<U32>)
  {
    seq(|ms|, i requires 0 <= i < |ms| => Wrap32(|Entries(ms, i)|))
  }

  /** One less, in 32 bits. */
  function Less(count: U32): (r: U32)
  {
    if count == 0 then 0xFFFF_FFFF else count - 1
  }

  /** The counter of module i once `next` is placed. */
  ghost function CountAfter(ms: seq<Module>, count: U32, i: nat, next: nat): (r: U32)
    requires i < |ms| && next < |ms|
  {
    if i == next then EMITTED else if count != EMITTED && DependsOn(ms, i, next) then Less(count) else count
  }

  /** The counters after these modules were placed, one after another. */
  ghost function Countdown(ms: seq<Module>, o: seq<nat>): (r: seq<U32>)
    requires forall k :: 0 <= k < |o| ==> o[k] < |ms|
    ensures |r| == |ms|
  {
    if o == [] then Waiting(ms)
    else
      var n := |o| - 1;
      var before := Countdown(ms, o[..n]);
      seq(|ms|, i requires 0 <= i < |ms| => CountAfter(ms, before[i], i, o[n]))
  }

  lemma CountdownNext(ms: seq<Module>, o: seq<nat>, next: nat, i: nat)
    requires (forall k :: 0 <= k < |o| ==> o[k] < |ms|) && next < |ms| && i < |ms|
    ensures Countdown(ms, o + [next])[i] == CountAfter(ms, Countdown(ms, o)[i], i, next)
  {
    assert (o + [next])[..|o|] == o;
  }

  /** A placed module keeps its mark. */
  lemma {:induction false} PlacedAreMarked(ms: seq<Module>, o: seq<nat>, i: nat)
    requires (forall k :: 0 <= k < |o| ==> o[k] < |ms|) && i in o
    ensures Countdown(ms, o)[i] == EMITTED
  {
    var n := |o| - 1;
    assert o == o[..n] + [o[n]];
    if i != o[n] { PlacedAreMarked(ms, o[..n], i); }
  }

  // ---------------------------------------------------------------------------------------------------------
  // Ordinary modules
  // ---------------------------------------------------------------------------------------------------------

  /** No counter starts at or above the mark. */
  ghost predicate Few(ms: seq<Module>)
  {
    forall i :: 0 <= i < |ms| ==> |ms[i].dependencies| < EMITTED
  }

  /** And no two modules share an id. */
  ghost predicate Ordinary(ms: seq<Module>)
  {
    DistinctIds(ms) && Few(ms)
  }

  ghost predicate CountsAt(ms: seq<Module>, count: nat, placed: seq<nat>, i: nat)
    requires i < |ms|
  {
    if i in placed then count == EMITTED
    else count < EMITTED && count + |Elements(Entries(ms, i)) * Elements(placed)| == |Entries(ms, i)|
  }

  lemma ZeroMeansReady(ms: seq<Module>, count: nat, placed: seq<nat>, i: nat)
    requires i < |ms| && CountsAt(ms, count, placed, i)
    ensures count == 0 <==> Ready(ms, placed, i)
  {
    CountdownMeaning(Entries(ms, i), Elements(placed));
  }

  /** What placing one more module does to the counter of another one. */
  lemma PlacingCounts(ms: seq<Module>, count: nat, placed: seq<nat>, i: nat, next: nat)
    requires DistinctIds(ms) && i < |ms| && next < |ms| && next !in placed && i != next
    requires CountsAt(ms, count, placed, i) && i !in placed
    ensures DependsOn(ms, i, next) ==> count > 0 && CountsAt(ms, count - 1, placed + [next], i)
    ensures !DependsOn(ms, i, next) ==> CountsAt(ms, count, placed + [next], i)
  {
    EntriesAreDependencies(ms, i, next);
    var e, p := Elements(Entries(ms, i)), Elements(placed);
    assert Elements(placed + [next]) == p + {next};
    if DependsOn(ms, i, next) {
      assert e * (p + {next}) == (e * p) + {next};
      CountdownMeaning(Entries(ms, i), p + {next});
    } else {
      assert e * (p + {next}) == e * p;
    }
  }

  /** With ordinary modules a counter is the entries still waited for. */
  lemma {:induction false} OrdinaryCounts(ms: seq<Module>, o: seq<nat>, i: nat)
    requires Ordinary(ms) && Selection(|ms|, o) && i < |ms|
    ensures CountsAt(ms, Countdown(ms, o)[i], o, i)
  {
    if o == [] {
      FirstCounts(ms, i);
    } else {
      var front, next := o[..|o| - 1], o[|o| - 1];
      assert o == front + [next];
      OrdinaryCounts(ms, front, i);
      CountdownNext(ms, front, next, i);
      NextCounts(ms, Countdown(ms, front)[i], front, i, next);
    }
  }

  lemma FirstCounts(ms: seq<Module>, i: nat)
    requires Few(ms) && i < |ms|
    ensures CountsAt(ms, Waiting(ms)[i], [], i)
  {
    assert Elements(Entries(ms, i)) * Elements([]) == {};
    assert |Entries(ms, i)| <= |ms[i].dependencies|;
  }

  lemma NextCounts(ms: seq<Module>, count: U32, placed: seq<nat>, i: nat, next: nat)
    requires DistinctIds(ms) && i < |ms| && next < |ms| && next !in placed && CountsAt(ms, count, placed, i)
    ensures CountsAt(ms, CountAfter(ms, count, i, next), placed + [next], i)
  {
    if i != next && i !in placed { PlacingCounts(ms, count, placed, i, next); }
  }

  method LowestReady(pending: seq<U32>) returns (next: nat)
    ensures next <= |pending|
    ensures next < |pending| ==> pending[next] == 0
    ensures forall j :: 0 <= j < next ==> pending[j] != 0
  {
    next := |pending|;
    var index := |pending|;
    while index > 0
      invariant 0 <= index <= |pending|
      invariant next == |pending| || (index <= next < |pending| && pending[next] == 0)
      invariant forall j :: index <= j < next ==> pending[j] != 0
    {
      if pending[index - 1] == 0 {
        next := index - 1;
      }
      index := index - 1;
    }
  }

  /** The counters after one more placement. */
  ghost predicate After(ms: seq<Module>, pending: seq<U32>, next: nat, after: seq<U32>)
    requires next < |ms|
  {
    |pending| == |after| == |ms| && forall x :: 0 <= x < |ms| ==> after[x] == CountAfter(ms, pending[x], x, next)
  }

  method Place(ms: seq<Module>, pending: seq<U32>, next: nat) returns (after: seq<U32>)
    requires next < |ms| == |pending|
    ensures After(ms, pending, next, after)
  {
    after := pending[next := EMITTED];
    for i := 0 to |ms|
      invariant |after| == |ms|
      invariant forall x :: 0 <= x < i ==> after[x] == CountAfter(ms, pending[x], x, next)
      invariant after[next] == EMITTED
      invariant forall x :: i <= x < |ms| && x != next ==> after[x] == pending[x]
    {
      if after[i] != EMITTED {
        var depends := Depends(ms[i], ms[next]);
        assert depends <==> DependsOn(ms, i, next);
        if depends {
          after := after[i := Less(after[i])];
        }
      }
    }
  }

  lemma CountdownIs(ms: seq<Module>, placed: seq<nat>, next: nat, after: seq<U32>)
    requires (forall k :: 0 <= k < |placed| ==> placed[k] < |ms|) && next < |ms|
    requires After(ms, Countdown(ms, placed), next, after)
    ensures after == Countdown(ms, placed + [next])
  {
    forall x | 0 <= x < |ms| ensures after[x] == Countdown(ms, placed + [next])[x] { CountdownNext(ms, placed, next, x); }
  }

  // ---------------------------------------------------------------------------------------------------------
  // The outcome
  // ---------------------------------------------------------------------------------------------------------

  ghost predicate LowestZero(pending: seq<U32>, next: nat)
  {
    next < |pending| && pending[next] == 0 && forall j :: 0 <= j < next ==> pending[j] != 0
  }

  ghost predicate NoneZero(pending: seq<U32>)
  {
    forall i :: 0 <= i < |pending| ==> pending[i] != 0
  }

  /** Each was the lowest module with a zero counter when it was placed. */
  ghost predicate ByCounters(ms: seq<Module>, o: seq<nat>)
    requires forall k :: 0 <= k < |o| ==> o[k] < |ms|
  {
    forall k :: 0 <= k < |o| ==> LowestZero(Countdown(ms, o[..k]), o[k])
  }

  lemma CountersExtend(ms: seq<Module>, o: seq<nat>, next: nat)
    requires Selection(|ms|, o) && ByCounters(ms, o) && LowestZero(Countdown(ms, o), next)
    ensures Selection(|ms|, o + [next]) && ByCounters(ms, o + [next])
  {
    var longer := o + [next];
    if next in o { PlacedAreMarked(ms, o, next); }
    DistinctAppend(o, next);
    forall k | 0 <= k < |longer| ensures LowestZero(Countdown(ms, longer[..k]), longer[k]) {
      if k < |o| { assert longer[..k] == o[..k]; } else { assert longer[..k] == o; }
    }
  }

  /** What Resolve makes of any modules: `o` are the input indices it placed. */
  ghost predicate Outcome(ms: seq<Module>, resolved: bool, o: seq<nat>)
  {
    && Selection(|ms|, o) && ByCounters(ms, o)
    && (!Valid(ms) ==> !resolved && o == [])
    && (Valid(ms) ==> (resolved <==> |o| == |ms|) && (!resolved ==> NoneZero(Countdown(ms, o))))
  }

  /** For ordinary modules the counters place the least ready module each time. */
  lemma {:induction false} CountersAreGreedy(ms: seq<Module>, o: seq<nat>)
    requires Ordinary(ms) && Selection(|ms|, o) && ByCounters(ms, o)
    ensures Greedy(ms, o)
    ensures forall i :: 0 <= i < |ms| ==> (Countdown(ms, o)[i] == 0 <==> Ready(ms, o, i))
  {
    forall k | 0 <= k < |o| ensures GreedyAt(ms, o, k) {
      assert LowestZero(Countdown(ms, o[..k]), o[k]);
      ZeroIsReady(ms, o[..k]);
    }
    ZeroIsReady(ms, o);
  }

  lemma ZeroIsReady(ms: seq<Module>, o: seq<nat>)
    requires Ordinary(ms) && Selection(|ms|, o)
    ensures forall i :: 0 <= i < |ms| ==> (Countdown(ms, o)[i] == 0 <==> Ready(ms, o, i))
  {
    forall i | 0 <= i < |ms| ensures Countdown(ms, o)[i] == 0 <==> Ready(ms, o, i) {
      OrdinaryCounts(ms, o, i);
      ZeroMeansReady(ms, Countdown(ms, o)[i], o, i);
    }
  }

  /** For ordinary modules the outcome is success exactly when the declarations are valid, no module repeats an ordering
      entry and the ordering edges have no cycle, and the order is then the least one that puts dependencies first. A
      stall of valid modules without repeated entries has a cycle among those not placed. */
  lemma OutcomeMeaning(ms: seq<Module>, resolved: bool, o: seq<nat>) returns (cycle: seq<nat>)
    requires Ordinary(ms) && Outcome(ms, resolved, o)
    ensures resolved <==> Valid(ms) && SingleEntries(ms) && Acyclic(ms)
    ensures resolved ==> LeastOrder(ms, o) && TargetsFirst(ms, o)
    ensures !resolved && Valid(ms) && SingleEntries(ms) ==> IsCycle(ms, cycle) && forall x :: x in cycle ==> x !in o
  {
    cycle := [];
    CountersAreGreedy(ms, o);
    if resolved {
      GreedyIsLeast(ms, o);
      OrderPutsTargetsFirst(ms, o);
    } else if Valid(ms) && SingleEntries(ms) {
      SelectionShort(ms, o);
      cycle := StallHasCycle(ms, o);
    }
  }

  /** The first half of Resolve: every offender is looked at. */
  method ValidateModules(ms: seq<Module>) returns (valid: bool)
    ensures valid <==> Valid(ms)
  {
    valid := true;
    for i := 0 to |ms|
      invariant valid <==> forall x :: 0 <= x < i ==> ValidModule(ms, ms[x])
    {
      var dependenciesValid := ValidateDependencies(ms[i], ms);
      valid := valid && ms[i].contract == MODULE_CONTRACT_VERSION && dependenciesValid;
    }
  }

  class Graph {
    var order: seq<Module>

    constructor ()
      ensures order == []
    {
      order := [];
    }

    /** For any modules: invalid ones place nothing; valid ones are placed by their counters, until all are or no
        counter is zero. What that means for ordinary modules, by OutcomeMeaning, is promised as well. */
    method Resolve(ms: seq<Module>) returns (resolved: bool, ghost placed: seq<nat>, ghost cycle: seq<nat>)
      modifies this
      ensures Outcome(ms, resolved, placed) && order == Pick(ms, placed)
      ensures Ordinary(ms) ==> (resolved <==> Valid(ms) && SingleEntries(ms) && Acyclic(ms))
      ensures Ordinary(ms) && resolved ==> LeastOrder(ms, placed) && TargetsFirst(ms, placed)
      ensures Ordinary(ms) && !resolved && Valid(ms) && SingleEntries(ms) ==>
                IsCycle(ms, cycle) && forall x :: x in cycle ==> x !in placed
    {
      order := [];
      placed, cycle := [], [];
      resolved := ValidateModules(ms);
      if resolved {
        resolved, placed := PlaceModules(ms);
      }
      if Ordinary(ms) { cycle := OutcomeMeaning(ms, resolved, placed); }
    }

    /** The second half of Resolve. */
    method PlaceModules(ms: seq<Module>) returns (resolved: bool, ghost placed: seq<nat>)
      requires Valid(ms) && order == []
      modifies this
      ensures Outcome(ms, resolved, placed) && order == Pick(ms, placed)
    {
      resolved, placed := true, [];
      var pending := CountWaiting(ms);
      while resolved && |order| < |ms|
        invariant Placing(ms, pending, placed, order)
        invariant !resolved ==> NoneZero(pending) && |order| < |ms|
        decreases resolved, |ms| - |order|
      {
        var next := LowestReady(pending);
        if next == |pending| {
          resolved := false;
        } else {
          var after := Place(ms, pending, next);
          PlacingStep(ms, pending, placed, order, next, after);
          order, pending, placed := order + [ms[next]], after, placed + [next];
        }
      }
      PlacingEnds(ms, pending, placed, order, resolved);
    }
  }

  /** The modules placed so far, their counters and the order that stands for them. */
  ghost predicate Placing(ms: seq<Module>, pending: seq<U32>, placed: seq<nat>, order: seq<Module>)
  {
    Selection(|ms|, placed) && ByCounters(ms, placed) && pending == Countdown(ms, placed) && order == Pick(ms, placed)
  }

  lemma PlacingStep(
    ms: seq<Module>, pending: seq<U32>, placed: seq<nat>, order: seq<Module>, next: nat, after: seq<U32>)
    requires Placing(ms, pending, placed, order) && LowestZero(pending, next) && After(ms, pending, next, after)
    ensures Placing(ms, after, placed + [next], order + [ms[next]])
  {
    CountersExtend(ms, placed, next);
    CountdownIs(ms, placed, next, after);
  }

  lemma PlacingEnds(ms: seq<Module>, pending: seq<U32>, placed: seq<nat>, order: seq<Module>, resolved: bool)
    requires Valid(ms) && Placing(ms, pending, placed, order)
    requires if resolved then |order| >= |ms| else NoneZero(pending) && |order| < |ms|
    ensures Outcome(ms, resolved, placed)
  {
    SelectionShort(ms, placed);
  }

  lemma SelectionShort(ms: seq<Module>, placed: seq<nat>)
    requires Selection(|ms|, placed)
    ensures |placed| <= |ms|
  {
    ElementsCount(placed);
    SubsetCount(Elements(placed), UpTo(|ms|));
  }

  // ---------------------------------------------------------------------------------------------------------
  // Notify entries
  // ---------------------------------------------------------------------------------------------------------

  /** The entries that are not Notify ones. */
  function Hushed(ds: seq<Dependency>): (r: seq<Dependency>)
    ensures forall d :: d in r <==> d in ds && d.kind != Notify
  {
    if ds == [] then []
    else
      var d := ds[|ds| - 1];
      assert ds == ds[..|ds| - 1] + [d];
      Hushed(ds[..|ds| - 1]) + if d.kind == Notify then [] else [d]
  }

  function AllHushed(ms: seq<Module>): (r: seq<Module>)
    ensures |r| == |ms|
    ensures forall i :: 0 <= i < |ms| ==> r[i] == ms[i].(dependencies := Hushed(ms[i].dependencies))
  {
    seq(|ms|, i requires 0 <= i < |ms| => ms[i].(dependencies := Hushed(ms[i].dependencies)))
  }

  lemma {:induction false} HushedTargets(ms: seq<Module>, ds: seq<Dependency>)
    ensures Targets(AllHushed(ms), Hushed(ds)) == Targets(ms, ds)
  {
    if ds != [] {
      var front, d := ds[..|ds| - 1], ds[|ds| - 1];
      HushedTargets(ms, front);
      if d.target.Some? { HushedFinds(ms, d.target.value); }
      if d.kind == Notify {
        assert Hushed(front) + [] == Hushed(front);
      } else {
        TargetsLast(AllHushed(ms), Hushed(front), d);
      }
    }
  }

  lemma TargetsLast(ms: seq<Module>, ds: seq<Dependency>, d: Dependency)
    ensures Targets(ms, ds + [d]) ==
            if IsOrdering(d.kind) && d.target.Some? && FindLoaded(ms, d.target.value) < |ms|
            then Targets(ms, ds) + [FindLoaded(ms, d.target.value)]
            else Targets(ms, ds)
  {
    assert (ds + [d])[..|ds|] == ds;
  }

  lemma HushedFinds(ms: seq<Module>, id: ModuleId)
    ensures FindLoaded(AllHushed(ms), id) == FindLoaded(ms, id)
  {
    var a, b := FindLoaded(AllHushed(ms), id), FindLoaded(ms, id);
    assert a < |ms| ==> ms[a].id == id;
    assert b < |ms| ==> AllHushed(ms)[b].id == id;
  }

  lemma {:induction false} HushedCounts(ms: seq<Module>, o: seq<nat>)
    requires forall k :: 0 <= k < |o| ==> o[k] < |ms|
    ensures Countdown(AllHushed(ms), o) == Countdown(ms, o)
  {
    if o == [] {
      forall i | 0 <= i < |ms| ensures Entries(AllHushed(ms), i) == Entries(ms, i) { HushedTargets(ms, ms[i].dependencies); }
    } else {
      HushedCounts(ms, o[..|o| - 1]);
      var last := o[|o| - 1];
      forall i | 0 <= i < |ms| ensures DependsOn(AllHushed(ms), i, last) <==> DependsOn(ms, i, last) {
        HushedDepends(ms, i, last);
      }
    }
  }

  lemma HushedDepends(ms: seq<Module>, i: nat, j: nat)
    requires i < |ms| && j < |ms|
    ensures DependsOn(AllHushed(ms), i, j) <==> DependsOn(ms, i, j)
  {
  }

  lemma HushedValid(ms: seq<Module>)
    requires Valid(ms)
    ensures Valid(AllHushed(ms))
  {
    forall i, d | 0 <= i < |ms| && d in AllHushed(ms)[i].dependencies ensures Acceptable(AllHushed(ms), d) {
      assert ValidModule(ms, ms[i]) && Acceptable(ms, d);
      HushedFinds(ms, d.target.value);
    }
  }

  /** Notify entries carry no order: without them valid modules have the same outcome, placed the same way. */
  lemma NotifyDoesNotOrder(ms: seq<Module>, resolved: bool, o: seq<nat>)
    requires Valid(ms)
    ensures Outcome(ms, resolved, o) <==> Outcome(AllHushed(ms), resolved, o)
  {
    HushedValid(ms);
    if Selection(|ms|, o) {
      HushedCounts(ms, o);
      forall k | 0 <= k < |o| ensures Countdown(AllHushed(ms), o[..k]) == Countdown(ms, o[..k]) { HushedCounts(ms, o[..k]); }
    }
  }

  /** Two ordering entries for one sibling stall an acyclic graph: the counter starts at two and drops once. */
  lemma RepeatedEntryStalls()
    ensures var ms := TwiceNamed();
            Ordinary(ms) && Valid(ms) && Acyclic(ms) && !SingleEntries(ms)
  {
    var ms := TwiceNamed();
    assert Acceptable(ms, Seven());
    NamedTwice(ms);
    assert Selection(2, [0, 1]);
    assert DependenciesFirst(ms, [0, 1]);
    OrderRulesOutCycles(ms, [0, 1]);
  }

  function Seven(): (r: Dependency)
  {
    Dependency(Some(7), Required, Version(0, 0, 0))
  }

  /** Module 8 names module 7 twice. */
  function TwiceNamed(): (r: seq<Module>)
  {
    var v := Version(0, 0, 0);
    [Module(7, v, 1, []), Module(8, v, 1, [Seven(), Seven()])]
  }

  lemma NamedTwice(ms: seq<Module>)
    requires ms == TwiceNamed()
    ensures !SingleEntries(ms)
  {
    var d := Seven();
    assert [d, d][..1] == [d] && [d][..0] == [];
    var e := Targets(ms, [d]) + [0];
    assert Entries(ms, 1) == e && e[0] == e[1];
  }

  // ---------------------------------------------------------------------------------------------------------
  // Shared ids
  // ---------------------------------------------------------------------------------------------------------

  ghost predicate HasIds(ms: seq<Module>, ids: seq<ModuleId>)
  {
    |ms| == |ids| && forall i :: 0 <= i < |ms| ==> ms[i].id == ids[i]
  }

  /** Resolve succeeds exactly if there is an order to find. */
  ghost predicate Right(ms: seq<Module>)
  {
    forall resolved, o :: Outcome(ms, resolved, o) ==> (resolved <==> Valid(ms) && SingleEntries(ms) && Acyclic(ms))
  }

  /** Module j, and it alone, names its own id. */
  ghost function NamesItself(ids: seq<ModuleId>, j: nat): (r: seq<Module>)
    requires j < |ids|
    ensures HasIds(r, ids) && Few(r)
  {
    var v := Version(0, 0, 0);
    seq(|ids|, k requires 0 <= k < |ids| =>
      Module(ids[k], v, MODULE_CONTRACT_VERSION, if k == j then [Dependency(Some(ids[j]), Required, v)] else []))
  }

  function FirstOnes(n: nat): (r: seq<nat>)
    ensures |r| == n && forall k :: 0 <= k < n ==> r[k] == k
  {
    seq(n, k => k)
  }

  /** Module i is the only one before j with the id of j. */
  ghost predicate OnlyOther(ids: seq<ModuleId>, i: nat, j: nat)
  {
    i < j < |ids| && forall k :: 0 <= k < j ==> (ids[k] == ids[j] <==> k == i)
  }

  lemma {:induction false} FirstRepeat(ids: seq<ModuleId>) returns (i: nat, j: nat)
    requires !Distinct(ids)
    ensures OnlyOther(ids, i, j)
  {
    var n := |ids| - 1;
    if !Distinct(ids[..n]) {
      i, j := FirstRepeat(ids[..n]);
      assert forall k :: 0 <= k < n ==> ids[k] == ids[..n][k];
    } else {
      j := n;
      i :| 0 <= i < n && ids[i] == ids[n];
      forall k | 0 <= k < n && k != i ensures ids[k] != ids[n] { assert ids[..n][k] != ids[..n][i]; }
    }
  }

  /** Who depends on whom there: j on all that share its id. */
  lemma ItselfDepends(ids: seq<ModuleId>, j: nat, x: nat, y: nat)
    requires j < |ids| && x < |ids| && y < |ids|
    ensures DependsOn(NamesItself(ids, j), x, y) <==> x == j && ids[y] == ids[j]
  {
    var ms := NamesItself(ids, j);
    if x == j {
      var d := Dependency(Some(ids[j]), Required, Version(0, 0, 0));
      assert ms[x].dependencies == [d] && d in ms[x].dependencies;
    }
  }

  lemma ItselfWaits(ids: seq<ModuleId>, j: nat, x: nat)
    requires j < |ids| && x < |ids|
    ensures Waiting(NamesItself(ids, j))[x] == if x == j then 1 else 0
  {
    var ms := NamesItself(ids, j);
    var ds := ms[x].dependencies;
    assert FindLoaded(ms, ms[j].id) < |ms|;
    if x == j {
      assert ds[..0] == [];
      assert |Targets(ms, ds)| == |Targets(ms, ds[..0])| + 1;
    }
    assert |Entries(ms, x)| == if x == j then 1 else 0;
  }

  /** The counter of module x there, once the first k modules are placed. */
  function ItselfCount(i: nat, j: nat, k: nat, x: nat): (r: U32)
  {
    if x < k then EMITTED else if x == j && k <= i then 1 else 0
  }

  lemma {:induction false} ItselfCounts(ids: seq<ModuleId>, i: nat, j: nat, o: seq<nat>, x: nat)
    requires OnlyOther(ids, i, j) && |o| <= |ids| && x < |ids| && forall k :: 0 <= k < |o| ==> o[k] == k
    ensures Countdown(NamesItself(ids, j), o)[x] == ItselfCount(i, j, |o|, x)
  {
    if o == [] {
      ItselfWaits(ids, j, x);
    } else {
      ItselfCounts(ids, i, j, o[..|o| - 1], x);
      ItselfNext(ids, i, j, |o|, x);
    }
  }

  lemma ItselfNext(ids: seq<ModuleId>, i: nat, j: nat, k: nat, x: nat)
    requires OnlyOther(ids, i, j) && 0 < k <= |ids| && x < |ids|
    ensures CountAfter(NamesItself(ids, j), ItselfCount(i, j, k - 1, x), x, k - 1) == ItselfCount(i, j, k, x)
  {
    ItselfDepends(ids, j, x, k - 1);
  }

  lemma ItselfValid(ids: seq<ModuleId>, j: nat)
    requires j < |ids|
    ensures Valid(NamesItself(ids, j)) && IsCycle(NamesItself(ids, j), [j])
  {
    var ms := NamesItself(ids, j);
    forall x | 0 <= x < |ms| ensures ValidModule(ms, ms[x]) {
      assert FindLoaded(ms, ms[j].id) < |ms|;
    }
    ItselfDepends(ids, j, j, j);
  }

  /** The first module with an id of an earlier one may name itself: the earlier one takes its counter to zero, and
      Resolve puts it into the order although it waits for itself. */
  lemma SharedIdMisleads(ids: seq<ModuleId>, i: nat, j: nat)
    requires OnlyOther(ids, i, j)
    ensures Outcome(NamesItself(ids, j), true, FirstOnes(|ids|)) && !Acyclic(NamesItself(ids, j))
  {
    var ms, o := NamesItself(ids, j), FirstOnes(|ids|);
    ItselfValid(ids, j);
    forall k | 0 <= k < |o| ensures LowestZero(Countdown(ms, o[..k]), o[k]) {
      forall x | 0 <= x <= k ensures Countdown(ms, o[..k])[x] == if x < k then EMITTED else 0 {
        ItselfCounts(ids, i, j, o[..k], x);
      }
    }
  }

  /** With these ids Resolve answers right whatever the modules declare, if and only if no two ids are the same. */
  lemma RightExactlyForDistinctIds(ids: seq<ModuleId>)
    ensures Distinct(ids) <==> forall ms :: HasIds(ms, ids) && Few(ms) ==> Right(ms)
  {
    if Distinct(ids) {
      forall ms, resolved, o | HasIds(ms, ids) && Few(ms) && Outcome(ms, resolved, o)
        ensures resolved <==> Valid(ms) && SingleEntries(ms) && Acyclic(ms) {
        var cycle := OutcomeMeaning(ms, resolved, o);
      }
    } else {
      var i, j := FirstRepeat(ids);
      SharedIdMisleads(ids, i, j);
      assert !Right(NamesItself(ids, j));
    }
  }
}
