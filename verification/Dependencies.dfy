/**
 What the modules of a run context declare about each other, and the graph theory behind ordering them: cycles,
 topological orders and the order that is least by input index.
 */
module Dependencies {
  import opened Wrappers

  type ModuleId = nat

  datatype Version = Version(major: nat, minor: nat, patch: nat)

  datatype Kind = Required | Optional | Notify

  datatype Dependency = Dependency(target: Option<ModuleId>, kind: Kind, minVersion: Version)

  datatype Module = Module(id: ModuleId, version: Version, contract: nat, dependencies: seq<Dependency>)

  const MODULE_CONTRACT_VERSION := 1

  predicate Satisfies(have: Version, required: Version)
  {
    && have.major == required.major
    && (have.minor > required.minor || (have.minor == required.minor && have.patch >= required.patch))
  }

  predicate IsConstrained(v: Version)
  {
    v != Version(0, 0, 0)
  }

  predicate IsOrdering(kind: Kind)
  {
    kind == Required || kind == Optional
  }

  ghost predicate DistinctIds(ms: seq<Module>)
  {
    forall i, j :: 0 <= i < j < |ms| ==> ms[i].id != ms[j].id
  }

  /** The index of the first loaded module with this id, or |ms|. */
  function FindLoaded(ms: seq<Module>, id: ModuleId): (r: nat)
    ensures r <= |ms|
    ensures r < |ms| ==> ms[r].id == id
    ensures forall j :: 0 <= j < r ==> ms[j].id != id
  {
    if ms == [] then 0
    else
      var r := FindLoaded(ms[..|ms| - 1], id);
      if r < |ms| - 1 || ms[|ms| - 1].id == id then r else |ms|
  }

  /** Module i of the input must come after module j. */
  ghost predicate DependsOn(ms: seq<Module>, i: nat, j: nat)
    requires i < |ms| && j < |ms|
  {
    exists d :: d in ms[i].dependencies && IsOrdering(d.kind) && d.target == Some(ms[j].id)
  }

  /** One declared dependency is acceptable among the loaded modules. */
  ghost predicate Acceptable(ms: seq<Module>, d: Dependency)
  {
    && d.target.Some?
    && var j := FindLoaded(ms, d.target.value);
       if j == |ms| then d.kind != Required
       else IsConstrained(d.minVersion) ==> Satisfies(ms[j].version, d.minVersion)
  }

  ghost predicate ValidModule(ms: seq<Module>, m: Module)
  {
    m.contract == MODULE_CONTRACT_VERSION && forall d :: d in m.dependencies ==> Acceptable(ms, d)
  }

  ghost predicate Valid(ms: seq<Module>)
  {
    forall i :: 0 <= i < |ms| ==> ValidModule(ms, ms[i])
  }

  /** Module j is the loaded one that the entry means. */
  ghost predicate IsTarget(ms: seq<Module>, d: Dependency, j: nat)
  {
    j < |ms| && d.target == Some(ms[j].id) && forall k :: 0 <= k < j ==> ms[k].id != ms[j].id
  }

  /** The entry names a module; a Required one names a loaded one; and a loaded one is of the same major version and not
      older in minor and patch than the entry asks for, if it asks for anything. */
  ghost predicate Met(ms: seq<Module>, d: Dependency)
  {
    && d.target.Some?
    && (d.kind == Required ==> exists j: nat :: IsTarget(ms, d, j))
    && forall j: nat :: IsTarget(ms, d, j) && (d.minVersion.major > 0 || d.minVersion.minor > 0 || d.minVersion.patch > 0) ==>
         && ms[j].version.major == d.minVersion.major
         && !LexLess([ms[j].version.minor, ms[j].version.patch], [d.minVersion.minor, d.minVersion.patch])
  }

  lemma SatisfiesMeaning(have: Version, required: Version)
    ensures Satisfies(have, required) <==>
              have.major == required.major && !LexLess([have.minor, have.patch], [required.minor, required.patch])
  {
    var a, b := [have.minor, have.patch], [required.minor, required.patch];
    if have.minor < required.minor { assert a[..0] == b[..0] && a[0] < b[0]; }
    if have.minor == required.minor && have.patch < required.patch { assert a[..1] == b[..1] && a[1] < b[1]; }
    if LexLess(a, b) {
      var k :| 0 <= k < |a| && k < |b| && a[..k] == b[..k] && a[k] < b[k];
      assert k == 1 ==> a[0] == a[..1][0] == b[..1][0] == b[0];
    }
  }

  lemma TargetIsFound(ms: seq<Module>, d: Dependency, k: nat)
    requires d.target.Some?
    ensures IsTarget(ms, d, k) <==> k < |ms| && k == FindLoaded(ms, d.target.value)
  {
  }

  lemma AcceptableMeaning(ms: seq<Module>, d: Dependency)
    ensures Acceptable(ms, d) <==> Met(ms, d)
  {
    if d.target.Some? {
      var j := FindLoaded(ms, d.target.value);
      forall k: nat ensures IsTarget(ms, d, k) <==> k == j && j < |ms| { TargetIsFound(ms, d, k); }
      if j < |ms| {
        SatisfiesMeaning(ms[j].version, d.minVersion);
        assert IsTarget(ms, d, j);
      }
    }
  }

  /** The declarations are valid exactly if every module is built for contract 1 and every entry is met. */
  lemma ValidMeaning(ms: seq<Module>)
    ensures Valid(ms) <==> forall i :: 0 <= i < |ms| ==> ms[i].contract == 1 && forall d :: d in ms[i].dependencies ==> Met(ms, d)
  {
    forall d ensures Acceptable(ms, d) <==> Met(ms, d) { AcceptableMeaning(ms, d); }
  }

  /** The loaded modules that a list of declarations orders its owner after: one index per entry. */
  function Targets(ms: seq<Module>, ds: seq<Dependency>): (r: seq<nat>)
    ensures |r| <= |ds|
    ensures forall k :: 0 <= k < |r| ==> r[k] < |ms|
  {
    if ds == [] then []
    else
      var d := ds[|ds| - 1];
      var before := Targets(ms, ds[..|ds| - 1]);
      if IsOrdering(d.kind) && d.target.Some? && FindLoaded(ms, d.target.value) < |ms|
      then before + [FindLoaded(ms, d.target.value)]
      else before
  }

  function Entries(ms: seq<Module>, i: nat): (r: seq<nat>)
    requires i < |ms|
    ensures forall k :: 0 <= k < |r| ==> r[k] < |ms|
  {
    Targets(ms, ms[i].dependencies)
  }

  ghost predicate Distinct(s: seq<nat>)
  {
    forall p, q :: 0 <= p < q < |s| ==> s[p] != s[q]
  }

  function Elements(s: seq<nat>): (r: set<nat>)
  {
    set x | x in s
  }

  /** No module names the same loaded sibling in two ordering entries. */
  ghost predicate SingleEntries(ms: seq<Module>)
  {
    forall i :: 0 <= i < |ms| ==> Distinct(Entries(ms, i))
  }

  lemma {:induction false} TargetsMeaning(ms: seq<Module>, ds: seq<Dependency>, j: nat)
    requires DistinctIds(ms) && j < |ms|
    ensures j in Targets(ms, ds) <==> exists d :: d in ds && IsOrdering(d.kind) && d.target == Some(ms[j].id)
  {
    if ds != [] {
      var d, front := ds[|ds| - 1], ds[..|ds| - 1];
      TargetsMeaning(ms, front, j);
      assert ds == front + [d];
      if j in Targets(ms, ds) && j !in Targets(ms, front) { assert d in ds; }
      if d.target == Some(ms[j].id) { assert FindLoaded(ms, ms[j].id) == j; }
    }
  }

  lemma EntriesAreDependencies(ms: seq<Module>, i: nat, j: nat)
    requires DistinctIds(ms) && i < |ms| && j < |ms|
    ensures j in Entries(ms, i) <==> DependsOn(ms, i, j)
  {
    TargetsMeaning(ms, ms[i].dependencies, j);
  }

  // ---------------------------------------------------------------------------------------------------------
  // Counting
  // ---------------------------------------------------------------------------------------------------------

  lemma {:induction false} ElementsCount(s: seq<nat>)
    ensures |Elements(s)| <= |s|
    ensures |Elements(s)| == |s| <==> Distinct(s)
  {
    if s != [] {
      var front, x := s[..|s| - 1], s[|s| - 1];
      ElementsCount(front);
      assert s == front + [x];
      DistinctAppend(front, x);
      ElementsAppend(front, x);
    }
  }

  lemma ElementsAppend(front: seq<nat>, x: nat)
    ensures Elements(front + [x]) == Elements(front) + {x}
    ensures |Elements(front + [x])| == |Elements(front)| + if x in front then 0 else 1
  {
    assert Elements(front + [x]) == Elements(front) + {x};
    if x in front { assert Elements(front) + {x} == Elements(front); }
  }

  lemma DistinctAppend(front: seq<nat>, x: nat)
    ensures Distinct(front + [x]) <==> Distinct(front) && x !in front
  {
    var s := front + [x];
    assert forall p :: 0 <= p < |front| ==> s[p] == front[p];
    assert s[|front|] == x;
  }

  /** A counter that started at the entries and dropped once per placed dependency is zero exactly when there was
      no repeated entry and nothing is left to wait for. */
  lemma CountdownMeaning(s: seq<nat>, placed: set<nat>)
    ensures |Elements(s) * placed| <= |s|
    ensures |Elements(s) * placed| == |s| <==> Distinct(s) && Elements(s) <= placed
  {
    ElementsCount(s);
    assert Elements(s) == (Elements(s) * placed) + (Elements(s) - placed);
    assert |Elements(s)| == |Elements(s) * placed| + |Elements(s) - placed|;
    if Elements(s) <= placed { assert Elements(s) * placed == Elements(s); }
  }

  // ---------------------------------------------------------------------------------------------------------
  // Cycles and orders
  // ---------------------------------------------------------------------------------------------------------

  ghost predicate Hop(ms: seq<Module>, w: seq<nat>, k: nat)
  {
    k + 1 < |w| && w[k] < |ms| && w[k + 1] < |ms| && DependsOn(ms, w[k], w[k + 1])
  }

  /** Each module of the path waits for the one after it. */
  ghost predicate IsPath(ms: seq<Module>, w: seq<nat>)
  {
    |w| > 0 && w[0] < |ms| && forall k :: 0 <= k < |w| - 1 ==> Hop(ms, w, k)
  }

  ghost predicate IsCycle(ms: seq<Module>, c: seq<nat>)
  {
    IsPath(ms, c) && c[|c| - 1] < |ms| && DependsOn(ms, c[|c| - 1], c[0])
  }

  /** Every member of the set waits for a member of the set. */
  ghost predicate AllWait(ms: seq<Module>, u: set<nat>)
  {
    forall i {:trigger WaitsFor(ms, u, i)} :: i in u ==> WaitsFor(ms, u, i)
  }

  ghost predicate WaitsFor(ms: seq<Module>, u: set<nat>, i: nat)
  {
    i < |ms| && exists j :: j in u && j < |ms| && DependsOn(ms, i, j)
  }

  ghost predicate Acyclic(ms: seq<Module>)
  {
    forall c :: !IsCycle(ms, c)
  }

  /** Some of the first n numbers, each at most once. */
  ghost predicate Selection(n: nat, o: seq<nat>)
  {
    Distinct(o) && forall k :: 0 <= k < |o| ==> o[k] < n
  }

  ghost predicate DependenciesFirst(ms: seq<Module>, o: seq<nat>)
    requires Selection(|ms|, o)
  {
    forall a, b :: 0 <= a < |o| && 0 <= b < |o| && DependsOn(ms, o[a], o[b]) ==> b < a
  }

  /** A permutation of the input in which every dependency precedes its dependents. */
  ghost predicate IsOrder(ms: seq<Module>, o: seq<nat>)
  {
    && Selection(|ms|, o) && |o| == |ms|
    && (forall j :: 0 <= j < |ms| ==> j in o)
    && DependenciesFirst(ms, o)
  }

  /** What a Required or an Optional entry names stands before its owner. */
  ghost predicate TargetsFirst(ms: seq<Module>, o: seq<nat>)
    requires Selection(|ms|, o)
  {
    forall p, q :: 0 <= p < |o| && 0 <= q < |o| && OrdersAfter(ms[o[p]], ms[o[q]].id) ==> q < p
  }

  ghost predicate OrdersAfter(m: Module, id: ModuleId)
  {
    exists d :: d in m.dependencies && (d.kind == Required || d.kind == Optional) && d.target == Some(id)
  }

  lemma OrderPutsTargetsFirst(ms: seq<Module>, o: seq<nat>)
    requires IsOrder(ms, o)
    ensures TargetsFirst(ms, o)
  {
    forall p, q | 0 <= p < |o| && 0 <= q < |o| && OrdersAfter(ms[o[p]], ms[o[q]].id) ensures q < p {
      assert DependsOn(ms, o[p], o[q]);
    }
  }

  ghost predicate LexLess(a: seq<nat>, b: seq<nat>)
  {
    exists k :: 0 <= k < |a| && k < |b| && a[..k] == b[..k] && a[k] < b[k]
  }

  ghost predicate LeastOrder(ms: seq<Module>, o: seq<nat>)
  {
    IsOrder(ms, o) && forall q :: IsOrder(ms, q) ==> o == q || LexLess(o, q)
  }

  lemma PathLoops(ms: seq<Module>, w: seq<nat>, p: nat)
    requires IsPath(ms, w) && p < |w| && w[|w| - 1] < |ms| && w[p] < |ms| && DependsOn(ms, w[|w| - 1], w[p])
    ensures IsCycle(ms, w[p..])
  {
    var c := w[p..];
    forall k | 0 <= k < |c| - 1 ensures Hop(ms, c, k) { assert Hop(ms, w, p + k); }
  }

  lemma PathExtends(ms: seq<Module>, w: seq<nat>, j: nat)
    requires IsPath(ms, w) && w[|w| - 1] < |ms| && j < |ms| && DependsOn(ms, w[|w| - 1], j)
    ensures IsPath(ms, w + [j])
  {
    forall k | 0 <= k < |w| ensures Hop(ms, w + [j], k) {
      if k < |w| - 1 { assert Hop(ms, w, k); }
    }
  }

  /** A path inside a set in which everybody waits for somebody of the set runs into itself. */
  lemma {:induction false} WalkFindsCycle(ms: seq<Module>, u: set<nat>, w: seq<nat>) returns (c: seq<nat>)
    requires AllWait(ms, u) && IsPath(ms, w) && Distinct(w) && forall x :: x in w ==> x in u
    ensures IsCycle(ms, c) && forall x :: x in c ==> x in u
    decreases |u| - |w|
  {
    var last := w[|w| - 1];
    assert last in w;
    assert WaitsFor(ms, u, last);
    var j :| j in u && j < |ms| && DependsOn(ms, last, j);
    if j in w {
      var p :| 0 <= p < |w| && w[p] == j;
      PathLoops(ms, w, p);
      c := w[p..];
    } else {
      PathExtends(ms, w, j);
      ElementsCount(w + [j]);
      SubsetCount(Elements(w + [j]), u);
      c := WalkFindsCycle(ms, u, w + [j]);
    }
  }

  lemma SubsetCount(a: set<nat>, b: set<nat>)
    requires a <= b
    ensures |a| <= |b|
  {
    assert b == a + (b - a);
  }

  lemma {:induction false} PositionsFall(ms: seq<Module>, o: seq<nat>, c: seq<nat>, at: seq<nat>, k: nat)
    requires IsOrder(ms, o) && IsCycle(ms, c) && k < |c|
    requires |at| == |c| && forall x :: 0 <= x < |c| ==> at[x] < |o| && o[at[x]] == c[x]
    ensures at[k] + k <= at[0]
  {
    if k > 0 {
      PositionsFall(ms, o, c, at, k - 1);
      assert Hop(ms, c, k - 1);
      assert DependsOn(ms, o[at[k - 1]], o[at[k]]);
    }
  }

  ghost function PositionIn(o: seq<nat>, x: nat): (p: nat)
    requires x in o
    ensures p < |o| && o[p] == x
  {
    var p: nat :| p < |o| && o[p] == x;
    p
  }

  lemma OrderRulesOutCycles(ms: seq<Module>, o: seq<nat>)
    requires IsOrder(ms, o)
    ensures Acyclic(ms)
  {
    forall c ensures !IsCycle(ms, c) {
      if IsCycle(ms, c) {
        forall x | 0 <= x < |c| ensures c[x] in o {
          if x < |c| - 1 { assert Hop(ms, c, x); }
        }
        var at := seq(|c|, x requires 0 <= x < |c| => PositionIn(o, c[x]));
        PositionsFall(ms, o, c, at, |c| - 1);
        assert false;
      }
    }
  }

  // ---------------------------------------------------------------------------------------------------------
  // The greedy order
  // ---------------------------------------------------------------------------------------------------------

  /** Module i, not placed yet, has no repeated entry and waits for nothing outside `placed`. */
  ghost predicate Ready(ms: seq<Module>, placed: seq<nat>, i: nat)
    requires i < |ms|
  {
    i !in placed && Distinct(Entries(ms, i)) && Elements(Entries(ms, i)) <= Elements(placed)
  }

  /** Every member was the least ready index when it was placed. */
  ghost predicate Greedy(ms: seq<Module>, o: seq<nat>)
    requires Selection(|ms|, o)
  {
    forall k :: 0 <= k < |o| ==> GreedyAt(ms, o, k)
  }

  ghost predicate GreedyAt(ms: seq<Module>, o: seq<nat>, k: nat)
    requires Selection(|ms|, o) && k < |o|
  {
    Ready(ms, o[..k], o[k]) && forall j :: 0 <= j < o[k] ==> !Ready(ms, o[..k], j)
  }

  /** The indices below n. */
  ghost function UpTo(n: nat): (r: set<nat>)
    ensures forall x :: x in r <==> 0 <= x < n
    ensures |r| == n
  {
    if n == 0 then {} else UpTo(n - 1) + {n - 1}
  }

  lemma {:induction false} FullSelection(n: nat, o: seq<nat>, j: nat)
    requires Selection(n, o) && |o| == n && j < n
    ensures j in o
  {
    if j !in o {
      ElementsCount(o);
      SubsetCount(Elements(o) + {j}, UpTo(n));
    }
  }

  lemma GreedyIsOrder(ms: seq<Module>, o: seq<nat>)
    requires DistinctIds(ms) && Selection(|ms|, o) && Greedy(ms, o) && |o| == |ms|
    ensures IsOrder(ms, o) && SingleEntries(ms)
  {
    forall j | 0 <= j < |ms| ensures j in o { FullSelection(|ms|, o, j); }
    forall a, b | 0 <= a < |o| && 0 <= b < |o| && DependsOn(ms, o[a], o[b]) ensures b < a {
      EntriesAreDependencies(ms, o[a], o[b]);
      assert GreedyAt(ms, o, a);
      assert o[b] in Elements(Entries(ms, o[a]));
      var p :| 0 <= p < a && o[..a][p] == o[b];
      assert o[p] == o[b];
    }
    forall i | 0 <= i < |ms| ensures Distinct(Entries(ms, i)) {
      var p := PositionIn(o, i);
      assert GreedyAt(ms, o, p);
    }
  }

  /** In any order that starts like the greedy one, the next module is ready. */
  lemma OrderNextIsReady(ms: seq<Module>, q: seq<nat>, k: nat)
    requires DistinctIds(ms) && SingleEntries(ms) && IsOrder(ms, q) && k < |q|
    ensures Ready(ms, q[..k], q[k])
  {
    forall j | j in Elements(Entries(ms, q[k])) ensures j in Elements(q[..k]) {
      EntriesAreDependencies(ms, q[k], j);
      var p := PositionIn(q, j);
      assert DependsOn(ms, q[k], q[p]);
      assert q[..k][p] == j;
    }
  }

  lemma {:induction false} GreedyIsLeastFrom(ms: seq<Module>, o: seq<nat>, q: seq<nat>, k: nat)
    requires DistinctIds(ms) && SingleEntries(ms)
    requires Selection(|ms|, o) && Greedy(ms, o) && |o| == |ms| && IsOrder(ms, q)
    requires k <= |o| && o[..k] == q[..k]
    ensures o == q || LexLess(o, q)
    decreases |o| - k
  {
    if k == |o| {
      assert o == o[..k] && q == q[..k];
    } else if o[k] == q[k] {
      assert o[..k + 1] == o[..k] + [o[k]] && q[..k + 1] == q[..k] + [q[k]];
      GreedyIsLeastFrom(ms, o, q, k + 1);
    } else {
      OrderNextIsReady(ms, q, k);
      assert GreedyAt(ms, o, k);
    }
  }

  /** A complete greedy selection is the least of all orders that put dependencies first. */
  lemma GreedyIsLeast(ms: seq<Module>, o: seq<nat>)
    requires DistinctIds(ms) && Selection(|ms|, o) && Greedy(ms, o) && |o| == |ms|
    ensures LeastOrder(ms, o) && SingleEntries(ms) && Acyclic(ms)
  {
    GreedyIsOrder(ms, o);
    OrderRulesOutCycles(ms, o);
    forall q | IsOrder(ms, q) ensures o == q || LexLess(o, q) { GreedyIsLeastFrom(ms, o, q, 0); }
  }

  lemma SomeUnplaced(n: nat, o: seq<nat>)
    requires |o| < n
    ensures UpTo(n) - Elements(o) != {}
  {
    ElementsCount(o);
    if UpTo(n) <= Elements(o) { SubsetCount(UpTo(n), Elements(o)); }
  }

  /** Nothing ready among unplaced modules without repeated entries: they contain a real cycle. */
  lemma StallHasCycle(ms: seq<Module>, o: seq<nat>) returns (c: seq<nat>)
    requires DistinctIds(ms) && SingleEntries(ms) && Selection(|ms|, o) && |o| < |ms|
    requires forall i :: 0 <= i < |ms| ==> !Ready(ms, o, i)
    ensures IsCycle(ms, c) && forall x :: x in c ==> x !in o
  {
    var u := UpTo(|ms|) - Elements(o);
    assert AllWait(ms, u) by {
      forall i | i in u ensures WaitsFor(ms, u, i) {
        assert !Ready(ms, o, i);
        var j :| j in Elements(Entries(ms, i)) && j !in Elements(o);
        EntriesAreDependencies(ms, i, j);
        assert j in u;
      }
    }
    SomeUnplaced(|ms|, o);
    var start :| start in u;
    c := WalkFindsCycle(ms, u, [start]);
  }
}
