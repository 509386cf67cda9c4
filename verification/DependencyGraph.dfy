/**
 Dependency graphs and their greedy layering.

 A graph maps each declared id to the ids it depends on; a dependency need not
 be declared.  `Settled(g, k)` holds the ids that can be scheduled within k
 rounds, and `Layer(g, k)` the ids that become ready in round k.  The results
 here say what those layers are without mentioning rounds: longest dependency
 chains, absence of cycles and undeclared ids, and optimality.
 */
module DependencyGraph {
  import opened Basics

  type Id = string
  type Graph = map<Id, set<Id>>

  function Ready(g: Graph, done: set<Id>): set<Id> {
    set i | i in g && i !in done && g[i] <= done
  }

  ghost function Settled(g: Graph, k: nat): set<Id> {
    if k == 0 then {} else Settled(g, k - 1) + Ready(g, Settled(g, k - 1))
  }

  ghost function Layer(g: Graph, k: nat): set<Id> {
    Ready(g, Settled(g, k))
  }

  /** The number of layers the greedy layering produces before it stalls. */
  ghost function Height(g: Graph): nat {
    HeightFrom(g, 0)
  }

  ghost function HeightFrom(g: Graph, k: nat): (h: nat)
    ensures h >= k
    ensures Layer(g, h) == {}
    ensures forall j :: k <= j < h ==> Layer(g, j) != {}
    decreases g.Keys - Settled(g, k)
  {
    if Layer(g, k) == {} then k
    else
      assert Settled(g, k + 1) == Settled(g, k) + Layer(g, k);
      HeightFrom(g, k + 1)
  }

  /** The ids the greedy layering ever reaches. */
  ghost function Core(g: Graph): set<Id> {
    Settled(g, Height(g))
  }

  ghost predicate Schedulable(g: Graph) {
    Core(g) == g.Keys
  }

  ghost function LayersUpTo(g: Graph, m: nat): (layers: seq<set<Id>>)
    ensures |layers| == m
  {
    seq(m, k requires 0 <= k < m => Layer(g, k))
  }

  ghost function Layers(g: Graph): seq<set<Id>> {
    LayersUpTo(g, Height(g))
  }

  // ----- The settled sets grow and are closed under dependencies -----

  lemma {:induction false} SettledMonotone(g: Graph, j: nat, k: nat)
    requires j <= k
    ensures Settled(g, j) <= Settled(g, k) <= g.Keys
    decreases k
  {
    if k == 0 {
    } else if j < k {
      SettledMonotone(g, j, k - 1);
    } else {
      SettledMonotone(g, k - 1, k - 1);
    }
  }

  lemma {:induction false} SettledDeps(g: Graph, k: nat, i: Id)
    requires i in Settled(g, k)
    ensures k > 0 && i in g && g[i] <= Settled(g, k - 1)
  {
    SettledMonotone(g, k, k);
    if i !in Ready(g, Settled(g, k - 1)) {
      SettledDeps(g, k - 1, i);
      SettledMonotone(g, k - 2, k - 1);
    }
  }

  lemma SettledIff(g: Graph, k: nat, i: Id)
    ensures i in Settled(g, k + 1) <==> i in g && g[i] <= Settled(g, k)
  {
    if i in Settled(g, k + 1) {
      SettledDeps(g, k + 1, i);
    }
  }

  lemma {:induction false} SettledWithinCore(g: Graph, k: nat)
    ensures Settled(g, k) <= Core(g) <= g.Keys
  {
    SettledMonotone(g, Height(g), Height(g));
    if k <= Height(g) {
      SettledMonotone(g, k, Height(g));
    } else {
      SettledWithinCore(g, k - 1);
      SettledMonotone(g, Height(g), k - 1);
      assert Settled(g, k - 1) == Core(g);
      assert Ready(g, Core(g)) == Layer(g, Height(g)) == {};
    }
  }

  /** Every dependency of a core id is itself in the core; nothing else can join. */
  lemma CoreIff(g: Graph, i: Id)
    ensures i in Core(g) <==> i in g && g[i] <= Core(g)
  {
    var h := Height(g);
    SettledIff(g, h, i);
    SettledWithinCore(g, h + 1);
    SettledMonotone(g, h, h + 1);
  }

  lemma LayerBelowHeight(g: Graph, k: nat)
    ensures Layer(g, k) != {} <==> k < Height(g)
  {
    if k >= Height(g) {
      SettledWithinCore(g, k);
      SettledMonotone(g, Height(g), k);
    }
  }

  lemma {:induction false} InSomeLayer(g: Graph, k: nat, i: Id) returns (j: nat)
    requires i in Settled(g, k)
    ensures j < k && i in Layer(g, j)
  {
    if i in Settled(g, k - 1) {
      j := InSomeLayer(g, k - 1, i);
    } else {
      j := k - 1;
    }
  }

  lemma LayersDisjoint(g: Graph, j: nat, k: nat)
    requires j < k
    ensures Layer(g, j) !! Layer(g, k)
  {
    SettledMonotone(g, j + 1, k);
  }

  /** The layers partition the core: each core id is in exactly one of them. */
  lemma LayersPartitionCore(g: Graph, i: Id)
    ensures i in Core(g) <==> exists k :: 0 <= k < Height(g) && i in Layers(g)[k]
    ensures forall j, k :: 0 <= j < k < Height(g) ==> Layers(g)[j] !! Layers(g)[k]
  {
    forall j, k | 0 <= j < k < Height(g)
      ensures Layers(g)[j] !! Layers(g)[k]
    {
      LayersDisjoint(g, j, k);
    }
    if i in Core(g) {
      var k := InSomeLayer(g, Height(g), i);
      assert i in Layers(g)[k];
    }
    if k :| 0 <= k < Height(g) && i in Layers(g)[k] {
      SettledWithinCore(g, k + 1);
    }
  }

  /** One round of the greedy loop: either it extends the layering, or the core is complete. */
  lemma GreedyRound(g: Graph, k: nat)
    requires k <= Height(g)
    ensures Settled(g, k) <= g.Keys
    ensures Layer(g, k) == {} ==> k == Height(g) && Settled(g, k) == Core(g)
    ensures Layer(g, k) != {} ==> k < Height(g)
    ensures Settled(g, k + 1) == Settled(g, k) + Layer(g, k)
    ensures LayersUpTo(g, k + 1) == LayersUpTo(g, k) + [Layer(g, k)]
  {
    SettledMonotone(g, k, k);
    LayerBelowHeight(g, k);
  }

  // ----- Layer index = length of the longest dependency chain -----

  /** A chain starts at a dependent and steps to one of its dependencies each time. */
  ghost predicate Chain(g: Graph, p: seq<Id>) {
    && |p| > 0
    && (forall n :: 0 <= n < |p| ==> p[n] in g)
    && (forall n :: 0 < n < |p| ==> p[n] in g[p[n - 1]])
  }

  ghost predicate LongestChainFrom(g: Graph, i: Id, edges: nat) {
    && (exists p :: Chain(g, p) && p[0] == i && |p| == edges + 1)
    && (forall p :: Chain(g, p) && p[0] == i ==> |p| <= edges + 1)
  }

  lemma {:induction false} ChainBound(g: Graph, p: seq<Id>, k: nat)
    requires Chain(g, p) && p[0] in Settled(g, k)
    ensures |p| <= k
    decreases k
  {
    SettledDeps(g, k, p[0]);
    if |p| > 1 {
      ChainBound(g, p[1..], k - 1);
    }
  }

  lemma {:induction false} ChainOfLayer(g: Graph, i: Id, k: nat) returns (p: seq<Id>)
    requires i in Layer(g, k)
    ensures Chain(g, p) && p[0] == i && |p| == k + 1
    decreases k
  {
    if k == 0 {
      p := [i];
    } else {
      SettledIff(g, k - 1, i);
      var d :| d in g[i] && d !in Settled(g, k - 1);
      var q := ChainOfLayer(g, d, k - 1);
      p := [i] + q;
    }
  }

  lemma LayerIsLongestChain(g: Graph, i: Id, k: nat)
    ensures i in Layer(g, k) <==> i in Core(g) && LongestChainFrom(g, i, k)
  {
    if i in Layer(g, k) {
      SettledWithinCore(g, k + 1);
      var p := ChainOfLayer(g, i, k);
      forall q | Chain(g, q) && q[0] == i
        ensures |q| <= k + 1
      {
        ChainBound(g, q, k + 1);
      }
    }
    if i in Core(g) && LongestChainFrom(g, i, k) {
      var j := InSomeLayer(g, Height(g), i);
      var p := ChainOfLayer(g, i, j);
      var q :| Chain(g, q) && q[0] == i && |q| == k + 1;
      ChainBound(g, q, j + 1);
    }
  }

  // ----- Schedulable = everything declared and no cycle -----

  ghost predicate AllDeclared(g: Graph) {
    forall i :: i in g ==> g[i] <= g.Keys
  }

  ghost predicate OnCycle(g: Graph, i: Id) {
    exists p :: Chain(g, p) && |p| > 1 && p[0] == i && p[|p| - 1] == i
  }

  ghost predicate Acyclic(g: Graph) {
    forall i :: i in g ==> !OnCycle(g, i)
  }

  /** i depends, directly or through others, on an undeclared id or on a cycle. */
  ghost predicate Blocked(g: Graph, i: Id) {
    exists p :: Chain(g, p) && p[0] == i && Stuck(g, p[|p| - 1])
  }

  ghost predicate Stuck(g: Graph, i: Id) {
    i in g && (!(g[i] <= g.Keys) || OnCycle(g, i))
  }

  lemma {:induction false} DistinctLength(p: seq<Id>, s: set<Id>)
    requires Distinct(p) && forall n :: 0 <= n < |p| ==> p[n] in s
    ensures |p| <= |s|
  {
    if p != [] {
      var last := |p| - 1;
      DistinctLength(p[..last], s - {p[last]});
    }
  }

  /** From an id outside the core, following bad dependencies ends at a stuck id. */
  lemma {:induction false} WalkToStuck(g: Graph, p: seq<Id>) returns (q: seq<Id>)
    requires Chain(g, p) && Distinct(p)
    requires forall n :: 0 <= n < |p| ==> p[n] !in Core(g)
    ensures Chain(g, q) && q[0] == p[0] && Stuck(g, q[|q| - 1])
    decreases |g.Keys| - |p|
  {
    DistinctLength(p, g.Keys);
    var x := p[|p| - 1];
    CoreIff(g, x);
    var d :| d in g[x] && d !in Core(g);
    if d !in g {
      q := p;
    } else if n :| 0 <= n < |p| && p[n] == d {
      var loop := p[n..] + [d];
      assert Chain(g, loop);
      assert OnCycle(g, d);
      q := p[..n + 1];
    } else {
      DistinctLength(p + [d], g.Keys);
      q := WalkToStuck(g, p + [d]);
    }
  }

  lemma {:induction false} CoreClosedUnderChains(g: Graph, p: seq<Id>)
    requires Chain(g, p) && p[0] in Core(g)
    ensures p[|p| - 1] in Core(g)
  {
    CoreIff(g, p[0]);
    if |p| > 1 {
      CoreClosedUnderChains(g, p[1..]);
    }
  }

  /** Repeating a cycle gives chains of any length. */
  lemma {:induction false} PumpCycle(g: Graph, i: Id, n: nat) returns (p: seq<Id>)
    requires OnCycle(g, i)
    ensures Chain(g, p) && p[0] == i && |p| > n
  {
    var c :| Chain(g, c) && |c| > 1 && c[0] == i && c[|c| - 1] == i;
    if n == 0 {
      p := c;
    } else {
      var q := PumpCycle(g, i, n - 1);
      p := c + q[1..];
    }
  }

  lemma CoreIffNotBlocked(g: Graph, i: Id)
    requires i in g
    ensures i in Core(g) <==> !Blocked(g, i)
  {
    if i !in Core(g) {
      var q := WalkToStuck(g, [i]);
    } else if Blocked(g, i) {
      var p :| Chain(g, p) && p[0] == i && Stuck(g, p[|p| - 1]);
      var x := p[|p| - 1];
      CoreClosedUnderChains(g, p);
      CoreIff(g, x);
      SettledWithinCore(g, 0);
      var q := PumpCycle(g, x, Height(g));
      ChainBound(g, q, Height(g));
    }
  }

  lemma SchedulableIffDeclaredAndAcyclic(g: Graph)
    ensures Schedulable(g) <==> AllDeclared(g) && Acyclic(g)
  {
    SettledWithinCore(g, 0);
    if Schedulable(g) {
      forall i | i in g
        ensures g[i] <= g.Keys && !OnCycle(g, i)
      {
        CoreIffNotBlocked(g, i);
        assert Chain(g, [i]);
      }
    } else {
      var i :| i in g && i !in Core(g);
      CoreIffNotBlocked(g, i);
    }
  }

  // ----- No valid layering is shorter, or places any id earlier -----

  ghost predicate ValidLayering(g: Graph, layers: seq<set<Id>>) {
    && (forall i :: i in g ==> exists k :: 0 <= k < |layers| && i in layers[k])
    && (forall k, i :: 0 <= k < |layers| && i in layers[k] ==>
          i in g && forall d :: d in g[i] ==> exists j :: 0 <= j < k && d in layers[j])
  }

  lemma {:induction false} NoEarlierPlace(g: Graph, layers: seq<set<Id>>, k: nat, i: Id)
    requires ValidLayering(g, layers) && k < |layers| && i in layers[k]
    ensures i in Settled(g, k + 1)
  {
    forall d | d in g[i]
      ensures d in Settled(g, k)
    {
      var j := PlaceOfDep(g, layers, k, i, d);
      NoEarlierPlace(g, layers, j, d);
      SettledMonotone(g, j + 1, k);
    }
    SettledIff(g, k, i);
  }

  lemma PlaceOfDep(g: Graph, layers: seq<set<Id>>, k: nat, i: Id, d: Id) returns (j: nat)
    requires ValidLayering(g, layers) && k < |layers| && i in layers[k] && i in g && d in g[i]
    ensures j < k && d in layers[j]
  {
    j :| 0 <= j < k && d in layers[j];
  }

  lemma GreedyIsOptimal(g: Graph, layers: seq<set<Id>>)
    requires ValidLayering(g, layers)
    ensures Schedulable(g) && Height(g) <= |layers|
  {
    forall i | i in g
      ensures i in Settled(g, |layers|)
    {
      var k :| 0 <= k < |layers| && i in layers[k];
      NoEarlierPlace(g, layers, k, i);
      SettledMonotone(g, k + 1, |layers|);
    }
    SettledMonotone(g, |layers|, |layers|);
    SettledWithinCore(g, |layers|);
    LayerBelowHeight(g, |layers|);
  }

  lemma GreedyIsEarliest(g: Graph, layers: seq<set<Id>>, j: nat, k: nat, i: Id)
    requires ValidLayering(g, layers)
    requires i in Layer(g, j) && k < |layers| && i in layers[k]
    ensures j <= k
  {
    NoEarlierPlace(g, layers, k, i);
    if k < j {
      SettledMonotone(g, k + 1, j);
    }
  }

  /** The greedy layers of a schedulable graph are themselves a valid layering. */
  lemma LayersAreValid(g: Graph)
    requires Schedulable(g)
    ensures ValidLayering(g, Layers(g))
  {
    forall i | i in g
      ensures exists k :: 0 <= k < |Layers(g)| && i in Layers(g)[k]
    {
      LayersPartitionCore(g, i);
    }
    forall k, i, d | 0 <= k < |Layers(g)| && i in Layers(g)[k] && d in g[i]
      ensures exists j :: 0 <= j < k && d in Layers(g)[j]
    {
      var j := InSomeLayer(g, k, d);
      assert d in Layers(g)[j];
    }
  }

  // ----- Changing a graph above some round -----

  /** The two graphs settle the same ids in each of the first k rounds. */
  ghost predicate AgreeUpTo(g: Graph, g': Graph, k: nat) {
    forall j :: 0 <= j <= k ==> Settled(g', j) == Settled(g, j)
  }

  /**
   If g' keeps the dependencies of everything settled within k rounds, and lets
   nothing else become ready before round k, the first k rounds are unchanged.
   */
  lemma {:induction false} SettledStable(g: Graph, g': Graph, k: nat, j: nat)
    requires j <= k
    requires forall i :: i in Settled(g, k) ==> i in g' && i in g && g'[i] == g[i]
    requires k > 0 ==> forall i :: i in g' && i !in Settled(g, k) ==> !(g'[i] <= Settled(g, k - 1))
    ensures Settled(g', j) == Settled(g, j)
  {
    if j > 0 {
      SettledStable(g, g', k, j - 1);
      SettledMonotone(g, j - 1, k - 1);
      SettledMonotone(g, j, k);
      var done, later, kept := Settled(g, j - 1), Settled(g, k - 1), Settled(g, k);
      assert Ready(g', done) == Ready(g, done) by {
        forall i
          ensures i in Ready(g', done) <==> i in Ready(g, done)
        {
          SettledIff(g, j - 1, i);
          SameReadiness(g, g', i, done, later, i in kept);
        }
      }
    }
  }

  lemma SameReadiness(g: Graph, g': Graph, i: Id, done: set<Id>, later: set<Id>, kept: bool)
    requires done <= later
    requires kept ==> i in g && i in g' && g'[i] == g[i]
    requires !kept && i in g' ==> !(g'[i] <= later)
    requires i in g && g[i] <= done ==> kept
    ensures (i in g' && g'[i] <= done) <==> (i in g && g[i] <= done)
  {
  }

  lemma AgreeingLayers(g: Graph, g': Graph, m: nat)
    requires AgreeUpTo(g, g', m)
    ensures LayersUpTo(g', m) == LayersUpTo(g, m)
  {
    forall k | 0 <= k < m
      ensures Layer(g', k) == Layer(g, k)
    {
      assert Settled(g', k) == Settled(g, k) && Settled(g', k + 1) == Settled(g, k + 1);
      assert Layer(g, k) == Settled(g, k + 1) - Settled(g, k);
      assert Layer(g', k) == Settled(g', k + 1) - Settled(g', k);
    }
  }
}
