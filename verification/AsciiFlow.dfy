/** The layering behind the rendered flow diagram: total, with the unschedulable rest in one last row. */
module AsciiFlow {
  import opened DependencyGraph
  import opened Tasks

  /** The rows of the diagram: the greedy layers, then whatever they never reach. */
  ghost function Rows(g: Graph): seq<set<Id>> {
    Layers(g) + if Schedulable(g) then [] else [g.Keys - Core(g)]
  }

  method TopoLayers(dag: seq<Task>) returns (layers: seq<set<Id>>)
    ensures layers == Rows(GraphOf(dag))
  {
    layers := RowsById(GraphOf(dag));
  }

  method RowsById(byId: Graph) returns (layers: seq<set<Id>>)
    ensures layers == Rows(byId)
  {
    var remaining := byId.Keys;
    var done: set<Id> := {};
    layers := [];
    ghost var k: nat := 0;
    while remaining != {}
      invariant k <= Height(byId)
      invariant done == Settled(byId, k) && remaining == byId.Keys - done
      invariant layers == LayersUpTo(byId, k)
      decreases remaining
    {
      var layer := set i | i in remaining && byId[i] <= done;
      GreedyRound(byId, k);
      assert layer == Layer(byId, k);
      if layer == {} {
        layers := layers + [remaining];
        return;
      }
      layers := layers + [layer];
      remaining := remaining - layer;
      done := done + layer;
      k := k + 1;
    }
    GreedyRound(byId, k);
    SettledWithinCore(byId, k);
  }

  /** Every task is drawn exactly once, whether or not the plan can be scheduled. */
  lemma EachTaskDrawnOnce(dag: seq<Task>, i: Id)
    ensures var rows := Rows(GraphOf(dag));
      && (i in Ids(dag) <==> exists k :: 0 <= k < |rows| && i in rows[k])
      && (forall j, k :: 0 <= j < k < |rows| ==> rows[j] !! rows[k])
  {
    ByIdKeys(dag);
    RowsCover(GraphOf(dag), i);
    RowsDisjoint(GraphOf(dag));
  }

  lemma RowsCover(g: Graph, i: Id)
    ensures i in g <==> exists k :: 0 <= k < |Rows(g)| && i in Rows(g)[k]
  {
    var h := Height(g);
    SettledWithinCore(g, 0);
    LayersPartitionCore(g, i);
    if k :| 0 <= k < h && i in Layers(g)[k] {
      assert i in Rows(g)[k];
    }
    if i in g && i !in Core(g) {
      assert i in Rows(g)[h];
    }
  }

  lemma RowsDisjoint(g: Graph)
    ensures forall j, k :: 0 <= j < k < |Rows(g)| ==> Rows(g)[j] !! Rows(g)[k]
  {
    LayersPartitionCore(g, "");
    forall j, k | 0 <= j < k < |Rows(g)|
      ensures Rows(g)[j] !! Rows(g)[k]
    {
      if k < Height(g) {
        assert Rows(g)[j] == Layers(g)[j] && Rows(g)[k] == Layers(g)[k];
      } else {
        SettledWithinCore(g, j + 1);
        assert Rows(g)[j] == Layer(g, j) <= Settled(g, j + 1);
      }
    }
  }
}
