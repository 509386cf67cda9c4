/**
 The span tree of a trace, wired from parent pointers.  Spans are referred to by
 id; `children` holds what the source appends to each span's own list.
 */
module SpanForest {
  import opened Basics
  import opened DependencyGraph

  /** One stored event, in time order; an absent field is the empty string. */
  datatype Row = Row(spanId: string, eventId: string, parentSpanId: string)

  function SpanKey(r: Row): Id {
    if r.spanId != "" then r.spanId else r.eventId
  }

  /** Parent of each span; a later row for the same span replaces the earlier one. */
  function Parents(rows: seq<Row>): map<Id, Id> {
    if rows == [] then map[]
    else Parents(rows[..|rows| - 1])[SpanKey(rows[|rows| - 1]) := rows[|rows| - 1].parentSpanId]
  }

  /** Span ids in order of first appearance. */
  function Order(rows: seq<Row>): seq<Id> {
    if rows == [] then []
    else
      var earlier, sid := Order(rows[..|rows| - 1]), SpanKey(rows[|rows| - 1]);
      if sid in earlier then earlier else earlier + [sid]
  }

  predicate IsRoot(parents: map<Id, Id>, i: Id)
    requires i in parents
  {
    parents[i] == "" || parents[i] !in parents
  }

  function RootsIn(order: seq<Id>, parents: map<Id, Id>): seq<Id> {
    if order == [] then []
    else
      var i := order[|order| - 1];
      RootsIn(order[..|order| - 1], parents) + if i in parents && IsRoot(parents, i) then [i] else []
  }

  function ChildrenIn(order: seq<Id>, parents: map<Id, Id>, p: Id): seq<Id> {
    if order == [] then []
    else
      var i := order[|order| - 1];
      ChildrenIn(order[..|order| - 1], parents, p) +
      if i in parents && !IsRoot(parents, i) && parents[i] == p then [i] else []
  }

  lemma {:induction false} OrderKeys(rows: seq<Row>)
    ensures Distinct(Order(rows))
    ensures forall i :: i in Order(rows) <==> i in Parents(rows)
  {
    if rows != [] {
      OrderKeys(rows[..|rows| - 1]);
    }
  }

  /** A row is a span by its span id, or by its event id when it has none. */
  ghost predicate Names(r: Row, i: Id) {
    if r.spanId == "" then r.eventId == i else r.spanId == i
  }

  ghost predicate LastNamed(rows: seq<Row>, i: Id, n: nat) {
    n < |rows| && Names(rows[n], i) && forall m :: n < m < |rows| ==> !Names(rows[m], i)
  }

  /** The spans of a trace are what its rows name, each with the parent its last row gives. */
  lemma {:induction false} ParentsMeaning(rows: seq<Row>, i: Id)
    ensures i in Parents(rows) <==> exists n :: 0 <= n < |rows| && Names(rows[n], i)
    ensures i in Parents(rows) ==> exists n: nat :: LastNamed(rows, i, n) && Parents(rows)[i] == rows[n].parentSpanId
  {
    if rows != [] {
      var earlier, last := rows[..|rows| - 1], |rows| - 1;
      ParentsMeaning(earlier, i);
      assert forall n :: 0 <= n < last ==> rows[n] == earlier[n];
      assert Names(rows[last], i) <==> SpanKey(rows[last]) == i;
      if Names(rows[last], i) {
        assert LastNamed(rows, i, last);
      } else if i in Parents(earlier) {
        var n: nat :| LastNamed(earlier, i, n) && Parents(earlier)[i] == earlier[n].parentSpanId;
        assert LastNamed(rows, i, n);
      }
    }
  }

  /** The row that first names a span; past the end if none does. */
  ghost function FirstNamed(rows: seq<Row>, i: Id): nat {
    if rows == [] || Names(rows[0], i) then 0 else 1 + FirstNamed(rows[1..], i)
  }

  lemma {:induction false} FirstNamedSnoc(rows: seq<Row>, last: Row, i: Id)
    ensures FirstNamed(rows, i) <= |rows|
    ensures FirstNamed(rows, i) < |rows| ==> FirstNamed(rows + [last], i) == FirstNamed(rows, i)
    ensures FirstNamed(rows, i) == |rows| ==> FirstNamed(rows + [last], i) >= |rows|
    ensures FirstNamed(rows, i) < |rows| <==> i in Parents(rows)
  {
    ParentsMeaning(rows, i);
    if rows != [] {
      assert (rows + [last])[1..] == rows[1..] + [last];
      FirstNamedSnoc(rows[1..], last, i);
      ParentsMeaning(rows[1..], i);
      assert forall n :: 0 < n < |rows| ==> rows[n] == rows[1..][n - 1];
      if n :| 0 <= n < |rows[1..]| && Names(rows[1..][n], i) {
        assert Names(rows[n + 1], i);
      }
    }
  }

  /** The listed spans come in the order of their first rows. */
  ghost predicate InOrder(rows: seq<Row>, spans: seq<Id>) {
    forall m, n :: 0 <= m < n < |spans| ==> FirstNamed(rows, spans[m]) < FirstNamed(rows, spans[n])
  }

  lemma {:induction false} OrderMeaning(rows: seq<Row>)
    ensures InOrder(rows, Order(rows))
  {
    if rows != [] {
      var earlier, last := rows[..|rows| - 1], rows[|rows| - 1];
      var order := Order(rows);
      OrderMeaning(earlier);
      OrderKeys(earlier);
      assert rows == earlier + [last];
      forall m, n | 0 <= m < n < |order|
        ensures FirstNamed(rows, order[m]) < FirstNamed(rows, order[n])
      {
        FirstNamedSnoc(earlier, last, order[m]);
        FirstNamedSnoc(earlier, last, order[n]);
      }
    }
  }

  /** Roots and children are picked in that order. */
  lemma {:induction false} RootsInOrder(rows: seq<Row>, order: seq<Id>, parents: map<Id, Id>)
    requires InOrder(rows, order)
    ensures InOrder(rows, RootsIn(order, parents)) && forall i :: i in RootsIn(order, parents) ==> i in order
  {
    if order != [] {
      var earlier, last := order[..|order| - 1], order[|order| - 1];
      RootsInOrder(rows, earlier, parents);
      AppendInOrder(rows, RootsIn(earlier, parents), last);
    }
  }

  lemma {:induction false} ChildrenInOrder(rows: seq<Row>, order: seq<Id>, parents: map<Id, Id>, p: Id)
    requires InOrder(rows, order)
    ensures InOrder(rows, ChildrenIn(order, parents, p)) && forall i :: i in ChildrenIn(order, parents, p) ==> i in order
  {
    if order != [] {
      var earlier, last := order[..|order| - 1], order[|order| - 1];
      ChildrenInOrder(rows, earlier, parents, p);
      AppendInOrder(rows, ChildrenIn(earlier, parents, p), last);
    }
  }

  lemma AppendInOrder(rows: seq<Row>, spans: seq<Id>, last: Id)
    requires InOrder(rows, spans) && forall i :: i in spans ==> FirstNamed(rows, i) < FirstNamed(rows, last)
    ensures InOrder(rows, spans + [last])
  {
  }

  /** Siblings, and roots, come in the order of their first rows. */
  lemma SiblingsInOrder(rows: seq<Row>, p: Id)
    ensures InOrder(rows, RootsIn(Order(rows), Parents(rows)))
    ensures InOrder(rows, ChildrenIn(Order(rows), Parents(rows), p))
  {
    OrderMeaning(rows);
    RootsInOrder(rows, Order(rows), Parents(rows));
    ChildrenInOrder(rows, Order(rows), Parents(rows), p);
  }

  method IndexSpans(rows: seq<Row>) returns (order: seq<Id>, parents: map<Id, Id>)
    ensures order == Order(rows) && parents == Parents(rows)
  {
    order, parents := [], map[];
    for n := 0 to |rows|
      invariant order == Order(rows[..n]) && parents == Parents(rows[..n])
    {
      assert rows[..n + 1][..n] == rows[..n];
      OrderKeys(rows[..n]);
      var sid := SpanKey(rows[n]);
      if sid !in parents {
        order := order + [sid];
      }
      parents := parents[sid := rows[n].parentSpanId];
    }
    assert rows[..|rows|] == rows;
  }

  /** Hang every span under its parent or among the roots. */
  method WireSpans(order: seq<Id>, parents: map<Id, Id>) returns (roots: seq<Id>, children: map<Id, seq<Id>>)
    requires forall i :: i in order ==> i in parents
    ensures children.Keys == parents.Keys
    ensures roots == RootsIn(order, parents)
    ensures forall p :: p in children ==> children[p] == ChildrenIn(order, parents, p)
  {
    roots := [];
    children := map i | i in parents :: [];
    for n := 0 to |order|
      invariant children.Keys == parents.Keys
      invariant roots == RootsIn(order[..n], parents)
      invariant forall p :: p in children ==> children[p] == ChildrenIn(order[..n], parents, p)
    {
      assert order[..n + 1][..n] == order[..n] && order[n] in order;
      var sid := order[n];
      var pid := parents[sid];
      if pid != "" && pid in parents {
        children := children[pid := children[pid] + [sid]];
      } else {
        roots := roots + [sid];
      }
    }
    assert order[..|order|] == order;
  }

  method GetTrace(rows: seq<Row>) returns (roots: seq<Id>, children: map<Id, seq<Id>>)
    ensures children.Keys == Parents(rows).Keys
    ensures roots == RootsIn(Order(rows), Parents(rows))
    ensures forall p :: p in children ==> children[p] == ChildrenIn(Order(rows), Parents(rows), p)
    ensures Wired(Parents(rows), roots, children)
  {
    var order, parents := IndexSpans(rows);
    OrderKeys(rows);
    roots, children := WireSpans(order, parents);
    TraceIsWired(rows, roots, children);
  }

  // ----- The forest below the roots -----

  function ChildrenOf(spans: seq<Id>, children: map<Id, seq<Id>>): seq<Id> {
    if spans == [] then []
    else
      var last := spans[|spans| - 1];
      ChildrenOf(spans[..|spans| - 1], children) + if last in children then children[last] else []
  }

  /** The spans n steps below the roots, with repetitions if there were any. */
  function Level(roots: seq<Id>, children: map<Id, seq<Id>>, n: nat): seq<Id> {
    if n == 0 then roots else ChildrenOf(Level(roots, children, n - 1), children)
  }

  /** All spans of the tree down to depth n, level by level. */
  function Flatten(roots: seq<Id>, children: map<Id, seq<Id>>, n: nat): seq<Id> {
    if n == 0 then [] else Flatten(roots, children, n - 1) + Level(roots, children, n - 1)
  }

  /** The parent pointers as a dependency graph: a span depends on its parent if that is in the trace. */
  function SpanGraph(parents: map<Id, Id>): Graph {
    map i | i in parents :: if IsRoot(parents, i) then {} else {parents[i]}
  }

  /** The n-th ancestor of a span; None once the chain has left the trace. */
  function Ancestor(parents: map<Id, Id>, i: Id, n: nat): Option<Id>
    decreases n
  {
    if i !in parents then None
    else if n == 0 then Some(i)
    else if parents[i] == "" then None
    else Ancestor(parents, parents[i], n - 1)
  }

  ghost predicate ChainEnds(parents: map<Id, Id>, i: Id) {
    exists n: nat :: Ancestor(parents, i, n) == None
  }

  lemma {:induction false} RootsAre(order: seq<Id>, parents: map<Id, Id>)
    requires Distinct(order)
    ensures Distinct(RootsIn(order, parents))
    ensures forall i :: i in RootsIn(order, parents) <==> i in order && i in parents && IsRoot(parents, i)
  {
    if order != [] {
      var last := |order| - 1;
      RootsAre(order[..last], parents);
      DistinctSnoc(RootsIn(order[..last], parents), order[..last], order[last]);
      assert order == order[..last] + [order[last]];
    }
  }

  lemma {:induction false} ChildrenAre(order: seq<Id>, parents: map<Id, Id>, p: Id)
    requires Distinct(order)
    ensures Distinct(ChildrenIn(order, parents, p))
    ensures forall i :: i in ChildrenIn(order, parents, p) <==>
      i in order && i in parents && !IsRoot(parents, i) && parents[i] == p
  {
    if order != [] {
      var last := |order| - 1;
      ChildrenAre(order[..last], parents, p);
      DistinctSnoc(ChildrenIn(order[..last], parents, p), order[..last], order[last]);
      assert order == order[..last] + [order[last]];
    }
  }

  lemma DistinctSnoc(picked: seq<Id>, earlier: seq<Id>, i: Id)
    requires Distinct(picked) && Distinct(earlier + [i]) && forall x :: x in picked ==> x in earlier
    ensures Distinct(picked + [i])
  {
    forall n | 0 <= n < |picked|
      ensures picked[n] != i
    {
      assert picked[n] in picked;
      var k :| 0 <= k < |earlier| && earlier[k] == picked[n];
      assert (earlier + [i])[k] != (earlier + [i])[|earlier|];
    }
  }

  /** A wired forest: what GetTrace returns for some rows. */
  ghost predicate Wired(parents: map<Id, Id>, roots: seq<Id>, children: map<Id, seq<Id>>) {
    && children.Keys == parents.Keys
    && Distinct(roots) && (forall i :: i in roots <==> i in parents && IsRoot(parents, i))
    && (forall p :: p in children ==> Distinct(children[p]))
    && (forall p, i :: p in children ==>
          (i in children[p] <==> i in parents && !IsRoot(parents, i) && parents[i] == p))
  }

  lemma TraceIsWired(rows: seq<Row>, roots: seq<Id>, children: map<Id, seq<Id>>)
    requires children.Keys == Parents(rows).Keys && roots == RootsIn(Order(rows), Parents(rows))
    requires forall p :: p in children ==> children[p] == ChildrenIn(Order(rows), Parents(rows), p)
    ensures Wired(Parents(rows), roots, children)
  {
    OrderKeys(rows);
    RootsAre(Order(rows), Parents(rows));
    forall p | p in children
      ensures Distinct(children[p])
      ensures forall i :: i in children[p] <==> i in Parents(rows) && !IsRoot(Parents(rows), i) && Parents(rows)[i] == p
    {
      ChildrenAre(Order(rows), Parents(rows), p);
    }
  }

  lemma {:induction false} ChildrenOfAre(parents: map<Id, Id>, roots: seq<Id>, children: map<Id, seq<Id>>, spans: seq<Id>)
    requires Wired(parents, roots, children) && Distinct(spans)
    ensures Distinct(ChildrenOf(spans, children))
    ensures forall i :: i in ChildrenOf(spans, children) <==> i in parents && !IsRoot(parents, i) && parents[i] in spans
  {
    if spans != [] {
      var last := |spans| - 1;
      var p := spans[last];
      ChildrenOfAre(parents, roots, children, spans[..last]);
      assert spans == spans[..last] + [p];
      if p in children {
        var a, b := ChildrenOf(spans[..last], children), children[p];
        forall m, n | 0 <= m < |a| && 0 <= n < |b|
          ensures a[m] != b[n]
        {
          assert a[m] in a && b[n] in b && p !in spans[..last];
        }
      }
    }
  }

  lemma LayerStep(parents: map<Id, Id>, n: nat, i: Id)
    ensures i in Layer(SpanGraph(parents), n + 1) <==>
      i in parents && !IsRoot(parents, i) && parents[i] in Layer(SpanGraph(parents), n)
  {
    SettledIff(SpanGraph(parents), n, i);
  }

  lemma NextLevel(parents: map<Id, Id>, level: seq<Id>, next: seq<Id>, n: nat)
    requires forall i :: i in level <==> i in Layer(SpanGraph(parents), n)
    requires forall i :: i in next <==> i in parents && !IsRoot(parents, i) && parents[i] in level
    ensures forall i :: i in next <==> i in Layer(SpanGraph(parents), n + 1)
  {
    forall i
      ensures i in next <==> i in Layer(SpanGraph(parents), n + 1)
    {
      LayerStep(parents, n, i);
    }
  }

  lemma RootsAreLayer(parents: map<Id, Id>, roots: seq<Id>)
    requires forall i :: i in roots <==> i in parents && IsRoot(parents, i)
    ensures forall i :: i in roots <==> i in Layer(SpanGraph(parents), 0)
  {
  }

  /** Level n of the tree is exactly layer n of the parent graph, without repetition. */
  lemma {:induction false} LevelIsLayer(parents: map<Id, Id>, roots: seq<Id>, children: map<Id, seq<Id>>, n: nat)
    requires Wired(parents, roots, children)
    ensures Distinct(Level(roots, children, n))
    ensures forall i :: i in Level(roots, children, n) <==> i in Layer(SpanGraph(parents), n)
  {
    if n == 0 {
      RootsAreLayer(parents, roots);
    } else {
      var level := Level(roots, children, n - 1);
      LevelIsLayer(parents, roots, children, n - 1);
      ChildrenOfAre(parents, roots, children, level);
      NextLevel(parents, level, ChildrenOf(level, children), n - 1);
    }
  }

  lemma {:induction false} FlattenIsSettled(parents: map<Id, Id>, roots: seq<Id>, children: map<Id, seq<Id>>, n: nat)
    requires Wired(parents, roots, children)
    ensures Distinct(Flatten(roots, children, n))
    ensures forall i :: i in Flatten(roots, children, n) <==> i in Settled(SpanGraph(parents), n)
  {
    if n > 0 {
      FlattenIsSettled(parents, roots, children, n - 1);
      LevelIsLayer(parents, roots, children, n - 1);
      var a, b := Flatten(roots, children, n - 1), Level(roots, children, n - 1);
      forall j, k | 0 <= j < |a| && 0 <= k < |b|
        ensures a[j] != b[k]
      {
        assert a[j] in a && b[k] in b;
      }
    }
  }

  lemma {:induction false} SettledIffAncestor(parents: map<Id, Id>, i: Id, n: nat)
    requires i in parents
    ensures i in Settled(SpanGraph(parents), n) <==> Ancestor(parents, i, n) == None
    decreases n
  {
    var g := SpanGraph(parents);
    if n > 0 {
      SettledIff(g, n - 1, i);
      if !IsRoot(parents, i) {
        SettledIffAncestor(parents, parents[i], n - 1);
      }
    }
  }

  /**
   The tree holds each span at most once, and exactly the spans whose parent chain
   leaves the trace.
   */
  lemma ForestIsExact(parents: map<Id, Id>, roots: seq<Id>, children: map<Id, seq<Id>>, n: nat, i: Id)
    requires Wired(parents, roots, children) && n >= Height(SpanGraph(parents))
    ensures Distinct(Flatten(roots, children, n))
    ensures i in Flatten(roots, children, n) <==> i in parents && ChainEnds(parents, i)
  {
    var g := SpanGraph(parents);
    FlattenIsSettled(parents, roots, children, n);
    SettledWithinCore(g, n);
    SettledMonotone(g, Height(g), n);
    if i in parents {
      SettledIffAncestor(parents, i, n);
      if ChainEnds(parents, i) {
        var k: nat :| Ancestor(parents, i, k) == None;
        SettledIffAncestor(parents, i, k);
        SettledWithinCore(g, k);
      }
    }
  }

  ghost predicate ParentCycle(parents: map<Id, Id>) {
    exists i, n: nat :: i in parents && n > 0 && Ancestor(parents, i, n) == Some(i)
  }

  lemma {:induction false} AncestorAdds(parents: map<Id, Id>, i: Id, m: nat, n: nat)
    ensures Ancestor(parents, i, m + n) ==
      match Ancestor(parents, i, m) case None => None case Some(j) => Ancestor(parents, j, n)
    decreases m
  {
    if m > 0 && i in parents && parents[i] != "" {
      AncestorAdds(parents, parents[i], m - 1, n);
    }
  }

  lemma {:induction false} ChainIsAncestry(parents: map<Id, Id>, p: seq<Id>)
    requires Chain(SpanGraph(parents), p)
    ensures Ancestor(parents, p[0], |p| - 1) == Some(p[|p| - 1])
  {
    if |p| > 1 {
      ChainIsAncestry(parents, p[1..]);
    }
  }

  lemma {:induction false} CycleNeverEnds(parents: map<Id, Id>, i: Id, n: nat, k: nat)
    requires n > 0 && Ancestor(parents, i, n) == Some(i)
    ensures Ancestor(parents, i, k) != None
    decreases k
  {
    if k >= n {
      CycleNeverEnds(parents, i, n, k - n);
      AncestorAdds(parents, i, n, k - n);
    } else {
      AncestorAdds(parents, i, k, n - k);
    }
  }

  /** Every span of the trace is in the tree exactly when the parent pointers have no cycle. */
  lemma ForestCompleteIff(parents: map<Id, Id>, roots: seq<Id>, children: map<Id, seq<Id>>, n: nat)
    requires Wired(parents, roots, children) && n >= Height(SpanGraph(parents))
    ensures (forall i :: i in parents ==> i in Flatten(roots, children, n)) <==> !ParentCycle(parents)
  {
    if ParentCycle(parents) {
      var i, k: nat :| i in parents && k > 0 && Ancestor(parents, i, k) == Some(i);
      ForestIsExact(parents, roots, children, n, i);
      forall m: nat
        ensures Ancestor(parents, i, m) != None
      {
        CycleNeverEnds(parents, i, k, m);
      }
    } else {
      forall i | i in parents
        ensures i in Flatten(roots, children, n)
      {
        NoCycleEnds(parents, i);
        ForestIsExact(parents, roots, children, n, i);
      }
    }
  }

  lemma NoCycleEnds(parents: map<Id, Id>, i: Id)
    requires i in parents && !ParentCycle(parents)
    ensures ChainEnds(parents, i)
  {
    var g := SpanGraph(parents);
    CoreIffNotBlocked(g, i);
    if Blocked(g, i) {
      var p :| Chain(g, p) && p[0] == i && Stuck(g, p[|p| - 1]);
      var x := p[|p| - 1];
      assert g[x] <= g.Keys;
      var c :| Chain(g, c) && |c| > 1 && c[0] == x && c[|c| - 1] == x;
      ChainIsAncestry(parents, c);
      assert false;
    }
    SettledIffAncestor(parents, i, Height(g));
  }
}
