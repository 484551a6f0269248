/**
  The graph behind the Stages view: edges between listed nodes, paths, cycles,
  and the longest path reaching a node. Nothing here knows how stages are
  computed; it is the yardstick the projector is measured against.
 */
module StageGraph {
  import opened Sorting

  datatype Edge = Edge(source: string, target: string)

  datatype Graph = Graph(nodeIds: seq<string>, edges: seq<Edge>)

  /** An edge that counts: both ends listed, and not a self-loop. */
  ghost predicate Dep(g: Graph, d: string, v: string) {
    d in g.nodeIds && v in g.nodeIds && d != v && Edge(d, v) in g.edges
  }

  ghost predicate Root(g: Graph, v: string) {
    v in g.nodeIds && forall d :: !Dep(g, d, v)
  }

  /** A non-empty walk along edges; it has `|p| - 1` of them. */
  ghost predicate Path(g: Graph, p: seq<string>) {
    && p != []
    && (forall i :: 0 <= i < |p| ==> p[i] in g.nodeIds)
    && (forall i :: 1 <= i < |p| ==> Dep(g, p[i - 1], p[i]))
  }

  ghost predicate PathTo(g: Graph, p: seq<string>, v: string) {
    Path(g, p) && p[|p| - 1] == v
  }

  ghost predicate Cycle(g: Graph, p: seq<string>) {
    Path(g, p) && |p| > 1 && p[0] == p[|p| - 1]
  }

  ghost predicate OnCycle(g: Graph, v: string) {
    exists p :: Cycle(g, p) && p[0] == v
  }

  /** On a cycle, or reachable from one. */
  ghost predicate Tainted(g: Graph, v: string) {
    exists p :: PathTo(g, p, v) && OnCycle(g, p[0])
  }

  /** The longest path reaching `v` has `k` edges, and one such path starts at a root. */
  ghost predicate Longest(g: Graph, v: string, k: nat) {
    && (exists p :: PathTo(g, p, v) && |p| == k + 1 && Root(g, p[0]))
    && (forall p :: PathTo(g, p, v) ==> |p| <= k + 1)
  }

  lemma LongestUnique(g: Graph, v: string, j: nat, k: nat)
    requires Longest(g, v, j) && Longest(g, v, k)
    ensures j == k
  {
    var p :| PathTo(g, p, v) && |p| == j + 1 && Root(g, p[0]);
    var q :| PathTo(g, q, v) && |q| == k + 1 && Root(g, q[0]);
  }

  /** A path may be extended by an edge at its end. */
  lemma PathExtend(g: Graph, p: seq<string>, v: string)
    requires Path(g, p) && Dep(g, p[|p| - 1], v)
    ensures PathTo(g, p + [v], v)
  {
    var q := p + [v];
    forall i | 1 <= i < |q| ensures Dep(g, q[i - 1], q[i]) {
      if i < |p| {
        assert q[i - 1] == p[i - 1] && q[i] == p[i];
      }
    }
  }

  /** An edge out of a tainted node leads to a tainted node. */
  lemma TaintSpreads(g: Graph, d: string, v: string)
    requires Tainted(g, d) && Dep(g, d, v)
    ensures Tainted(g, v)
  {
    var p :| PathTo(g, p, d) && OnCycle(g, p[0]);
    PathExtend(g, p, v);
    assert (p + [v])[0] == p[0];
  }

  /** Graphs with the same nodes and the same edges that count. */
  ghost predicate SameGraph(g: Graph, h: Graph) {
    && (forall v :: v in g.nodeIds <==> v in h.nodeIds)
    && (forall d, v :: Dep(g, d, v) <==> Dep(h, d, v))
  }

  /** Relisting nodes and edges in another order or repeatedly, and adding
      self-loops or edges to unlisted nodes, gives the same graph. */
  lemma RelistedIsSame(g: Graph, h: Graph)
    requires forall v :: v in g.nodeIds <==> v in h.nodeIds
    requires forall e :: e in g.edges ==> e in h.edges
    requires forall e :: e in h.edges && e !in g.edges ==>
        e.source == e.target || e.source !in g.nodeIds || e.target !in g.nodeIds
    ensures SameGraph(g, h)
  {
    forall d, v ensures Dep(g, d, v) <==> Dep(h, d, v) {
      assert Edge(d, v).source == d && Edge(d, v).target == v;
    }
  }

  lemma SameGraphFacts(g: Graph, h: Graph)
    requires SameGraph(g, h)
    ensures forall v :: Tainted(g, v) <==> Tainted(h, v)
    ensures forall v, k :: Longest(g, v, k) <==> Longest(h, v, k)
  {
    assert forall v :: Root(g, v) <==> Root(h, v);
    assert forall p :: Path(g, p) <==> Path(h, p);
    assert forall p, v :: PathTo(g, p, v) <==> PathTo(h, p, v);
    assert forall p :: Cycle(g, p) <==> Cycle(h, p);
    forall v ensures OnCycle(g, v) <==> OnCycle(h, v) {
      if OnCycle(g, v) {
        var p :| Cycle(g, p) && p[0] == v;
        assert Cycle(h, p);
      }
      if OnCycle(h, v) {
        var p :| Cycle(h, p) && p[0] == v;
        assert Cycle(g, p);
      }
    }
    forall v ensures Tainted(g, v) <==> Tainted(h, v) {
      if Tainted(g, v) {
        var p :| PathTo(g, p, v) && OnCycle(g, p[0]);
        assert PathTo(h, p, v);
      }
      if Tainted(h, v) {
        var p :| PathTo(h, p, v) && OnCycle(h, p[0]);
        assert PathTo(g, p, v);
      }
    }
    forall v, k | Longest(g, v, k) ensures Longest(h, v, k) { }
    forall v, k | Longest(h, v, k) ensures Longest(g, v, k) { }
  }

  /*
   * Layerings. A partial stage assignment that some relaxation could have
   * produced: a placed node has all its dependencies placed below it, and sits
   * directly above one of them unless it is at stage 0.
   */

  /** Some dependency of `v` is at the stage just below `k`. */
  ghost predicate Stacked(g: Graph, stage: map<string, nat>, v: string, k: nat) {
    exists d :: Dep(g, d, v) && d in stage && stage[d] == k - 1
  }

  ghost predicate Layered(g: Graph, stage: map<string, nat>) {
    && (forall v :: v in stage ==> v in g.nodeIds)
    && (forall d, v :: v in stage && Dep(g, d, v) ==> d in stage && stage[d] < stage[v])
    && (forall v {:trigger Stacked(g, stage, v, stage[v])} :: v in stage && stage[v] > 0 ==>
          Stacked(g, stage, v, stage[v]))
  }

  /** Some dependency of `v` has no stage yet. */
  ghost predicate Blocked(g: Graph, stage: map<string, nat>, v: string) {
    exists d :: Dep(g, d, v) && d !in stage
  }

  /** No node outside the assignment could still be placed. */
  ghost predicate Fixpoint(g: Graph, stage: map<string, nat>) {
    forall v {:trigger Blocked(g, stage, v)} :: v in g.nodeIds && v !in stage ==> Blocked(g, stage, v)
  }

  /** Stages climb along a path ending at a placed node. */
  lemma {:induction false} PathClimbs(g: Graph, stage: map<string, nat>, p: seq<string>)
    requires Layered(g, stage) && Path(g, p) && p[|p| - 1] in stage
    ensures p[0] in stage
    ensures stage[p[0]] + |p| - 1 <= stage[p[|p| - 1]]
  {
    if |p| > 1 {
      var n := |p| - 1;
      assert Dep(g, p[n - 1], p[n]);
      PathClimbs(g, stage, p[..n]);
    }
  }

  /** A placed node has a path as long as its stage, starting at a root. */
  lemma {:induction false} PathOfStage(g: Graph, stage: map<string, nat>, v: string) returns (p: seq<string>)
    requires Layered(g, stage) && v in stage
    ensures PathTo(g, p, v) && |p| == stage[v] + 1 && Root(g, p[0])
    decreases stage[v]
  {
    if stage[v] == 0 {
      p := [v];
    } else {
      assert Stacked(g, stage, v, stage[v]);
      var d :| Dep(g, d, v) && d in stage && stage[d] == stage[v] - 1;
      var q := PathOfStage(g, stage, d);
      PathExtend(g, q, v);
      p := q + [v];
    }
  }

  /** A placed node is at the length of the longest path reaching it. */
  lemma PlacedIsLongest(g: Graph, stage: map<string, nat>, v: string)
    requires Layered(g, stage) && v in stage
    ensures Longest(g, v, stage[v])
  {
    var p := PathOfStage(g, stage, v);
    forall q | PathTo(g, q, v) ensures |q| <= stage[v] + 1 {
      PathClimbs(g, stage, q);
    }
  }

  /** No cycle reaches a placed node. */
  lemma PlacedUntainted(g: Graph, stage: map<string, nat>, v: string)
    requires Layered(g, stage) && v in stage
    ensures !Tainted(g, v)
  {
    if Tainted(g, v) {
      var p :| PathTo(g, p, v) && OnCycle(g, p[0]);
      PathClimbs(g, stage, p);
      var c :| Cycle(g, c) && c[0] == p[0];
      PathClimbs(g, stage, c);
      assert false;
    }
  }

  /** Walking backwards from an unplaced node never leaves the unplaced nodes. */
  lemma {:induction false} BackWalk(g: Graph, stage: map<string, nat>, v: string, n: nat)
    returns (p: seq<string>)
    requires Fixpoint(g, stage) && v in g.nodeIds && v !in stage
    ensures PathTo(g, p, v) && |p| == n + 1
    decreases n
  {
    if n == 0 {
      p := [v];
    } else {
      assert Blocked(g, stage, v);
      var d :| Dep(g, d, v) && d !in stage;
      var q := BackWalk(g, stage, d, n - 1);
      PathExtend(g, q, v);
      p := q + [v];
    }
  }

  /** At a fixpoint every unplaced node is on, or reachable from, a cycle. */
  lemma UnplacedTainted(g: Graph, stage: map<string, nat>, v: string)
    requires Fixpoint(g, stage) && v in g.nodeIds && v !in stage
    ensures Tainted(g, v)
  {
    var nodes := Members(g.nodeIds);
    var p := BackWalk(g, stage, v, |nodes|);
    var i, j := Pigeonhole(p, nodes);
    var cycle, tail := p[i..j + 1], p[i..];
    assert tail == p[i..|p|];
    assert Cycle(g, cycle) && cycle[0] == tail[0];
    assert PathTo(g, tail, v);
  }
}
