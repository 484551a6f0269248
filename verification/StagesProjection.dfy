/**
  The Stages view projector: lays a pipeline's nodes out in rows so that a row
  only depends on earlier rows. Nodes reached by a cycle share one last row.

  The host's `Map` iterates in insertion order, so each map that is iterated
  is kept together with the list of its keys in that order. `localeCompare` is
  a parameter: `rank` gives every id its place in the collation order, and ids
  the collation cannot tell apart have equal rank.
 */
module StagesProjection {
  import opened Sorting
  import opened StageGraph

  datatype Stage = Stage(index: nat, nodeIds: seq<string>)

  /** What row a node belongs in: past every other row if a cycle reaches it,
      else at the length of the longest path reaching it. */
  ghost predicate InItsRow(g: Graph, stages: seq<Stage>, i: nat, v: string)
    requires i < |stages|
  {
    if Tainted(g, v) then
      i == |stages| - 1 && forall w :: w in stages[i].nodeIds ==> Tainted(g, w)
    else
      Longest(g, v, i)
  }

  /** The whole promise: rows are numbered without gaps, list every node once,
      and every node is where the graph says it is. */
  ghost predicate IsProjection(g: Graph, stages: seq<Stage>, rank: string -> int) {
    && (forall i :: 0 <= i < |stages| ==>
          && stages[i].index == i
          && stages[i].nodeIds != []
          && Distinct(stages[i].nodeIds)
          && SortedBy(stages[i].nodeIds, rank))
    && (forall v :: v in g.nodeIds ==> exists i :: 0 <= i < |stages| && v in stages[i].nodeIds)
    && (forall i, v :: 0 <= i < |stages| && v in stages[i].nodeIds ==>
          v in g.nodeIds && InItsRow(g, stages, i, v))
  }

  /** `order` lists the keys of `stage`, each once. */
  ghost predicate Keyed<V>(order: seq<string>, stage: map<string, V>) {
    Distinct(order) && forall v :: v in order <==> v in stage
  }

  ghost predicate DepsOf(g: Graph, deps: map<string, seq<string>>) {
    && (forall v :: v in g.nodeIds <==> v in deps)
    && (forall v, d :: v in deps ==> (d in deps[v] <==> Dep(g, d, v)))
    && (forall v :: v in deps ==> Distinct(deps[v]))
  }

  /** The incoming-edge map. */
  method BuildDeps(ids: seq<string>, edges: seq<Edge>) returns (deps: map<string, seq<string>>)
    ensures DepsOf(Graph(ids, edges), deps)
  {
    var allowed := set id | id in ids;
    deps := map[];
    for i := 0 to |ids|
      invariant forall v :: v in deps <==> v in ids[..i]
      invariant forall v :: v in deps ==> deps[v] == []
    {
      deps := deps[ids[i] := []];
    }
    for i := 0 to |edges|
      invariant DepsOf(Graph(ids, edges[..i]), deps)
    {
      var e := edges[i];
      assert edges[..i + 1] == edges[..i] + [e];
      assert forall d, v :: Dep(Graph(ids, edges[..i + 1]), d, v) <==>
          Dep(Graph(ids, edges[..i]), d, v) || (e == Edge(d, v) && d in ids && v in ids && d != v);
      if e.source !in allowed || e.target !in allowed { continue; }
      if e.source == e.target { continue; }
      var list := deps[e.target];
      if e.source !in list {
        deps := deps[e.target := list + [e.source]];
      }
    }
    assert edges[..|edges|] == edges;
  }

  /** The deepest stage among `ds`, or that one of them has none yet. */
  method DeepestDep(ds: seq<string>, stage: map<string, nat>) returns (allResolved: bool, maxDep: int)
    ensures allResolved <==> forall d :: d in ds ==> d in stage
    ensures allResolved ==> maxDep >= -1
    ensures allResolved ==> forall d :: d in ds ==> stage[d] <= maxDep
    ensures allResolved && maxDep >= 0 ==> exists d :: d in ds && stage[d] == maxDep
  {
    maxDep, allResolved := -1, true;
    for j := 0 to |ds|
      invariant allResolved && maxDep >= -1
      invariant forall d :: d in ds[..j] ==> d in stage && stage[d] <= maxDep
      invariant maxDep >= 0 ==> exists d :: d in ds[..j] && d in stage && stage[d] == maxDep
    {
      var d := ds[j];
      assert d in ds[..j + 1];
      if d !in stage {
        allResolved := false;
        break;
      }
      if stage[d] > maxDep {
        maxDep := stage[d];
      }
    }
    assert allResolved ==> ds[..|ds|] == ds;
  }

  lemma LayeredAdd(g: Graph, stage: map<string, nat>, v: string, k: nat)
    requires Layered(g, stage) && v in g.nodeIds && v !in stage
    requires forall d :: Dep(g, d, v) ==> d in stage && stage[d] < k
    requires k > 0 ==> Stacked(g, stage, v, k)
    ensures Layered(g, stage[v := k])
  {
    var after := stage[v := k];
    forall w | w in after && after[w] > 0 ensures Stacked(g, after, w, after[w]) {
      assert Stacked(g, stage, w, after[w]) by {
        assert w != v ==> Stacked(g, stage, w, stage[w]);
      }
      var d :| Dep(g, d, w) && d in stage && stage[d] == after[w] - 1;
      assert after[d] == stage[d];
    }
  }

  lemma KeyedSize(order: seq<string>, ids: seq<string>)
    requires Distinct(order) && forall v :: v in order ==> v in ids
    ensures |order| <= |ids|
  {
    if |order| > |ids| {
      DistinctCard(order);
      MembersSize(ids);
      SubsetCard(Members(order), Members(ids));
    }
  }

  lemma {:induction false} MembersSize<T>(xs: seq<T>)
    ensures |Members(xs)| <= |xs|
  {
    if xs == [] {
      assert Members(xs) == {};
    } else {
      MembersSize(xs[1..]);
      assert Members(xs) == {xs[0]} + Members(xs[1..]);
    }
  }

  /** One sweep over the ids: places each unplaced node whose dependencies all
      have a stage, stages given earlier in the same sweep included. */
  method Sweep(ids: seq<string>, deps: map<string, seq<string>>, ghost g: Graph,
               stage0: map<string, nat>, order0: seq<string>)
    returns (stage: map<string, nat>, order: seq<string>, next: seq<string>)
    requires g.nodeIds == ids && DepsOf(g, deps)
    requires Layered(g, stage0) && Keyed(order0, stage0)
    ensures Layered(g, stage) && Keyed(order, stage)
    ensures |order| == |order0| + |next|
    ensures next == [] ==> Fixpoint(g, stage)
  {
    stage, order, next := stage0, order0, [];
    for i := 0 to |ids|
      invariant Layered(g, stage) && Keyed(order, stage)
      invariant |order| == |order0| + |next|
      invariant next == [] ==> forall v :: v in ids[..i] ==> v in stage || Blocked(g, stage, v)
    {
      var id := ids[i];
      assert ids[..i + 1] == ids[..i] + [id];
      if id in stage { continue; }
      var allResolved, maxDep := DeepestDep(deps[id], stage);
      if allResolved {
        LayeredAdd(g, stage, id, maxDep + 1);
        stage, order := stage[id := maxDep + 1], order + [id];
        next := next + [id];
      }
    }
    assert ids[..|ids|] == ids;
  }

  /** Seeds the roots and sweeps until nothing changes. The `safety` counter is
      the source's; the third loop invariant is why it never ends the loop. */
  method Relax(ids: seq<string>, deps: map<string, seq<string>>, ghost g: Graph)
    returns (stage: map<string, nat>, order: seq<string>)
    requires g.nodeIds == ids && DepsOf(g, deps)
    ensures Layered(g, stage) && Fixpoint(g, stage) && Keyed(order, stage)
  {
    stage, order := map[], [];
    var queue: seq<string> := [];
    for i := 0 to |ids|
      invariant Keyed(order, stage)
      invariant forall v :: v in stage <==> v in ids[..i] && deps[v] == []
      invariant forall v :: v in stage ==> stage[v] == 0
      invariant queue == [] <==> order == []
    {
      var id := ids[i];
      assert ids[..i + 1] == ids[..i] + [id];
      if deps[id] == [] {
        if id !in stage { order := order + [id]; }
        stage := stage[id := 0];
        queue := queue + [id];
      }
    }
    assert ids[..|ids|] == ids;
    assert queue == [] ==> Fixpoint(g, stage) by {
      forall v | queue == [] && v in ids && v !in stage ensures Blocked(g, stage, v) {
        assert Dep(g, deps[v][0], v) by { assert deps[v][0] in deps[v]; }
      }
    }

    var safety := |ids| * (|ids| + 1);
    KeyedSize(order, ids);
    while |queue| > 0 && safety > 0
      invariant Layered(g, stage) && Keyed(order, stage)
      invariant |queue| == 0 ==> Fixpoint(g, stage)
      invariant |queue| > 0 ==> safety > |ids| - |order| >= 0
      decreases safety
    {
      safety := safety - 1;
      var next;
      stage, order, next := Sweep(ids, deps, g, stage, order);
      if |next| == 0 { break; }
      KeyedSize(order, ids);
      queue := next;
    }
  }

  /** Gives every node still unplaced the stage past the deepest placed one. */
  method PinRest(ids: seq<string>, stage0: map<string, nat>, order0: seq<string>)
    returns (stage: map<string, nat>, order: seq<string>, cyclePin: nat)
    requires Keyed(order0, stage0) && forall v :: v in stage0 ==> v in ids
    ensures Keyed(order, stage)
    ensures forall v :: v in stage <==> v in ids
    ensures forall v :: v in stage0 ==> stage[v] == stage0[v] < cyclePin
    ensures forall v :: v in stage && v !in stage0 ==> stage[v] == cyclePin
    ensures cyclePin > 0 ==> exists v :: v in stage0 && stage0[v] == cyclePin - 1
  {
    var maxResolved: int := -1;
    for i := 0 to |order0|
      invariant maxResolved >= -1
      invariant forall v :: v in order0[..i] ==> stage0[v] <= maxResolved
      invariant maxResolved >= 0 ==> exists v :: v in stage0 && stage0[v] == maxResolved
    {
      assert order0[..i + 1] == order0[..i] + [order0[i]];
      if stage0[order0[i]] > maxResolved { maxResolved := stage0[order0[i]]; }
    }
    assert order0[..|order0|] == order0;
    cyclePin := maxResolved + 1;
    stage, order := stage0, order0;
    for i := 0 to |ids|
      invariant Keyed(order, stage)
      invariant forall v :: v in stage <==> v in stage0 || v in ids[..i]
      invariant forall v :: v in stage0 ==> stage[v] == stage0[v]
      invariant forall v :: v in stage && v !in stage0 ==> stage[v] == cyclePin
    {
      assert ids[..i + 1] == ids[..i] + [ids[i]];
      if ids[i] !in stage {
        stage, order := stage[ids[i] := cyclePin], order + [ids[i]];
      }
    }
    assert ids[..|ids|] == ids;
  }

  /** Groups the nodes by stage; `keys` lists the stages met, in first-met order. */
  method Bucket(stage: map<string, nat>, order: seq<string>)
    returns (buckets: map<nat, seq<string>>, keys: seq<nat>)
    requires Keyed(order, stage)
    ensures Distinct(keys) && forall s :: s in keys <==> s in buckets
    ensures forall s :: s in buckets <==> exists v :: v in stage && stage[v] == s
    ensures forall s :: s in buckets ==> buckets[s] != [] && Distinct(buckets[s])
    ensures forall s, v :: s in buckets ==> (v in buckets[s] <==> v in stage && stage[v] == s)
  {
    buckets, keys := map[], [];
    for i := 0 to |order|
      invariant Distinct(keys) && forall s :: s in keys <==> s in buckets
      invariant Bucketed(buckets, order[..i], stage)
    {
      var id, s := order[i], stage[order[i]];
      assert order[..i + 1] == order[..i] + [id];
      assert id !in order[..i];
      BucketedAdd(buckets, order[..i], stage, id);
      if s !in buckets { keys := keys + [s]; }
      var list := if s in buckets then buckets[s] else [];
      buckets := buckets[s := list + [id]];
    }
    assert order[..|order|] == order;
    forall s ensures s in buckets <==> exists v :: v in stage && stage[v] == s {
      BucketMeansStage(stage, order, buckets, s);
    }
  }

  /** The buckets hold the nodes seen so far, each in its stage's bucket and once. */
  ghost predicate Bucketed(buckets: map<nat, seq<string>>, seen: seq<string>, stage: map<string, nat>) {
    && (forall v :: v in seen ==> v in stage && stage[v] in buckets)
    && (forall s :: s in buckets ==> buckets[s] != [] && Distinct(buckets[s]))
    && (forall s, v :: s in buckets ==> (v in buckets[s] <==> v in seen && v in stage && stage[v] == s))
  }

  lemma BucketedAdd(buckets: map<nat, seq<string>>, seen: seq<string>, stage: map<string, nat>, id: string)
    requires Bucketed(buckets, seen, stage) && id in stage && id !in seen
    ensures var s := stage[id];
            Bucketed(buckets[s := (if s in buckets then buckets[s] else []) + [id]], seen + [id], stage)
  {
  }

  lemma BucketMeansStage(stage: map<string, nat>, order: seq<string>, buckets: map<nat, seq<string>>, s: nat)
    requires Keyed(order, stage)
    requires forall v :: v in order ==> stage[v] in buckets
    requires s in buckets ==> buckets[s] != [] && forall v :: v in buckets[s] ==> v in stage && stage[v] == s
    ensures s in buckets <==> exists v :: v in stage && stage[v] == s
  {
    if s in buckets {
      assert buckets[s][0] in buckets[s];
    }
    if v :| v in stage && stage[v] == s {
      assert v in order;
    }
  }

  function StageNumber(n: nat): int { n }

  predicate HasBelow(keys: seq<nat>, n: int) {
    n == 0 || n - 1 in keys
  }

  ghost predicate NoGap(keys: seq<nat>) {
    forall n {:trigger HasBelow(keys, n)} :: n in keys ==> HasBelow(keys, n)
  }

  lemma SortedOrder(keys: seq<nat>, i: nat, j: nat)
    requires SortedBy(keys, StageNumber) && i < |keys| && j < |keys| && keys[i] < keys[j]
    ensures i < j
  {
    assert StageNumber(keys[i]) < StageNumber(keys[j]);
  }

  /** Distinct stage numbers with no gap below any of them sort to 0, 1, 2, ... */
  lemma {:induction false} SortedKeysAreContiguous(keys: seq<nat>, k: nat)
    requires SortedBy(keys, StageNumber) && Distinct(keys)
    requires NoGap(keys)
    requires k < |keys|
    ensures keys[k] == k
  {
    forall j | 0 <= j < k ensures keys[j] == j {
      SortedKeysAreContiguous(keys, j);
    }
    if k > 0 {
      assert StageNumber(keys[k - 1]) <= StageNumber(keys[k]);
    }
    assert keys[k] in keys;
    if keys[k] > 0 {
      var below := keys[k] - 1;
      assert HasBelow(keys, keys[k]) && below in keys;
      var j :| 0 <= j < |keys| && keys[j] == below;
      SortedOrder(keys, j, k);
    }
  }

  /** Sorted, the stages are 0, 1, 2 and so on. */
  lemma SortedStages(keys: seq<nat>)
    requires Distinct(keys) && NoGap(keys)
    ensures forall i :: 0 <= i < |SortBy(keys, StageNumber)| ==> SortBy(keys, StageNumber)[i] == i
    ensures forall n: nat :: n in keys <==> n < |SortBy(keys, StageNumber)|
  {
    var sorted := SortBy(keys, StageNumber);
    SortSorted(keys, StageNumber);
    SortDistinct(keys, StageNumber);
    SortMembers(keys, StageNumber);
    forall n | n in sorted ensures HasBelow(sorted, n) { assert HasBelow(keys, n); }
    forall i | 0 <= i < |sorted| ensures sorted[i] == i { SortedKeysAreContiguous(sorted, i); }
    forall n: nat ensures n in keys <==> n < |sorted| {
      if n < |sorted| { assert sorted[n] in sorted; }
      if n in sorted { var j :| 0 <= j < |sorted| && sorted[j] == n; }
    }
  }

  /** Lists the buckets in ascending stage order. The renumbering by position is
      the identity: row `i` is the bucket of stage `i`. */
  method ListRows(buckets: map<nat, seq<string>>, keys: seq<nat>, rank: string -> int)
    returns (stages: seq<Stage>)
    requires Distinct(keys) && forall s :: s in keys <==> s in buckets
    requires NoGap(keys)
    ensures forall s: nat :: s in buckets <==> s < |stages|
    ensures forall i :: 0 <= i < |stages| ==> stages[i] == Stage(i, SortBy(buckets[i], rank))
  {
    var sortedStages := SortBy(keys, StageNumber);
    SortedStages(keys);
    stages := [];
    for i := 0 to |sortedStages|
      invariant |stages| == i
      invariant forall j :: 0 <= j < i ==> j in buckets && stages[j] == Stage(j, SortBy(buckets[j], rank))
    {
      var nodesInStage := SortBy(buckets[sortedStages[i]], rank);
      stages := stages + [Stage(|stages|, nodesInStage)];
    }
  }

  method ProjectStages(nodeIds: seq<string>, edges: seq<Edge>, rank: string -> int)
    returns (stages: seq<Stage>)
    ensures IsProjection(Graph(nodeIds, edges), stages, rank)
  {
    ghost var g := Graph(nodeIds, edges);
    var deps := BuildDeps(nodeIds, edges);
    var placed, placedOrder := Relax(nodeIds, deps, g);
    var stage, order, cyclePin := PinRest(nodeIds, placed, placedOrder);
    var buckets, keys := Bucket(stage, order);
    assert NoGap(keys) by {
      forall s | s in keys ensures HasBelow(keys, s) {
        var v :| v in stage && stage[v] == s;
        StageBelow(g, placed, stage, cyclePin, v);
      }
    }
    stages := ListRows(buckets, keys, rank);
    forall i | 0 <= i < |stages| ensures Row(stage, stages, i, rank) {
      BucketRow(stage, stages, buckets, i, rank);
    }
    forall v | v in stage ensures stage[v] < |stages| {
      assert stage[v] in buckets;
    }
    RowsAreProjection(g, placed, stage, cyclePin, stages, rank);
  }

  lemma BucketRow(stage: map<string, nat>, stages: seq<Stage>, buckets: map<nat, seq<string>>, i: nat,
                  rank: string -> int)
    requires i < |stages| && i in buckets && stages[i] == Stage(i, SortBy(buckets[i], rank))
    requires buckets[i] != [] && Distinct(buckets[i])
    requires forall v :: v in buckets[i] <==> v in stage && stage[v] == i
    ensures Row(stage, stages, i, rank)
  {
    SortMembers(buckets[i], rank);
    SortSorted(buckets[i], rank);
    SortDistinct(buckets[i], rank);
  }

  /** Row `i` lists exactly the nodes at stage `i`. */
  ghost predicate Row(stage: map<string, nat>, stages: seq<Stage>, i: nat, rank: string -> int)
    requires i < |stages|
  {
    var row := stages[i];
    && row.index == i && row.nodeIds != [] && Distinct(row.nodeIds) && SortedBy(row.nodeIds, rank)
    && forall v :: v in row.nodeIds <==> v in stage && stage[v] == i
  }

  lemma RowInhabitant(stage: map<string, nat>, stages: seq<Stage>, i: nat, rank: string -> int)
    returns (w: string)
    requires i < |stages| && Row(stage, stages, i, rank)
    ensures w in stage && stage[w] == i
  {
    w := stages[i].nodeIds[0];
    assert w in stages[i].nodeIds;
  }

  ghost predicate Pinned(g: Graph, placed: map<string, nat>, stage: map<string, nat>, cyclePin: nat) {
    && Layered(g, placed) && Fixpoint(g, placed)
    && (forall v :: v in stage <==> v in g.nodeIds)
    && (forall v :: v in placed ==> stage[v] == placed[v] < cyclePin)
    && (forall v :: v in stage && v !in placed ==> stage[v] == cyclePin)
    && (cyclePin > 0 ==> exists v :: v in placed && placed[v] == cyclePin - 1)
  }

  /** Below every occupied stage is another one. */
  lemma StageBelow(g: Graph, placed: map<string, nat>, stage: map<string, nat>, cyclePin: nat, v: string)
    requires Pinned(g, placed, stage, cyclePin) && v in stage
    ensures stage[v] == 0 || exists d :: d in stage && stage[d] == stage[v] - 1
  {
    if stage[v] > 0 {
      if v in placed {
        assert Stacked(g, placed, v, placed[v]);
        var d :| Dep(g, d, v) && d in placed && placed[d] == placed[v] - 1;
        assert stage[d] == stage[v] - 1;
      } else {
        var d :| d in placed && placed[d] == cyclePin - 1;
        assert stage[d] == stage[v] - 1;
      }
    }
  }

  lemma RowsAreProjection(g: Graph, placed: map<string, nat>, stage: map<string, nat>, cyclePin: nat,
                          stages: seq<Stage>, rank: string -> int)
    requires Pinned(g, placed, stage, cyclePin)
    requires forall i :: 0 <= i < |stages| ==> Row(stage, stages, i, rank)
    requires forall v :: v in stage ==> stage[v] < |stages|
    ensures IsProjection(g, stages, rank)
  {
    forall i | 0 <= i < |stages|
      ensures stages[i].index == i && stages[i].nodeIds != []
      ensures Distinct(stages[i].nodeIds) && SortedBy(stages[i].nodeIds, rank)
    {
      assert Row(stage, stages, i, rank);
    }
    forall v | v in g.nodeIds ensures exists i :: 0 <= i < |stages| && v in stages[i].nodeIds {
      assert Row(stage, stages, stage[v], rank);
    }
    forall i, v | 0 <= i < |stages| && v in stages[i].nodeIds
      ensures v in g.nodeIds && InItsRow(g, stages, i, v)
    {
      assert Row(stage, stages, i, rank);
      if v in placed {
        PlacedIsLongest(g, placed, v);
        PlacedUntainted(g, placed, v);
      } else {
        UnplacedTainted(g, placed, v);
        assert i == cyclePin;
        if i < |stages| - 1 {
          var w := RowInhabitant(stage, stages, i + 1, rank);
        }
        forall w | w in stages[i].nodeIds ensures Tainted(g, w) {
          assert w !in placed;
          UnplacedTainted(g, placed, w);
        }
      }
    }
  }

  /*
   * What a reader of the view may rely on, for every graph.
   */

  /** Every listed node is in exactly one row. */
  lemma RowsPartition(g: Graph, stages: seq<Stage>, rank: string -> int, i: nat, j: nat, v: string)
    requires IsProjection(g, stages, rank) && i < |stages| && j < |stages|
    requires v in stages[i].nodeIds && v in stages[j].nodeIds
    ensures i == j
  {
    assert InItsRow(g, stages, i, v) && InItsRow(g, stages, j, v);
    if !Tainted(g, v) {
      LongestUnique(g, v, i, j);
    }
  }

  /** An edge goes to a strictly later row exactly when no cycle reaches its
      source, and stays in its row exactly when one does; it never goes back. So
      no two nodes of a resolved row are joined by an edge. */
  lemma EdgesGoDown(g: Graph, stages: seq<Stage>, rank: string -> int, i: nat, j: nat, d: string, v: string)
    requires IsProjection(g, stages, rank) && i < |stages| && j < |stages|
    requires d in stages[i].nodeIds && v in stages[j].nodeIds && Dep(g, d, v)
    ensures i < j <==> !Tainted(g, d)
    ensures i == j <==> Tainted(g, d)
  {
    assert InItsRow(g, stages, i, d) && InItsRow(g, stages, j, v);
    if Tainted(g, d) {
      TaintSpreads(g, d, v);
    } else if !Tainted(g, v) {
      var p :| PathTo(g, p, d) && |p| == i + 1 && Root(g, p[0]);
      PathExtend(g, p, v);
      assert PathTo(g, p + [v], v);
    }
  }

  /** An edge from row `i` to row `j`. */
  ghost predicate InRows(g: Graph, stages: seq<Stage>, i: nat, j: nat, d: string, v: string)
    requires i < |stages| && j < |stages|
  {
    Dep(g, d, v) && d in stages[i].nodeIds && v in stages[j].nodeIds
  }

  /** Every edge of the graph goes to a later row. */
  ghost predicate InputsAreEarlier(g: Graph, stages: seq<Stage>) {
    forall d, v, i, j :: 0 <= i < |stages| && 0 <= j < |stages| && InRows(g, stages, i, j, d, v) ==> i < j
  }

  /** The view's promise, that the inputs of every node are all in earlier rows,
      holds if and only if the graph has no cycle. */
  lemma InputsEarlierIffAcyclic(g: Graph, stages: seq<Stage>, rank: string -> int)
    requires IsProjection(g, stages, rank)
    ensures InputsAreEarlier(g, stages) <==> forall v :: !OnCycle(g, v)
  {
    if u :| OnCycle(g, u) {
      var p :| Cycle(g, p) && p[0] == u;
      assert Dep(g, p[0], p[1]) && PathTo(g, [u], u) && Tainted(g, u);
      var i :| 0 <= i < |stages| && p[0] in stages[i].nodeIds;
      var j :| 0 <= j < |stages| && p[1] in stages[j].nodeIds;
      EdgesGoDown(g, stages, rank, i, j, p[0], p[1]);
      assert InRows(g, stages, i, j, p[0], p[1]);
    } else {
      forall d, v, i, j | 0 <= i < |stages| && 0 <= j < |stages| && InRows(g, stages, i, j, d, v) ensures i < j {
        EdgesGoDown(g, stages, rank, i, j, d, v);
      }
    }
  }

  /** Two nodes that feed each other. */
  function Pair(a: string, b: string): Graph {
    Graph([a, b], [Edge(a, b), Edge(b, a)])
  }

  lemma PairIsTainted(a: string, b: string)
    requires a != b
    ensures Dep(Pair(a, b), a, b) && Tainted(Pair(a, b), a)
  {
    var g := Pair(a, b);
    assert Dep(g, a, b) && Dep(g, b, a);
    assert Cycle(g, [a, b, a]);
    assert [a, b, a][0] == a;
    assert PathTo(g, [a], a) && [a][0] == a;
  }

  /** The smallest graph for which it fails: such a pair shares the only row. */
  lemma PinnedRowHasEdges(a: string, b: string, rank: string -> int)
    requires a != b && rank(a) <= rank(b)
    ensures IsProjection(Pair(a, b), [Stage(0, [a, b])], rank) && Dep(Pair(a, b), a, b)
    ensures !InputsAreEarlier(Pair(a, b), [Stage(0, [a, b])])
  {
    var g, stages := Pair(a, b), [Stage(0, [a, b])];
    PairIsTainted(a, b);
    TaintSpreads(g, a, b);
    assert a in stages[0].nodeIds && b in stages[0].nodeIds;
    assert InRows(g, stages, 0, 0, a, b);
  }

  /** The two graphs list the same nodes and differ in self-loops only. */
  ghost predicate DifferInSelfLoops(g: Graph, h: Graph) {
    g.nodeIds == h.nodeIds && forall e: Edge :: e.source != e.target ==> (e in g.edges <==> e in h.edges)
  }

  /** A self-loop is not treated as a cycle: adding or removing any number of
      them leaves the projections of a graph as they were. */
  lemma SelfLoopsChangeNothing(g: Graph, h: Graph, stages: seq<Stage>, rank: string -> int)
    requires DifferInSelfLoops(g, h)
    ensures SameGraph(g, h) && (IsProjection(g, stages, rank) <==> IsProjection(h, stages, rank))
  {
    forall d, v ensures Dep(g, d, v) <==> Dep(h, d, v) {
      assert d != v ==> Edge(d, v).source != Edge(d, v).target;
    }
    if IsProjection(g, stages, rank) { SameGraphKeepsProjection(g, h, stages, rank); }
    if IsProjection(h, stages, rank) { SameGraphKeepsProjection(h, g, stages, rank); }
  }

  lemma SameGraphKeepsProjection(g: Graph, h: Graph, stages: seq<Stage>, rank: string -> int)
    requires SameGraph(g, h) && IsProjection(g, stages, rank)
    ensures IsProjection(h, stages, rank)
  {
    SameGraphFacts(g, h);
    forall i, v | 0 <= i < |stages| && v in stages[i].nodeIds ensures v in h.nodeIds && InItsRow(h, stages, i, v) {
      assert v in g.nodeIds && InItsRow(g, stages, i, v);
    }
  }

  /** The nodes a cycle reaches are exactly the last row, and only if there are any. */
  lemma TaintedAreLastRow(g: Graph, stages: seq<Stage>, rank: string -> int, v: string)
    requires IsProjection(g, stages, rank) && v in g.nodeIds && Tainted(g, v)
    ensures stages != []
    ensures forall w :: w in stages[|stages| - 1].nodeIds <==> w in g.nodeIds && Tainted(g, w)
  {
    var i :| 0 <= i < |stages| && v in stages[i].nodeIds;
    assert InItsRow(g, stages, i, v);
    forall w ensures w in stages[|stages| - 1].nodeIds <==> w in g.nodeIds && Tainted(g, w) {
      if w in g.nodeIds && Tainted(g, w) {
        var k :| 0 <= k < |stages| && w in stages[k].nodeIds;
        assert InItsRow(g, stages, k, w);
      }
    }
  }

  lemma NotFewerRows(g: Graph, h: Graph, s: seq<Stage>, t: seq<Stage>, rank: string -> int)
    requires SameGraph(g, h) && IsProjection(g, s, rank) && IsProjection(h, t, rank)
    ensures |s| >= |t|
  {
    SameGraphFacts(g, h);
    if |s| < |t| {
      // Row |s| - 1 of t holds a node that no cycle reaches, or t has one more row than nodes allow.
      var w := t[|s|].nodeIds[0];
      assert w in t[|s|].nodeIds;
      assert w in h.nodeIds && w in g.nodeIds;
      var j :| 0 <= j < |s| && w in s[j].nodeIds;
      assert InItsRow(g, s, j, w) && InItsRow(h, t, |s|, w);
      if !Tainted(g, w) {
        LongestUnique(g, w, j, |s|);
      } else {
        // then row |s| is t's last, and t's row j = |s| - 1 is resolved while s's row j is not
        var u := t[j].nodeIds[0];
        assert u in t[j].nodeIds;
        assert u in h.nodeIds && u in g.nodeIds;
        assert InItsRow(h, t, j, u);
        var k :| 0 <= k < |s| && u in s[k].nodeIds;
        assert InItsRow(g, s, k, u);
        LongestUnique(g, u, j, k);
      }
    }
  }

  lemma SameRow(g: Graph, h: Graph, s: seq<Stage>, t: seq<Stage>, rank: string -> int, i: nat, v: string)
    requires SameGraph(g, h) && IsProjection(g, s, rank) && IsProjection(h, t, rank)
    requires |s| == |t| && i < |s| && v in s[i].nodeIds
    ensures v in t[i].nodeIds
  {
    SameGraphFacts(g, h);
    assert v in g.nodeIds && v in h.nodeIds;
    var j :| 0 <= j < |t| && v in t[j].nodeIds;
    assert InItsRow(g, s, i, v) && InItsRow(h, t, j, v);
    if !Tainted(g, v) {
      LongestUnique(g, v, i, j);
    }
  }

  /** The order in which nodes and edges are listed, and repeated listings, do
      not matter: every projection of the same graph has the same rows, and
      each row shows the same ids up to ids that collate equal. */
  lemma OrderIrrelevant(g: Graph, h: Graph, s: seq<Stage>, t: seq<Stage>, rank: string -> int)
    requires SameGraph(g, h) && IsProjection(g, s, rank) && IsProjection(h, t, rank)
    ensures |s| == |t|
    ensures forall i :: 0 <= i < |s| ==> s[i].index == t[i].index
    ensures forall i :: 0 <= i < |s| ==> multiset(s[i].nodeIds) == multiset(t[i].nodeIds)
    ensures forall i, k :: 0 <= i < |s| && 0 <= k < |s[i].nodeIds| ==>
        k < |t[i].nodeIds| && rank(s[i].nodeIds[k]) == rank(t[i].nodeIds[k])
  {
    NotFewerRows(g, h, s, t, rank);
    NotFewerRows(h, g, t, s, rank);
    forall i | 0 <= i < |s| ensures multiset(s[i].nodeIds) == multiset(t[i].nodeIds) {
      forall v ensures v in s[i].nodeIds <==> v in t[i].nodeIds {
        if v in s[i].nodeIds { SameRow(g, h, s, t, rank, i, v); }
        if v in t[i].nodeIds { SameRow(h, g, t, s, rank, i, v); }
      }
      DistinctMultiset(s[i].nodeIds);
      DistinctMultiset(t[i].nodeIds);
      forall v ensures multiset(s[i].nodeIds)[v] == multiset(t[i].nodeIds)[v] {
        assert v in s[i].nodeIds <==> v in multiset(s[i].nodeIds);
        assert v in t[i].nodeIds <==> v in multiset(t[i].nodeIds);
      }
    }
    forall i | 0 <= i < |s|
      ensures |s[i].nodeIds| == |t[i].nodeIds|
      ensures forall k :: 0 <= k < |s[i].nodeIds| ==> rank(s[i].nodeIds[k]) == rank(t[i].nodeIds[k])
    {
      SortedRanks(s[i].nodeIds, t[i].nodeIds, rank);
    }
  }
}
