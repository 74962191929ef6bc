/**
 * `_calculate_layers` of `dev_links.py`: Kahn's algorithm run generation by
 * generation over the links whose two endpoints are known tasks. Every
 * generation of tasks whose in-degree has dropped to zero is sorted into a
 * layer; releasing a layer lowers the in-degree of its successors.
 */
module Layering {
  import opened Wrappers
  import opened Strings
  import opened Graph

  /** No element repeats. */
  predicate Distinct<T(==)>(s: seq<T>) {
    forall i, j :: 0 <= i < j < |s| ==> s[i] != s[j]
  }

  /** The set of the elements of `s`. */
  ghost function Members<T>(s: seq<T>): set<T> {
    set x | x in s
  }

  /** A sequence without repeats has every multiplicity at most one, and conversely. */
  lemma {:induction false} DistinctMultiplicity<T>(s: seq<T>)
    ensures Distinct(s) <==> forall x :: multiset(s)[x] <= 1
    decreases |s|
  {
    if s != [] {
      var tail := s[1..];
      DistinctMultiplicity(tail);
      assert s == [s[0]] + tail;
      assert multiset(s) == multiset{s[0]} + multiset(tail);
      if Distinct(s) {
        assert Distinct(tail) by {
          forall i, j | 0 <= i < j < |tail| ensures tail[i] != tail[j] {
            assert tail[i] == s[i + 1] && tail[j] == s[j + 1];
          }
        }
        assert s[0] !in tail;
        assert multiset(tail)[s[0]] == 0;
      } else {
        var i, j :| 0 <= i < j < |s| && s[i] == s[j];
        if i == 0 {
          assert tail[j - 1] == s[0];
          assert multiset(tail)[s[0]] >= 1;
          assert multiset(s)[s[0]] >= 2;
        } else {
          assert tail[i - 1] == tail[j - 1];
          assert !Distinct(tail);
          var x :| multiset(tail)[x] > 1;
          assert multiset(s)[x] > 1;
        }
      }
    }
  }

  /** Growing a prefix by one element. */
  lemma PrefixStep<T>(s: seq<T>, m: nat)
    requires m < |s|
    ensures s[..m + 1] == s[..m] + [s[m]]
    ensures multiset(s[..m + 1]) == multiset(s[..m]) + multiset{s[m]}
    ensures multiset(s[..m + 1]) <= multiset(s)
  {
    assert s == s[..m + 1] + s[m + 1..];
  }

  // ---------------------------------------------------------------------------
  // in-degrees

  /** How many links of `known` go into `v` from a task outside `done`: the in-degree `v` has left. */
  function Pending(known: seq<Link>, v: TaskId, done: set<TaskId>): nat
    decreases |known|
  {
    if known == [] then 0
    else
      var last := known[|known| - 1];
      Pending(known[..|known| - 1], v, done) + (if last.target == v && last.source !in done then 1 else 0)
  }

  /** Nothing is left pending for `v` exactly when every link into `v` comes from `done`. */
  lemma {:induction false} PendingZero(known: seq<Link>, v: TaskId, done: set<TaskId>)
    ensures Pending(known, v, done) == 0 <==> forall l :: l in known && l.target == v ==> l.source in done
    decreases |known|
  {
    if known != [] {
      var init := known[..|known| - 1];
      PendingZero(init, v, done);
      assert known == init + [known[|known| - 1]];
    }
  }

  /** Releasing `u` takes away one pending link into `v` per occurrence of `v` among `u`'s successors. */
  lemma {:induction false} PendingRelease(known: seq<Link>, v: TaskId, done: set<TaskId>, u: TaskId)
    requires u !in done
    ensures Pending(known, v, done + {u}) + multiset(Successors(known, u))[v] == Pending(known, v, done)
    decreases |known|
  {
    if known != [] {
      PendingRelease(known[..|known| - 1], v, done, u);
    }
  }

  /** `in_degree` holds, for every known task, the links still pending from outside `done`. */
  ghost predicate Degrees(known: seq<Link>, ids: set<TaskId>, inDegree: map<TaskId, int>, done: set<TaskId>) {
    && inDegree.Keys == ids
    && forall v :: v in ids ==> inDegree[v] == Pending(known, v, done)
  }

  /** `queue` holds, once each, exactly the known tasks outside `placed` whose in-degree is zero. */
  ghost predicate Frontier(ids: set<TaskId>, placed: set<TaskId>, inDegree: map<TaskId, int>, queue: seq<TaskId>) {
    && inDegree.Keys == ids
    && Distinct(queue)
    && forall v :: v in queue <==> v in ids && v !in placed && inDegree[v] == 0
  }

  /**
   * The first loop of `_calculate_layers`: the adjacency lists and the
   * in-degrees of the links whose endpoints are both known tasks.
   */
  method BuildKnownGraph(links: seq<Link>, ids: set<TaskId>)
    returns (graph: map<TaskId, seq<TaskId>>, inDegree: map<TaskId, int>)
    ensures forall u :: Neighbors(graph, u) == Successors(KnownLinks(links, ids), u)
    ensures Degrees(KnownLinks(links, ids), ids, inDegree, {})
  {
    graph := map[];
    inDegree := map v | v in ids :: 0;
    ghost var known: seq<Link> := [];
    for i := 0 to |links|
      invariant known == KnownLinks(links[..i], ids)
      invariant forall u :: Neighbors(graph, u) == Successors(known, u)
      invariant Degrees(known, ids, inDegree, {})
    {
      var l := links[i];
      KnownPrefixStep(links, ids, i);
      if l.source in ids && l.target in ids {
        ghost var graph0, inDegree0 := graph, inDegree;
        graph := graph[l.source := Neighbors(graph, l.source) + [l.target]];
        inDegree := inDegree[l.target := inDegree[l.target] + 1];
        AddKnownLink(known, ids, l, graph0, inDegree0, graph, inDegree);
        known := known + [l];
      } else {
        assert known + [] == known;
      }
    }
    assert links[..|links|] == links;
  }

  /** One more link of the input extends the known links by that link when both ends are known. */
  lemma KnownPrefixStep(links: seq<Link>, ids: set<TaskId>, i: nat)
    requires i < |links|
    ensures KnownLinks(links[..i + 1], ids) == KnownLinks(links[..i], ids) + (if Known(links[i], ids) then [links[i]] else [])
  {
    assert links[..i + 1][..i] == links[..i];
  }

  /** Recording a known link in the adjacency lists and the in-degrees keeps both exact. */
  lemma AddKnownLink(known: seq<Link>, ids: set<TaskId>, l: Link,
                     graph0: map<TaskId, seq<TaskId>>, inDegree0: map<TaskId, int>,
                     graph: map<TaskId, seq<TaskId>>, inDegree: map<TaskId, int>)
    requires forall u :: Neighbors(graph0, u) == Successors(known, u)
    requires Degrees(known, ids, inDegree0, {})
    requires l.source in ids && l.target in ids
    requires graph == graph0[l.source := Neighbors(graph0, l.source) + [l.target]]
    requires inDegree == inDegree0[l.target := inDegree0[l.target] + 1]
    ensures forall u :: Neighbors(graph, u) == Successors(known + [l], u)
    ensures Degrees(known + [l], ids, inDegree, {})
  {
    assert (known + [l])[..|known|] == known;
  }

  /** `[tid for tid in task_ids if in_degree[tid] == 0]`, the set visited in any order. */
  method ZeroInDegree(ids: set<TaskId>, inDegree: map<TaskId, int>) returns (queue: seq<TaskId>)
    requires inDegree.Keys == ids
    ensures Frontier(ids, {}, inDegree, queue)
  {
    queue := [];
    var rest := ids;
    while rest != {}
      invariant rest <= ids
      invariant Distinct(queue)
      invariant forall v :: v in queue <==> v in ids && v !in rest && inDegree[v] == 0
      decreases |rest|
    {
      var v :| v in rest;
      if inDegree[v] == 0 {
        queue := queue + [v];
      }
      rest := rest - {v};
    }
  }

  /** Lowering the in-degree of `nb` by one keeps the queue the frontier, once `nb` joins it on reaching zero. */
  lemma FrontierStep(ids: set<TaskId>, placed: set<TaskId>, inDegree0: map<TaskId, int>, queue0: seq<TaskId>,
                     nb: TaskId, inDegree: map<TaskId, int>, queue: seq<TaskId>)
    requires Frontier(ids, placed, inDegree0, queue0)
    requires nb in ids && nb !in placed && inDegree0[nb] > 0
    requires inDegree == inDegree0[nb := inDegree0[nb] - 1]
    requires queue == if inDegree[nb] == 0 then queue0 + [nb] else queue0
    ensures Frontier(ids, placed, inDegree, queue)
  {
    assert nb !in queue0;
  }

  /** The in-degrees part way through the successors of `node`. */
  ghost predicate PartlyReleased(known: seq<Link>, ids: set<TaskId>, inDegree: map<TaskId, int>,
                                 done: set<TaskId>, released: seq<TaskId>)
  {
    && inDegree.Keys == ids
    && forall v :: v in ids ==> inDegree[v] == Pending(known, v, done) - multiset(released)[v]
  }

  /** One more successor of `node` released: its in-degree was positive and drops by one. */
  lemma DegreeStep(known: seq<Link>, ids: set<TaskId>, inDegree0: map<TaskId, int>, done: set<TaskId>,
                   node: TaskId, m: nat, inDegree: map<TaskId, int>)
    requires node !in done && m < |Successors(known, node)|
    requires Successors(known, node)[m] in ids
    requires PartlyReleased(known, ids, inDegree0, done, Successors(known, node)[..m])
    requires inDegree == inDegree0[Successors(known, node)[m] := inDegree0[Successors(known, node)[m]] - 1]
    ensures inDegree0[Successors(known, node)[m]] > 0
    ensures PartlyReleased(known, ids, inDegree, done, Successors(known, node)[..m + 1])
  {
    var succ := Successors(known, node);
    PendingRelease(known, succ[m], done, node);
    PrefixStep(succ, m);
  }

  /** One pass of the loop over the successors of `node` keeps its invariant. */
  lemma ReleaseStep(known: seq<Link>, ids: set<TaskId>, done: set<TaskId>, placed: set<TaskId>, node: TaskId, m: nat,
                    nb: TaskId, inDegree0: map<TaskId, int>, queue0: seq<TaskId>, inDegree: map<TaskId, int>, queue: seq<TaskId>)
    requires node !in done && m < |Successors(known, node)| && nb == Successors(known, node)[m]
    requires nb in ids && nb !in placed
    requires PartlyReleased(known, ids, inDegree0, done, Successors(known, node)[..m])
    requires Frontier(ids, placed, inDegree0, queue0)
    requires inDegree == inDegree0[nb := inDegree0[nb] - 1]
    requires queue == if inDegree[nb] == 0 then queue0 + [nb] else queue0
    ensures PartlyReleased(known, ids, inDegree, done, Successors(known, node)[..m + 1])
    ensures Frontier(ids, placed, inDegree, queue)
  {
    DegreeStep(known, ids, inDegree0, done, node, m, inDegree);
    FrontierStep(ids, placed, inDegree0, queue0, nb, inDegree, queue);
  }

  /** All successors of `node` released: the in-degrees count `node` as done. */
  lemma DegreesReleased(known: seq<Link>, ids: set<TaskId>, inDegree: map<TaskId, int>, done: set<TaskId>, node: TaskId)
    requires node !in done
    requires PartlyReleased(known, ids, inDegree, done, Successors(known, node))
    ensures Degrees(known, ids, inDegree, done + {node})
  {
    forall v | v in ids ensures inDegree[v] == Pending(known, v, done + {node}) {
      PendingRelease(known, v, done, node);
    }
  }

  /** A successor of `node` is a known task not yet placed. */
  lemma SuccessorPlacement(known: seq<Link>, ids: set<TaskId>, placed: set<TaskId>, node: TaskId, m: nat)
    requires forall l :: l in known && l.source == node ==> l.target in ids && l.target !in placed
    requires m < |Successors(known, node)|
    ensures Successors(known, node)[m] in ids && Successors(known, node)[m] !in placed
  {
    SuccessorsAreTargets(known, node);
    assert Successors(known, node)[m] in Successors(known, node);
  }

  /**
   * The loop over `graph.get(node, [])`: every successor's in-degree drops by
   * one, and a successor whose in-degree reaches zero joins the queue.
   */
  method Release(graph: map<TaskId, seq<TaskId>>, known: seq<Link>, ids: set<TaskId>,
                 inDegree0: map<TaskId, int>, queue0: seq<TaskId>, node: TaskId,
                 ghost done: set<TaskId>, ghost placed: set<TaskId>)
    returns (inDegree: map<TaskId, int>, queue: seq<TaskId>)
    requires Neighbors(graph, node) == Successors(known, node)
    requires forall l :: l in known && l.source == node ==> l.target in ids && l.target !in placed
    requires node !in done
    requires Degrees(known, ids, inDegree0, done) && Frontier(ids, placed, inDegree0, queue0)
    ensures Degrees(known, ids, inDegree, done + {node}) && Frontier(ids, placed, inDegree, queue)
  {
    inDegree, queue := inDegree0, queue0;
    var neighbors := Neighbors(graph, node);
    assert neighbors[..0] == [];
    for m := 0 to |neighbors|
      invariant PartlyReleased(known, ids, inDegree, done, neighbors[..m])
      invariant Frontier(ids, placed, inDegree, queue)
    {
      var nb := neighbors[m];
      SuccessorPlacement(known, ids, placed, node, m);
      ghost var inDegree', queue' := inDegree, queue;
      inDegree := inDegree[nb := inDegree[nb] - 1];
      if inDegree[nb] == 0 {
        queue := queue + [nb];
      }
      ReleaseStep(known, ids, done, placed, node, m, nb, inDegree', queue', inDegree, queue);
    }
    assert neighbors[..|neighbors|] == neighbors;
    DegreesReleased(known, ids, inDegree, done, node);
  }

  /** A task of a sequence without repeats is not among the ones before it. */
  lemma DistinctNotBefore<T>(s: seq<T>, j: nat)
    requires Distinct(s) && j < |s|
    ensures s[j] !in Members(s[..j])
  {
  }

  /** The loop `for node in layer` of one generation. */
  method ReleaseLayer(graph: map<TaskId, seq<TaskId>>, known: seq<Link>, ids: set<TaskId>,
                      inDegree0: map<TaskId, int>, layer: seq<TaskId>,
                      ghost queue0: seq<TaskId>, ghost level: map<TaskId, nat>)
    returns (inDegree: map<TaskId, int>, queue: seq<TaskId>)
    requires forall u :: Neighbors(graph, u) == Successors(known, u)
    requires forall l :: l in known ==> Known(l, ids)
    requires Degrees(known, ids, inDegree0, level.Keys) && Frontier(ids, level.Keys, inDegree0, queue0)
    requires LevelsUpward(known, level)
    requires Distinct(layer) && forall v :: v in layer <==> v in queue0
    ensures Degrees(known, ids, inDegree, level.Keys + Members(layer))
    ensures Frontier(ids, level.Keys + Members(layer), inDegree, queue)
  {
    inDegree, queue := inDegree0, [];
    ghost var done := level.Keys;
    ghost var placed := done + Members(layer);
    forall l | l in known && l.source !in done ensures l.target !in placed {
      if l.target in layer {
        PendingZero(known, l.target, done);
      }
    }
    ghost var released := done;
    assert done + Members(layer[..0]) == done;
    for j := 0 to |layer|
      invariant released == done + Members(layer[..j])
      invariant Degrees(known, ids, inDegree, released)
      invariant Frontier(ids, placed, inDegree, queue)
    {
      var node := layer[j];
      DistinctNotBefore(layer, j);
      inDegree, queue := Release(graph, known, ids, inDegree, queue, node, released, placed);
      PrefixStep(layer, j);
      released := released + {node};
    }
    assert layer[..|layer|] == layer;
  }

  // ---------------------------------------------------------------------------
  // layers

  /** The index of the first layer holding `v`, if any. */
  function LayerOf(layers: seq<seq<TaskId>>, v: TaskId): (r: Option<nat>)
    ensures r.Some? ==> r.value < |layers| && v in layers[r.value]
    ensures r.None? ==> forall k :: 0 <= k < |layers| ==> v !in layers[k]
    decreases |layers|
  {
    if layers == [] then None
    else
      var n := |layers| - 1;
      var r := LayerOf(layers[..n], v);
      if r.Some? then r else if v in layers[n] then Some(n) else None
  }

  /** Appending a layer keeps every earlier placement and places the new layer's tasks at its index. */
  lemma LayerOfAppend(layers: seq<seq<TaskId>>, layer: seq<TaskId>, v: TaskId)
    ensures LayerOf(layers + [layer], v) ==
      if LayerOf(layers, v).Some? then LayerOf(layers, v)
      else if v in layer then Some(|layers|)
      else None
  {
    assert (layers + [layer])[..|layers|] == layers;
  }

  /** Every layer is non-empty and strictly sorted, and each task sits in one layer only. */
  ghost predicate Layered(layers: seq<seq<TaskId>>, ids: set<TaskId>) {
    && (forall k :: 0 <= k < |layers| ==> layers[k] != [] && StrictlySorted(layers[k]))
    && forall k, i :: 0 <= k < |layers| && 0 <= i < |layers[k]| ==>
         layers[k][i] in ids && LayerOf(layers, layers[k][i]) == Some(k)
  }

  /** Every link into a placed task comes from a task placed in an earlier layer. */
  ghost predicate Upward(known: seq<Link>, layers: seq<seq<TaskId>>) {
    forall l :: l in known && LayerOf(layers, l.target).Some? ==>
      LayerOf(layers, l.source).Some? && LayerOf(layers, l.source).value < LayerOf(layers, l.target).value
  }

  /** `v` sits in layer `k`. */
  ghost predicate InLayer(layers: seq<seq<TaskId>>, k: int, v: TaskId) {
    0 <= k < |layers| && v in layers[k]
  }

  /** Every task of a layer after the first has a link into it from the layer just before. */
  ghost predicate Fed(known: seq<Link>, layers: seq<seq<TaskId>>) {
    forall k, v {:trigger InLayer(layers, k, v)} :: 0 < k && InLayer(layers, k, v) ==>
      exists l :: l in known && l.target == v && l.source in layers[k - 1]
  }

  /** Every link into `v` comes from a placed task. */
  ghost predicate SourcesPlaced(known: seq<Link>, layers: seq<seq<TaskId>>, v: TaskId) {
    forall l :: l in known && l.target == v ==> LayerOf(layers, l.source).Some?
  }

  /** A known task whose links all come from placed tasks is placed itself. */
  ghost predicate Closed(known: seq<Link>, ids: set<TaskId>, layers: seq<seq<TaskId>>) {
    forall v {:trigger SourcesPlaced(known, layers, v)} :: v in ids && SourcesPlaced(known, layers, v) ==>
      LayerOf(layers, v).Some?
  }

  /**
   * The generations of Kahn's algorithm over `known`: the first layer holds
   * exactly the tasks no link goes into; every link into a placed task comes
   * from an earlier layer, and from the layer just before for at least one of
   * them; and no task that could be placed is left out.
   */
  ghost predicate KahnLayers(known: seq<Link>, ids: set<TaskId>, layers: seq<seq<TaskId>>) {
    && Layered(layers, ids)
    && Upward(known, layers)
    && (forall v :: v in ids ==> (LayerOf(layers, v) == Some(0) <==> forall l :: l in known ==> l.target != v))
    && Fed(known, layers)
    && Closed(known, ids, layers)
  }

  /** A task on a layer after the first has a link from the layer just before. */
  lemma FedSource(known: seq<Link>, ids: set<TaskId>, layers: seq<seq<TaskId>>, v: TaskId) returns (l: Link)
    requires Layered(layers, ids) && Fed(known, layers)
    requires LayerOf(layers, v).Some? && LayerOf(layers, v).value > 0
    ensures l in known && l.target == v && LayerOf(layers, l.source) == Some(LayerOf(layers, v).value - 1)
  {
    var n := LayerOf(layers, v).value;
    assert InLayer(layers, n, v);
    l :| l in known && l.target == v && l.source in layers[n - 1];
    var i :| 0 <= i < |layers[n - 1]| && layers[n - 1][i] == l.source;
  }

  /** Two Kahn layerings put a task the first one places on the same layer. */
  lemma {:induction false} SameLevelAt(known: seq<Link>, ids: set<TaskId>, a: seq<seq<TaskId>>, b: seq<seq<TaskId>>, v: TaskId)
    requires KahnLayers(known, ids, a) && KahnLayers(known, ids, b)
    requires LayerOf(a, v).Some?
    ensures LayerOf(b, v) == LayerOf(a, v)
    decreases LayerOf(a, v).value
  {
    var n := LayerOf(a, v).value;
    var i :| 0 <= i < |a[n]| && a[n][i] == v;
    assert v in ids;
    if n == 0 {
      assert forall l :: l in known ==> l.target != v;
    } else {
      forall l | l in known && l.target == v ensures LayerOf(b, l.source).Some? {
        SameLevelAt(known, ids, a, b, l.source);
      }
      assert SourcesPlaced(known, b, v);
      var m := LayerOf(b, v).value;
      var p := FedSource(known, ids, a, v);
      SameLevelAt(known, ids, a, b, p.source);
      assert n - 1 < m by {
        UpwardAt(known, b, p);
      }
      var q := FedSource(known, ids, b, v);
      UpwardAt(known, a, q);
      SameLevelAt(known, ids, a, b, q.source);
      assert m - 1 < n;
    }
  }

  /** One link into a placed task comes from an earlier layer. */
  lemma UpwardAt(known: seq<Link>, layers: seq<seq<TaskId>>, l: Link)
    requires Upward(known, layers)
    requires l in known && LayerOf(layers, l.target).Some?
    ensures LayerOf(layers, l.source).Some? && LayerOf(layers, l.source).value < LayerOf(layers, l.target).value
  {
  }

  /** The Kahn layering of a set of links is unique: the layers of
      `_calculate_layers` are fixed by `KahnLayers` alone. */
  lemma KahnLayersUnique(known: seq<Link>, ids: set<TaskId>, a: seq<seq<TaskId>>, b: seq<seq<TaskId>>)
    requires KahnLayers(known, ids, a) && KahnLayers(known, ids, b)
    ensures a == b
  {
    forall v ensures LayerOf(a, v) == LayerOf(b, v) {
      if LayerOf(a, v).Some? {
        SameLevelAt(known, ids, a, b, v);
      } else if LayerOf(b, v).Some? {
        SameLevelAt(known, ids, b, a, v);
      }
    }
    assert a != [] ==> LayerOf(b, a[|a| - 1][0]) == Some(|a| - 1);
    assert b != [] ==> LayerOf(a, b[|b| - 1][0]) == Some(|b| - 1);
    forall k | 0 <= k < |a| ensures a[k] == b[k] {
      forall x ensures x in a[k] <==> x in b[k] {
        if x in a[k] {
          var i :| 0 <= i < |a[k]| && a[k][i] == x;
          assert LayerOf(a, x) == Some(k);
        }
        if x in b[k] {
          var i :| 0 <= i < |b[k]| && b[k][i] == x;
          assert LayerOf(b, x) == Some(k);
        }
      }
      StrictlySortedUnique(a[k], b[k]);
    }
  }

  /** `level` maps every placed task to the index of its layer. */
  ghost predicate Levels(layers: seq<seq<TaskId>>, level: map<TaskId, nat>) {
    && (forall k :: 0 <= k < |layers| ==> layers[k] != [] && StrictlySorted(layers[k]))
    && (forall k, v :: 0 <= k < |layers| && v in layers[k] ==> v in level && level[v] == k)
    && (forall v :: LayerOf(layers, v) == if v in level then Some(level[v]) else None)
  }

  /** Every link into a placed task comes from a task on a lower level. */
  ghost predicate LevelsUpward(known: seq<Link>, level: map<TaskId, nat>) {
    forall l :: l in known && l.target in level ==> l.source in level && level[l.source] < level[l.target]
  }

  /** `v` is placed above level 0. */
  ghost predicate Above(level: map<TaskId, nat>, v: TaskId) {
    v in level && level[v] > 0
  }

  /** Every task above level 0 has a link from the level just below it. */
  ghost predicate LevelsFed(known: seq<Link>, level: map<TaskId, nat>) {
    forall v {:trigger Above(level, v)} :: Above(level, v) ==>
      exists l :: l in known && l.target == v && l.source in level && level[l.source] == level[v] - 1
  }

  /** Every task of the queue has a link from the last layer placed. */
  ghost predicate QueueFed(known: seq<Link>, queue: seq<TaskId>, level: map<TaskId, nat>, last: nat) {
    forall v :: v in queue ==>
      exists l :: l in known && l.target == v && l.source in level && level[l.source] == last
  }

  /** The invariant of the `while queue` loop; the placed tasks are the keys of `level`. */
  ghost predicate Generations(known: seq<Link>, ids: set<TaskId>, inDegree: map<TaskId, int>,
                              queue: seq<TaskId>, layers: seq<seq<TaskId>>, level: map<TaskId, nat>)
  {
    && Degrees(known, ids, inDegree, level.Keys)
    && Frontier(ids, level.Keys, inDegree, queue)
    && level.Keys <= ids
    && Levels(layers, level)
    && LevelsUpward(known, level)
    && LevelsFed(known, level)
    && (layers == [] ==> level == map[])
    && (layers != [] ==> forall v :: v in ids ==> (v in layers[0] <==> Pending(known, v, {}) == 0))
    && (layers != [] ==> QueueFed(known, queue, level, |layers| - 1))
  }

  /** `sorted(list(queue))`: the frontier in order, each task once. */
  lemma SortedFrontier(queue: seq<TaskId>)
    requires Distinct(queue)
    ensures Distinct(Sort(queue)) && StrictlySorted(Sort(queue)) && |Sort(queue)| == |queue|
    ensures forall v :: v in Sort(queue) <==> v in queue
  {
    var layer := Sort(queue);
    DistinctMultiplicity(queue);
    DistinctMultiplicity(layer);
    assert |layer| == |multiset(layer)| == |multiset(queue)| == |queue|;
    forall v ensures v in layer <==> v in multiset(layer) {
    }
    SortedDistinctIsStrict(layer);
  }

  /** `level` with the tasks of `layer` placed at level `k`. */
  ghost function Place(level: map<TaskId, nat>, layer: seq<TaskId>, k: nat): (r: map<TaskId, nat>)
    ensures r.Keys == level.Keys + Members(layer)
    ensures forall v :: v in r ==> r[v] == if v in layer then k else level[v]
  {
    level + map v | v in layer :: k
  }

  /** The levels after a new layer of tasks not placed before. */
  lemma AddLevels(layers: seq<seq<TaskId>>, level: map<TaskId, nat>, layer: seq<TaskId>)
    requires Levels(layers, level)
    requires layer != [] && StrictlySorted(layer) && forall v :: v in layer ==> v !in level
    ensures Levels(layers + [layer], Place(level, layer, |layers|))
  {
    var layers', level' := layers + [layer], Place(level, layer, |layers|);
    forall k, v | 0 <= k < |layers'| && v in layers'[k] ensures v in level' && level'[v] == k {
      if k < |layers| {
        assert layers'[k] == layers[k];
      }
    }
    forall v ensures LayerOf(layers', v) == if v in level' then Some(level'[v]) else None {
      LayerOfAppend(layers, layer, v);
    }
  }

  /** The new layer's tasks have all their incoming links from placed tasks. */
  lemma AddUpward(known: seq<Link>, layers: seq<seq<TaskId>>, level: map<TaskId, nat>, layer: seq<TaskId>)
    requires Levels(layers, level) && LevelsUpward(known, level)
    requires forall v :: v in layer ==> v !in level && Pending(known, v, level.Keys) == 0
    ensures LevelsUpward(known, Place(level, layer, |layers|))
  {
    var level' := Place(level, layer, |layers|);
    forall l | l in known && l.target in level' ensures l.source in level' && level'[l.source] < level'[l.target] {
      if l.target !in level {
        PendingZero(known, l.target, level.Keys);
        assert LayerOf(layers, l.source) == Some(level[l.source]);
      }
    }
  }

  /** The first layer is the first generation, and stays the first layer. */
  lemma AddFirstLayer(known: seq<Link>, ids: set<TaskId>, inDegree0: map<TaskId, int>, queue0: seq<TaskId>,
                      layers: seq<seq<TaskId>>, level: map<TaskId, nat>, layer: seq<TaskId>)
    requires Degrees(known, ids, inDegree0, level.Keys) && Frontier(ids, level.Keys, inDegree0, queue0)
    requires layers == [] ==> level == map[]
    requires layers != [] ==> forall v :: v in ids ==> (v in layers[0] <==> Pending(known, v, {}) == 0)
    requires forall v :: v in layer <==> v in queue0
    ensures forall v :: v in ids ==> (v in (layers + [layer])[0] <==> Pending(known, v, {}) == 0)
  {
    if layers != [] {
      assert (layers + [layer])[0] == layers[0];
    } else {
      assert (layers + [layer])[0] == layer;
      assert level.Keys == {};
    }
  }

  /** The tasks of a new layer are fed from the layer before it, as the queue was. */
  lemma AddFed(known: seq<Link>, queue0: seq<TaskId>, layers: seq<seq<TaskId>>, level: map<TaskId, nat>, layer: seq<TaskId>)
    requires LevelsFed(known, level)
    requires layers != [] ==> QueueFed(known, queue0, level, |layers| - 1)
    requires layers == [] ==> level == map[]
    requires forall v :: v in layer <==> v in queue0
    requires forall v :: v in layer ==> v !in level
    ensures LevelsFed(known, Place(level, layer, |layers|))
  {
    var level' := Place(level, layer, |layers|);
    forall v | Above(level', v)
      ensures exists l :: l in known && l.target == v && l.source in level' && level'[l.source] == level'[v] - 1
    {
      if v in layer {
        assert v in queue0;
        var l :| l in known && l.target == v && l.source in level && level[l.source] == |layers| - 1;
        assert l.source !in layer;
      } else {
        assert Above(level, v);
        var l :| l in known && l.target == v && l.source in level && level[l.source] == level[v] - 1;
        assert l.source !in layer;
      }
    }
  }

  /** A task that joins the queue while a layer is released has a link from that layer. */
  lemma NewQueueFed(known: seq<Link>, ids: set<TaskId>, inDegree0: map<TaskId, int>, queue0: seq<TaskId>,
                    layers: seq<seq<TaskId>>, level: map<TaskId, nat>, layer: seq<TaskId>,
                    inDegree: map<TaskId, int>, queue: seq<TaskId>)
    requires Degrees(known, ids, inDegree0, level.Keys) && Frontier(ids, level.Keys, inDegree0, queue0)
    requires forall v :: v in layer <==> v in queue0
    requires Degrees(known, ids, inDegree, level.Keys + Members(layer))
    requires Frontier(ids, level.Keys + Members(layer), inDegree, queue)
    ensures QueueFed(known, queue, Place(level, layer, |layers|), |layers|)
  {
    var level' := Place(level, layer, |layers|);
    forall v | v in queue
      ensures exists l :: l in known && l.target == v && l.source in level' && level'[l.source] == |layers|
    {
      assert v !in queue0;
      PendingZero(known, v, level.Keys);
      PendingZero(known, v, level.Keys + Members(layer));
      var l :| l in known && l.target == v && l.source !in level.Keys;
      assert l.source in layer;
    }
  }

  /** One generation, placed as a new layer, keeps the loop invariant. */
  lemma AddLayer(known: seq<Link>, ids: set<TaskId>, inDegree0: map<TaskId, int>, queue0: seq<TaskId>,
                 layers: seq<seq<TaskId>>, level: map<TaskId, nat>, layer: seq<TaskId>,
                 inDegree: map<TaskId, int>, queue: seq<TaskId>)
    requires Generations(known, ids, inDegree0, queue0, layers, level)
    requires queue0 != [] && StrictlySorted(layer) && forall v :: v in layer <==> v in queue0
    requires Degrees(known, ids, inDegree, level.Keys + Members(layer))
    requires Frontier(ids, level.Keys + Members(layer), inDegree, queue)
    ensures Generations(known, ids, inDegree, queue, layers + [layer], Place(level, layer, |layers|))
    ensures |ids - (Place(level, layer, |layers|)).Keys| < |ids - level.Keys|
  {
    var level' := Place(level, layer, |layers|);
    assert layer != [] by {
      assert queue0[0] in layer;
    }
    AddLevels(layers, level, layer);
    AddUpward(known, layers, level, layer);
    AddFirstLayer(known, ids, inDegree0, queue0, layers, level, layer);
    AddFed(known, queue0, layers, level, layer);
    NewQueueFed(known, ids, inDegree0, queue0, layers, level, layer, inDegree, queue);
    var v := queue0[0];
    assert (ids - level'.Keys) < (ids - level.Keys) by {
      assert v in ids - level.Keys && v !in ids - level'.Keys;
    }
  }

  /**
   * `_calculate_layers(tasks, links)`: the generations of Kahn's algorithm
   * over the links among known tasks, each sorted.
   */
  method CalculateLayers(tasks: seq<Task>, links: seq<Link>) returns (layers: seq<seq<TaskId>>)
    ensures KahnLayers(KnownLinks(links, TaskIds(tasks)), TaskIds(tasks), layers)
    ensures (forall v :: v in TaskIds(tasks) ==> LayerOf(layers, v).Some?) <==>
      Acyclic(KnownLinks(links, TaskIds(tasks)))
  {
    var ids := TaskIds(tasks);
    var known := KnownLinks(links, ids);
    var graph, inDegree := BuildKnownGraph(links, ids);
    var queue := ZeroInDegree(ids, inDegree);
    layers := [];
    ghost var level: map<TaskId, nat> := map[];
    while queue != []
      invariant Generations(known, ids, inDegree, queue, layers, level)
      decreases |ids - level.Keys|
    {
      var layer := Sort(queue);
      SortedFrontier(queue);
      ghost var inDegree0, queue0 := inDegree, queue;
      inDegree, queue := ReleaseLayer(graph, known, ids, inDegree, layer, queue, level);
      AddLayer(known, ids, inDegree0, queue0, layers, level, layer, inDegree, queue);
      level := Place(level, layer, |layers|);
      layers := layers + [layer];
    }
    LayersDone(links, ids, inDegree, layers, level);
  }

  /** What the loop invariant says of the layers themselves. */
  lemma LevelsLayered(known: seq<Link>, ids: set<TaskId>, layers: seq<seq<TaskId>>, level: map<TaskId, nat>)
    requires Levels(layers, level) && LevelsUpward(known, level) && level.Keys <= ids
    ensures Layered(layers, ids) && Upward(known, layers)
  {
    forall k, i | 0 <= k < |layers| && 0 <= i < |layers[k]|
      ensures layers[k][i] in ids && LayerOf(layers, layers[k][i]) == Some(k)
    {
      assert layers[k][i] in layers[k];
    }
  }

  /** The first layer holds exactly the known tasks no known link goes into. */
  lemma FirstLayer(links: seq<Link>, ids: set<TaskId>, inDegree: map<TaskId, int>,
                   layers: seq<seq<TaskId>>, level: map<TaskId, nat>, v: TaskId)
    requires Generations(KnownLinks(links, ids), ids, inDegree, [], layers, level)
    requires v in ids
    ensures LayerOf(layers, v) == Some(0) <==> forall l :: l in KnownLinks(links, ids) ==> l.target != v
  {
    var known := KnownLinks(links, ids);
    PendingZero(known, v, {});
    if layers == [] {
      assert level.Keys == {};
      assert inDegree[v] != 0 by {
        assert v !in [];
      }
    } else {
      assert v in layers[0] ==> level[v] == 0;
    }
  }

  /** Levels fed from the level below give layers fed from the layer before. */
  lemma LevelsFedLayers(known: seq<Link>, layers: seq<seq<TaskId>>, level: map<TaskId, nat>)
    requires Levels(layers, level) && LevelsFed(known, level)
    ensures Fed(known, layers)
  {
    forall k, v | 0 < k && InLayer(layers, k, v)
      ensures exists l :: l in known && l.target == v && l.source in layers[k - 1]
    {
      assert Above(level, v);
      var l :| l in known && l.target == v && l.source in level && level[l.source] == level[v] - 1;
      assert LayerOf(layers, l.source) == Some(k - 1);
    }
  }

  /** With the queue empty, a task whose links all come from placed tasks is placed. */
  lemma DoneClosed(known: seq<Link>, ids: set<TaskId>, inDegree: map<TaskId, int>,
                   layers: seq<seq<TaskId>>, level: map<TaskId, nat>)
    requires Generations(known, ids, inDegree, [], layers, level)
    ensures Closed(known, ids, layers)
  {
    forall v | v in ids && SourcesPlaced(known, layers, v) ensures LayerOf(layers, v).Some? {
      forall l | l in known && l.target == v ensures l.source in level.Keys {
        assert LayerOf(layers, l.source).Some?;
      }
      PendingZero(known, v, level.Keys);
      assert v !in [];
    }
  }

  /** Every task placed: the levels rank the links, so the known links are acyclic. */
  lemma AllPlacedAcyclic(known: seq<Link>, ids: set<TaskId>, level: map<TaskId, nat>)
    requires forall l :: l in known ==> Known(l, ids)
    requires LevelsUpward(known, level) && level.Keys == ids
    ensures Acyclic(known)
  {
    var rank := map v | v in ids :: -(level[v] as int);
    RankedNoCycle(known, rank);
    forall w | IsCycle(known, w) ensures false {
      CycleStartKnown(known, ids, w);
    }
  }

  /** What the empty queue leaves: the first layer and the placement of every task decided. */
  lemma LayersDone(links: seq<Link>, ids: set<TaskId>, inDegree: map<TaskId, int>,
                   layers: seq<seq<TaskId>>, level: map<TaskId, nat>)
    requires Generations(KnownLinks(links, ids), ids, inDegree, [], layers, level)
    ensures KahnLayers(KnownLinks(links, ids), ids, layers)
    ensures (forall v :: v in ids ==> LayerOf(layers, v).Some?) <==> Acyclic(KnownLinks(links, ids))
  {
    var known := KnownLinks(links, ids);
    LevelsLayered(known, ids, layers, level);
    forall v | v in ids
      ensures LayerOf(layers, v) == Some(0) <==> forall l :: l in known ==> l.target != v
    {
      FirstLayer(links, ids, inDegree, layers, level, v);
    }
    LevelsFedLayers(known, layers, level);
    DoneClosed(known, ids, inDegree, layers, level);
    if level.Keys == ids {
      AllPlacedAcyclic(known, ids, level);
    } else {
      var u :| u in ids && u !in level;
      forall v | v in ids && v !in level ensures Pending(known, v, level.Keys) > 0 {
        assert v !in [];
      }
      StuckMeansCycle(known, ids, level.Keys, u);
    }
  }

  /** A cycle of links among known tasks starts at a known task. */
  lemma CycleStartKnown(known: seq<Link>, ids: set<TaskId>, w: seq<TaskId>)
    requires forall l :: l in known ==> Known(l, ids)
    requires IsCycle(known, w)
    ensures w[0] in ids
  {
    assert HasEdge(known, w[0], w[1]);
  }

  /**
   * When every task outside `done` still waits on a link from a task outside
   * `done`, following those links backwards must eventually repeat a task:
   * the links contain a cycle.
   */
  lemma StuckMeansCycle(known: seq<Link>, ids: set<TaskId>, done: set<TaskId>, u: TaskId)
    requires forall l :: l in known ==> Known(l, ids)
    requires forall v :: v in ids && v !in done ==> Pending(known, v, done) > 0
    requires u in ids && u !in done
    ensures !Acyclic(known)
  {
    var w := BackWalk(known, ids, done, u, |ids - done| + 1);
    var i, j := Pigeonhole(w, ids - done);
    var cycle := seq(j - i + 1, t requires 0 <= t <= j - i => w[j - t]);
    forall t | 0 <= t < |cycle| - 1 ensures HasEdge(known, cycle[t], cycle[t + 1]) {
      assert cycle[t] == w[j - t] && cycle[t + 1] == w[j - t - 1];
    }
    assert IsCycle(known, cycle);
  }

  /** A walk of `n` tasks outside `done`, each reached by a link from the next. */
  lemma {:induction false} BackWalk(known: seq<Link>, ids: set<TaskId>, done: set<TaskId>, u: TaskId, n: nat)
    returns (w: seq<TaskId>)
    requires forall l :: l in known ==> Known(l, ids)
    requires forall v :: v in ids && v !in done ==> Pending(known, v, done) > 0
    requires u in ids && u !in done && n >= 1
    ensures |w| == n && forall i :: 0 <= i < n ==> w[i] in ids - done
    ensures forall i :: 0 <= i < n - 1 ==> HasEdge(known, w[i + 1], w[i])
  {
    if n == 1 {
      w := [u];
    } else {
      var w' := BackWalk(known, ids, done, u, n - 1);
      var v := w'[n - 2];
      PendingZero(known, v, done);
      var l :| l in known && l.target == v && l.source !in done;
      w := w' + [l.source];
    }
  }

  /** More elements than `s` has members: one of them repeats. */
  lemma {:induction false} Pigeonhole(w: seq<TaskId>, s: set<TaskId>) returns (i: nat, j: nat)
    requires |w| > |s| && forall k :: 0 <= k < |w| ==> w[k] in s
    ensures i < j < |w| && w[i] == w[j]
    decreases |s|
  {
    if w[0] in w[1..] {
      var k :| 0 <= k < |w[1..]| && w[1..][k] == w[0];
      i, j := 0, k + 1;
    } else {
      var i', j' := Pigeonhole(w[1..], s - {w[0]});
      i, j := i' + 1, j' + 1;
    }
  }
}
