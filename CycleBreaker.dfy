/**
 * `_find_and_break_cycles` of `dev_links.py`: a recursive depth-first search
 * that records every link reaching a task on the current search path as a cut
 * (keyed by its sorted endpoint pair), then drops every link whose pair was
 * cut. The order in which searches are started is the iteration order of a
 * Python set, so it is a parameter here and every result holds for all orders.
 */
module CycleBreaker {
  import opened Wrappers
  import opened Graph

  /** Every task named at either end of a link. */
  function Endpoints(links: seq<Link>): set<TaskId> {
    (set l | l in links :: l.source) + (set l | l in links :: l.target)
  }

  /** The `defaultdict(list)` filled with one entry per link, in link order. */
  method BuildGraph(links: seq<Link>) returns (graph: map<TaskId, seq<TaskId>>)
    ensures forall u :: Neighbors(graph, u) == Successors(links, u)
  {
    graph := map[];
    for i := 0 to |links|
      invariant forall u :: Neighbors(graph, u) == Successors(links[..i], u)
    {
      var l := links[i];
      assert links[..i + 1][..i] == links[..i];
      graph := graph[l.source := Neighbors(graph, l.source) + [l.target]];
    }
    assert links[..|links|] == links;
  }

  /** `v` is on the adjacency list of `u`. */
  ghost predicate Adjacent<N>(graph: map<N, seq<N>>, u: N, v: N) {
    v in Neighbors(graph, u)
  }

  /** A closed walk along adjacency lists. */
  ghost predicate IsGraphCycle<N>(graph: map<N, seq<N>>, w: seq<N>) {
    && |w| >= 2
    && w[0] == w[|w| - 1]
    && Chain(graph, w)
  }

  /** `s` is a chain of adjacencies, each element adjacent to the next. */
  ghost predicate Chain<N>(graph: map<N, seq<N>>, s: seq<N>)
    decreases |s|
  {
    |s| <= 1 || (Adjacent(graph, s[|s| - 2], s[|s| - 1]) && Chain(graph, s[..|s| - 1]))
  }

  lemma ChainAppend<N>(graph: map<N, seq<N>>, s: seq<N>, v: N)
    requires Chain(graph, s) && (s == [] || Adjacent(graph, s[|s| - 1], v))
    ensures Chain(graph, s + [v])
  {
    assert (s + [v])[..|s|] == s;
  }

  lemma {:induction false} ChainSteps<N>(graph: map<N, seq<N>>, s: seq<N>)
    requires Chain(graph, s)
    ensures forall i, j :: 0 <= i && j == i + 1 && j < |s| ==> Adjacent(graph, s[i], s[j])
    decreases |s|
  {
    if |s| > 1 {
      var p := s[..|s| - 1];
      ChainSteps(graph, p);
      forall i, j | 0 <= i && j == i + 1 && j < |s| ensures Adjacent(graph, s[i], s[j]) {
        if j < |s| - 1 {
          assert s[i] == p[i] && s[j] == p[j];
        }
      }
    }
  }

  /** The set of elements of a sequence. */
  ghost function Elements<N>(s: seq<N>): set<N>
    decreases |s|
  {
    if s == [] then {} else Elements(s[..|s| - 1]) + {s[|s| - 1]}
  }

  lemma ElementsAppend<N>(s: seq<N>, v: N)
    ensures Elements(s + [v]) == Elements(s) + {v}
  {
    assert (s + [v])[..|s|] == s;
  }

  lemma {:induction false} ElementsMembers<N>(s: seq<N>)
    ensures forall x :: x in Elements(s) <==> x in s
    decreases |s|
  {
    if s != [] {
      var p := s[..|s| - 1];
      ElementsMembers(p);
      assert s == p + [s[|s| - 1]];
    }
  }

  /** Every suffix of a chain is a chain. */
  lemma {:induction false} ChainDrop<N>(graph: map<N, seq<N>>, s: seq<N>, j: nat)
    requires Chain(graph, s) && j <= |s|
    ensures Chain(graph, s[j..])
    decreases |s|
  {
    if |s[j..]| > 1 {
      ChainDrop(graph, s[..|s| - 1], j);
      assert s[j..][..|s[j..]| - 1] == s[..|s| - 1][j..];
    }
  }

  /** Some closed walk runs along the adjacency lists. */
  ghost predicate HasGraphCycle(graph: map<TaskId, seq<TaskId>>) {
    exists w :: IsGraphCycle(graph, w)
  }

  /** `k` is the key of one step of a closed walk along the adjacency lists. */
  ghost predicate KeyOnCycle(graph: map<TaskId, seq<TaskId>>, key: (TaskId, TaskId) -> EdgeKey, k: EdgeKey) {
    exists w, i :: IsGraphCycle(graph, w) && 0 <= i < |w| - 1 && k == key(w[i], w[i + 1])
  }

  /** Every cut key is the key of a step of a cycle. */
  ghost predicate CutsOnCycles(graph: map<TaskId, seq<TaskId>>, key: (TaskId, TaskId) -> EdgeKey, cut: set<EdgeKey>) {
    forall k {:trigger KeyOnCycle(graph, key, k)} :: k in cut ==> KeyOnCycle(graph, key, k)
  }

  /** Something was cut only if the adjacency lists have a cycle. */
  lemma CutMeansCycle(graph: map<TaskId, seq<TaskId>>, key: (TaskId, TaskId) -> EdgeKey, cut: set<EdgeKey>)
    requires CutsOnCycles(graph, key, cut)
    ensures cut != {} ==> HasGraphCycle(graph)
  {
    if cut != {} {
      var k :| k in cut;
      assert KeyOnCycle(graph, key, k);
      var w, i :| IsGraphCycle(graph, w) && 0 <= i < |w| - 1 && k == key(w[i], w[i + 1]);
    }
  }

  /** A search path closed by an adjacency back onto it is a cycle. */
  lemma StackCycle<N>(graph: map<N, seq<N>>, stack: seq<N>, v: N)
    requires Chain(graph, stack)
    requires v in stack && Adjacent(graph, stack[|stack| - 1], v)
    ensures IsGraphCycle(graph, stack[IndexOf(stack, v)..] + [v])
  {
    var j := IndexOf(stack, v);
    ChainDrop(graph, stack, j);
    ChainAppend(graph, stack[j..], v);
  }

  function IndexOf<N(==)>(s: seq<N>, v: N): (j: nat)
    requires v in s
    ensures j < |s| && s[j] == v
  {
    if s[0] == v then 0 else 1 + IndexOf(s[1..], v)
  }

  /** A cycle along the adjacency lists built from `links` is a cycle of `links`. */
  lemma GraphCycleIsLinkCycle(graph: map<TaskId, seq<TaskId>>, links: seq<Link>, w: seq<TaskId>)
    requires forall u :: Neighbors(graph, u) == Successors(links, u)
    requires IsGraphCycle(graph, w)
    ensures IsCycle(links, w)
  {
    ChainSteps(graph, w);
    forall i | 0 <= i < |w| - 1 ensures HasEdge(links, w[i], w[i + 1]) {
      SuccessorsAreTargets(links, w[i]);
      assert Adjacent(graph, w[i], w[i + 1]);
    }
  }

  lemma FewerUnvisited<N>(nodes: set<N>, before: set<N>, after: set<N>, x: N)
    requires before + {x} <= after <= nodes && x !in before
    ensures |nodes - after| < |nodes - before|
  {
    var u, v := nodes - before, nodes - after;
    var rest := (u - {x}) - v;
    assert u - {x} == v + rest;
    assert v !! rest;
    assert |u - {x}| == |v| + |rest|;
    assert x in u;
    assert |u - {x}| == |u| - 1;
  }

  /** `m2` keeps every entry of `m1`. */
  ghost predicate Extends<N>(m1: map<N, int>, m2: map<N, int>) {
    forall f :: f in m1 ==> f in m2 && m2[f] == m1[f]
  }

  lemma ExtendsTransitive<N>(m1: map<N, int>, m2: map<N, int>, m3: map<N, int>)
    requires Extends(m1, m2) && Extends(m2, m3)
    ensures Extends(m1, m3)
  {
  }

  lemma NoMoreUnvisited<N>(nodes: set<N>, before: set<N>, after: set<N>)
    requires before <= after
    ensures |nodes - after| <= |nodes - before|
  {
    var u, v := nodes - before, nodes - after;
    assert u == v + (u - v);
    assert v !! (u - v);
  }

  lemma SubsetTransitive<K>(a: set<K>, b: set<K>, c: set<K>, d: set<K>)
    requires a <= b <= c <= d
    ensures a <= d
  {
  }

  /**
   * Every adjacency out of a ranked task was either cut or leads to a task of
   * smaller rank.
   */
  ghost predicate Settled(graph: map<TaskId, seq<TaskId>>, key: (TaskId, TaskId) -> EdgeKey,
                          finish: map<TaskId, int>, cut: set<EdgeKey>)
  {
    forall f, k :: f in finish && 0 <= k < |Neighbors(graph, f)| ==>
      key(f, Neighbors(graph, f)[k]) in cut ||
      (Neighbors(graph, f)[k] in finish && finish[Neighbors(graph, f)[k]] < finish[f])
  }

  /** A task whose adjacencies are all cut or lead to ranked tasks may take the next rank. */
  lemma SettleNode(graph: map<TaskId, seq<TaskId>>, key: (TaskId, TaskId) -> EdgeKey,
                   finish: map<TaskId, int>, cut: set<EdgeKey>, node: TaskId, c: int)
    requires Settled(graph, key, finish, cut)
    requires node !in finish && forall f :: f in finish ==> finish[f] < c
    requires forall k :: 0 <= k < |Neighbors(graph, node)| ==>
      key(node, Neighbors(graph, node)[k]) in cut || Neighbors(graph, node)[k] in finish
    ensures Settled(graph, key, finish[node := c], cut)
  {
    var finish' := finish[node := c];
    forall f, k | f in finish' && 0 <= k < |Neighbors(graph, f)|
      ensures key(f, Neighbors(graph, f)[k]) in cut ||
        (Neighbors(graph, f)[k] in finish' && finish'[Neighbors(graph, f)[k]] < finish'[f])
    {
      if f != node {
        assert f in finish;
      }
    }
  }

  /** Between two states of the search, visited tasks, cuts and ranks were only added. */
  ghost predicate Grown(visited0: set<TaskId>, cut0: set<EdgeKey>, finish0: map<TaskId, int>,
                        visited1: set<TaskId>, cut1: set<EdgeKey>, finish1: map<TaskId, int>)
  {
    visited0 <= visited1 && cut0 <= cut1 && Extends(finish0, finish1)
  }

  lemma GrownTransitive(visited0: set<TaskId>, cut0: set<EdgeKey>, finish0: map<TaskId, int>,
                        visited1: set<TaskId>, cut1: set<EdgeKey>, finish1: map<TaskId, int>,
                        visited2: set<TaskId>, cut2: set<EdgeKey>, finish2: map<TaskId, int>)
    requires Grown(visited0, cut0, finish0, visited1, cut1, finish1)
    requires Grown(visited1, cut1, finish1, visited2, cut2, finish2)
    ensures Grown(visited0, cut0, finish0, visited2, cut2, finish2)
  {
  }

  lemma GrownThrice(visited0: set<TaskId>, cut0: set<EdgeKey>, finish0: map<TaskId, int>,
                    visited1: set<TaskId>, cut1: set<EdgeKey>, finish1: map<TaskId, int>,
                    visited2: set<TaskId>, cut2: set<EdgeKey>, finish2: map<TaskId, int>,
                    visited3: set<TaskId>, cut3: set<EdgeKey>, finish3: map<TaskId, int>)
    requires Grown(visited0, cut0, finish0, visited1, cut1, finish1)
    requires Grown(visited1, cut1, finish1, visited2, cut2, finish2)
    requires Grown(visited2, cut2, finish2, visited3, cut3, finish3)
    ensures Grown(visited0, cut0, finish0, visited3, cut3, finish3)
  {
  }

  /** The adjacency lists stay among `nodes`. */
  ghost predicate Closed(graph: map<TaskId, seq<TaskId>>, nodes: set<TaskId>) {
    forall u, k :: 0 <= k < |Neighbors(graph, u)| ==> Neighbors(graph, u)[k] in nodes
  }

  /** The search path is a chain of adjacencies among visited tasks. */
  ghost predicate PathOk(graph: map<TaskId, seq<TaskId>>, nodes: set<TaskId>,
                         visited: set<TaskId>, path: set<TaskId>, stack: seq<TaskId>)
  {
    && visited <= nodes
    && path <= visited
    && path == Elements(stack)
    && Chain(graph, stack)
  }

  /** Every task of `ns` has been visited. */
  ghost predicate AllVisited(ns: seq<TaskId>, visited: set<TaskId>) {
    forall k :: 0 <= k < |ns| ==> ns[k] in visited
  }

  /** Every adjacency out of a ranked task leads to a visited task. */
  ghost predicate Expanded(graph: map<TaskId, seq<TaskId>>, visited: set<TaskId>, finish: map<TaskId, int>) {
    forall f, k :: f in finish && 0 <= k < |Neighbors(graph, f)| ==> Neighbors(graph, f)[k] in visited
  }

  /**
   * Visited tasks off the path are ranked below `clock`; every adjacency out
   * of a ranked task leads to a visited task, and was either cut or leads to a
   * task ranked lower.
   */
  ghost predicate FinishOk(graph: map<TaskId, seq<TaskId>>, key: (TaskId, TaskId) -> EdgeKey,
                           visited: set<TaskId>, path: set<TaskId>, finish: map<TaskId, int>,
                           clock: int, cut: set<EdgeKey>)
  {
    && finish.Keys == visited - path
    && 0 <= clock
    && (forall f :: f in finish ==> 0 <= finish[f] < clock)
    && Expanded(graph, visited, finish)
    && Settled(graph, key, finish, cut)
  }

  /** Each of `ns` is cut from `node` or ranked. */
  ghost predicate Handled(key: (TaskId, TaskId) -> EdgeKey, node: TaskId, ns: seq<TaskId>,
                          cut: set<EdgeKey>, finish: map<TaskId, int>)
  {
    forall k :: 0 <= k < |ns| ==> key(node, ns[k]) in cut || ns[k] in finish
  }

  /** What was handled stays handled as cuts and ranks accumulate. */
  lemma HandledGrown(key: (TaskId, TaskId) -> EdgeKey, node: TaskId, ns: seq<TaskId>,
                     cut0: set<EdgeKey>, finish0: map<TaskId, int>, cut1: set<EdgeKey>, finish1: map<TaskId, int>)
    requires cut0 <= cut1 && finish0.Keys <= finish1.Keys
    requires Handled(key, node, ns, cut0, finish0)
    ensures Handled(key, node, ns, cut1, finish1)
  {
  }

  /** Starting the search of `node` keeps the path a chain and the ranking sound. */
  lemma StartNode(graph: map<TaskId, seq<TaskId>>, key: (TaskId, TaskId) -> EdgeKey, nodes: set<TaskId>,
                  visited: set<TaskId>, path: set<TaskId>, stack: seq<TaskId>, finish: map<TaskId, int>,
                  clock: int, cut: set<EdgeKey>, node: TaskId)
    requires PathOk(graph, nodes, visited, path, stack)
    requires FinishOk(graph, key, visited, path, finish, clock, cut)
    requires node in nodes && node !in visited
    requires stack == [] || Adjacent(graph, stack[|stack| - 1], node)
    ensures PathOk(graph, nodes, visited + {node}, path + {node}, stack + [node])
    ensures FinishOk(graph, key, visited + {node}, path + {node}, finish, clock, cut)
    ensures node !in Elements(stack)
  {
    ChainAppend(graph, stack, node);
    ElementsAppend(stack, node);
    assert finish.Keys == (visited + {node}) - (path + {node});
  }

  /** Popping `node` off the search path keeps the rest a chain. */
  lemma PopNode(graph: map<TaskId, seq<TaskId>>, nodes: set<TaskId>, visited: set<TaskId>,
                path: set<TaskId>, stack: seq<TaskId>, node: TaskId)
    requires PathOk(graph, nodes, visited, path, stack + [node])
    requires node !in Elements(stack)
    ensures PathOk(graph, nodes, visited, path - {node}, stack)
    ensures node in path
  {
    assert (stack + [node])[..|stack|] == stack;
    ElementsAppend(stack, node);
  }

  /** Finishing the search of `node`, the last task on the path, keeps the ranking sound. */
  lemma FinishNode(graph: map<TaskId, seq<TaskId>>, key: (TaskId, TaskId) -> EdgeKey,
                   visited: set<TaskId>, path: set<TaskId>, finish: map<TaskId, int>, clock: int,
                   cut: set<EdgeKey>, node: TaskId)
    requires FinishOk(graph, key, visited, path, finish, clock, cut)
    requires node in path && path <= visited
    requires Handled(key, node, Neighbors(graph, node), cut, finish)
    requires AllVisited(Neighbors(graph, node), visited)
    ensures FinishOk(graph, key, visited, path - {node}, finish[node := clock], clock + 1, cut)
    ensures Extends(finish, finish[node := clock])
  {
    SettleNode(graph, key, finish, cut, node, clock);
    assert finish[node := clock].Keys == visited - (path - {node});
  }

  class DepthFirstSearch {
    const graph: map<TaskId, seq<TaskId>>
    /** The key a cut adjacency is recorded under. */
    const key: (TaskId, TaskId) -> EdgeKey
    /** Every task the search can reach: the start tasks and all adjacency-list entries. */
    ghost const nodes: set<TaskId>

    var visited: set<TaskId>
    var path: set<TaskId>
    var cutEdges: set<EdgeKey>

    /** The search path in order; `path` is its set of elements. */
    ghost var stack: seq<TaskId>
    /** The order in which searches finished: a ranking of the finished tasks. */
    ghost var finish: map<TaskId, int>
    ghost var clock: int

    /**
     * The adjacency lists stay among `nodes`; the search path is a chain of
     * adjacencies among visited tasks; visited tasks off the path are
     * finished, and every adjacency out of a finished task was either cut or
     * leads to a task that finished earlier; every cut key is that of a step
     * of a cycle.
     */
    ghost predicate Valid()
      reads this
    {
      && Closed(graph, nodes)
      && PathOk(graph, nodes, visited, path, stack)
      && FinishOk(graph, key, visited, path, finish, clock, cutEdges)
      && CutsOnCycles(graph, key, cutEdges)
    }

    constructor (graph: map<TaskId, seq<TaskId>>, key: (TaskId, TaskId) -> EdgeKey, nodes: set<TaskId>)
      requires Closed(graph, nodes)
      ensures Valid()
      ensures this.graph == graph && this.key == key && this.nodes == nodes
      ensures visited == {} && path == {} && cutEdges == {} && stack == [] && finish == map[]
    {
      this.graph := graph;
      this.key := key;
      this.nodes := nodes;
      visited, path, cutEdges := {}, {}, {};
      stack, finish, clock := [], map[], 0;
    }

    /** `dfs(node)` */
    method Dfs(node: TaskId)
      requires Valid() && node in nodes && node !in visited
      requires stack == [] || Adjacent(graph, stack[|stack| - 1], node)
      modifies this
      ensures Valid() && stack == old(stack) && path == old(path)
      ensures Grown(old(visited), old(cutEdges), old(finish), visited, cutEdges, finish)
      ensures node in visited && node in finish
      decreases |nodes - visited|, 0
    {
      Enter(node);
      ghost var visited1, cut1, finish1 := visited, cutEdges, finish;
      FewerUnvisited(nodes, old(visited), visited, node);
      VisitAll(node);
      ghost var visited2, cut2, finish2 := visited, cutEdges, finish;
      Leave(node, old(stack));
      GrownThrice(old(visited), old(cutEdges), old(finish), visited1, cut1, finish1, visited2, cut2, finish2,
                  visited, cutEdges, finish);
    }

    /** `visited.add(node)` and `path.add(node)` at the start of `dfs(node)`. */
    method Enter(node: TaskId)
      requires Valid() && node in nodes && node !in visited
      requires stack == [] || Adjacent(graph, stack[|stack| - 1], node)
      modifies this
      ensures Valid() && stack == old(stack) + [node] && visited == old(visited) + {node}
      ensures node !in Elements(old(stack)) && path == old(path) + {node} && node !in old(path)
      ensures Grown(old(visited), old(cutEdges), old(finish), visited, cutEdges, finish)
    {
      StartNode(graph, key, nodes, visited, path, stack, finish, clock, cutEdges, node);
      visited, path, stack := visited + {node}, path + {node}, stack + [node];
    }

    /** The loop over the neighbours of `node` in `dfs(node)`. */
    method VisitAll(node: TaskId)
      requires Valid() && stack != [] && stack[|stack| - 1] == node
      modifies this
      ensures Valid() && stack == old(stack) && path == old(path)
      ensures Grown(old(visited), old(cutEdges), old(finish), visited, cutEdges, finish)
      ensures Handled(key, node, Neighbors(graph, node), cutEdges, finish)
      ensures AllVisited(Neighbors(graph, node), visited)
      decreases |nodes - visited|, 2
    {
      var neighbors := Neighbors(graph, node);
      for i := 0 to |neighbors|
        invariant Valid() && stack == old(stack)
        invariant Grown(old(visited), old(cutEdges), old(finish), visited, cutEdges, finish)
        invariant Handled(key, node, neighbors[..i], cutEdges, finish)
        invariant AllVisited(neighbors[..i], visited)
      {
        ghost var visited0, cut0, finish0 := visited, cutEdges, finish;
        NoMoreUnvisited(nodes, old(visited), visited);
        Visit(node, neighbors[i]);
        GrownTransitive(old(visited), old(cutEdges), old(finish), visited0, cut0, finish0, visited, cutEdges, finish);
        HandledGrown(key, node, neighbors[..i], cut0, finish0, cutEdges, finish);
        assert neighbors[..i + 1] == neighbors[..i] + [neighbors[i]];
      }
      assert neighbors[..|neighbors|] == neighbors;
    }

    /** `path.remove(node)` at the end of `dfs(node)`: the search of `node` finishes. */
    method Leave(node: TaskId, ghost below: seq<TaskId>)
      requires Valid() && stack == below + [node]
      requires node !in Elements(below)
      requires Handled(key, node, Neighbors(graph, node), cutEdges, finish)
      requires AllVisited(Neighbors(graph, node), visited)
      modifies this
      ensures Valid() && stack == below && path == old(path) - {node}
      ensures Grown(old(visited), old(cutEdges), old(finish), visited, cutEdges, finish)
      ensures node in finish
    {
      var stack' := stack[..|stack| - 1];
      assert stack' == below;
      PopNode(graph, nodes, visited, path, stack', node);
      FinishNode(graph, key, visited, path, finish, clock, cutEdges, node);
      path, stack, finish, clock := path - {node}, stack', finish[node := clock], clock + 1;
    }

    /** `cut_edges.add(tuple(sorted((node, neighbor))))`: `neighbor` is on the search path. */
    method Cut(node: TaskId, neighbor: TaskId)
      requires Valid() && stack != [] && stack[|stack| - 1] == node
      requires Adjacent(graph, node, neighbor) && neighbor in path
      modifies this
      ensures Valid() && stack == old(stack) && visited == old(visited)
      ensures cutEdges == old(cutEdges) + {key(node, neighbor)} && finish == old(finish)
    {
      ElementsMembers(stack);
      StackCycle(graph, stack, neighbor);
      ghost var w := stack[IndexOf(stack, neighbor)..] + [neighbor];
      assert w[|w| - 2] == node && w[|w| - 1] == neighbor;
      assert KeyOnCycle(graph, key, key(node, neighbor));
      cutEdges := cutEdges + {key(node, neighbor)};
    }

    /** One pass of the loop over the neighbours of `node` in `dfs(node)`. */
    method Visit(node: TaskId, neighbor: TaskId)
      requires Valid() && stack != [] && stack[|stack| - 1] == node
      requires Adjacent(graph, node, neighbor)
      modifies this
      ensures Valid() && stack == old(stack)
      ensures Grown(old(visited), old(cutEdges), old(finish), visited, cutEdges, finish)
      ensures key(node, neighbor) in cutEdges || neighbor in finish
      ensures neighbor in visited
      decreases |nodes - visited|, 1
    {
      if neighbor in path {
        Cut(node, neighbor);
      }
      if neighbor !in visited {
        Dfs(neighbor);
      }
    }
  }

  lemma SelfLoopCycle(links: seq<Link>, l: Link)
    requires l in links && l.source == l.target
    ensures IsCycle(links, [l.source, l.source])
  {
  }

  /**
   * What the search leaves behind is enough: dropping the cut links removes
   * every cycle through a ranked task, keeps links sharing their endpoints
   * together, and drops nothing unless something lay on a cycle.
   */
  lemma CutsBreakCycles(links: seq<Link>, graph: map<TaskId, seq<TaskId>>, cut: set<EdgeKey>,
                        rank: map<TaskId, int>, ids: set<TaskId>)
    requires forall u :: Neighbors(graph, u) == Successors(links, u)
    requires cut != {} ==> HasGraphCycle(graph)
    requires Settled(graph, SortedPair, rank, cut)
    requires ids <= rank.Keys
    ensures IsSubsequence(KeepUncut(links, cut), links)
    ensures forall l1, l2 :: l1 in links && l2 in links && SameEndpoints(l1, l2) ==>
      (l1 in KeepUncut(links, cut) <==> l2 in KeepUncut(links, cut))
    ensures Acyclic(links) ==> KeepUncut(links, cut) == links
    ensures NoCycleThrough(KeepUncut(links, cut), ids)
    ensures forall l :: l in links && l.source == l.target && l.source in ids ==> l !in KeepUncut(links, cut)
  {
    var kept := KeepUncut(links, cut);
    KeepUncutSubsequence(links, cut);
    KeepUncutMembers(links, cut);
    forall l1, l2 | l1 in links && l2 in links && SameEndpoints(l1, l2) ensures l1 in kept <==> l2 in kept {
      SameEndpointsSameKey(l1, l2);
    }
    if cut != {} {
      var cycle :| IsGraphCycle(graph, cycle);
      GraphCycleIsLinkCycle(graph, links, cycle);
    } else {
      KeepUncutNothingCut(links);
    }
    forall l | l in kept && l.source in rank ensures l.target in rank && rank[l.target] < rank[l.source] {
      SuccessorsAreTargets(links, l.source);
      var nbrs := Neighbors(graph, l.source);
      assert l.target in nbrs;
      var k :| 0 <= k < |nbrs| && nbrs[k] == l.target;
    }
    RankedNoCycle(kept, rank);
    forall l | l in links && l.source == l.target && l.source in ids ensures l !in kept {
      if l in kept {
        SelfLoopCycle(kept, l);
      }
    }
  }

  /** Only links sharing their endpoints with a step of a cycle are dropped. */
  lemma CutsOnlyCycles(links: seq<Link>, graph: map<TaskId, seq<TaskId>>, cut: set<EdgeKey>)
    requires forall u :: Neighbors(graph, u) == Successors(links, u)
    requires CutsOnCycles(graph, SortedPair, cut)
    ensures DropsOnlyCycles(links, KeepUncut(links, cut))
  {
    KeepUncutMembers(links, cut);
    forall l | l in links && l !in KeepUncut(links, cut) ensures OnLinkCycle(links, l) {
      CutLinkOnCycle(links, graph, cut, l);
    }
  }

  /** A link whose key was cut joins the two ends of a step of a cycle of the links. */
  lemma CutLinkOnCycle(links: seq<Link>, graph: map<TaskId, seq<TaskId>>, cut: set<EdgeKey>, l: Link)
    requires forall u :: Neighbors(graph, u) == Successors(links, u)
    requires CutsOnCycles(graph, SortedPair, cut)
    requires l in links && LinkKey(l) in cut
    ensures OnLinkCycle(links, l)
  {
    assert KeyOnCycle(graph, SortedPair, LinkKey(l));
    var w, i :| IsGraphCycle(graph, w) && 0 <= i < |w| - 1 && LinkKey(l) == SortedPair(w[i], w[i + 1]);
    GraphCycleIsLinkCycle(graph, links, w);
    ChainSteps(graph, w);
    assert Adjacent(graph, w[i], w[i + 1]);
    SuccessorsAreTargets(links, w[i]);
    var l' :| l' in links && l'.source == w[i] && l'.target == w[i + 1];
    SameKeySameEndpoints(l, l');
  }

  /** Some link leaves every task on a cycle. */
  lemma CycleLeaves(links: seq<Link>, w: seq<TaskId>, k: nat)
    requires IsCycle(links, w) && k < |w|
    ensures exists m :: m in links && m.source == w[k]
  {
    var next := if k < |w| - 1 then k else 0;
    assert HasEdge(links, w[next], w[next + 1]);
  }

  /**
   * A link into a task that no link leaves lies on no cycle, so a cycle
   * breaker that drops only cycle-causing links keeps it.
   */
  lemma DeadEndKept(links: seq<Link>, kept: seq<Link>, l: Link)
    requires DropsOnlyCycles(links, kept)
    requires l in links && forall m :: m in links ==> m.source != l.target
    ensures l in kept
  {
    if l !in kept {
      assert OnLinkCycle(links, l);
      var l', w, i :| && l' in links && SameEndpoints(l, l') && IsCycle(links, w)
                      && 0 <= i < |w| - 1 && w[i] == l'.source && w[i + 1] == l'.target;
      CycleLeaves(links, w, i + 1);
      assert false;
    }
  }

  /** A walk that starts among tasks closed under the adjacency lists stays among them. */
  lemma {:induction false} WalkStaysVisited(links: seq<Link>, graph: map<TaskId, seq<TaskId>>,
                                            visited: set<TaskId>, w: seq<TaskId>)
    requires forall u :: Neighbors(graph, u) == Successors(links, u)
    requires forall f, k :: f in visited && 0 <= k < |Neighbors(graph, f)| ==> Neighbors(graph, f)[k] in visited
    requires w != [] && IsWalk(links, w) && w[0] in visited
    ensures w[|w| - 1] in visited
    decreases |w|
  {
    if |w| > 1 {
      var p := w[..|w| - 1];
      forall i | 0 <= i < |p| - 1 ensures HasEdge(links, p[i], p[i + 1]) {
        assert p[i] == w[i] && p[i + 1] == w[i + 1];
      }
      WalkStaysVisited(links, graph, visited, p);
      var a, b := w[|w| - 2], w[|w| - 1];
      assert HasEdge(links, a, b);
      SuccessorsAreTargets(links, a);
      var nbrs := Neighbors(graph, a);
      assert b in nbrs;
      var k :| 0 <= k < |nbrs| && nbrs[k] == b;
    }
  }

  /** Tasks closed under the adjacency lists and holding `ids` hold every task reachable from `ids`. */
  lemma ReachableVisited(links: seq<Link>, graph: map<TaskId, seq<TaskId>>, ids: set<TaskId>, visited: set<TaskId>)
    requires forall u :: Neighbors(graph, u) == Successors(links, u)
    requires forall f, k :: f in visited && 0 <= k < |Neighbors(graph, f)| ==> Neighbors(graph, f)[k] in visited
    requires ids <= visited
    ensures Reachable(links, ids) <= visited
  {
    forall v | v in Reachable(links, ids) ensures v in visited {
      var w :| w != [] && IsWalk(links, w) && w[0] in ids && w[|w| - 1] == v;
      WalkStaysVisited(links, graph, visited, w);
    }
  }

  /**
   * A cycle that a known task reaches loses at least one link, even when none
   * of its own tasks is known.
   */
  lemma ReachedCycleBroken(links: seq<Link>, kept: seq<Link>, ids: set<TaskId>, w: seq<TaskId>)
    requires NoCycleThrough(kept, Reachable(links, ids))
    requires IsCycle(links, w) && w[0] in Reachable(links, ids)
    ensures exists l :: l in links && l !in kept
  {
    assert !IsCycle(kept, w);
    var i :| 0 <= i < |w| - 1 && !HasEdge(kept, w[i], w[i + 1]);
    var l :| l in links && l.source == w[i] && l.target == w[i + 1];
    assert l !in kept;
  }

  /**
   * `_find_and_break_cycles(tasks, links)`, with the searches started in the
   * order `order` (the iteration order of the set of task ids).
   */
  method FindAndBreakCycles(tasks: seq<Task>, links: seq<Link>, order: seq<TaskId>) returns (kept: seq<Link>)
    requires forall id :: id in order <==> id in TaskIds(tasks)
    ensures IsSubsequence(kept, links)
    ensures forall l1, l2 :: l1 in links && l2 in links && SameEndpoints(l1, l2) ==> (l1 in kept <==> l2 in kept)
    ensures Acyclic(links) ==> kept == links
    ensures NoCycleThrough(kept, Reachable(links, TaskIds(tasks)))
    ensures NoCycleThrough(kept, TaskIds(tasks))
    ensures forall l :: l in links && l.source == l.target && l.source in Reachable(links, TaskIds(tasks)) ==> l !in kept
    ensures DropsOnlyCycles(links, kept)
  {
    var taskIds := TaskIds(tasks);
    var graph := BuildGraph(links);
    var nodes := taskIds + Endpoints(links);
    forall u, k | 0 <= k < |Neighbors(graph, u)| ensures Neighbors(graph, u)[k] in nodes {
      SuccessorsAreTargets(links, u);
      assert Neighbors(graph, u)[k] in Successors(links, u);
    }
    var search := new DepthFirstSearch(graph, SortedPair, nodes);
    for i := 0 to |order|
      invariant search.Valid() && search.path == {} && search.stack == []
      invariant search.graph == graph && search.key == SortedPair && search.nodes == nodes
      invariant forall j :: 0 <= j < i ==> order[j] in search.visited
    {
      if order[i] !in search.visited {
        search.Dfs(order[i]);
      }
    }
    kept := KeepUncut(links, search.cutEdges);
    var reached := Reachable(links, taskIds);
    assert search.finish.Keys == search.visited;
    ReachableVisited(links, graph, taskIds, search.visited);
    ReachableContains(links, taskIds);
    CutMeansCycle(graph, SortedPair, search.cutEdges);
    CutsBreakCycles(links, graph, search.cutEdges, search.finish, reached);
    NoCycleThroughSubset(kept, taskIds, reached);
    CutsOnlyCycles(links, graph, search.cutEdges);
  }
}
