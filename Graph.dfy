/**
 * The workflow graph of `dev_links.py`: task records, links between task
 * output and input ports, and what it means for a list of links to contain a
 * cycle.
 */
module Graph {
  import opened Wrappers
  import opened Strings

  type TaskId = string

  /** A `size_box` entry: `[width, height]`. */
  datatype Size = Size(width: real, height: real)

  /** A task record; `sizeBox` is `None` when the record has no "size_box" key. */
  datatype Task = Task(
    id: TaskId,
    name: string,
    sizeBox: Option<Size>,
    inputs: seq<string>,
    outputs: seq<string>,
    inputsPos: seq<real>,
    outputsPos: seq<real>)

  /** A link from `source`'s output port to `target`'s input port. */
  datatype Link = Link(source: TaskId, outputName: string, target: TaskId, inputName: string)

  /** `{task["id"] for task in tasks}` */
  function TaskIds(tasks: seq<Task>): set<TaskId> {
    set t | t in tasks :: t.id
  }

  /** `{task["id"]: task for task in tasks}`: a later record with the same id wins. */
  function TaskMap(tasks: seq<Task>): (m: map<TaskId, Task>)
    ensures m.Keys == TaskIds(tasks)
    ensures forall id :: id in m ==> m[id].id == id && m[id] in tasks
    decreases |tasks|
  {
    if tasks == [] then map[]
    else
      var last := tasks[|tasks| - 1];
      var init := tasks[..|tasks| - 1];
      assert tasks == init + [last];
      TaskMap(init)[last.id := last]
  }

  /** A record that no later record shares its id with is the one `task_map` keeps. */
  lemma {:induction false} TaskMapLastWins(tasks: seq<Task>, i: nat)
    requires i < |tasks| && forall j :: i < j < |tasks| ==> tasks[j].id != tasks[i].id
    ensures TaskMap(tasks)[tasks[i].id] == tasks[i]
    decreases |tasks|
  {
    var init := tasks[..|tasks| - 1];
    if i < |tasks| - 1 {
      TaskMapLastWins(init, i);
    }
  }

  /** There is a link from `u` to `v`. */
  ghost predicate HasEdge(links: seq<Link>, u: TaskId, v: TaskId) {
    exists l :: l in links && l.source == u && l.target == v
  }

  /** `w` is a closed walk along the links: it returns to where it starts. */
  ghost predicate IsCycle(links: seq<Link>, w: seq<TaskId>) {
    && |w| >= 2
    && w[0] == w[|w| - 1]
    && forall i :: 0 <= i < |w| - 1 ==> HasEdge(links, w[i], w[i + 1])
  }

  /**
   * Some link joining the same two tasks as `l`, in either direction, is a
   * step of a cycle of `links`.
   */
  ghost predicate OnLinkCycle(links: seq<Link>, l: Link) {
    exists l', w, i :: && l' in links && SameEndpoints(l, l') && IsCycle(links, w)
                       && 0 <= i < |w| - 1 && w[i] == l'.source && w[i + 1] == l'.target
  }

  /** Every link of `links` missing from `kept` shares its endpoints with a step of a cycle. */
  ghost predicate DropsOnlyCycles(links: seq<Link>, kept: seq<Link>) {
    forall l {:trigger OnLinkCycle(links, l)} :: l in links && l !in kept ==> OnLinkCycle(links, l)
  }

  ghost predicate Acyclic(links: seq<Link>) {
    forall w :: !IsCycle(links, w)
  }

  /** No cycle of `links` passes through a node of `nodes`. */
  ghost predicate NoCycleThrough(links: seq<Link>, nodes: set<TaskId>) {
    forall w, i :: IsCycle(links, w) && 0 <= i < |w| ==> w[i] !in nodes
  }

  /** Each task of `w` is followed by the next along some link. */
  ghost predicate IsWalk(links: seq<Link>, w: seq<TaskId>) {
    forall i :: 0 <= i < |w| - 1 ==> HasEdge(links, w[i], w[i + 1])
  }

  /** `v` is reached from a task of `ids` by following zero or more links. */
  ghost predicate Reaches(links: seq<Link>, ids: set<TaskId>, v: TaskId) {
    exists w :: w != [] && IsWalk(links, w) && w[0] in ids && w[|w| - 1] == v
  }

  /** The tasks reached from `ids` along the links, `ids` included. */
  ghost function Reachable(links: seq<Link>, ids: set<TaskId>): set<TaskId> {
    set v | v in ids + (set l | l in links :: l.target) && Reaches(links, ids, v)
  }

  /** Every task of `ids` is reachable from `ids`. */
  lemma ReachableContains(links: seq<Link>, ids: set<TaskId>)
    ensures ids <= Reachable(links, ids)
  {
    forall v | v in ids ensures v in Reachable(links, ids) {
      assert IsWalk(links, [v]);
    }
  }

  /** Excluding cycles through a set excludes them through every subset. */
  lemma NoCycleThroughSubset(links: seq<Link>, small: set<TaskId>, large: set<TaskId>)
    requires small <= large && NoCycleThrough(links, large)
    ensures NoCycleThrough(links, small)
  {
  }

  /** Both endpoints are known tasks. */
  predicate Known(l: Link, ids: set<TaskId>) {
    l.source in ids && l.target in ids
  }

  /** The links whose endpoints are both known tasks, in order. */
  function KnownLinks(links: seq<Link>, ids: set<TaskId>): (r: seq<Link>)
    ensures forall l :: l in r <==> l in links && Known(l, ids)
    decreases |links|
  {
    if links == [] then []
    else
      var init := links[..|links| - 1];
      var last := links[|links| - 1];
      assert links == init + [last];
      KnownLinks(init, ids) + (if Known(last, ids) then [last] else [])
  }

  /**
   * A ranking that strictly decreases along every link leaving the ranked
   * nodes leaves no cycle through a ranked node.
   */
  lemma {:induction false} RankedNoCycle(links: seq<Link>, rank: map<TaskId, int>)
    requires forall l :: l in links && l.source in rank ==>
               l.target in rank && rank[l.target] < rank[l.source]
    ensures NoCycleThrough(links, rank.Keys)
  {
    forall w, i | IsCycle(links, w) && 0 <= i < |w| ensures w[i] !in rank {
      if w[i] in rank {
        // every node of the walk is ranked: first from i to the end, then round again
        forall j | i <= j < |w| ensures w[j] in rank && rank[w[j]] <= rank[w[i]] - (j - i) {
          RankAlong(links, rank, w, i, j);
        }
        forall j | 0 <= j < |w| ensures w[j] in rank && rank[w[j]] <= rank[w[0]] - j {
          RankAlong(links, rank, w, 0, j);
        }
      }
    }
  }

  lemma {:induction false} RankAlong(links: seq<Link>, rank: map<TaskId, int>, w: seq<TaskId>, i: int, j: int)
    requires forall l :: l in links && l.source in rank ==>
               l.target in rank && rank[l.target] < rank[l.source]
    requires IsCycle(links, w) && 0 <= i <= j < |w| && w[i] in rank
    ensures w[j] in rank && rank[w[j]] <= rank[w[i]] - (j - i)
    decreases j - i
  {
    if j > i {
      RankAlong(links, rank, w, i, j - 1);
      assert HasEdge(links, w[j - 1], w[j]);
      var l :| l in links && l.source == w[j - 1] && l.target == w[j];
    }
  }

  /** A cycle of the known links is a cycle of all links, through a known task. */
  lemma KnownCycle(links: seq<Link>, ids: set<TaskId>, w: seq<TaskId>)
    requires IsCycle(KnownLinks(links, ids), w)
    ensures IsCycle(links, w) && w[0] in ids
  {
    assert HasEdge(KnownLinks(links, ids), w[0], w[1]);
    forall i | 0 <= i < |w| - 1 ensures HasEdge(links, w[i], w[i + 1]) {
      assert HasEdge(KnownLinks(links, ids), w[i], w[i + 1]);
    }
  }

  /** With no cycle through a known task, the links among known tasks are acyclic. */
  lemma KnownAcyclic(links: seq<Link>, ids: set<TaskId>)
    requires NoCycleThrough(links, ids)
    ensures Acyclic(KnownLinks(links, ids))
  {
    forall w ensures !IsCycle(KnownLinks(links, ids), w) {
      if IsCycle(KnownLinks(links, ids), w) {
        KnownCycle(links, ids, w);
      }
    }
  }

  // ---------------------------------------------------------------------------
  // adjacency: `graph[link["source"]["task_id"]].append(link["target"]["task_id"])`

  /** `graph.get(u, [])` */
  function Neighbors<N>(graph: map<N, seq<N>>, u: N): seq<N> {
    if u in graph then graph[u] else []
  }

  /** The targets of the links leaving `u`, in link order. */
  function Successors(links: seq<Link>, u: TaskId): (r: seq<TaskId>)
    ensures |r| <= |links|
    decreases |links|
  {
    if links == [] then []
    else
      var init := links[..|links| - 1];
      var last := links[|links| - 1];
      Successors(init, u) + (if last.source == u then [last.target] else [])
  }

  /** The successor list is exactly the targets of the links leaving `u`. */
  lemma {:induction false} SuccessorsAreTargets(links: seq<Link>, u: TaskId)
    ensures forall v :: v in Successors(links, u) <==> exists l :: l in links && l.source == u && l.target == v
    decreases |links|
  {
    if links != [] {
      var init := links[..|links| - 1];
      SuccessorsAreTargets(init, u);
      assert links == init + [links[|links| - 1]];
      forall v ensures v in Successors(links, u) <==> exists l :: l in links && l.source == u && l.target == v {
        if v in Successors(links, u) && v !in Successors(init, u) {
          assert links[|links| - 1] in links;
        }
        if exists l :: l in links && l.source == u && l.target == v {
          var l :| l in links && l.source == u && l.target == v;
          if l in init {
          } else {
            assert l == links[|links| - 1];
          }
        }
      }
    }
  }

  // ---------------------------------------------------------------------------
  // cut keys: `tuple(sorted((a, b)))`

  /** The two endpoints in sorted order: the key under which a cut is recorded. */
  datatype EdgeKey = EdgeKey(first: TaskId, second: TaskId)

  function SortedPair(a: TaskId, b: TaskId): (k: EdgeKey)
    ensures LexLeq(k.first, k.second)
    ensures multiset{k.first, k.second} == multiset{a, b}
  {
    LexTotal(a, b);
    if LexLeq(a, b) then EdgeKey(a, b) else EdgeKey(b, a)
  }

  /** The key ignores direction: both orders of the endpoints give the same pair. */
  lemma SortedPairSymmetric(a: TaskId, b: TaskId)
    ensures SortedPair(a, b) == SortedPair(b, a)
  {
    if a != b {
      LexAsymmetric(a, b);
    }
  }

  function LinkKey(l: Link): EdgeKey {
    SortedPair(l.source, l.target)
  }

  /** Links `l1` and `l2` join the same two tasks, in either direction. */
  predicate SameEndpoints(l1: Link, l2: Link) {
    (l1.source == l2.source && l1.target == l2.target) ||
    (l1.source == l2.target && l1.target == l2.source)
  }

  lemma SameEndpointsSameKey(l1: Link, l2: Link)
    requires SameEndpoints(l1, l2)
    ensures LinkKey(l1) == LinkKey(l2)
  {
    SortedPairSymmetric(l1.source, l1.target);
  }

  /** Two links share a key exactly when they join the same two tasks. */
  lemma SameKeySameEndpoints(l1: Link, l2: Link)
    requires LinkKey(l1) == LinkKey(l2)
    ensures SameEndpoints(l1, l2)
  {
    assert multiset{l1.source, l1.target} == multiset{l2.source, l2.target};
    if l1.source != l2.source {
      assert l1.source in multiset{l2.source, l2.target};
      assert l2.source in multiset{l1.source, l1.target};
    }
  }

  // ---------------------------------------------------------------------------
  // the final list comprehension of `_find_and_break_cycles`

  /** `[link for link in links if key(link) not in cut_edges]` */
  function KeepUncut(links: seq<Link>, cut: set<EdgeKey>): (r: seq<Link>)
    decreases |links|
  {
    if links == [] then []
    else if LinkKey(links[0]) in cut then KeepUncut(links[1..], cut)
    else [links[0]] + KeepUncut(links[1..], cut)
  }

  /** `sub` is `s` with some elements left out, the rest in their original order. */
  ghost predicate IsSubsequence(sub: seq<Link>, s: seq<Link>)
    decreases |s|
  {
    if sub == [] then true
    else if s == [] then false
    else if sub[0] == s[0] then IsSubsequence(sub[1..], s[1..])
    else IsSubsequence(sub, s[1..])
  }

  lemma {:induction false} KeepUncutSubsequence(links: seq<Link>, cut: set<EdgeKey>)
    ensures IsSubsequence(KeepUncut(links, cut), links)
    decreases |links|
  {
    if links != [] {
      KeepUncutSubsequence(links[1..], cut);
      if LinkKey(links[0]) !in cut {
        assert KeepUncut(links, cut)[1..] == KeepUncut(links[1..], cut);
      } else {
        SubsequenceSkip(KeepUncut(links[1..], cut), links);
      }
    }
  }

  lemma {:induction false} SubsequenceSkip(sub: seq<Link>, s: seq<Link>)
    requires s != [] && IsSubsequence(sub, s[1..])
    ensures IsSubsequence(sub, s)
    decreases |s|, 0
  {
    if sub != [] && sub[0] == s[0] {
      // sub[1..] is a subsequence of s[1..] because sub is
      SubsequenceTail(sub, s[1..]);
    }
  }

  lemma {:induction false} SubsequenceTail(sub: seq<Link>, s: seq<Link>)
    requires sub != [] && IsSubsequence(sub, s)
    ensures IsSubsequence(sub[1..], s)
    decreases |s|, 1
  {
    if sub[0] == s[0] {
      if sub[1..] != [] { SubsequenceSkip(sub[1..], s); }
    } else {
      SubsequenceTail(sub, s[1..]);
      if sub[1..] != [] { SubsequenceSkip(sub[1..], s); }
    }
  }

  /** A link survives exactly when its key was not cut. */
  lemma {:induction false} KeepUncutMembers(links: seq<Link>, cut: set<EdgeKey>)
    ensures forall l :: l in KeepUncut(links, cut) <==> l in links && LinkKey(l) !in cut
    decreases |links|
  {
    if links != [] {
      KeepUncutMembers(links[1..], cut);
      assert links == [links[0]] + links[1..];
    }
  }

  lemma {:induction false} KeepUncutNothingCut(links: seq<Link>)
    ensures KeepUncut(links, {}) == links
    decreases |links|
  {
    if links != [] { KeepUncutNothingCut(links[1..]); }
  }
}
