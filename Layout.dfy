/**
 * `calculate_final_layout` of `dev_links.py`: break cycles, layer the tasks,
 * then give layer `i` the column `x = padding + i * column_width` and stack
 * each column's boxes with a gap of 50, centred on `y = 0`. A box without a
 * "size_box" entry counts as 100 high here.
 */
module Layout {
  import opened Wrappers
  import opened Graph
  import CycleBreaker
  import Layering

  datatype Point = Point(x: real, y: real)

  /** The vertical padding between two boxes of a column. */
  const VerticalGap: real := 50.0

  /** The height `calculate_final_layout` assumes for a task without "size_box". */
  const LayoutDefaultHeight: real := 100.0

  /** `task.get("size_box", [w, default])[1]` */
  function BoxHeight(task: Task, default: real): real {
    match task.sizeBox
    case Some(size) => size.height
    case None => default
  }

  function Sum(s: seq<real>): real
    decreases |s|
  {
    if s == [] then 0.0 else Sum(s[..|s| - 1]) + s[|s| - 1]
  }

  /** The heights of a layer's boxes, in layer order. */
  function Heights(taskMap: map<TaskId, Task>, layer: seq<TaskId>): (h: seq<real>)
    requires forall v :: v in layer ==> v in taskMap
    ensures |h| == |layer|
    ensures forall j :: 0 <= j < |layer| ==> h[j] == BoxHeight(taskMap[layer[j]], LayoutDefaultHeight)
  {
    seq(|layer|, j requires 0 <= j < |layer| => BoxHeight(taskMap[layer[j]], LayoutDefaultHeight))
  }

  /** `layer_height`: the boxes plus one gap between each two consecutive ones. */
  function LayerHeight(heights: seq<real>): real {
    Sum(heights) + (|heights| - 1) as real * 50.0
  }

  /**
   * The low edge of box `j` in a column centred on 0: `current_y` after `j`
   * boxes, starting from `-layer_height / 2` and moving up by each box and one
   * gap of 50.
   */
  function BoxTop(heights: seq<real>, j: nat): real
    requires j <= |heights|
    decreases j
  {
    if j == 0 then -LayerHeight(heights) / 2.0 else BoxTop(heights, j - 1) + heights[j - 1] + 50.0
  }

  /** The centre of box `j`. */
  function BoxCenter(heights: seq<real>, j: nat): real
    requires j < |heights|
  {
    BoxTop(heights, j) + heights[j] / 2.0
  }

  lemma SumStep(s: seq<real>, j: nat)
    requires j < |s|
    ensures Sum(s[..j + 1]) == Sum(s[..j]) + s[j]
  {
    assert s[..j + 1][..j] == s[..j];
  }

  /** Box `j` starts above everything stacked before it: the boxes and one gap of 50 after each. */
  lemma {:induction false} BoxTopSum(heights: seq<real>, j: nat)
    requires j <= |heights|
    ensures BoxTop(heights, j) == -LayerHeight(heights) / 2.0 + Sum(heights[..j]) + j as real * 50.0
    decreases j
  {
    if j == 0 {
      assert heights[..0] == [];
    } else {
      BoxTopSum(heights, j - 1);
      SumStep(heights, j - 1);
    }
  }

  /** The column spans `[-H/2, H/2]`: the first box starts at `-H/2` and the last ends at `H/2`. */
  lemma StackedSpan(heights: seq<real>)
    requires heights != []
    ensures BoxTop(heights, 0) == -LayerHeight(heights) / 2.0
    ensures BoxTop(heights, |heights| - 1) + heights[|heights| - 1] == LayerHeight(heights) / 2.0
  {
    BoxTopSum(heights, |heights| - 1);
    SumStep(heights, |heights| - 1);
    assert heights[..|heights|] == heights;
  }

  /** `column_width` for `n` layers: the columns run from `padding` to `width - padding`. */
  function ColumnWidth(width: real, padding: real, n: nat): (cw: real)
    ensures n > 1 ==> padding + (n - 1) as real * cw == width - padding
    ensures n <= 1 ==> cw == 0.0
  {
    if n > 1 then (width - 2.0 * padding) / (if n - 1 > 1 then n - 1 else 1) as real else 0.0
  }

  /** The x coordinate of column `i`. */
  function ColumnX(padding: real, cw: real, i: nat): real {
    padding + i as real * cw
  }

  /**
   * With room between the paddings, the columns of `n > 1` layers are strictly
   * increasing from `padding` to `width - padding`.
   */
  lemma ColumnsIncrease(width: real, padding: real, n: nat, i: nat, j: nat)
    requires width > 2.0 * padding && n > 1 && i < j < n
    ensures ColumnX(padding, ColumnWidth(width, padding, n), i) < ColumnX(padding, ColumnWidth(width, padding, n), j)
    ensures ColumnX(padding, ColumnWidth(width, padding, n), 0) == padding
    ensures ColumnX(padding, ColumnWidth(width, padding, n), n - 1) == width - padding
  {
    var cw := ColumnWidth(width, padding, n);
    assert (n - 1) as real * cw > 0.0;
    assert cw > 0.0;
    assert (j - i) as real * cw > 0.0;
    assert j as real * cw == i as real * cw + (j - i) as real * cw;
  }

  /** The first `j` tasks of `layer` are stacked at column `x`; other entries of `pos0` are kept. */
  ghost predicate ColumnPlaced(layer: seq<TaskId>, heights: seq<real>, x: real,
                               pos0: map<TaskId, Point>, pos: map<TaskId, Point>, j: nat)
    requires j <= |layer| == |heights|
  {
    && pos.Keys == pos0.Keys + Layering.Members(layer[..j])
    && (forall v :: v in pos0 && v !in layer[..j] ==> pos[v] == pos0[v])
    && (forall i {:trigger pos[layer[i]]} :: 0 <= i < j ==> pos[layer[i]] == Point(x, BoxCenter(heights, i)))
  }

  /** Nothing is stacked yet. */
  lemma ColumnPlacedNone(layer: seq<TaskId>, heights: seq<real>, x: real, pos0: map<TaskId, Point>)
    requires |layer| == |heights|
    ensures ColumnPlaced(layer, heights, x, pos0, pos0, 0)
  {
    assert Layering.Members(layer[..0]) == {};
  }

  /**
   * Placing task `j` at `current_y + task_height / 2`, with `current_y` the low
   * edge of box `j`, extends the stack by one; the next box starts one gap of
   * 50 above where this one ends.
   */
  lemma PlaceNext(layer: seq<TaskId>, heights: seq<real>, x: real,
                  pos0: map<TaskId, Point>, pos: map<TaskId, Point>, j: nat, y: real)
    requires j < |layer| == |heights| && Layering.Distinct(layer)
    requires ColumnPlaced(layer, heights, x, pos0, pos, j) && y == BoxTop(heights, j)
    ensures ColumnPlaced(layer, heights, x, pos0, pos[layer[j] := Point(x, y + heights[j] / 2.0)], j + 1)
    ensures BoxTop(heights, j + 1) == y + heights[j] + 50.0
  {
    Layering.PrefixStep(layer, j);
  }

  /** A stack of the whole layer places every task of it and keeps the rest of `pos0`. */
  lemma ColumnPlacedAll(layer: seq<TaskId>, heights: seq<real>, x: real,
                        pos0: map<TaskId, Point>, pos: map<TaskId, Point>)
    requires |layer| == |heights| && ColumnPlaced(layer, heights, x, pos0, pos, |layer|)
    ensures pos.Keys == pos0.Keys + Layering.Members(layer)
    ensures forall v :: v in pos0 && v !in layer ==> pos[v] == pos0[v]
    ensures forall j {:trigger pos[layer[j]]} :: 0 <= j < |layer| ==> pos[layer[j]] == Point(x, BoxCenter(heights, j))
  {
    assert layer[..|layer|] == layer;
  }

  /** The inner loop of `calculate_final_layout`: stack one layer at column `x`. */
  method PlaceColumn(taskMap: map<TaskId, Task>, layer: seq<TaskId>, x: real, pos0: map<TaskId, Point>)
    returns (pos: map<TaskId, Point>)
    requires forall v :: v in layer ==> v in taskMap
    requires Layering.Distinct(layer)
    ensures pos.Keys == pos0.Keys + Layering.Members(layer)
    ensures forall v :: v in pos0 && v !in layer ==> pos[v] == pos0[v]
    ensures forall j {:trigger pos[layer[j]]} :: 0 <= j < |layer| ==> pos[layer[j]] == Point(x, BoxCenter(Heights(taskMap, layer), j))
  {
    var heights := Heights(taskMap, layer);
    var layerHeight := LayerHeight(heights);
    var currentY := -layerHeight / 2.0;
    pos := pos0;
    ColumnPlacedNone(layer, heights, x, pos0);
    for j := 0 to |layer|
      invariant currentY == BoxTop(heights, j)
      invariant ColumnPlaced(layer, heights, x, pos0, pos, j)
    {
      var taskHeight := BoxHeight(taskMap[layer[j]], LayoutDefaultHeight);
      PlaceNext(layer, heights, x, pos0, pos, j, currentY);
      pos := pos[layer[j] := Point(x, currentY + taskHeight / 2.0)];
      currentY := currentY + taskHeight + 50.0;
    }
    ColumnPlacedAll(layer, heights, x, pos0, pos);
  }

  /** Each task of `layers` sits in one layer only, once. */
  ghost predicate PlacedOnce(layers: seq<seq<TaskId>>) {
    && (forall k :: 0 <= k < |layers| ==> Layering.Distinct(layers[k]))
    && forall k1, k2, v :: 0 <= k1 < k2 < |layers| && v in layers[k1] ==> v !in layers[k2]
  }

  /** The outer loop of `calculate_final_layout`: one column per layer. */
  method PlaceLayers(tasks: seq<Task>, layers: seq<seq<TaskId>>, width: real, padding: real)
    returns (pos: map<TaskId, Point>)
    requires forall k, v :: 0 <= k < |layers| && v in layers[k] ==> v in TaskIds(tasks)
    requires PlacedOnce(layers)
    ensures forall v :: v in pos <==> Layering.LayerOf(layers, v).Some?
    ensures forall k, j :: 0 <= k < |layers| && 0 <= j < |layers[k]| ==>
      layers[k][j] in pos &&
      pos[layers[k][j]] ==
        Point(ColumnX(padding, ColumnWidth(width, padding, |layers|), k),
              BoxCenter(Heights(TaskMap(tasks), layers[k]), j))
  {
    var taskMap := TaskMap(tasks);
    var columnWidth := ColumnWidth(width, padding, |layers|);
    pos := map[];
    for i := 0 to |layers|
      invariant forall v :: v in pos <==> Layering.LayerOf(layers[..i], v).Some?
      invariant forall k, j :: 0 <= k < i && 0 <= j < |layers[k]| ==>
        layers[k][j] in pos && pos[layers[k][j]] == Point(ColumnX(padding, columnWidth, k), BoxCenter(Heights(taskMap, layers[k]), j))
    {
      ghost var pos0 := pos;
      pos := PlaceColumn(taskMap, layers[i], ColumnX(padding, columnWidth, i), pos);
      assert layers[..i + 1] == layers[..i] + [layers[i]];
      forall v ensures v in pos <==> Layering.LayerOf(layers[..i + 1], v).Some? {
        Layering.LayerOfAppend(layers[..i], layers[i], v);
      }
      forall k, j | 0 <= k <= i && 0 <= j < |layers[k]|
        ensures layers[k][j] in pos && pos[layers[k][j]] == Point(ColumnX(padding, columnWidth, k), BoxCenter(Heights(taskMap, layers[k]), j))
      {
        var v := layers[k][j];
        if k < i {
          assert v in layers[k] && v !in layers[i];
        } else {
          assert v in Layering.Members(layers[i]);
        }
      }
    }
    assert layers[..|layers|] == layers;
  }

  /** A layering as `_calculate_layers` returns it places every task once. */
  lemma LayeredPlacedOnce(layers: seq<seq<TaskId>>, ids: set<TaskId>)
    requires Layering.Layered(layers, ids)
    ensures PlacedOnce(layers)
    ensures forall k, v :: 0 <= k < |layers| && v in layers[k] ==> v in ids
  {
    forall k | 0 <= k < |layers| ensures Layering.Distinct(layers[k]) {
      forall i, j | 0 <= i < j < |layers[k]| ensures layers[k][i] != layers[k][j] {
        Strings.LexIrreflexive(layers[k][i]);
      }
    }
    forall k1, k2, v | 0 <= k1 < k2 < |layers| && v in layers[k1] ensures v !in layers[k2] {
      var i :| 0 <= i < |layers[k1]| && layers[k1][i] == v;
      assert Layering.LayerOf(layers, v) == Some(k1);
      forall j | 0 <= j < |layers[k2]| ensures layers[k2][j] != v {
        assert Layering.LayerOf(layers, layers[k2][j]) == Some(k2);
      }
    }
  }

  /**
   * `calculate_final_layout(workflow, width=800, padding=50)`. `order` is the
   * iteration order of the task-id set that starts the depth-first searches;
   * `kept` and `layers` are the intermediate link list and layering.
   */
  method CalculateFinalLayout(tasks: seq<Task>, links: seq<Link>, order: seq<TaskId>, width: real := 800.0, padding: real := 50.0)
    returns (pos: map<TaskId, Point>, ghost kept: seq<Link>, ghost layers: seq<seq<TaskId>>)
    requires forall id :: id in order <==> id in TaskIds(tasks)
    ensures IsSubsequence(kept, links) && (Acyclic(links) ==> kept == links)
    ensures forall l1, l2 :: l1 in links && l2 in links && SameEndpoints(l1, l2) ==> (l1 in kept <==> l2 in kept)
    ensures NoCycleThrough(kept, Reachable(links, TaskIds(tasks)))
    ensures NoCycleThrough(kept, TaskIds(tasks))
    ensures DropsOnlyCycles(links, kept)
    ensures Layering.KahnLayers(KnownLinks(kept, TaskIds(tasks)), TaskIds(tasks), layers)
    ensures pos.Keys == TaskIds(tasks)
    ensures forall k, j :: 0 <= k < |layers| && 0 <= j < |layers[k]| ==>
      layers[k][j] in pos &&
      pos[layers[k][j]] ==
        Point(ColumnX(padding, ColumnWidth(width, padding, |layers|), k),
              BoxCenter(Heights(TaskMap(tasks), layers[k]), j))
    ensures width > 2.0 * padding ==>
      forall l :: l in kept && Known(l, TaskIds(tasks)) ==> pos[l.source].x < pos[l.target].x
  {
    var acyclicLinks := CycleBreaker.FindAndBreakCycles(tasks, links, order);
    var found := Layering.CalculateLayers(tasks, acyclicLinks);
    kept, layers := acyclicLinks, found;
    KnownAcyclic(kept, TaskIds(tasks));
    pos := PlaceFinal(tasks, kept, found, width, padding);
  }

  /**
   * The last step of `calculate_final_layout`: a layering that places every
   * task gives each its point, and every link among known tasks runs rightwards.
   */
  method PlaceFinal(tasks: seq<Task>, ghost kept: seq<Link>, layers: seq<seq<TaskId>>, width: real, padding: real)
    returns (pos: map<TaskId, Point>)
    requires Layering.KahnLayers(KnownLinks(kept, TaskIds(tasks)), TaskIds(tasks), layers)
    requires forall v :: v in TaskIds(tasks) ==> Layering.LayerOf(layers, v).Some?
    ensures pos.Keys == TaskIds(tasks)
    ensures forall k, j :: 0 <= k < |layers| && 0 <= j < |layers[k]| ==>
      layers[k][j] in pos &&
      pos[layers[k][j]] ==
        Point(ColumnX(padding, ColumnWidth(width, padding, |layers|), k),
              BoxCenter(Heights(TaskMap(tasks), layers[k]), j))
    ensures width > 2.0 * padding ==>
      forall l :: l in kept && Known(l, TaskIds(tasks)) ==> pos[l.source].x < pos[l.target].x
  {
    var ids := TaskIds(tasks);
    LayeredPlacedOnce(layers, ids);
    pos := PlaceLayers(tasks, layers, width, padding);
    if width > 2.0 * padding {
      forall l | l in kept && Known(l, ids) ensures pos[l.source].x < pos[l.target].x {
        ColumnOrder(tasks, layers, pos, kept, width, padding, l);
      }
    }
  }

  /** A link among known tasks runs from an earlier column to a strictly later one. */
  lemma ColumnOrder(tasks: seq<Task>, layers: seq<seq<TaskId>>, pos: map<TaskId, Point>, kept: seq<Link>,
                    width: real, padding: real, l: Link)
    requires Layering.Layered(layers, TaskIds(tasks))
    requires Layering.Upward(KnownLinks(kept, TaskIds(tasks)), layers)
    requires forall v :: v in TaskIds(tasks) ==> Layering.LayerOf(layers, v).Some?
    requires forall k, j :: 0 <= k < |layers| && 0 <= j < |layers[k]| ==>
      layers[k][j] in pos && pos[layers[k][j]].x == ColumnX(padding, ColumnWidth(width, padding, |layers|), k)
    requires width > 2.0 * padding && l in kept && Known(l, TaskIds(tasks))
    ensures l.source in pos && l.target in pos && pos[l.source].x < pos[l.target].x
  {
    assert l in KnownLinks(kept, TaskIds(tasks));
    var cw := ColumnWidth(width, padding, |layers|);
    var ks := Layering.LayerOf(layers, l.source).value;
    var kt := Layering.LayerOf(layers, l.target).value;
    assert ks < kt;
    var js :| 0 <= js < |layers[ks]| && layers[ks][js] == l.source;
    var jt :| 0 <= jt < |layers[kt]| && layers[kt][jt] == l.target;
    assert pos[l.source].x == ColumnX(padding, cw, ks);
    assert pos[l.target].x == ColumnX(padding, cw, kt);
    ColumnsIncrease(width, padding, |layers|, ks, kt);
  }
}
