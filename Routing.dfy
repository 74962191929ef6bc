/**
 * The link geometry of `render_final_workflow` in `dev_links.py`, without the
 * drawing: every link becomes a cubic Bezier curve (start, two control points,
 * end). A link whose source column lies strictly right of its target's is a
 * back link, drawn as an arc from the top middle of each box over the whole
 * diagram; every other link is an S-curve from an output port on the source
 * box's right edge to an input port on the target box's left edge.
 */
module Routing {
  import opened Wrappers
  import opened Graph
  import opened Layout

  datatype Curve = Curve(start: Point, control1: Point, control2: Point, end: Point, back: bool)

  /** The exception `render_final_workflow` raises. */
  datatype RouteError =
    | MissingTask(id: TaskId)            // `task_map[tid]` raises KeyError
    | MissingPosition(id: TaskId)        // `pos[tid]` raises KeyError
    | MissingPort(name: string)          // `list.index` raises ValueError
    | MissingPortPosition(name: string)  // `outputs_pos[idx]` raises IndexError
    | EmptyDiagram                       // `max` of an empty sequence raises ValueError

  /** How far above the highest box the back arcs' control points lie. */
  const ArcClearance: real := 80.0

  /** `task.get("size_box", [150, 60])`, the size the routing assumes. */
  function RouteSize(task: Task): Size {
    task.sizeBox.GetOr(Size(150.0, 60.0))
  }

  /** `p[1] + task.get("size_box", [0, 60])[1] / 2`: the top edge of a placed box. */
  function TopEdge(task: Task, p: Point): real {
    p.y + BoxHeight(task, 60.0) / 2.0
  }

  function Abs(x: real): (r: real)
    ensures r >= 0.0 && (r == x || r == -x)
  {
    if x < 0.0 then -x else x
  }

  /** `names.index(name)`: the first position of `name`. */
  function PortIndex(names: seq<string>, name: string): (r: Option<nat>)
    ensures r.Some? ==> r.value < |names| && names[r.value] == name && forall j :: 0 <= j < r.value ==> names[j] != name
    ensures r.None? <==> name !in names
    decreases |names|
  {
    if names == [] then None
    else if names[0] == name then Some(0)
    else
      var rest := PortIndex(names[1..], name);
      if rest.None? then None else Some(rest.value + 1)
  }

  /**
   * `max(p[1] + task_map[tid].get("size_box", [0, 60])[1] / 2 for tid, p in pos.items())`,
   * with `keys` the iteration order of `pos`.
   */
  function MaxTop(taskMap: map<TaskId, Task>, pos: map<TaskId, Point>, keys: seq<TaskId>): (r: Result<real, RouteError>)
    requires forall k :: k in keys ==> k in pos
    ensures r.Success? ==> forall i :: 0 <= i < |keys| ==> keys[i] in taskMap && TopEdge(taskMap[keys[i]], pos[keys[i]]) <= r.value
    ensures r.Success? ==> exists i :: 0 <= i < |keys| && keys[i] in taskMap && TopEdge(taskMap[keys[i]], pos[keys[i]]) == r.value
    ensures r.Failure? <==> keys == [] || exists i :: 0 <= i < |keys| && keys[i] !in taskMap
    decreases |keys|
  {
    if keys == [] then Failure(EmptyDiagram)
    else if keys[0] !in taskMap then Failure(MissingTask(keys[0]))
    else
      var top := TopEdge(taskMap[keys[0]], pos[keys[0]]);
      if |keys| == 1 then Success(top)
      else
        var rest := MaxTop(taskMap, pos, keys[1..]);
        if rest.Failure? then
          assert forall i :: 0 <= i < |keys[1..]| ==> keys[1..][i] == keys[i + 1];
          Failure(rest.error)
        else
          assert forall i :: 0 < i < |keys| ==> keys[i] == keys[1..][i - 1];
          Success(if top >= rest.value then top else rest.value)
  }

  /**
   * `outputs.index(name)` then `y - h / 2 + outputs_pos[idx] * h`: the height
   * of a port on a box of height `h` centred at `y`.
   */
  function PortY(names: seq<string>, fractions: seq<real>, name: string, y: real, h: real): (r: Result<real, RouteError>)
    ensures r.Failure? <==> name !in names || PortIndex(names, name).value >= |fractions|
    ensures r.Success? ==> r.value == y - h / 2.0 + fractions[PortIndex(names, name).value] * h
  {
    match PortIndex(names, name)
    case None => Failure(MissingPort(name))
    case Some(i) => if i < |fractions| then Success(y - h / 2.0 + fractions[i] * h) else Failure(MissingPortPosition(name))
  }

  lemma ProductNonNegative(a: real, b: real)
    requires a >= 0.0 && b >= 0.0
    ensures a * b >= 0.0
  {
  }

  /** A port whose fraction lies in `[0, 1]` lies on the box's side. */
  lemma PortOnSide(names: seq<string>, fractions: seq<real>, name: string, y: real, h: real)
    requires h >= 0.0
    requires PortY(names, fractions, name, y, h).Success?
    requires 0.0 <= fractions[PortIndex(names, name).value] <= 1.0
    ensures y - h / 2.0 <= PortY(names, fractions, name, y, h).value <= y + h / 2.0
  {
    var f := fractions[PortIndex(names, name).value];
    ProductNonNegative(f, h);
    ProductNonNegative(1.0 - f, h);
    assert f * h + (1.0 - f) * h == h;
  }

  /** The curve of one link, given the diagram's highest top edge `maxTop`. */
  function LinkRoute(taskMap: map<TaskId, Task>, pos: map<TaskId, Point>, maxTop: real, link: Link): (r: Result<Curve, RouteError>)
  {
    if link.source !in taskMap then Failure(MissingTask(link.source))
    else if link.target !in taskMap then Failure(MissingTask(link.target))
    else if link.source !in pos then Failure(MissingPosition(link.source))
    else if link.target !in pos then Failure(MissingPosition(link.target))
    else
      var source, target := taskMap[link.source], taskMap[link.target];
      var s, t := pos[link.source], pos[link.target];
      var sourceSize, targetSize := RouteSize(source), RouteSize(target);
      if !(s.x > t.x) then
        match PortY(source.outputs, source.outputsPos, link.outputName, s.y, sourceSize.height)
        case Failure(e) => Failure(e)
        case Success(startY) =>
          match PortY(target.inputs, target.inputsPos, link.inputName, t.y, targetSize.height)
          case Failure(e) => Failure(e)
          case Success(endY) =>
            var start := Point(s.x + sourceSize.width / 2.0, startY);
            var end := Point(t.x - targetSize.width / 2.0, endY);
            var offset := Abs(start.x - end.x) * 0.4;
            Success(Curve(start, Point(start.x + offset, start.y), Point(end.x - offset, end.y), end, false))
      else
        var start := Point(s.x, s.y + sourceSize.height / 2.0);
        var end := Point(t.x, t.y + targetSize.height / 2.0);
        var arcY := maxTop + ArcClearance;
        Success(Curve(start, Point(start.x, arcY), Point(end.x, arcY), end, true))
  }

  /** Both ends of a link are known tasks with a position. */
  predicate Placed(taskMap: map<TaskId, Task>, pos: map<TaskId, Point>, link: Link) {
    link.source in taskMap && link.target in taskMap && link.source in pos && link.target in pos
  }

  /**
   * A link fails to route exactly when an end is unknown or unplaced, or when
   * it runs forward and a port is missing; back links never look at ports.
   */
  lemma RouteFails(taskMap: map<TaskId, Task>, pos: map<TaskId, Point>, maxTop: real, link: Link)
    ensures LinkRoute(taskMap, pos, maxTop, link).Failure? <==>
      !Placed(taskMap, pos, link) ||
      (pos[link.source].x <= pos[link.target].x &&
       (PortY(taskMap[link.source].outputs, taskMap[link.source].outputsPos, link.outputName, 0.0, 0.0).Failure? ||
        PortY(taskMap[link.target].inputs, taskMap[link.target].inputsPos, link.inputName, 0.0, 0.0).Failure?))
  {
  }

  /** A link is a back link exactly when its source lies strictly right of its target. */
  lemma BackIffLeftward(taskMap: map<TaskId, Task>, pos: map<TaskId, Point>, maxTop: real, link: Link)
    requires LinkRoute(taskMap, pos, maxTop, link).Success?
    ensures Placed(taskMap, pos, link)
    ensures LinkRoute(taskMap, pos, maxTop, link).value.back <==> pos[link.source].x > pos[link.target].x
  {
  }

  /**
   * A forward curve leaves and enters horizontally, each control point the
   * same distance, 0.4 of the horizontal span, from its end; when the target
   * port lies to the right, the control points stay in order between the ends.
   */
  lemma ForwardTangents(taskMap: map<TaskId, Task>, pos: map<TaskId, Point>, maxTop: real, link: Link)
    requires LinkRoute(taskMap, pos, maxTop, link).Success?
    requires !LinkRoute(taskMap, pos, maxTop, link).value.back
    ensures var c := LinkRoute(taskMap, pos, maxTop, link).value;
      && c.control1.y == c.start.y && c.control2.y == c.end.y
      && c.control1.x - c.start.x == c.end.x - c.control2.x == 0.4 * Abs(c.end.x - c.start.x)
      && (c.start.x <= c.end.x ==> c.start.x <= c.control1.x <= c.control2.x <= c.end.x)
    ensures var c := LinkRoute(taskMap, pos, maxTop, link).value;
      && c.start.x == pos[link.source].x + RouteSize(taskMap[link.source]).width / 2.0
      && c.end.x == pos[link.target].x - RouteSize(taskMap[link.target]).width / 2.0
  {
  }

  /**
   * Given the true maximum, a back arc starts and ends at the top middle of
   * its boxes and its control points lie `ArcClearance` above every placed
   * box's top edge.
   */
  lemma BackArcClearsBoxes(taskMap: map<TaskId, Task>, pos: map<TaskId, Point>, keys: seq<TaskId>, link: Link)
    requires forall k :: k in keys <==> k in pos
    requires MaxTop(taskMap, pos, keys).Success?
    requires LinkRoute(taskMap, pos, MaxTop(taskMap, pos, keys).value, link).Success?
    requires LinkRoute(taskMap, pos, MaxTop(taskMap, pos, keys).value, link).value.back
    ensures var c := LinkRoute(taskMap, pos, MaxTop(taskMap, pos, keys).value, link).value;
      && c.start == Point(pos[link.source].x, pos[link.source].y + RouteSize(taskMap[link.source]).height / 2.0)
      && c.end == Point(pos[link.target].x, pos[link.target].y + RouteSize(taskMap[link.target]).height / 2.0)
      && c.control1.x == c.start.x && c.control2.x == c.end.x
      && c.control1.y == c.control2.y
      && forall id :: id in pos ==> id in taskMap && TopEdge(taskMap[id], pos[id]) + ArcClearance <= c.control1.y
  {
    var m := MaxTop(taskMap, pos, keys).value;
    forall id | id in pos ensures id in taskMap && TopEdge(taskMap[id], pos[id]) + ArcClearance <= m + ArcClearance {
      var i :| 0 <= i < |keys| && keys[i] == id;
    }
  }

  /** The curves of `links` in order, or the error of the first link that fails. */
  function Routes(taskMap: map<TaskId, Task>, pos: map<TaskId, Point>, maxTop: real, links: seq<Link>): (r: Result<seq<Curve>, RouteError>)
    ensures r.Success? ==> |r.value| == |links|
    decreases |links|
  {
    if links == [] then Success([])
    else
      var prev := Routes(taskMap, pos, maxTop, links[..|links| - 1]);
      if prev.Failure? then Failure(prev.error)
      else
        var last := LinkRoute(taskMap, pos, maxTop, links[|links| - 1]);
        if last.Failure? then Failure(last.error) else Success(prev.value + [last.value])
  }

  /**
   * Routing succeeds exactly when every link routes, and then the curves are
   * the links' own curves, one per link in link order.
   */
  lemma {:induction false} RoutesEach(taskMap: map<TaskId, Task>, pos: map<TaskId, Point>, maxTop: real, links: seq<Link>)
    ensures Routes(taskMap, pos, maxTop, links).Success? <==>
      forall i :: 0 <= i < |links| ==> LinkRoute(taskMap, pos, maxTop, links[i]).Success?
    ensures Routes(taskMap, pos, maxTop, links).Success? ==>
      forall i :: 0 <= i < |links| ==> Success(Routes(taskMap, pos, maxTop, links).value[i]) == LinkRoute(taskMap, pos, maxTop, links[i])
    decreases |links|
  {
    if links != [] {
      var init := links[..|links| - 1];
      RoutesEach(taskMap, pos, maxTop, init);
      assert forall i :: 0 <= i < |init| ==> links[i] == init[i];
    }
  }

  /** A failed routing reports the error of the first link that fails. */
  lemma {:induction false} RoutesFirstFailure(taskMap: map<TaskId, Task>, pos: map<TaskId, Point>, maxTop: real, links: seq<Link>)
    requires Routes(taskMap, pos, maxTop, links).Failure?
    ensures exists i ::
      && 0 <= i < |links|
      && LinkRoute(taskMap, pos, maxTop, links[i]) == Failure(Routes(taskMap, pos, maxTop, links).error)
      && forall j :: 0 <= j < i ==> LinkRoute(taskMap, pos, maxTop, links[j]).Success?
    decreases |links|
  {
    var init := links[..|links| - 1];
    var n := |links| - 1;
    if Routes(taskMap, pos, maxTop, init).Failure? {
      RoutesFirstFailure(taskMap, pos, maxTop, init);
      var i :| 0 <= i < |init| &&
        LinkRoute(taskMap, pos, maxTop, init[i]) == Failure(Routes(taskMap, pos, maxTop, init).error) &&
        forall j :: 0 <= j < i ==> LinkRoute(taskMap, pos, maxTop, init[j]).Success?;
      assert links[i] == init[i] && forall j :: 0 <= j < i ==> links[j] == init[j];
    } else {
      RoutesEach(taskMap, pos, maxTop, init);
      assert forall j :: 0 <= j < n ==> links[j] == init[j];
      assert LinkRoute(taskMap, pos, maxTop, links[n]) == Failure(Routes(taskMap, pos, maxTop, links).error);
    }
  }

  /** Routing one more link extends the curves of the links before it. */
  lemma RoutesStep(taskMap: map<TaskId, Task>, pos: map<TaskId, Point>, maxTop: real, links: seq<Link>, i: nat)
    requires i < |links|
    ensures Routes(taskMap, pos, maxTop, links[..i + 1]) ==
      (match Routes(taskMap, pos, maxTop, links[..i])
       case Failure(e) => Failure(e)
       case Success(curves) =>
         (match LinkRoute(taskMap, pos, maxTop, links[i])
          case Failure(e) => Failure(e)
          case Success(c) => Success(curves + [c])))
  {
    assert links[..i + 1][..i] == links[..i];
  }

  /**
   * The loop over `links` in `render_final_workflow`, after `max_y`: one curve
   * per link, in link order, cut links included; the first exception ends the
   * drawing.
   */
  method RouteLinks(tasks: seq<Task>, links: seq<Link>, pos: map<TaskId, Point>, keys: seq<TaskId>)
    returns (r: Result<seq<Curve>, RouteError>)
    requires forall k :: k in keys <==> k in pos
    ensures MaxTop(TaskMap(tasks), pos, keys).Failure? ==> r == Failure(MaxTop(TaskMap(tasks), pos, keys).error)
    ensures MaxTop(TaskMap(tasks), pos, keys).Success? ==>
      r == Routes(TaskMap(tasks), pos, MaxTop(TaskMap(tasks), pos, keys).value, links)
  {
    var taskMap := TaskMap(tasks);
    var top := MaxTop(taskMap, pos, keys);
    if top.Failure? {
      return Failure(top.error);
    }
    var maxTop := top.value;
    var curves: seq<Curve> := [];
    for i := 0 to |links|
      invariant Routes(taskMap, pos, maxTop, links[..i]) == Success(curves)
    {
      var route := LinkRoute(taskMap, pos, maxTop, links[i]);
      RoutesStep(taskMap, pos, maxTop, links, i);
      if route.Failure? {
        assert links[..i + 1] == links[..|links|][..i + 1];
        PrefixFailure(taskMap, pos, maxTop, links, i + 1);
        return Failure(route.error);
      }
      curves := curves + [route.value];
    }
    assert links[..|links|] == links;
    return Success(curves);
  }

  /** Once a prefix fails, the whole list fails with the same error. */
  lemma {:induction false} PrefixFailure(taskMap: map<TaskId, Task>, pos: map<TaskId, Point>, maxTop: real, links: seq<Link>, n: nat)
    requires n <= |links| && Routes(taskMap, pos, maxTop, links[..n]).Failure?
    ensures Routes(taskMap, pos, maxTop, links) == Routes(taskMap, pos, maxTop, links[..n])
    decreases |links| - n
  {
    if n == |links| {
      assert links[..n] == links;
    } else {
      RoutesStep(taskMap, pos, maxTop, links, n);
      PrefixFailure(taskMap, pos, maxTop, links, n + 1);
    }
  }
}
