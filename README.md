# ewoksdraw core in Dafny

ewoksdraw draws ewoks workflows. A workflow has tasks, each with an id, optional box size,
named inputs and outputs, and the fractional heights of its ports. It also has links from
an output of one task to an input of another.

This project models two parts of ewoksdraw and proves properties about them.

**Layout and link routing**, from `dev_links.py`:
- **Cycle breaking.** A depth-first search cuts every link that closes a cycle. A cut
  removes the link and every other link between the same two tasks, in either direction.
- **Layering.** Kahn's algorithm groups tasks into generations, and each generation is
  sorted by id.
- **Final layout.** Each layer becomes a column, and each column's boxes are stacked
  vertically around y = 0.
- **Routing geometry.** Forward links are drawn as S-curves between ports. Back links are
  drawn as arcs over the whole diagram.

**SVG building blocks**, from `svg/`:
- an SVG element with its attributes, style and text;
- a group that composes `translate` transforms;
- a text element that shrinks its font and truncates its text with an ellipsis until it
  fits a width;
- a task input/output label with its anchor circle, and a column of such labels that
  shrinks to fit a width;
- the lookup of a task geometry parameter by an "element/property" path.

Modules, one per file:

| module | file | models |
|---|---|---|
| `Wrappers` | Wrappers.dfy | `Option` and `Result`. A Python exception is a `Failure` |
| `Strings` | Strings.dfy | `rstrip`, `lstrip`, `s[:-1]`, `split` on one character, code-point order, `sorted` |
| `Graph` | Graph.dfy | Tasks, links, cycles, and the sorted-pair key of a link |
| `CycleBreaker` | CycleBreaker.dfy | `_find_and_break_cycles` |
| `Layering` | Layering.dfy | `_calculate_layers` |
| `Layout` | Layout.dfy | `calculate_final_layout` |
| `Routing` | Routing.dfy | The curve computation of `render_final_workflow` |
| `Iteration` | Iteration.dfy | Loops that step until a condition holds, and when they end |
| `Elements` | SvgElement.dfy | `SvgElement` |
| `Groups` | SvgGroup.dfy | `SvgGroup`, and the XML element it owns |
| `Texts` | SvgText.dfy | `SvgText` |
| `TaskIO` | SvgTaskIO.dfy | `SvgTaskIO` and `SvgTaskIOGroup` |
| `TaskConfig` | TaskConfig.dfy | `get_task_config_param` |

Things the source obtains from its environment are parameters of the model:
- **Text metrics.** reportlab's `stringWidth` and the regular expression that finds a
  font family in CSS are the two functions of a `Metrics` value.
- **CSS files.** The files under `css_styles/` are a map from a CSS class to the file's
  content.
- **Configuration.** The parsed configuration JSON is a map of maps.
- **Set iteration order.** The order in which Python iterates the set of task ids seeds
  the depth-first searches. The model takes it as the parameter `order`, which may be any
  enumeration of the ids.
- **Dict iteration order.** The iteration order of `pos` in `max_y` is the parameter
  `keys`.

Other modelling choices:
- Python floats are Dafny `real`s.
- An attribute value is one of three kinds:
  - `Number(n)` is `str(n)`;
  - `Pixels(n)` is `f"{n}px"`;
  - `Text(s)` is any other string.

  Reading a font size therefore gives back the number that was written, and fails for
  `Text`. This is the failure of `float(...)`.

The model follows the code in these points:
- **First search start.** The depth-first searches start from the task ids in set
  iteration order, not sorted by id.
- **Single layer.** A single layer sits at x = `padding`, not at x = 0.
- **Sort order.** Layers are sorted by Python's string order, which compares code
  points.
- **Repeated `add_elements`.** `populate_group` appends every member again on each
  `add_elements`, so the XML holds the earlier members twice. This is modelled as
  written.

## Model

| member | source | states |
|---|---|---|
| Strings.RStrip | src/ewoksdraw/svg/svg_text.py:79 | The result is a prefix of the input. Every dropped character is in the set, and the last kept character is not |
| Strings.LStrip | src/ewoksdraw/utils/utils_tasks.py:17 | The result is a suffix of the input. Every dropped character is in the set, and the first kept character is not |
| Strings.RStripSpace | src/ewoksdraw/svg/svg_text.py:129 | `rstrip()` with no argument keeps a prefix of the text |
| Strings.DropLast | src/ewoksdraw/svg/svg_text.py:129 | `[:-1]` keeps all but the last character, and keeps nothing of "" |
| Strings.RStripIdempotent | src/ewoksdraw/svg/svg_text.py:129 | Stripping twice strips nothing more |
| Strings.RStripAppended | src/ewoksdraw/svg/svg_text.py:129 | Characters of the stripped set appended to a string vanish again |
| Strings.LStripConcat | src/ewoksdraw/utils/utils_tasks.py:17 | Left-stripping `a + b` reaches into `b` only when all of `a` is stripped |
| Strings.RStripConcat | src/ewoksdraw/utils/utils_tasks.py:17 | Right-stripping `a + b` reaches into `a` only when all of `b` is stripped |
| Strings.Split | src/ewoksdraw/utils/utils_tasks.py:18 | `split` always yields at least one piece |
| Strings.SplitJoin | src/ewoksdraw/utils/utils_tasks.py:18 | Joining the pieces with the separator gives the string back |
| Strings.JoinSplit | src/ewoksdraw/utils/utils_tasks.py:18 | Splitting the join of separator-free pieces gives the pieces back |
| Strings.SplitPiecesClean | src/ewoksdraw/utils/utils_tasks.py:18 | No piece holds the separator |
| Strings.SplitOnePiece | src/ewoksdraw/utils/utils_tasks.py:18 | The split is a single piece exactly when the separator does not occur |
| Strings.SplitPrefix | src/ewoksdraw/utils/utils_tasks.py:18 | A separator-free first piece is split off whole |
| Strings.LexIrreflexive | src/ewoksdraw/dev_links.py:59 | String order is irreflexive |
| Strings.LexAsymmetric | src/ewoksdraw/dev_links.py:59 | String order is asymmetric |
| Strings.LexTransitive | src/ewoksdraw/dev_links.py:59 | String order is transitive |
| Strings.LexTotal | src/ewoksdraw/dev_links.py:59 | Any two different strings are ordered one way or the other |
| Strings.Insert | src/ewoksdraw/dev_links.py:59 | Inserting into a sorted list gives a sorted permutation of the list plus the element |
| Strings.Sort | src/ewoksdraw/dev_links.py:59 | `sorted` returns a sorted permutation of its input |
| Strings.SortedDistinctIsStrict | src/ewoksdraw/dev_links.py:59 | A sorted list without repeats is strictly increasing |
| Strings.StrictlySortedUnique | src/ewoksdraw/dev_links.py:59 | Two strictly increasing lists with the same members are equal, so `sorted` of a set's members is determined |
| Graph.TaskMap | src/ewoksdraw/dev_links.py:76 | `task_map` has exactly the task ids as keys, and maps each id to a task of the list with that id |
| Graph.TaskMapLastWins | src/ewoksdraw/dev_links.py:76 | Among records with the same id, `task_map` keeps the last one |
| Graph.KnownLinks | src/ewoksdraw/dev_links.py:50-54 | Keeps exactly the links whose two ends are known tasks |
| Graph.RankedNoCycle | src/ewoksdraw/dev_links.py:10-41 | A ranking that every link from a ranked task strictly lowers rules out cycles through ranked tasks |
| Graph.KnownAcyclic | src/ewoksdraw/dev_links.py:79-82 | No cycle through known tasks means the links among known tasks are acyclic |
| Graph.Successors | src/ewoksdraw/dev_links.py:13-15 | There are at most as many successors as links |
| Graph.SuccessorsAreTargets | src/ewoksdraw/dev_links.py:13-15 | `v` is a successor of `u` exactly when some link runs from `u` to `v` |
| Graph.SortedPair | src/ewoksdraw/dev_links.py:27 | `tuple(sorted((a, b)))` holds the same two ids, in order |
| Graph.SortedPairSymmetric | src/ewoksdraw/dev_links.py:27 | The key of (a, b) is the key of (b, a) |
| Graph.SameEndpointsSameKey | src/ewoksdraw/dev_links.py:39 | Links between the same two tasks, in either direction, share a key |
| Graph.SameKeySameEndpoints | src/ewoksdraw/dev_links.py:39 | Links sharing a key join the same two tasks |
| Graph.KeepUncutSubsequence | src/ewoksdraw/dev_links.py:36-41 | The filtered links are a subsequence of the links, in order |
| Graph.KeepUncutMembers | src/ewoksdraw/dev_links.py:36-41 | A link is kept exactly when its key was not cut |
| Graph.KeepUncutNothingCut | src/ewoksdraw/dev_links.py:36-41 | With nothing cut, every link is kept |
| CycleBreaker.BuildGraph | src/ewoksdraw/dev_links.py:13-15 | The adjacency lists hold every link's target, in link order, under its source |
| CycleBreaker.StackCycle | src/ewoksdraw/dev_links.py:25-27 | An edge back into the current path closes a cycle of the graph |
| CycleBreaker.GraphCycleIsLinkCycle | src/ewoksdraw/dev_links.py:13-15 | A cycle of the adjacency lists is a cycle of the links |
| CycleBreaker.DepthFirstSearch.constructor | src/ewoksdraw/dev_links.py:17-20 | Starts with nothing visited, on the path or cut |
| CycleBreaker.DepthFirstSearch.Dfs | src/ewoksdraw/dev_links.py:22-30 | `dfs(node)` visits and finishes `node`, restores the path, and only grows the visited set, the cuts and the finish times |
| CycleBreaker.DepthFirstSearch.Enter | src/ewoksdraw/dev_links.py:23-24 | The node joins the visited set and the path; it was on neither |
| CycleBreaker.DepthFirstSearch.VisitAll | src/ewoksdraw/dev_links.py:25-29 | Afterwards, every neighbour is either finished or its edge is cut |
| Graph.ReachableContains | src/ewoksdraw/dev_links.py:32-34 | Every task a search starts from is reachable from the tasks |
| CycleBreaker.DepthFirstSearch.Visit | src/ewoksdraw/dev_links.py:26-29 | Afterwards, the edge is cut or the neighbour is finished |
| CycleBreaker.DepthFirstSearch.Cut | src/ewoksdraw/dev_links.py:26-27 | Adds exactly the sorted key of the edge to the cuts. That edge closes the path into a cycle, so every cut key stays the key of a step of a cycle |
| CycleBreaker.CutMeansCycle | src/ewoksdraw/dev_links.py:26-27 | If anything was cut, the graph has a cycle |
| CycleBreaker.DepthFirstSearch.Leave | src/ewoksdraw/dev_links.py:30 | The node leaves the path and is finished |
| CycleBreaker.SelfLoopCycle | src/ewoksdraw/dev_links.py:26-27 | A link from a task to itself is a cycle |
| CycleBreaker.CutsBreakCycles | src/ewoksdraw/dev_links.py:32-41 | Once all searches have ended, the kept links have the properties listed for FindAndBreakCycles |
| CycleBreaker.CutLinkOnCycle | src/ewoksdraw/dev_links.py:26-41 | A link whose sorted key was cut joins the two ends of a step of some cycle of the links |
| CycleBreaker.CutsOnlyCycles | src/ewoksdraw/dev_links.py:37-41 | When every cut key is a step of a cycle, each dropped link shares its two ends with a link that is a step of a cycle of the input |
| CycleBreaker.CycleLeaves | src/ewoksdraw/dev_links.py:22-29 | Some link leaves every task on a cycle |
| CycleBreaker.DeadEndKept | src/ewoksdraw/dev_links.py:10-41 | A link into a task that no link leaves is never dropped when only cycle-causing links are: with links a→b, b→a, c→d, the link c→d is kept |
| CycleBreaker.WalkStaysVisited | src/ewoksdraw/dev_links.py:25-29 | A walk along the links that starts in a set of tasks closed under the adjacency lists ends in that set |
| CycleBreaker.ReachableVisited | src/ewoksdraw/dev_links.py:22-35 | A set closed under the adjacency lists that holds the known tasks holds every task they reach, so the searches visit every reachable task |
| CycleBreaker.ReachedCycleBroken | src/ewoksdraw/dev_links.py:10-41 | A cycle that a known task reaches loses a link even when none of its tasks is known: with task k and links k→u1, u1→u2, u2→u1, some link is dropped |
| CycleBreaker.FindAndBreakCycles | src/ewoksdraw/dev_links.py:10-41 | Keeps a subsequence of the links, dropping links with the same two ends together. Acyclic links are kept unchanged. No kept cycle runs through a task reachable from a known task (`Graph.Reachable`), known tasks included, and no self-loop on such a task is kept. Only cycle-causing links are dropped: each dropped link shares its two ends with a link that is a step of a cycle of the input (`Graph.OnLinkCycle`) |
| Layering.DistinctMultiplicity | src/ewoksdraw/dev_links.py:59 | No repeats exactly when every multiplicity is at most one |
| Layering.PendingZero | src/ewoksdraw/dev_links.py:63-64 | No pending in-degree is left exactly when every link into the task comes from a placed task |
| Layering.PendingRelease | src/ewoksdraw/dev_links.py:61-63 | Releasing a task removes one pending link per occurrence among its successors |
| Layering.BuildKnownGraph | src/ewoksdraw/dev_links.py:47-54 | The adjacency lists and in-degrees are exactly those of the links among known tasks |
| Layering.ZeroInDegree | src/ewoksdraw/dev_links.py:56 | The queue holds exactly the known tasks with in-degree zero, once each |
| Layering.Release | src/ewoksdraw/dev_links.py:62-65 | In-degrees now count the node as done. The queue stays the frontier of tasks whose in-degree reached zero |
| Layering.ReleaseLayer | src/ewoksdraw/dev_links.py:61-65 | After a whole layer, in-degrees count the layer as done and the queue is the new frontier |
| Layering.LayerOf | src/ewoksdraw/dev_links.py:58-66 | The first layer holding a task, or None exactly when no layer holds it |
| Layering.LayerOfAppend | src/ewoksdraw/dev_links.py:66 | Appending a layer keeps every earlier placement and places only the new tasks at its index |
| Layering.SortedFrontier | src/ewoksdraw/dev_links.py:59 | `sorted(list(queue))` holds the same tasks, strictly increasing, once each |
| Layering.AddLayer | src/ewoksdraw/dev_links.py:58-66 | One generation keeps the loop invariant and places at least one more task |
| Layering.CalculateLayers | src/ewoksdraw/dev_links.py:44-67 | The result is Kahn's generations (`KahnLayers`). Layers are non-empty and sorted, and each known task is placed at most once. Every link among known tasks goes to a later layer. The first layer is exactly the tasks without incoming known links. Every task of a later layer has a link from the layer just before it. A task whose incoming links all come from placed tasks is placed. Every task is placed exactly when the known links are acyclic |
| Layering.LayersDone | src/ewoksdraw/dev_links.py:58 | When the queue is empty, the layers are Kahn's generations and every task is placed exactly when the known links are acyclic |
| Layering.KahnLayersUnique | src/ewoksdraw/dev_links.py:56-66 | Two layerings that both satisfy `KahnLayers` for the same links are equal. So the postcondition of CalculateLayers fixes its result |
| Layering.SameLevelAt | src/ewoksdraw/dev_links.py:56-66 | Two such layerings put every task the first one places on the same layer |
| Layering.FedSource | src/ewoksdraw/dev_links.py:61-64 | A task on a later layer has a link from a task of the layer just before it |
| Layering.DoneClosed | src/ewoksdraw/dev_links.py:58-64 | Once the queue is empty, a task whose incoming links all come from placed tasks is placed |
| Layering.NewQueueFed | src/ewoksdraw/dev_links.py:61-64 | A task that joins the queue while a layer is released has a link from that layer |
| Layering.FirstLayer | src/ewoksdraw/dev_links.py:56 | The first layer holds exactly the known tasks with no known link into them |
| Layering.AllPlacedAcyclic | src/ewoksdraw/dev_links.py:58-66 | If every task is placed, the levels rank the links, so the links are acyclic |
| Layering.StuckMeansCycle | src/ewoksdraw/dev_links.py:58-66 | If the queue empties with tasks still unplaced, the links among known tasks have a cycle |
| Layering.BackWalk | src/ewoksdraw/dev_links.py:58-66 | Unplaced tasks each waiting on another unplaced task give an arbitrarily long backward walk |
| Layering.Pigeonhole | src/ewoksdraw/dev_links.py:58-66 | A walk longer than the task set repeats a task |
| Layout.Heights | src/ewoksdraw/dev_links.py:93 | One box height per task of the layer; a task without `size_box` counts 100 |
| Layout.BoxTopSum | src/ewoksdraw/dev_links.py:92-101 | `current_y` before box `j` is `-H/2` plus the heights of the boxes before it and one gap of 50 after each |
| Layout.StackedSpan | src/ewoksdraw/dev_links.py:93-96 | A column spans `[-H/2, H/2]`, from the first box's start to the last box's end |
| Layout.ColumnWidth | src/ewoksdraw/dev_links.py:86-89 | More than one layer: the columns run from `padding` to `width - padding`. At most one layer: the column width is 0 |
| Layout.ColumnsIncrease | src/ewoksdraw/dev_links.py:87-100 | With room between the paddings, column x strictly increases with the layer index |
| Layout.PlaceNext | src/ewoksdraw/dev_links.py:99-101 | Placing the next box at `current_y + height / 2` extends the placed stack by one, and the next box starts 50 above where this one ends |
| Layout.PlaceColumn | src/ewoksdraw/dev_links.py:96-101 | The layer's tasks get column x and their stacked centres. Other positions stay |
| Layout.PlaceLayers | src/ewoksdraw/dev_links.py:91-101 | Exactly the layered tasks get a position: the x of their layer and the y of their stacked centre |
| Layout.LayeredPlacedOnce | src/ewoksdraw/dev_links.py:82 | A layering as `_calculate_layers` returns it places each task at most once |
| Layout.CalculateFinalLayout | src/ewoksdraw/dev_links.py:70-103 | `width` defaults to 800 and `padding` to 50. The kept links are a subsequence of the input. Links with the same two ends are kept or dropped together, and acyclic input is unchanged. No kept cycle passes through a task or through any id a task reaches. Each dropped link shares its two ends with a step of a cycle of the input. The layers are Kahn's generations of the kept links among tasks. Every task gets a position, taken from its layer's column and its stacked centre. With room between the paddings, every kept link among tasks runs strictly left to right |
| Layout.PlaceFinal | src/ewoksdraw/dev_links.py:83-101 | Given a Kahn layering that places every task, every task gets the x of its layer's column and its stacked centre. With room between the paddings, every kept link among tasks runs strictly left to right |
| Layout.ColumnOrder | src/ewoksdraw/dev_links.py:79-100 | A kept link among known tasks goes from an earlier column to a strictly later one |
| Routing.Abs | src/ewoksdraw/dev_links.py:164 | `abs` is non-negative and equals x or -x |
| Routing.PortIndex | src/ewoksdraw/dev_links.py:156 | `list.index` finds the first position of the name, and fails exactly when the name is absent |
| Routing.MaxTop | src/ewoksdraw/dev_links.py:136-138 | `max_y` is attained by some box and bounds every box's top edge. It fails exactly when `pos` is empty or holds an unknown task |
| Routing.PortY | src/ewoksdraw/dev_links.py:156-161 | A port's height is `y - h/2 + fraction·h`. It fails exactly when the name or its fraction is missing |
| Routing.PortOnSide | src/ewoksdraw/dev_links.py:157 | A port with fraction in [0, 1] lies on the box's side |
| Routing.RouteFails | src/ewoksdraw/dev_links.py:142-166 | A link fails exactly when an end is unknown or unplaced, or when it runs forward and a port is missing |
| Routing.BackIffLeftward | src/ewoksdraw/dev_links.py:152 | A link is a back link exactly when its source lies strictly right of its target |
| Routing.ForwardTangents | src/ewoksdraw/dev_links.py:154-166 | A forward curve runs from the source's right edge to the target's left edge. It leaves and enters horizontally, with both control points 0.4 of the span from their ends |
| Routing.BackArcClearsBoxes | src/ewoksdraw/dev_links.py:168-177 | A back arc joins the boxes' top middles, and its control points lie 80 above every box's top edge |
| Routing.Routes | src/ewoksdraw/dev_links.py:141-177 | One curve per link on success |
| Routing.RoutesEach | src/ewoksdraw/dev_links.py:141-177 | Routing succeeds exactly when every link routes. The curves are then the links' own, in order |
| Routing.RoutesFirstFailure | src/ewoksdraw/dev_links.py:141-177 | A failure carries the error of the first link that fails |
| Routing.RoutesStep | src/ewoksdraw/dev_links.py:141 | Routing one more link extends the earlier curves |
| Routing.RouteLinks | src/ewoksdraw/dev_links.py:135-177 | The loop yields the curves of all links, cut ones included, or the first error. This starts with the error of `max_y` |
| Routing.PrefixFailure | src/ewoksdraw/dev_links.py:141-177 | If a prefix of the links fails, the whole list fails with the same error |
| Iteration.MeasureUsedUp | src/ewoksdraw/svg/svg_task_io.py:213-215 | Until a fixpoint is reached, each step uses up one unit of the measure |
| Iteration.FixpointStays | src/ewoksdraw/svg/svg_task_io.py:213-215 | A fixpoint, once reached, is never left |
| Iteration.Settles | src/ewoksdraw/svg/svg_task_io.py:213-215 | After as many steps as the measure allows, nothing changes any more |
| Iteration.ReachedWithinMeasure | src/ewoksdraw/svg/svg_task_io.py:213-215 | Some step count reaches the goal exactly when one within the measure does |
| Iteration.RepeatWhile | src/ewoksdraw/svg/svg_task_io.py:209-211 | Stepping while a condition holds ends where the condition fails. It changes nothing if the condition fails at once |
| Elements.StyleText | src/ewoksdraw/svg/svg_element.py:118 | The style text is the CSS content between `<![CDATA[\n` and `\n]]>` |
| Elements.LoadStyle | src/ewoksdraw/svg/svg_element.py:106-119 | A style is loaded exactly when the CSS class is non-empty and its file exists; it wraps that file's content |
| Elements.SvgElement.constructor | src/ewoksdraw/svg/svg_element.py:17-35 | Keeps the tag, class and text. Attributes default to empty, and the style is loaded from the class |
| Elements.NewElement | src/ewoksdraw/svg/svg_element.py:25-29 | An invalid tag fails with that tag; a valid one yields a new element |
| Elements.SvgElement.SetAttr | src/ewoksdraw/svg/svg_element.py:57-63 | The key now reads the value. Every other key and the text are unchanged |
| Elements.SvgElement.GetAttr | src/ewoksdraw/svg/svg_element.py:65-75 | None exactly when the key is absent, else the stored value |
| Elements.SvgElement.SetPosition | src/ewoksdraw/svg/svg_element.py:37-55 | Sets `cx`/`cy` for a circle and `x`/`y` otherwise, only for given coordinates. Nothing else changes |
| Elements.SvgElement.SetText | src/ewoksdraw/svg/svg_element.py:89-91 | The text becomes the value; the attributes stay |
| Groups.XmlElement.constructor | src/ewoksdraw/svg/svg_group.py:20 | A new `<g>` element has no attributes and no children |
| Groups.XmlElement.Append | src/ewoksdraw/svg/svg_group.py:27 | One more child at the end |
| Groups.XmlElement.Set | src/ewoksdraw/svg/svg_group.py:56 | The key now holds the value; the children stay |
| Groups.XmlElement.Get | src/ewoksdraw/svg/svg_group.py:51 | The stored value, or the default when the key is absent |
| Groups.DigitValue | src/ewoksdraw/svg/svg_group.py:50 | Reading a digit inverts writing it |
| Groups.NatToString | src/ewoksdraw/svg/svg_group.py:50 | `str(n)` is digits only, without leading zeros |
| Groups.IntToString | src/ewoksdraw/svg/svg_group.py:50 | `str(i)` starts with '-' exactly for negatives, and has no space or comma |
| Groups.NatRoundTrip | src/ewoksdraw/svg/svg_group.py:50 | Reading back `str(n)` gives n |
| Groups.IntRoundTrip | src/ewoksdraw/svg/svg_group.py:50 | Reading back `str(i)` gives i |
| Groups.TranslateText | src/ewoksdraw/svg/svg_group.py:50 | `translate(x,y)` starts with "translate(", ends with ')', and has no space |
| Groups.TranslateTexts | src/ewoksdraw/svg/svg_group.py:50 | One `translate` text per translation, in order |
| Groups.ComposeStep | src/ewoksdraw/svg/svg_group.py:48-56 | One more `translate` call extends the transform of the earlier ones |
| Groups.TranslateRoundTrip | src/ewoksdraw/svg/svg_group.py:50 | A `translate(x,y)` text reads back as (x, y) |
| Groups.ParseAllTexts | src/ewoksdraw/svg/svg_group.py:50-55 | A sequence of `translate` texts reads back as its translations |
| Groups.TransformRoundTrip | src/ewoksdraw/svg/svg_group.py:48-56 | The transform attribute records every translation, in order |
| Groups.SvgGroup.constructor | src/ewoksdraw/svg/svg_group.py:12-20 | No members, tag "group", a new empty `<g>` element, no transform |
| Groups.SvgGroup.PopulateGroup | src/ewoksdraw/svg/svg_group.py:22-27 | Appends every member to the XML, old members again included |
| Groups.SvgGroup.AddElements | src/ewoksdraw/svg/svg_group.py:29-37 | New members follow the old. The XML grows by the whole member list, and the transform stays |
| Groups.SvgGroup.Translate | src/ewoksdraw/svg/svg_group.py:48-56 | The transform is composed with the new translation, keeping the old transform as its prefix. The translation joins the recorded ones |
| Groups.SvgGroup.GetXmlElement | src/ewoksdraw/svg/svg_group.py:58-65 | Returns the group's own XML element, not a copy |
| Groups.SvgGroup.TransformReadsBack | src/ewoksdraw/svg/svg_group.py:48-56 | A valid group's transform reads back as its translations |
| Texts.FontSizeIn | src/ewoksdraw/svg/svg_text.py:71-82 | 0 without "font-size", the stored number otherwise, and a failure exactly when the value is not a number |
| Texts.FontNameIn | src/ewoksdraw/svg/svg_text.py:84-98 | Helvetica without a style. With a style, the family it names; failing exactly when it names none |
| Texts.WidthOf | src/ewoksdraw/svg/svg_text.py:52-57 | 0 without text, else the measured width. A bad font size fails before the font name is read |
| Texts.SetFontSize | src/ewoksdraw/svg/svg_text.py:43-44 | Writes "{s}px"; the font size and the height read s back. Nothing else changes |
| Texts.SetDominantBaseline | src/ewoksdraw/svg/svg_text.py:46-47 | Writes the baseline; nothing else changes |
| Texts.SetTextAnchor | src/ewoksdraw/svg/svg_text.py:49-50 | Writes the anchor; nothing else changes |
| Texts.NewText | src/ewoksdraw/svg/svg_text.py:17-26 | A new text element at (x, y), anchored at its start, with a 6px font |
| Texts.TruncateShape | src/ewoksdraw/svg/svg_text.py:124-129 | The result keeps a prefix of the text followed by one ellipsis. It is strictly shorter than the stripped text unless only the ellipsis is left |
| Texts.EllipsisFixpoint | src/ewoksdraw/svg/svg_text.py:129 | The ellipsis alone stays as it is |
| Texts.TruncateTextByOne | src/ewoksdraw/svg/svg_text.py:124-129 | The text is truncated once; the attributes stay |
| Texts.TruncateStep | src/ewoksdraw/svg/svg_text.py:124-129 | Truncation leaves a settled text alone, and otherwise uses up budget |
| Texts.TruncationShrinks | src/ewoksdraw/svg/svg_text.py:39-41 | Truncation changes a text only while using up budget |
| Texts.FitsWithinBudget | src/ewoksdraw/svg/svg_text.py:39-41 | The truncating loop ends exactly when it ends within the text's budget |
| Texts.EllipsisFitSuffices | src/ewoksdraw/svg/svg_text.py:39-41 | If the ellipsis alone fits, the loop always ends |
| Texts.ShrinkSteps | src/ewoksdraw/svg/svg_text.py:35-37 | The number of font decrements leaves the text fitting or the size below the minimum, never below minimum - 1 |
| Texts.ShrinkStep | src/ewoksdraw/svg/svg_text.py:35-37 | Each pass of the first loop is one of those decrements |
| Texts.LowerFont | src/ewoksdraw/svg/svg_text.py:33-37 | The font ends at the size the decrements reach. The text stays, and the returned width is the new width |
| Texts.TruncateUntilFits | src/ewoksdraw/svg/svg_text.py:39-41 | The text is truncated no more often than a known-fitting count, and then fits. No earlier truncation count fits, so the loop stops at the first one that does |
| Texts.ModifyTextToFitWidth | src/ewoksdraw/svg/svg_text.py:28-41 | Afterwards the text fits. The font is the lowered size. The text is the first truncation that fits at that size, within its budget |
| TaskIO.IOWidthIn | src/ewoksdraw/svg/svg_task_io.py:77-83 | An IO's width is its label's width plus 10, so at least 10. It fails exactly when the label's width does |
| TaskIO.NewLabel | src/ewoksdraw/svg/svg_task_io.py:41-51 | A 6px label at y = 0. "Output" labels are anchored at their end at x = -5; others at their start at x = 5 |
| TaskIO.SvgTaskIO.constructor | src/ewoksdraw/svg/svg_task_io.py:23-53 | The group holds the label and a radius-2 anchor circle at the origin, in that order. It has no transform, and the label is placed by IO type |
| TaskIO.SvgTaskIO.SetFontSize | src/ewoksdraw/svg/svg_task_io.py:55-61 | The label's font size becomes s and reads back; its text stays |
| TaskIO.SvgTaskIO.SetTranslation | src/ewoksdraw/svg/svg_task_io.py:147 | The IO's group gains the translation (0, y) |
| TaskIO.SvgTaskIO.TruncateTextByOne | src/ewoksdraw/svg/svg_task_io.py:63-68 | The label's text is truncated once; its attributes stay |
| TaskIO.StatesOf | src/ewoksdraw/svg/svg_task_io.py:135 | One label state per IO, in order |
| TaskIO.Widths | src/ewoksdraw/svg/svg_task_io.py:157-158 | Succeeds exactly when every IO has a width, and then lists those widths in order |
| TaskIO.FirstError | src/ewoksdraw/svg/svg_task_io.py:157-158 | The error is that of the first IO without a width |
| TaskIO.PrefixFailure | src/ewoksdraw/svg/svg_task_io.py:157-158 | If a prefix has no widths, neither does the whole column |
| TaskIO.IOWidthsAtLeastSpacing | src/ewoksdraw/svg/svg_task_io.py:83 | Every IO width is at least 10, so above the scan's starting value of -1 |
| TaskIO.FirstMax | src/ewoksdraw/svg/svg_task_io.py:188-192 | The picked index has maximal width, and every earlier index is strictly narrower |
| TaskIO.FirstMaxUnique | src/ewoksdraw/svg/svg_task_io.py:188-192 | Only one index is the first of maximal width |
| TaskIO.GroupWidthIsMax | src/ewoksdraw/svg/svg_task_io.py:149-161 | The column width is attained by an IO, and no IO is wider. It fails exactly when some IO has no width |
| TaskIO.WithFontSize | src/ewoksdraw/svg/svg_task_io.py:129-136 | Every label gets font size s; nothing else changes |
| TaskIO.FontSizeReadsBack | src/ewoksdraw/svg/svg_task_io.py:172-180 | After setting a non-empty column's font size, its font size reads back s |
| TaskIO.WithFontSizeTwice | src/ewoksdraw/svg/svg_task_io.py:129-136 | Setting the font size twice keeps only the second |
| TaskIO.MeasurableHasWidth | src/ewoksdraw/svg/svg_task_io.py:149-161 | A column of measurable labels has a width |
| TaskIO.LoweringEnds | src/ewoksdraw/svg/svg_task_io.py:209-211 | Each pass of the first loop uses up font budget, so that loop ends |
| TaskIO.LoweredStops | src/ewoksdraw/svg/svg_task_io.py:209 | After the first loop, its condition no longer holds |
| TaskIO.LoweredOutcome | src/ewoksdraw/svg/svg_task_io.py:209-211 | The first loop either changes nothing, or gives every label one size. That size is below the first label's old size and at least minimum - 1 |
| TaskIO.OnlyFirstWidestTruncated | src/ewoksdraw/svg/svg_task_io.py:182-194 | Only the first widest label changes, and only its text, by one truncation |
| TaskIO.WidestTruncated | src/ewoksdraw/svg/svg_task_io.py:187-194 | In a non-empty column with widths, the first widest label is truncated |
| TaskIO.TotalBudgetUpdate | src/ewoksdraw/svg/svg_task_io.py:194 | Replacing one label changes the total budget by that label's change |
| TaskIO.GroupTruncationShrinks | src/ewoksdraw/svg/svg_task_io.py:213-215 | A column truncation changes the column only while using up budget |
| TaskIO.GroupFitsWithinBudget | src/ewoksdraw/svg/svg_task_io.py:213-215 | The second loop ends exactly when it ends within the column's total budget |
| TaskIO.MeasurableWithFontSize | src/ewoksdraw/svg/svg_task_io.py:210 | Setting the font size keeps every label measurable |
| TaskIO.TruncationKeepsMeasurable | src/ewoksdraw/svg/svg_task_io.py:214 | Truncation keeps every label measurable |
| TaskIO.TranslateEach | src/ewoksdraw/svg/svg_task_io.py:145-147 | The i-th IO gains the translation (0, i·spacing) |
| TaskIO.NewIO | src/ewoksdraw/svg/svg_task_io.py:124 | A new IO with the label and type, no transform, and new parts |
| TaskIO.NewIOs | src/ewoksdraw/svg/svg_task_io.py:122-124 | One new IO per label, in order, and no two share a part |
| TaskIO.IOWidths | src/ewoksdraw/svg/svg_task_io.py:155-158 | The widths of the IOs in order, or the first error |
| TaskIO.ScanWidest | src/ewoksdraw/svg/svg_task_io.py:188-192 | The strict-`>` scan from -1 picks the first index of maximal width |
| TaskIO.TruncateLabel | src/ewoksdraw/svg/svg_task_io.py:194 | Only IO k's label is truncated |
| TaskIO.SetFontSizes | src/ewoksdraw/svg/svg_task_io.py:135-136 | Every label gets font size s |
| TaskIO.ColumnWidth | src/ewoksdraw/svg/svg_task_io.py:149-161 | The column width: the largest IO width, or 0 when empty |
| TaskIO.TruncateWidest | src/ewoksdraw/svg/svg_task_io.py:182-194 | Fails exactly when some IO has no width; otherwise only the first widest label is truncated |
| TaskIO.LowerOnce | src/ewoksdraw/svg/svg_task_io.py:210-211 | The font goes down by exactly one, and the returned width is the new column width |
| TaskIO.LowerColumnFont | src/ewoksdraw/svg/svg_task_io.py:207-211 | The labels end where the first loop leads, and the returned width is the column's width there |
| TaskIO.TruncateOnce | src/ewoksdraw/svg/svg_task_io.py:214-215 | One column truncation, returning the new width |
| TaskIO.TruncateColumnUntilFits | src/ewoksdraw/svg/svg_task_io.py:213-215 | The column is truncated no more often than a known-fitting count, and then fits. No earlier iterate fits, so the loop stops at the first one that does |
| TaskIO.FitColumn | src/ewoksdraw/svg/svg_task_io.py:206-215 | The font is lowered, then the column is truncated to the first iterate that fits, within the total budget |
| TaskIO.SvgTaskIOGroup.constructor | src/ewoksdraw/svg/svg_task_io.py:105-127 | One IO per label, in order, all of the given type. The XML children are the IOs, and the i-th IO is moved down by i·spacing. This is the corrected behaviour: it calls the corrected `SetVerticalSpacing` of the Findings row. The code as written fails earlier (see `TaskIO.SvgTaskIOGroup.constructor` under Left out) |
| TaskIO.SvgTaskIOGroup.SetVerticalSpacing | src/ewoksdraw/svg/svg_task_io.py:138-147 | Records the spacing and moves the i-th IO down by i·spacing. The IO list stays |
| TaskIO.SvgTaskIOGroup.SetVerticalSpacingAsWritten | src/ewoksdraw/svg/svg_task_io.py:138-147 | As written: records the spacing, then fails on the undefined `set_translation` exactly when there is an IO |
| TaskIO.SvgTaskIOGroup.RowWithinHeight | src/ewoksdraw/svg/svg_task_io.py:163-170 | The i-th IO's row, `i * spacing` down and one spacing high, lies within the column's height |
| TaskIO.SvgTaskIOGroup.SetFontSize | src/ewoksdraw/svg/svg_task_io.py:129-136 | Every label gets size s, and a non-empty column's font size reads it back |
| TaskIO.SvgTaskIOGroup.Width | src/ewoksdraw/svg/svg_task_io.py:149-161 | The largest IO width, or 0 for an empty column |
| TaskIO.SvgTaskIOGroup.TruncateTextByOne | src/ewoksdraw/svg/svg_task_io.py:182-194 | Fails exactly when some IO has no width; otherwise truncates only the first widest label |
| TaskIO.SvgTaskIOGroup.ModifySizeToFitWidth | src/ewoksdraw/svg/svg_task_io.py:196-215 | An empty column is untouched. A non-empty one is lowered, then truncated to the first iterate that fits, within its total budget |
| TaskConfig.KeyPath | src/ewoksdraw/utils/utils_tasks.py:17-18 | The path has at least one segment |
| TaskConfig.GetTaskConfigParam | src/ewoksdraw/utils/utils_tasks.py:8-29 | Fails with a missing segment exactly when there is no second segment. A success is a value stored in the configuration |
| TaskConfig.KeyPathOfPair | src/ewoksdraw/utils/utils_tasks.py:17-20 | "e/p" parses as [e, p] |
| TaskConfig.ElementProperty | src/ewoksdraw/utils/utils_tasks.py:19-29 | Looking up "e/p" gives `config[e][p]`. Otherwise it names the missing element, checked first, or the missing property |
| TaskConfig.SlashesIgnored | src/ewoksdraw/utils/utils_tasks.py:17 | Leading and trailing slashes do not change the path |
| TaskConfig.LookupIgnoresSlashes | src/ewoksdraw/utils/utils_tasks.py:17-29 | Leading and trailing slashes do not change the lookup |
| TaskConfig.SplitTwo | src/ewoksdraw/utils/utils_tasks.py:18 | Two leading segments are split off whole |
| TaskConfig.KeyPathOfLonger | src/ewoksdraw/utils/utils_tasks.py:17-20 | The first two segments of "e/p/rest" are e and p |
| TaskConfig.ExtraSegmentsIgnored | src/ewoksdraw/utils/utils_tasks.py:18-20 | Segments after the second never change the result |
| TaskConfig.SingleSegment | src/ewoksdraw/utils/utils_tasks.py:17-20 | The lookup fails for want of a second segment exactly when the stripped path has no slash |

## Left out

- **Drawing.** All drawing with matplotlib is out: boxes, labels, arrow patches, axes
  (`dev_links.py:114-133`, `179-204`). So is the demo at the end of the module
  (`dev_links.py:207-212`). Only the curve geometry is modelled.
- **Floating point.** Floats are exact reals, so rounding is not modelled.
- **reportlab's `stringWidth` and the `font-family` regular expression** are parameters.
  The model only assumes widths are non-negative.
- **CSS files and the configuration JSON** are maps given as parameters. File reading and
  `load_json_file` with its `FileNotFoundError` and `ValueError` are out.
- **Attribute strings.** Written as `Number`, `Pixels` or `Text` values, not as strings.
  A hand-written attribute such as "12px" given as `Text` fails to read as a font size,
  where Python would parse it.
- **XML serialisation** (`SvgElement.xml_element`, `_create_xml_element`) is out. An
  element's XML is the element itself.
- **Groups.SvgGroup.PopulateGroup:** appends each element itself. The source calls
  `element.get_xml_element()` (`svg/svg_group.py:27`), which `SvgGroup` defines but
  `SvgElement` does not (it has only the `xml_element` property). So a group holding a
  plain element raises AttributeError there. The model follows what the call evidently
  means.
- **Groups.SvgGroup.AddElements:** succeeds for plain elements, where the source raises
  through `populate_group`, as above.
- **TaskIO.SvgTaskIO.constructor:** succeeds. In the source, its own
  `add_elements([txt, anchor])` (`svg/svg_task_io.py:53`) raises through
  `populate_group` for every IO.
- **TaskIO.SvgTaskIOGroup.constructor:** models the evidently intended column: each IO
  built, appended, and moved down by `i * spacing` through the corrected
  `SetVerticalSpacing` (Findings row for `svg/svg_task_io.py:147`). As written, a
  non-empty column raises AttributeError. It does so first at `svg/svg_task_io.py:124`,
  building an IO, through `populate_group` (`svg/svg_group.py:27`). Past that, it would
  raise again at `svg/svg_task_io.py:147`, in `set_vertical_spacing`.
- **Elements.SvgElement.constructor:** copies the caller's attribute map. The source keeps
  the very dict it was given (`self._attr = attr or {}`, `svg/svg_element.py:33`), so
  later changes made through the caller's reference, or through the element, are seen by
  both. Maps are values here, so that sharing is not modelled.
- **`SvgTaskIO.height`** is not modelled. It reads `attr` on an `SvgElement`, which has
  no such public attribute.
- **SvgTaskIOGroup.verticalSpacing** is an `int`, not a float, because translations are
  written with `str(int)`.
- **TaskIO.SvgTaskIOGroup.ModifySizeToFitWidth:** requires every label to be measurable.
  It also requires that some number of truncations within the total budget makes the
  column fit. Otherwise the source raises or loops for ever.
  `TaskIO.GroupFitsWithinBudget` shows the second condition is exactly when the loop ends.
- **Texts.ModifyTextToFitWidth:** requires the same two conditions, for one text.
- **CycleBreaker.FindAndBreakCycles:** takes the iteration order of the task-id set as a
  parameter. The kept links are proved for every such order, not computed for CPython's.
- **CycleBreaker.FindAndBreakCycles:** removes only cycles through tasks that some known
  task reaches along the links (`Graph.Reachable`). The searches start from known tasks
  only, so a cycle among unknown ids that no known task reaches is never searched and stays.
- **Cycle breaking in Python** recurses; deep graphs can exceed the recursion limit.
  That limit is not modelled.

## Findings

| source | as written | input that shows it | evidently intended | confidence | as-written member | corrected member |
|---|---|---|---|---|---|---|
| src/ewoksdraw/svg/svg_task_io.py:147 | `set_vertical_spacing` calls `element.set_translation(y=pos)`, which neither `SvgTaskIO` nor `SvgGroup` defines | `SvgTaskIOGroup(["a"], "Input")`, once `populate_group` can append a plain element (as written, `SvgTaskIO(...)` already raises at `svg/svg_group.py:27`; see "## Left out"): `init_elements` then calls `set_vertical_spacing`, which raises AttributeError on the first IO | Move the i-th IO down by `i * vertical_spacing` with the group's `translate(y=pos)`. Since `translate` composes, repeated calls accumulate | not executed | TaskIO.SvgTaskIOGroup.SetVerticalSpacingAsWritten | TaskIO.SvgTaskIOGroup.SetVerticalSpacing |
