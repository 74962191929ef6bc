// The inputs or outputs drawn on a task box (svg/svg_task_io.py): one IO is a
// group of a text label and a circular anchor; a column of IOs is a group of
// them, spaced vertically, that can be shrunk to a target width by lowering
// the font of every label and then truncating the widest label, one character
// at a time.

module TaskIO {
  import opened Wrappers
  import opened Elements
  import opened Groups
  import opened Texts
  import opened Iteration

  /** `anchor_text_spacing`: the gap between the anchor and the label. */
  const AnchorTextSpacing: int := 5

  /** Calling a method no class defines (AttributeError). */
  datatype CallError = UndefinedMethod(name: string)

  /** What the measurements of a label depend on. */
  datatype LabelState = LabelState(text: Option<string>, attr: Attributes, style: Option<string>)

  function StateOf(e: SvgElement): LabelState
    reads e
  {
    LabelState(e.text, e.attr, e.style)
  }

  /** The attributes of the anchor `SvgTaskAnchorLink(cx, cy, radius)` writes. */
  function AnchorAttributes(cx: int, cy: int, radius: real): Attributes
  {
    map["cx" := Number(cx as real), "cy" := Number(cy as real), "r" := Number(radius)]
  }

  /** The width of one IO: its label's width with the spacing on both sides,
      so never less than twice the spacing; it fails exactly when the label's
      width does. */
  function IOWidthIn(m: Metrics, s: LabelState): (r: Result<real, TextError>)
    ensures r.Failure? <==> WidthOf(m, s.text, s.attr, s.style).Failure?
    ensures r.Success? ==> r.value - WidthOf(m, s.text, s.attr, s.style).value == 2.0 * AnchorTextSpacing as real
    ensures r.Success? ==> r.value >= 2.0 * AnchorTextSpacing as real
  {
    match WidthOf(m, s.text, s.attr, s.style)
    case Failure(err) => Failure(err)
    case Success(w) => Success(w + 2.0 * AnchorTextSpacing as real)
  }

  /** The label of `init_elements`: 5 to the right of the anchor, or, for an
      "Output", anchored at its end 5 to the left. */
  method NewLabel(ioText: string, ioType: string, cssFiles: map<string, string>) returns (txt: SvgElement)
    ensures fresh(txt)
    ensures txt.tag == "text" && txt.text == Some(ioText)
    ensures txt.style == LoadStyle(Some("task_text_io"), cssFiles)
    ensures FontSizeIn(txt.attr) == Success(6.0) && txt.GetAttr("y") == Some(Number(0.0))
    ensures ioType == "Output" ==> txt.GetAttr("text-anchor") == Some(Text("end"))
    ensures ioType == "Output" ==> txt.GetAttr("x") == Some(Number(-AnchorTextSpacing as real))
    ensures ioType != "Output" ==> txt.GetAttr("text-anchor") == Some(Text("start"))
    ensures ioType != "Output" ==> txt.GetAttr("x") == Some(Number(AnchorTextSpacing as real))
  {
    txt := NewText(ioText, AnchorTextSpacing, 0, Some("task_text_io"), cssFiles);
    if ioType == "Output" {
      SetTextAnchor(txt, "end");
      ghost var before := txt.attr;
      txt.SetPosition(x := Some(-AnchorTextSpacing as real));
      assert txt.GetAttr("font-size") == Some(before["font-size"]);
      assert txt.GetAttr("text-anchor") == Some(Text("end"));
    }
  }

  class SvgTaskIO {
    const ioText: string
    const ioType: string
    /** `elements[0]`: the label. */
    const textElement: SvgElement
    /** `elements[1]`: the anchor. */
    const anchor: SvgElement
    /** The group this IO is: its members and its <g> element. */
    const group: SvgGroup<SvgElement>

    /** `SvgTaskIO(io_txt, io_type)`: a label 5 to the right of a radius-2
        anchor at the origin, or, for an "Output", a label ending 5 to its left. */
    constructor (ioText: string, ioType: string, cssFiles: map<string, string>)
      ensures this.ioText == ioText && this.ioType == ioType
      ensures fresh(textElement) && fresh(anchor) && fresh(group) && fresh(group.xml)
      ensures group.elements == [textElement, anchor] && group.xml.children == [textElement, anchor]
      ensures group.translations == [] && group.Valid()
      ensures textElement.tag == "text" && textElement.text == Some(ioText)
      ensures textElement.style == LoadStyle(Some("task_text_io"), cssFiles)
      ensures FontSizeIn(textElement.attr) == Success(6.0) && textElement.GetAttr("y") == Some(Number(0.0))
      ensures ioType == "Output" ==> textElement.GetAttr("text-anchor") == Some(Text("end"))
      ensures ioType == "Output" ==> textElement.GetAttr("x") == Some(Number(-AnchorTextSpacing as real))
      ensures ioType != "Output" ==> textElement.GetAttr("text-anchor") == Some(Text("start"))
      ensures ioType != "Output" ==> textElement.GetAttr("x") == Some(Number(AnchorTextSpacing as real))
      ensures anchor.tag == "circle" && anchor.attr == AnchorAttributes(0, 0, 2.0) && anchor.text == None
    {
      this.ioText := ioText;
      this.ioType := ioType;
      var txt := NewLabel(ioText, ioType, cssFiles);
      var a := new SvgElement("circle", Some("task_anchor_link"), Some(AnchorAttributes(0, 0, 2.0)), None, cssFiles);
      var g := new SvgGroup<SvgElement>();
      g.AddElements([txt, a]);
      textElement := txt;
      anchor := a;
      group := g;
    }

    /** `set_font_size(s)`: the label's font size becomes `s`. */
    method SetFontSize(size: real)
      modifies textElement
      ensures textElement.attr == old(textElement.attr)["font-size" := Pixels(size)]
      ensures textElement.text == old(textElement.text)
      ensures FontSize() == Success(size)
    {
      Texts.SetFontSize(textElement, size);
    }

    /** Moving the IO down by `y`: its group gains the translation (0, y). */
    method SetTranslation(y: int)
      modifies group, group.xml
      ensures group.translations == old(group.translations) + [(0, y)]
      ensures old(group.Valid()) ==> group.Valid()
    {
      group.Translate(y := y);
    }

    /** `_truncate_text_by_one`: the label's text is truncated once. */
    method TruncateTextByOne()
      modifies textElement
      ensures textElement.text == TruncateText(old(textElement.text))
      ensures textElement.attr == old(textElement.attr)
    {
      Texts.TruncateTextByOne(textElement);
    }

    /** The `font_size` property: the label's. */
    function FontSize(): Result<real, TextError>
      reads textElement
    {
      Texts.FontSize(textElement)
    }

    /** The `width` property. */
    function Width(m: Metrics): Result<real, TextError>
      reads textElement
    {
      IOWidthIn(m, StateOf(textElement))
    }
  }

  // ---------------------------------------------------------------------------
  // a column of IOs, as values

  /** The labels' states, in order. */
  function StatesOf(ios: seq<SvgTaskIO>): (ss: seq<LabelState>)
    reads set io | io in ios :: io.textElement
    ensures |ss| == |ios|
    ensures forall i :: 0 <= i < |ios| ==> ss[i] == StateOf(ios[i].textElement)
    decreases |ios|
  {
    if ios == [] then [] else StatesOf(ios[..|ios| - 1]) + [StateOf(ios[|ios| - 1].textElement)]
  }

  /** The width of every IO in order, or the error of the first that has none. */
  function Widths(m: Metrics, ss: seq<LabelState>): (r: Result<seq<real>, TextError>)
    ensures r.Success? <==> forall i :: 0 <= i < |ss| ==> IOWidthIn(m, ss[i]).Success?
    ensures r.Success? ==> |r.value| == |ss|
    ensures r.Success? ==> forall i :: 0 <= i < |ss| ==> IOWidthIn(m, ss[i]) == Success(r.value[i])
    decreases |ss|
  {
    if ss == [] then Success([])
    else
      match Widths(m, ss[..|ss| - 1])
      case Failure(err) => Failure(err)
      case Success(ws) =>
        match IOWidthIn(m, ss[|ss| - 1])
        case Failure(err) => Failure(err)
        case Success(w) => Success(ws + [w])
  }

  /** The error reported is that of the first IO without a width. */
  lemma {:induction false} FirstError(m: Metrics, ss: seq<LabelState>)
    requires Widths(m, ss).Failure?
    ensures exists i ::
              && 0 <= i < |ss| && IOWidthIn(m, ss[i]) == Failure(Widths(m, ss).error)
              && forall j :: 0 <= j < i ==> IOWidthIn(m, ss[j]).Success?
    decreases |ss|
  {
    var front := ss[..|ss| - 1];
    if Widths(m, front).Failure? {
      FirstError(m, front);
      var i :|
        && 0 <= i < |front| && IOWidthIn(m, front[i]) == Failure(Widths(m, front).error)
        && forall j :: 0 <= j < i ==> IOWidthIn(m, front[j]).Success?;
      assert ss[i] == front[i];
      assert forall j :: 0 <= j < i ==> ss[j] == front[j];
    } else {
      assert forall j :: 0 <= j < |ss| - 1 ==> ss[j] == front[j];
      assert IOWidthIn(m, ss[|ss| - 1]) == Failure(Widths(m, ss).error);
    }
  }

  /** A prefix without a width leaves the whole column without one. */
  lemma {:induction false} PrefixFailure(m: Metrics, ss: seq<LabelState>, i: nat)
    requires i <= |ss| && Widths(m, ss[..i]).Failure?
    ensures Widths(m, ss) == Failure(Widths(m, ss[..i]).error)
    decreases |ss| - i
  {
    if i < |ss| {
      assert ss[..i + 1][..i] == ss[..i];
      PrefixFailure(m, ss, i + 1);
    } else {
      assert ss[..i] == ss;
    }
  }

  /** Every IO width is at least twice the anchor spacing, so never negative. */
  lemma IOWidthsAtLeastSpacing(m: Metrics, ss: seq<LabelState>)
    requires Widths(m, ss).Success?
    ensures forall j :: 0 <= j < |ss| ==> Widths(m, ss).value[j] >= 2.0 * AnchorTextSpacing as real
  {
    forall j | 0 <= j < |ss|
      ensures Widths(m, ss).value[j] >= 2.0 * AnchorTextSpacing as real
    {
      assert IOWidthIn(m, ss[j]) == Success(Widths(m, ss).value[j]);
    }
  }

  /** The index `_truncate_text_by_one` picks: the first of maximal width. */
  function FirstMax(ws: seq<real>): (i: nat)
    requires ws != []
    ensures i < |ws|
    ensures forall j :: 0 <= j < |ws| ==> ws[j] <= ws[i]
    ensures forall j :: 0 <= j < i ==> ws[j] < ws[i]
    decreases |ws|
  {
    if |ws| == 1 then 0
    else
      var k := FirstMax(ws[..|ws| - 1]);
      if ws[|ws| - 1] > ws[k] then |ws| - 1 else k
  }

  /** Only one index is the first of maximal width. */
  lemma FirstMaxUnique(ws: seq<real>, i: nat)
    requires i < |ws|
    requires forall j :: 0 <= j < |ws| ==> ws[j] <= ws[i]
    requires forall j :: 0 <= j < i ==> ws[j] < ws[i]
    ensures i == FirstMax(ws)
  {
  }

  /** The `width` of a column: 0 when it is empty, else the largest IO width. */
  function GroupWidthIn(m: Metrics, ss: seq<LabelState>): Result<real, TextError>
  {
    if ss == [] then Success(0.0)
    else
      match Widths(m, ss)
      case Failure(err) => Failure(err)
      case Success(ws) => Success(ws[FirstMax(ws)])
  }

  /** The width of a column is the width of one of its IOs and no IO is wider;
      it fails exactly when some IO has no width. */
  lemma GroupWidthIsMax(m: Metrics, ss: seq<LabelState>)
    ensures GroupWidthIn(m, ss).Failure? <==> exists i :: 0 <= i < |ss| && IOWidthIn(m, ss[i]).Failure?
    ensures GroupWidthIn(m, ss).Success? ==>
      forall i :: 0 <= i < |ss| ==> IOWidthIn(m, ss[i]).value <= GroupWidthIn(m, ss).value
    ensures GroupWidthIn(m, ss).Success? && ss != [] ==>
      exists i :: 0 <= i < |ss| && IOWidthIn(m, ss[i]).value == GroupWidthIn(m, ss).value
  {
    if ss != [] && Widths(m, ss).Success? {
      var ws := Widths(m, ss).value;
      var k := FirstMax(ws);
      assert IOWidthIn(m, ss[k]).value == GroupWidthIn(m, ss).value;
    }
  }

  /** The `font_size` of a column: the first IO's, 0 when it is empty. */
  function FontSizeOf(ss: seq<LabelState>): Result<real, TextError>
  {
    if ss == [] then Success(0.0) else FontSizeIn(ss[0].attr)
  }

  /** Every label of the column at font size `size`. */
  function WithFontSize(ss: seq<LabelState>, size: real): (r: seq<LabelState>)
    ensures |r| == |ss|
    ensures forall i :: 0 <= i < |ss| ==> r[i] == ss[i].(attr := ss[i].attr["font-size" := Pixels(size)])
  {
    seq(|ss|, i requires 0 <= i < |ss| => ss[i].(attr := ss[i].attr["font-size" := Pixels(size)]))
  }

  /** After setting the font size of a non-empty column, its font size reads it back. */
  lemma FontSizeReadsBack(ss: seq<LabelState>, size: real)
    requires ss != []
    ensures FontSizeOf(WithFontSize(ss, size)) == Success(size)
  {
    assert WithFontSize(ss, size)[0].attr == ss[0].attr["font-size" := Pixels(size)];
  }

  /** Setting the font size twice keeps only the second. */
  lemma WithFontSizeTwice(ss: seq<LabelState>, a: real, b: real)
    ensures WithFontSize(WithFontSize(ss, a), b) == WithFontSize(ss, b)
  {
    var lhs, rhs := WithFontSize(WithFontSize(ss, a), b), WithFontSize(ss, b);
    forall i | 0 <= i < |ss|
      ensures lhs[i] == rhs[i]
    {
      assert ss[i].attr["font-size" := Pixels(a)]["font-size" := Pixels(b)] == ss[i].attr["font-size" := Pixels(b)];
    }
  }

  /** Every label's font size and font name can be read. */
  ghost predicate AllMeasurable(m: Metrics, ss: seq<LabelState>)
  {
    forall i :: 0 <= i < |ss| ==> MeasurableIn(ss[i].attr, ss[i].style, m)
  }

  /** A column whose labels are all measurable has a width. */
  lemma MeasurableHasWidth(m: Metrics, ss: seq<LabelState>)
    requires AllMeasurable(m, ss)
    ensures Widths(m, ss).Success? && GroupWidthIn(m, ss).Success?
  {
    forall i | 0 <= i < |ss|
      ensures IOWidthIn(m, ss[i]).Success?
    {
      assert MeasurableIn(ss[i].attr, ss[i].style, m);
    }
  }

  // ---------------------------------------------------------------------------
  // the first loop of modify_size_to_fit_width, as values

  /** The width condition of the first loop: the column is wider than `target`. */
  function TooWide(m: Metrics, target: real): seq<LabelState> -> bool
  {
    ss => GroupWidthIn(m, ss).Success? && target < GroupWidthIn(m, ss).value
  }

  /** The first loop goes on: the column is non-empty, `wide` holds and its
      font size is at least `minSize`. */
  predicate ShouldLower(wide: seq<LabelState> -> bool, ss: seq<LabelState>, minSize: real)
  {
    ss != [] && wide(ss) && FontSizeOf(ss).Success? && FontSizeOf(ss).value >= minSize
  }

  /** One pass of the first loop: every label is set to one less than the
      column's font size. */
  function LowerFontByOne(ss: seq<LabelState>): seq<LabelState>
  {
    if FontSizeOf(ss).Success? then WithFontSize(ss, FontSizeOf(ss).value - 1.0) else ss
  }

  lemma LowerFontByOneIs(ss: seq<LabelState>, size: real)
    requires FontSizeOf(ss) == Success(size + 1.0)
    ensures LowerFontByOne(ss) == WithFontSize(ss, size)
  {
  }

  /** The condition of the first loop, as a function value. */
  function LowerCondition(wide: seq<LabelState> -> bool, minSize: real): seq<LabelState> -> bool
  {
    ss => ShouldLower(wide, ss, minSize)
  }

  /** How many more passes the font size leaves the first loop at most. */
  function FontBudget(minSize: real): seq<LabelState> -> nat
  {
    ss => if FontSizeOf(ss).Success? && FontSizeOf(ss).value >= minSize
      then ((FontSizeOf(ss).value - minSize).Floor + 1) as nat
      else 0
  }

  /** Each pass of the first loop uses up font budget, so the loop ends. */
  lemma LoweringEnds(wide: seq<LabelState> -> bool, minSize: real)
    ensures DecreasesWhile(LowerCondition(wide, minSize), LowerFontByOne, FontBudget(minSize))
  {
    forall ss | LowerCondition(wide, minSize)(ss)
      ensures FontBudget(minSize)(LowerFontByOne(ss)) < FontBudget(minSize)(ss)
    {
      FontSizeReadsBack(ss, FontSizeOf(ss).value - 1.0);
    }
  }

  /** The column after the first loop. */
  function Lowered(wide: seq<LabelState> -> bool, ss: seq<LabelState>, minSize: real): seq<LabelState>
  {
    LoweringEnds(wide, minSize);
    RepeatWhile(LowerCondition(wide, minSize), LowerFontByOne, FontBudget(minSize), ss)
  }

  /** After the first loop it would not go on. */
  lemma LoweredStops(wide: seq<LabelState> -> bool, ss: seq<LabelState>, minSize: real)
    ensures !ShouldLower(wide, Lowered(wide, ss, minSize), minSize)
  {
    LoweringEnds(wide, minSize);
    assert !LowerCondition(wide, minSize)(Lowered(wide, ss, minSize));
  }

  /** If the first loop changed the font, every label has the same size,
      below the first one's before and at least `minSize - 1`. */
  lemma {:induction false} LoweredOutcome(wide: seq<LabelState> -> bool, ss: seq<LabelState>, minSize: real)
    ensures var r := Lowered(wide, ss, minSize);
      r == ss || (ss != [] && FontSizeOf(ss).Success? &&
        exists size: real :: minSize - 1.0 <= size < FontSizeOf(ss).value && r == WithFontSize(ss, size))
    decreases FontBudget(minSize)(ss)
  {
    LoweringEnds(wide, minSize);
    if ShouldLower(wide, ss, minSize) {
      var v := FontSizeOf(ss).value;
      var next := LowerFontByOne(ss);
      assert Lowered(wide, ss, minSize) == Lowered(wide, next, minSize);
      LoweredOutcome(wide, next, minSize);
      FontSizeReadsBack(ss, v - 1.0);
      var r := Lowered(wide, ss, minSize);
      if r != next {
        var size: real :| minSize - 1.0 <= size < v - 1.0 && r == WithFontSize(next, size);
        WithFontSizeTwice(ss, v - 1.0, size);
      }
    }
  }

  // ---------------------------------------------------------------------------
  // the second loop of modify_size_to_fit_width, as values

  /** The column with label `i` truncated once. */
  function TruncatedAt(ss: seq<LabelState>, i: nat): seq<LabelState>
    requires i < |ss|
  {
    ss[i := ss[i].(text := TruncateText(ss[i].text))]
  }

  /** `_truncate_text_by_one` of a column: the first IO of maximal width has
      its label truncated; a column without a width raises and stays as it was. */
  function TruncateWidestIn(m: Metrics, ss: seq<LabelState>): seq<LabelState>
  {
    match Widths(m, ss)
    case Failure(_) => ss
    case Success(ws) =>
      if ss == [] then ss
      else
        TruncatedAt(ss, FirstMax(ws))
  }

  /** IO `i` is at least as wide as every IO and wider than every IO before it. */
  ghost predicate IsFirstWidest(m: Metrics, ss: seq<LabelState>, i: nat)
  {
    i < |ss| && Widths(m, ss).Success?
    && (forall j :: 0 <= j < |ss| ==> IOWidthIn(m, ss[j]).value <= IOWidthIn(m, ss[i]).value)
    && (forall j :: 0 <= j < i ==> IOWidthIn(m, ss[j]).value < IOWidthIn(m, ss[i]).value)
  }

  /** Truncating a column changes at most the first widest label, and only its text. */
  lemma OnlyFirstWidestTruncated(m: Metrics, ss: seq<LabelState>, j: nat)
    requires j < |ss|
    ensures var r := TruncateWidestIn(m, ss);
      |r| == |ss| && r[j].attr == ss[j].attr && r[j].style == ss[j].style
      && (r[j] == ss[j] || (IsFirstWidest(m, ss, j) && r[j].text == TruncateText(ss[j].text)))
  {
    if Widths(m, ss).Success? {
      var ws := Widths(m, ss).value;
      if j == FirstMax(ws) {
        assert IsFirstWidest(m, ss, j);
      }
    }
  }

  /** A non-empty column with a width has its first widest label truncated. */
  lemma WidestTruncated(m: Metrics, ss: seq<LabelState>)
    requires ss != [] && Widths(m, ss).Success?
    ensures exists i: nat :: i < |ss| && IsFirstWidest(m, ss, i) && TruncateWidestIn(m, ss)[i].text == TruncateText(ss[i].text)
  {
    var i := FirstMax(Widths(m, ss).value);
    assert IsFirstWidest(m, ss, i);
  }

  /** The step of the second loop. */
  function TruncateWidestStep(m: Metrics): seq<LabelState> -> seq<LabelState>
  {
    ss => TruncateWidestIn(m, ss)
  }

  /** The goal of the second loop: a column no wider than `target`. */
  function GroupFits(m: Metrics, target: real): seq<LabelState> -> bool
  {
    ss => GroupWidthIn(m, ss).Success? && GroupWidthIn(m, ss).value <= target
  }

  /** The budgets of all labels together. */
  function TotalBudget(ss: seq<LabelState>): nat
    decreases |ss|
  {
    if ss == [] then 0 else TotalBudget(ss[..|ss| - 1]) + Budget(ss[|ss| - 1].text)
  }

  /** Replacing one label changes the total by the change of its budget. */
  lemma {:induction false} TotalBudgetUpdate(ss: seq<LabelState>, i: nat, s: LabelState)
    requires i < |ss|
    ensures TotalBudget(ss[i := s]) + Budget(ss[i].text) == TotalBudget(ss) + Budget(s.text)
    decreases |ss|
  {
    var last := |ss| - 1;
    if i < last {
      TotalBudgetUpdate(ss[..last], i, s);
      assert ss[i := s][..last] == ss[..last][i := s];
    } else {
      assert ss[i := s][..last] == ss[..last];
    }
  }

  /** Truncating the widest label changes the column only while it uses up budget. */
  lemma GroupTruncationShrinks(m: Metrics)
    ensures Shrinks(TruncateWidestStep(m), TotalBudget)
  {
    forall ss: seq<LabelState> | TruncateWidestStep(m)(ss) != ss
      ensures TotalBudget(TruncateWidestStep(m)(ss)) < TotalBudget(ss)
    {
      var ws := Widths(m, ss).value;
      var i := FirstMax(ws);
      var s := ss[i].(text := TruncateText(ss[i].text));
      assert TruncateWidestIn(m, ss) == ss[i := s];
      TruncateStep(ss[i].text);
      TotalBudgetUpdate(ss, i, s);
    }
  }

  /** Some number of truncations makes a column fit exactly when a number
      within its total budget does: the second loop ends if and only if this holds. */
  lemma GroupFitsWithinBudget(m: Metrics, ss: seq<LabelState>, target: real)
    ensures (exists n: nat :: ReachedAfter(TruncateWidestStep(m), GroupFits(m, target), ss, n))
        <==> (exists n: nat :: n <= TotalBudget(ss) && ReachedAfter(TruncateWidestStep(m), GroupFits(m, target), ss, n))
  {
    GroupTruncationShrinks(m);
    ReachedWithinMeasure(TruncateWidestStep(m), TotalBudget, GroupFits(m, target), ss);
  }

  /** Setting the font size keeps every label measurable. */
  lemma MeasurableWithFontSize(m: Metrics, ss: seq<LabelState>, size: real)
    requires AllMeasurable(m, ss)
    ensures AllMeasurable(m, WithFontSize(ss, size))
  {
    var r := WithFontSize(ss, size);
    forall i | 0 <= i < |ss|
      ensures MeasurableIn(r[i].attr, r[i].style, m)
    {
      assert MeasurableIn(ss[i].attr, ss[i].style, m);
    }
  }

  /** Truncating keeps every label measurable. */
  lemma TruncationKeepsMeasurable(m: Metrics, ss: seq<LabelState>)
    requires AllMeasurable(m, ss)
    ensures AllMeasurable(m, TruncateWidestIn(m, ss))
  {
    var r := TruncateWidestIn(m, ss);
    forall i | 0 <= i < |ss|
      ensures MeasurableIn(r[i].attr, r[i].style, m)
    {
      OnlyFirstWidestTruncated(m, ss, i);
      assert MeasurableIn(ss[i].attr, ss[i].style, m);
    }
  }

  // ---------------------------------------------------------------------------
  // the column

  /** Distinct IOs have distinct labels. */
  ghost predicate DistinctLabels(ios: seq<SvgTaskIO>)
  {
    forall i, j :: 0 <= i < j < |ios| ==> ios[i].textElement != ios[j].textElement
  }

  ghost function LabelsOf(ios: seq<SvgTaskIO>): set<SvgElement>
  {
    set io | io in ios :: io.textElement
  }

  /** Distinct IOs have distinct groups and distinct <g> elements. */
  ghost predicate DistinctGroups(ios: seq<SvgTaskIO>)
  {
    forall i, j :: 0 <= i < j < |ios| ==> ios[i].group != ios[j].group && ios[i].group.xml != ios[j].group.xml
  }

  ghost function GroupsOf(ios: seq<SvgTaskIO>): set<object>
  {
    (set io | io in ios :: io.group as object) + (set io | io in ios :: io.group.xml as object)
  }

  /** The loop of `set_vertical_spacing`: the i-th IO moves down by `i * spacing`. */
  method TranslateEach(ios: seq<SvgTaskIO>, spacing: int)
    requires DistinctGroups(ios)
    modifies GroupsOf(ios)
    ensures forall j :: 0 <= j < |ios| ==>
      ios[j].group.translations == old(ios[j].group.translations) + [(0, j * spacing)]
    ensures forall j :: 0 <= j < |ios| ==> (old(ios[j].group.Valid()) ==> ios[j].group.Valid())
  {
    for i := 0 to |ios|
      invariant forall j :: 0 <= j < |ios| ==>
        ios[j].group.translations == old(ios[j].group.translations) + (if j < i then [(0, j * spacing)] else [])
      invariant forall j :: 0 <= j < |ios| ==> (old(ios[j].group.Valid()) ==> ios[j].group.Valid())
    {
      ios[i].SetTranslation(i * spacing);
    }
  }

  /** A new IO, with what a column needs to know of it. */
  method NewIO(ioText: string, ioType: string, cssFiles: map<string, string>) returns (io: SvgTaskIO)
    ensures io.ioText == ioText && io.ioType == ioType
    ensures io.group.translations == [] && io.group.Valid()
    ensures fresh(io.textElement) && fresh(io.group) && fresh(io.group.xml)
  {
    io := new SvgTaskIO(ioText, ioType, cssFiles);
  }

  /** The IOs of `init_elements`, one per label, in order, all new. */
  method NewIOs(listIO: seq<string>, ioType: string, cssFiles: map<string, string>) returns (ios: seq<SvgTaskIO>)
    ensures |ios| == |listIO|
    ensures forall j :: 0 <= j < |ios| ==> ios[j].ioText == listIO[j] && ios[j].ioType == ioType
    ensures forall j :: 0 <= j < |ios| ==> ios[j].group.translations == [] && ios[j].group.Valid()
    ensures forall j :: 0 <= j < |ios| ==> fresh(ios[j].group) && fresh(ios[j].group.xml)
    ensures DistinctLabels(ios) && DistinctGroups(ios)
  {
    ios := [];
    for i := 0 to |listIO|
      invariant |ios| == i
      invariant forall j :: 0 <= j < i ==> ios[j].ioText == listIO[j] && ios[j].ioType == ioType
      invariant forall j :: 0 <= j < i ==> ios[j].group.translations == [] && ios[j].group.Valid()
      invariant forall j :: 0 <= j < i ==> fresh(ios[j].group) && fresh(ios[j].group.xml)
      invariant DistinctLabels(ios) && DistinctGroups(ios)
    {
      var io := NewIO(listIO[i], ioType, cssFiles);
      ios := ios + [io];
    }
  }

  /** The width of every IO in order; an IO without a width stops the loop
      with its error. */
  method IOWidths(m: Metrics, ios: seq<SvgTaskIO>) returns (r: Result<seq<real>, TextError>)
    ensures r == Widths(m, StatesOf(ios))
  {
    ghost var ss := StatesOf(ios);
    var widths: seq<real> := [];
    for i := 0 to |ios|
      invariant Widths(m, ss[..i]) == Success(widths)
    {
      var w := ios[i].Width(m);
      assert ss[..i + 1][..i] == ss[..i];
      if w.Failure? {
        PrefixFailure(m, ss, i + 1);
        return Failure(w.error);
      }
      widths := widths + [w.value];
    }
    assert ss[..|ios|] == ss;
    return Success(widths);
  }

  /** The scan of `_truncate_text_by_one`: a running maximum that starts below
      every width and is replaced only by a strictly larger width ends on the
      first widest IO. */
  method ScanWidest(widths: seq<real>) returns (best: nat)
    requires widths != []
    requires forall j :: 0 <= j < |widths| ==> widths[j] > -1.0
    ensures best == FirstMax(widths)
  {
    var maxWidth: real := -1.0;
    best := 0;
    for i := 0 to |widths|
      invariant i == 0 ==> maxWidth == -1.0
      invariant best <= i && (i > 0 ==> best < i && maxWidth == widths[best])
      invariant forall j :: 0 <= j < i ==> widths[j] <= maxWidth
      invariant forall j :: 0 <= j < best ==> widths[j] < maxWidth
    {
      if widths[i] > maxWidth {
        maxWidth := widths[i];
        best := i;
      }
    }
    FirstMaxUnique(widths, best);
  }

  /** IO `k`'s label is truncated once; no other label changes. */
  method TruncateLabel(ios: seq<SvgTaskIO>, k: nat)
    requires k < |ios|
    requires DistinctLabels(ios)
    modifies ios[k].textElement
    ensures StatesOf(ios) == TruncatedAt(old(StatesOf(ios)), k)
  {
    ghost var after := TruncatedAt(StatesOf(ios), k);
    ios[k].TruncateTextByOne();
    forall j | 0 <= j < |ios|
      ensures StateOf(ios[j].textElement) == after[j]
    {
      if j != k {
        assert ios[j].textElement != ios[k].textElement;
      }
    }
  }

  /** The loop of `set_font_size`: every label gets font size `size`. */
  method SetFontSizes(ios: seq<SvgTaskIO>, size: real)
    requires DistinctLabels(ios)
    modifies LabelsOf(ios)
    ensures StatesOf(ios) == WithFontSize(old(StatesOf(ios)), size)
  {
    ghost var ss := StatesOf(ios);
    for i := 0 to |ios|
      invariant forall j :: 0 <= j < |ios| ==>
        StateOf(ios[j].textElement) == if j < i then WithFontSize(ss, size)[j] else ss[j]
    {
      ios[i].SetFontSize(size);
    }
  }

  /** The `width` of a column: the largest IO width, 0 when it is empty. */
  method ColumnWidth(m: Metrics, ios: seq<SvgTaskIO>) returns (r: Result<real, TextError>)
    ensures r == GroupWidthIn(m, StatesOf(ios))
  {
    if ios == [] {
      return Success(0.0);
    }
    var widths := IOWidths(m, ios);
    if widths.Failure? {
      return Failure(widths.error);
    }
    return Success(widths.value[FirstMax(widths.value)]);
  }

  /** `_truncate_text_by_one` of a column of IOs with distinct labels. */
  method TruncateWidest(m: Metrics, ios: seq<SvgTaskIO>) returns (err: Option<TextError>)
    requires DistinctLabels(ios)
    modifies LabelsOf(ios)
    ensures err.Some? <==> Widths(m, old(StatesOf(ios))).Failure?
    ensures StatesOf(ios) == TruncateWidestIn(m, old(StatesOf(ios)))
  {
    if ios == [] {
      return None;
    }
    ghost var ss := StatesOf(ios);
    var widths := IOWidths(m, ios);
    if widths.Failure? {
      return Some(widths.error);
    }
    IOWidthsAtLeastSpacing(m, ss);
    var best := ScanWidest(widths.value);
    assert TruncateWidestIn(m, ss) == TruncatedAt(ss, best);
    TruncateLabel(ios, best);
    return None;
  }

  /** One pass of the first loop of `modify_size_to_fit_width`. */
  method LowerOnce(m: Metrics, ios: seq<SvgTaskIO>, target: real, minSize: real) returns (size: real, current: real)
    requires DistinctLabels(ios) && AllMeasurable(m, StatesOf(ios))
    requires ShouldLower(TooWide(m, target), StatesOf(ios), minSize)
    modifies LabelsOf(ios)
    ensures AllMeasurable(m, StatesOf(ios))
    ensures old(FontSizeOf(StatesOf(ios))) == Success(size + 1.0)
    ensures StatesOf(ios) == WithFontSize(old(StatesOf(ios)), size)
    ensures GroupWidthIn(m, StatesOf(ios)) == Success(current)
  {
    ghost var ss := StatesOf(ios);
    assert ios[0].FontSize() == FontSizeOf(ss);
    size := ios[0].FontSize().value - 1.0;
    SetFontSizes(ios, size);
    MeasurableWithFontSize(m, ss, size);
    MeasurableHasWidth(m, StatesOf(ios));
    var w := ColumnWidth(m, ios);
    current := w.value;
  }

  /** The first loop of `modify_size_to_fit_width`: while the column is wider
      than `target` and its font size is at least `minSize`, every label is set
      to one less than the column's font size. */
  method LowerColumnFont(m: Metrics, ios: seq<SvgTaskIO>, target: real, minSize: real) returns (current: real)
    requires DistinctLabels(ios) && AllMeasurable(m, StatesOf(ios))
    modifies LabelsOf(ios)
    ensures StatesOf(ios) == Lowered(TooWide(m, target), old(StatesOf(ios)), minSize)
    ensures AllMeasurable(m, StatesOf(ios))
    ensures GroupWidthIn(m, StatesOf(ios)) == Success(current)
  {
    ghost var wide := TooWide(m, target);
    ghost var final := Lowered(wide, StatesOf(ios), minSize);
    LoweringEnds(wide, minSize);
    MeasurableHasWidth(m, StatesOf(ios));
    var w := ColumnWidth(m, ios);
    current := w.value;
    while ios != [] && target < current && ios[0].FontSize().value >= minSize
      invariant AllMeasurable(m, StatesOf(ios))
      invariant Lowered(wide, StatesOf(ios), minSize) == final
      invariant GroupWidthIn(m, StatesOf(ios)) == Success(current)
      decreases FontBudget(minSize)(StatesOf(ios))
    {
      ghost var ss := StatesOf(ios);
      assert ios[0].FontSize() == FontSizeOf(ss);
      assert LowerCondition(wide, minSize)(ss);
      var size;
      size, current := LowerOnce(m, ios, target, minSize);
      LowerFontByOneIs(ss, size);
    }
    assert !LowerCondition(wide, minSize)(StatesOf(ios));
  }

  /** One pass of the second loop of `modify_size_to_fit_width`. */
  method TruncateOnce(m: Metrics, ios: seq<SvgTaskIO>) returns (width: real)
    requires DistinctLabels(ios) && AllMeasurable(m, StatesOf(ios))
    modifies LabelsOf(ios)
    ensures StatesOf(ios) == TruncateWidestIn(m, old(StatesOf(ios)))
    ensures AllMeasurable(m, StatesOf(ios))
    ensures GroupWidthIn(m, StatesOf(ios)) == Success(width)
  {
    ghost var ss := StatesOf(ios);
    var err := TruncateWidest(m, ios);
    TruncationKeepsMeasurable(m, ss);
    MeasurableHasWidth(m, StatesOf(ios));
    var w := ColumnWidth(m, ios);
    width := w.value;
  }

  /** The second loop of `modify_size_to_fit_width`: truncate the widest label
      until the column is at most `target` wide; `n` truncations are known to
      make it fit. */
  method TruncateColumnUntilFits(m: Metrics, ios: seq<SvgTaskIO>, target: real, current: real, ghost n: nat)
    returns (ghost steps: nat)
    requires DistinctLabels(ios) && AllMeasurable(m, StatesOf(ios))
    requires GroupWidthIn(m, StatesOf(ios)) == Success(current)
    requires ReachedAfter(TruncateWidestStep(m), GroupFits(m, target), StatesOf(ios), n)
    modifies LabelsOf(ios)
    ensures StatesOf(ios) == Iterate(TruncateWidestStep(m), old(StatesOf(ios)), steps) && steps <= n
    ensures GroupWidthIn(m, StatesOf(ios)).Success? && GroupWidthIn(m, StatesOf(ios)).value <= target
    ensures NotReachedBefore(TruncateWidestStep(m), GroupFits(m, target), old(StatesOf(ios)), steps)
  {
    ghost var ss0 := StatesOf(ios);
    var width := current;
    steps := 0;
    while target < width
      invariant StatesOf(ios) == Iterate(TruncateWidestStep(m), ss0, steps) && steps <= n
      invariant AllMeasurable(m, StatesOf(ios))
      invariant GroupWidthIn(m, StatesOf(ios)) == Success(width)
      invariant NotReachedBefore(TruncateWidestStep(m), GroupFits(m, target), ss0, steps)
      decreases n - steps
    {
      assert steps < n;
      ghost var ss := StatesOf(ios);
      NotReachedBeforeStep(TruncateWidestStep(m), GroupFits(m, target), ss0, steps);
      width := TruncateOnce(m, ios);
      assert StatesOf(ios) == TruncateWidestStep(m)(ss);
      steps := steps + 1;
    }
  }

  /** `modify_size_to_fit_width` on the IOs of a non-empty column. */
  method FitColumn(m: Metrics, ios: seq<SvgTaskIO>, target: real, minSize: real) returns (ghost steps: nat)
    requires DistinctLabels(ios) && AllMeasurable(m, StatesOf(ios))
    requires exists n: nat ::
      n <= TotalBudget(Lowered(TooWide(m, target), StatesOf(ios), minSize))
      && ReachedAfter(TruncateWidestStep(m), GroupFits(m, target), Lowered(TooWide(m, target), StatesOf(ios), minSize), n)
    modifies LabelsOf(ios)
    ensures StatesOf(ios) == Iterate(TruncateWidestStep(m), Lowered(TooWide(m, target), old(StatesOf(ios)), minSize), steps)
    ensures steps <= TotalBudget(Lowered(TooWide(m, target), old(StatesOf(ios)), minSize))
    ensures GroupWidthIn(m, StatesOf(ios)).Success? && GroupWidthIn(m, StatesOf(ios)).value <= target
    ensures forall j: nat :: j < steps ==>
      !GroupFits(m, target)(Iterate(TruncateWidestStep(m), Lowered(TooWide(m, target), old(StatesOf(ios)), minSize), j))
  {
    ghost var lowered := Lowered(TooWide(m, target), StatesOf(ios), minSize);
    ghost var n: nat :| n <= TotalBudget(lowered)
      && ReachedAfter(TruncateWidestStep(m), GroupFits(m, target), lowered, n);
    var current := LowerColumnFont(m, ios, target, minSize);
    steps := TruncateColumnUntilFits(m, ios, target, current, n);
  }

  class SvgTaskIOGroup {
    const ioType: string
    const listIO: seq<string>
    var verticalSpacing: int
    /** The group this column is: its IOs and its <g> element. */
    const group: SvgGroup<SvgTaskIO>

    /** Distinct IOs have distinct labels and distinct groups, and no IO's
        group is this column's. */
    ghost predicate Valid()
      reads this, group
    {
      && DistinctLabels(group.elements)
      && DistinctGroups(group.elements)
      && (forall io :: io in group.elements ==> io.group as object != group && io.group.xml as object != group)
    }

    ghost function Labels(): set<SvgElement>
      reads this, group
    {
      LabelsOf(group.elements)
    }

    ghost function IOGroups(): set<object>
      reads this, group
    {
      GroupsOf(group.elements)
    }

    function States(): seq<LabelState>
      reads this, group, Labels()
    {
      StatesOf(group.elements)
    }

    /** `SvgTaskIOGroup(list_io, io_type, vertical_spacing=10)`: one IO per
        label, in order, the i-th moved down by `i * vertical_spacing`. */
    constructor (listIO: seq<string>, ioType: string, cssFiles: map<string, string>, verticalSpacing: int := 10)
      ensures this.listIO == listIO && this.ioType == ioType && this.verticalSpacing == verticalSpacing
      ensures Valid() && fresh(group) && |group.elements| == |listIO|
      ensures group.xml.children == group.elements
      ensures forall i :: 0 <= i < |listIO| ==>
        group.elements[i].ioText == listIO[i] && group.elements[i].ioType == ioType
      ensures forall i :: 0 <= i < |listIO| ==>
        group.elements[i].group.translations == [(0, i * verticalSpacing)] && group.elements[i].group.Valid()
    {
      this.listIO := listIO;
      this.ioType := ioType;
      this.verticalSpacing := verticalSpacing;
      var ios := NewIOs(listIO, ioType, cssFiles);
      var g := new SvgGroup<SvgTaskIO>();
      g.AddElements(ios);
      group := g;
      new;
      assert Valid();
      SetVerticalSpacing(verticalSpacing);
      assert group.elements == ios;
    }

    /** `set_vertical_spacing(s)` as the source means it: the spacing is
        recorded and the i-th IO is translated down by `i * s`. */
    method SetVerticalSpacing(spacing: int)
      requires Valid()
      modifies this, IOGroups()
      ensures verticalSpacing == spacing
      ensures group.elements == old(group.elements) && Valid()
      ensures forall i :: 0 <= i < |group.elements| ==>
        group.elements[i].group.translations == old(group.elements[i].group.translations) + [(0, i * spacing)]
      ensures forall i :: 0 <= i < |group.elements| ==>
        (old(group.elements[i].group.Valid()) ==> group.elements[i].group.Valid())
    {
      verticalSpacing := spacing;
      TranslateEach(group.elements, spacing);
    }

    /** `set_vertical_spacing(s)` as written: it calls `set_translation`, which
        no class defines, so it raises for any non-empty column after recording
        the spacing. */
    method SetVerticalSpacingAsWritten(spacing: int) returns (r: Result<(), CallError>)
      modifies this
      ensures verticalSpacing == spacing
      ensures r.Failure? <==> group.elements != []
      ensures r.Failure? ==> r.error == UndefinedMethod("set_translation")
    {
      verticalSpacing := spacing;
      if group.elements != [] {
        return Failure(UndefinedMethod("set_translation"));
      }
      return Success(());
    }

    /** The `height` property: one vertical spacing per IO. */
    function Height(): int
      reads this, group
    {
      |group.elements| * verticalSpacing
    }

    /** The row of the i-th IO, `i * spacing` down from the top and one
        spacing high, lies within the column's height. */
    lemma RowWithinHeight(i: nat)
      requires i < |group.elements| && verticalSpacing >= 0
      ensures 0 <= i * verticalSpacing && (i + 1) * verticalSpacing <= Height()
    {
      assert (|group.elements| - (i + 1)) * verticalSpacing >= 0;
    }

    /** The `font_size` property. */
    function FontSize(): Result<real, TextError>
      reads this, group, Labels()
    {
      FontSizeOf(States())
    }

    /** `set_font_size(s)`: every label gets font size `s`, which the column's
        font size then reads back. */
    method SetFontSize(size: real)
      requires Valid()
      modifies Labels()
      ensures States() == WithFontSize(old(States()), size)
      ensures group.elements != [] ==> FontSize() == Success(size)
    {
      ghost var ss := States();
      SetFontSizes(group.elements, size);
      if group.elements != [] {
        FontSizeReadsBack(ss, size);
      }
    }

    /** The `width` property: the largest IO width, 0 for an empty column. */
    method Width(m: Metrics) returns (r: Result<real, TextError>)
      ensures r == GroupWidthIn(m, States())
    {
      r := ColumnWidth(m, group.elements);
    }

    /** `_truncate_text_by_one`: a scan with a running maximum, starting below
        every width and replacing it only by a strictly larger one, picks the
        first widest IO and truncates its textElement. An IO without a width raises
        before anything changes. */
    method TruncateTextByOne(m: Metrics) returns (err: Option<TextError>)
      requires Valid()
      modifies Labels()
      ensures err.Some? <==> Widths(m, old(States())).Failure?
      ensures States() == TruncateWidestIn(m, old(States()))
    {
      err := TruncateWidest(m, group.elements);
    }

    /** `modify_size_to_fit_width(target, min_font_size=5)`: an empty column is
        left alone; otherwise the first loop lowers the font of every label
        (`Lowered`) and the second truncates the widest label until the column
        is at most `target` wide, which happens exactly when some number of
        truncations within the total budget fits (`GroupFitsWithinBudget`);
        otherwise the source loops for ever. */
    method ModifySizeToFitWidth(m: Metrics, target: real, minSize: real := 5.0) returns (ghost steps: nat)
      requires Valid() && AllMeasurable(m, States())
      requires States() != [] ==> exists n: nat ::
        n <= TotalBudget(Lowered(TooWide(m, target), States(), minSize))
        && ReachedAfter(TruncateWidestStep(m), GroupFits(m, target), Lowered(TooWide(m, target), States(), minSize), n)
      modifies Labels()
      ensures old(States()) == [] ==> States() == old(States())
      ensures old(States()) != [] ==>
        States() == Iterate(TruncateWidestStep(m), Lowered(TooWide(m, target), old(States()), minSize), steps)
        && steps <= TotalBudget(Lowered(TooWide(m, target), old(States()), minSize))
        && GroupWidthIn(m, States()).Success? && GroupWidthIn(m, States()).value <= target
        && (forall j: nat :: j < steps ==>
              !GroupFits(m, target)(Iterate(TruncateWidestStep(m), Lowered(TooWide(m, target), old(States()), minSize), j)))
    {
      steps := 0;
      if group.elements != [] {
        steps := FitColumn(m, group.elements, target, minSize);
      }
    }
  }
}
