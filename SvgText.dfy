// A text element (svg/svg_text.py): its font size kept in the "font-size"
// attribute, its width measured by an outside text-metrics function, and the
// shrink-to-fit procedure that first lowers the font and then truncates the
// text behind an ellipsis.

module Texts {
  import opened Wrappers
  import opened Strings
  import opened Elements
  import opened Iteration

  const Ellipsis: char := '…'

  type Length = r: real | r >= 0.0

  /** What the source learns from outside: the font family a style text names
      (the regular-expression search, None when it finds none) and the width
      of a text in a font at a size (reportlab's `stringWidth`). */
  datatype Metrics = Metrics(fontFamily: string -> Option<string>, stringWidth: (string, string, real) -> Length)

  /** Why reading a font property raises: a font-size that is not a number
      (ValueError), a style that names no font family (the unbound name). */
  datatype TextError = FontSizeNotANumber(value: string) | NoFontFamily

  // ---------------------------------------------------------------------------
  // font size, font name, width, height

  /** `_extract_font_size` on an attribute map: the number under "font-size",
      0 without one; a value that is not a number raises. */
  function FontSizeIn(attr: Attributes): (r: Result<real, TextError>)
    ensures "font-size" !in attr ==> r == Success(0.0)
    ensures r.Failure? <==> "font-size" in attr && attr["font-size"].Text?
    ensures "font-size" in attr && !attr["font-size"].Text? ==> r == Success(attr["font-size"].n)
  {
    if "font-size" !in attr then Success(0.0)
    else match attr["font-size"]
      case Pixels(n) => Success(n)
      case Number(n) => Success(n)
      case Text(s) => Failure(FontSizeNotANumber(s))
  }

  /** The `font_size` property. */
  function FontSize(e: SvgElement): Result<real, TextError>
    reads e
  {
    FontSizeIn(e.attr)
  }

  /** `_extract_font_name`: Helvetica without a style, else the family the style names. */
  function FontNameIn(style: Option<string>, m: Metrics): (r: Result<string, TextError>)
    ensures style.None? ==> r == Success("Helvetica")
    ensures style.Some? ==> (r.Failure? <==> m.fontFamily(style.value).None?)
    ensures style.Some? && r.Success? ==> r.value == m.fontFamily(style.value).value
  {
    match style
    case None => Success("Helvetica")
    case Some(css) =>
      match m.fontFamily(css)
      case Some(name) => Success(name)
      case None => Failure(NoFontFamily)
  }

  /** The `font_name` property. */
  function FontName(e: SvgElement, m: Metrics): Result<string, TextError>
  {
    FontNameIn(e.style, m)
  }

  /** The font properties a width needs can be read. */
  predicate MeasurableIn(attr: Attributes, style: Option<string>, m: Metrics)
  {
    FontSizeIn(attr).Success? && FontNameIn(style, m).Success?
  }

  predicate Measurable(e: SvgElement, m: Metrics)
    reads e
  {
    MeasurableIn(e.attr, e.style, m)
  }

  /** The width of an optional text: 0 without one. */
  function TextWidth(m: Metrics, text: Option<string>, name: string, size: real): Length
  {
    match text
    case None => 0.0
    case Some(t) => m.stringWidth(t, name, size)
  }

  /** The `width` property on an element's parts: 0 without text, else the
      measured width; the font size is read before the font name. */
  function WidthOf(m: Metrics, text: Option<string>, attr: Attributes, style: Option<string>): (r: Result<real, TextError>)
    ensures text.None? ==> r == Success(0.0)
    ensures MeasurableIn(attr, style, m) ==> r == Success(TextWidth(m, text, FontNameIn(style, m).value, FontSizeIn(attr).value))
    ensures text.Some? && FontSizeIn(attr).Failure? ==> r == Failure(FontSizeIn(attr).error)
  {
    match text
    case None => Success(0.0)
    case Some(t) =>
      match FontSizeIn(attr)
      case Failure(err) => Failure(err)
      case Success(size) =>
        match FontNameIn(style, m)
        case Failure(err) => Failure(err)
        case Success(name) => Success(m.stringWidth(t, name, size))
  }

  /** The `width` property. */
  function Width(e: SvgElement, m: Metrics): Result<real, TextError>
    reads e
  {
    WidthOf(m, e.text, e.attr, e.style)
  }

  /** The `height` property: the font size itself. */
  function Height(e: SvgElement): Result<real, TextError>
    reads e
  {
    FontSize(e)
  }

  /** `set_font_size(s)`: writes "{s}px"; the font size and the height read `s` back. */
  method SetFontSize(e: SvgElement, size: real)
    modifies e
    ensures FontSizeIn(e.attr) == Success(size) && Height(e) == Success(size)
    ensures e.attr == old(e.attr)["font-size" := Pixels(size)]
    ensures e.text == old(e.text)
  {
    e.SetAttr("font-size", Pixels(size));
  }

  /** `set_dominant_baseline(b)`: writes "dominant-baseline"; nothing else changes. */
  method SetDominantBaseline(e: SvgElement, baseline: string)
    modifies e
    ensures e.attr == old(e.attr)["dominant-baseline" := Text(baseline)]
    ensures e.text == old(e.text)
  {
    e.SetAttr("dominant-baseline", Text(baseline));
  }

  /** `set_text_anchor(a)`: writes "text-anchor"; nothing else changes. */
  method SetTextAnchor(e: SvgElement, anchor: string)
    modifies e
    ensures e.attr == old(e.attr)["text-anchor" := Text(anchor)]
    ensures e.text == old(e.text)
  {
    e.SetAttr("text-anchor", Text(anchor));
  }

  /** The attributes a new text element starts with. */
  function InitialTextAttributes(x: int, y: int): Attributes
  {
    map["x" := Number(x as real), "y" := Number(y as real), "text-anchor" := Text("start"),
        "dominant-baseline" := Text("middle"), "font-size" := Pixels(6.0)]
  }

  /** `SvgText(text, x, y, css_class)`: a text element at (x, y), anchored at its
      start, centred on its baseline, in a 6px font. */
  method NewText(text: string, x: int, y: int, cssClass: Option<string>, cssFiles: map<string, string>)
    returns (e: SvgElement)
    ensures fresh(e) && e.tag == "text" && e.text == Some(text)
    ensures e.attr == InitialTextAttributes(x, y)
    ensures e.style == LoadStyle(cssClass, cssFiles)
    ensures FontSizeIn(e.attr) == Success(6.0)
  {
    e := new SvgElement("text", cssClass, Some(InitialTextAttributes(x, y)), Some(text), cssFiles);
  }

  // ---------------------------------------------------------------------------
  // truncation behind an ellipsis

  /** The text with trailing ellipses, then trailing whitespace, removed. */
  function Stripped(t: string): string
  {
    RStripSpace(RStrip(t, {Ellipsis}))
  }

  /** `_truncate_text_by_one` on a text: strip, drop the last character, strip
      whitespace again and append the ellipsis. */
  function Truncate(t: string): string
  {
    RStripSpace(DropLast(Stripped(t))) + [Ellipsis]
  }

  /** A truncated text ends in the ellipsis, and what precedes it is a prefix of
      the original, shorter than the stripped text unless that is empty, in
      which case the ellipsis is all that is left. */
  lemma TruncateShape(t: string)
    ensures var r := Truncate(t);
      && |r| >= 1 && r[|r| - 1] == Ellipsis
      && |r| - 1 <= |Stripped(t)| <= |t|
      && r[..|r| - 1] == t[..|r| - 1]
      && (Stripped(t) != [] ==> |r| - 1 < |Stripped(t)|)
      && (Stripped(t) == [] ==> r == [Ellipsis])
  {
    var s := Stripped(t);
    var kept := RStripSpace(DropLast(s));
    assert s == t[..|s|];
    assert kept == s[..|kept|];
    assert Truncate(t)[..|kept|] == kept;
  }

  /** The ellipsis alone is left as it is. */
  lemma EllipsisFixpoint()
    ensures Truncate([Ellipsis]) == [Ellipsis]
  {
    assert RStrip([Ellipsis], {Ellipsis}) == [];
  }

  /** Truncation of an optional text: no text stays no text. */
  function TruncateText(text: Option<string>): Option<string>
  {
    match text
    case None => None
    case Some(t) => Some(Truncate(t))
  }

  /** `_truncate_text_by_one`: the text is truncated once, the attributes stay. */
  method TruncateTextByOne(e: SvgElement)
    modifies e
    ensures e.text == TruncateText(old(e.text))
    ensures e.attr == old(e.attr)
  {
    if e.text.Some? {
      e.SetText(Some(Truncate(e.text.value)));
    }
  }

  /** No text, or the ellipsis alone: what truncation no longer changes. */
  predicate Settled(text: Option<string>) {
    text.None? || text.value == [Ellipsis]
  }

  /** A bound on how many truncations can still change the text: none once
      settled, else its length, plus one unless it already ends in the ellipsis. */
  function Budget(text: Option<string>): nat
  {
    if Settled(text) then 0
    else if text.value != [] && text.value[|text.value| - 1] == Ellipsis then |text.value|
    else |text.value| + 1
  }

  /** A text ending in the ellipsis loses at least that much when stripped. */
  lemma EllipsisStripped(t: string)
    requires t != [] && t[|t| - 1] == Ellipsis
    ensures |Stripped(t)| < |t|
  {
    assert RStrip(t, {Ellipsis}) != t;
  }

  /** Truncation leaves a settled text alone and otherwise uses up budget. */
  lemma TruncateStep(text: Option<string>)
    ensures Settled(text) ==> TruncateText(text) == text
    ensures !Settled(text) ==> Budget(TruncateText(text)) < Budget(text)
  {
    if text.Some? {
      var t := text.value;
      if t == [Ellipsis] {
        EllipsisFixpoint();
      } else {
        TruncateShape(t);
        if t != [] && t[|t| - 1] == Ellipsis {
          EllipsisStripped(t);
        }
      }
    }
  }

  /** Truncation changes only unsettled texts, and uses up budget when it does. */
  lemma TruncationShrinks()
    ensures Shrinks(TruncateText, Budget)
  {
    forall x: Option<string> | TruncateText(x) != x
      ensures Budget(TruncateText(x)) < Budget(x)
    {
      TruncateStep(x);
    }
  }

  /** The goal of the truncating loop: no wider than `target`. */
  function FitsWidth(m: Metrics, name: string, size: real, target: real): Option<string> -> bool
  {
    text => TextWidth(m, text, name, size) <= target
  }

  /** Some number of truncations makes a text fit exactly when a number within
      its budget does: the truncating loop ends if and only if this holds. */
  lemma FitsWithinBudget(m: Metrics, text: Option<string>, name: string, size: real, target: real)
    ensures (exists n: nat :: ReachedAfter(TruncateText, FitsWidth(m, name, size, target), text, n))
        <==> (exists n: nat :: n <= Budget(text) && ReachedAfter(TruncateText, FitsWidth(m, name, size, target), text, n))
  {
    TruncationShrinks();
    ReachedWithinMeasure(TruncateText, Budget, FitsWidth(m, name, size, target), text);
  }

  /** A text that the ellipsis alone would fit is always cut to size. */
  lemma EllipsisFitSuffices(m: Metrics, t: string, name: string, size: real, target: real)
    requires m.stringWidth([Ellipsis], name, size) <= target
    ensures exists n: nat :: n <= Budget(Some(t)) && ReachedAfter(TruncateText, FitsWidth(m, name, size, target), Some(t), n)
  {
    TruncationShrinks();
    Settles(TruncateText, Budget, Some(t), Budget(Some(t)));
    TruncateStep(Iterate(TruncateText, Some(t), Budget(Some(t))));
    assert ReachedAfter(TruncateText, FitsWidth(m, name, size, target), Some(t), Budget(Some(t)));
  }

  // ---------------------------------------------------------------------------
  // shrink to fit

  /** How many times the first loop of `modify_text_to_fit_width` lowers the
      font by 1: while the text is too wide and the size is at least `minSize`. */
  function ShrinkSteps(m: Metrics, text: Option<string>, name: string, size: real, target: real, minSize: real): (k: nat)
    ensures k == 0 || size - k as real >= minSize - 1.0
    ensures TextWidth(m, text, name, size - k as real) <= target || size - k as real < minSize
    decreases if size >= minSize then (size - minSize).Floor + 1 else 0
  {
    if target < TextWidth(m, text, name, size) && size >= minSize then
      1 + ShrinkSteps(m, text, name, size - 1.0, target, minSize)
    else
      0
  }

  /** Each pass of the first loop is one of its steps. */
  lemma ShrinkStep(m: Metrics, text: Option<string>, name: string, size: real, target: real, minSize: real)
    requires target < TextWidth(m, text, name, size) && size >= minSize
    ensures ShrinkSteps(m, text, name, size, target, minSize) == 1 + ShrinkSteps(m, text, name, size - 1.0, target, minSize)
  {
  }

  /** The font size the first loop ends with. */
  function FinalSize(m: Metrics, text: Option<string>, attr: Attributes, style: Option<string>, target: real, minSize: real): (r: real)
    requires MeasurableIn(attr, style, m)
  {
    var size := FontSizeIn(attr).value;
    size - ShrinkSteps(m, text, FontNameIn(style, m).value, size, target, minSize) as real
  }

  /** The first loop of `modify_text_to_fit_width`: lower the font by 1 while
      the text is wider than `target` and the size is at least `minSize`. */
  method LowerFont(e: SvgElement, m: Metrics, target: real, minSize: real) returns (current: real)
    requires Measurable(e, m)
    modifies e
    ensures Measurable(e, m) && e.text == old(e.text)
    ensures FontSizeIn(e.attr) == Success(FinalSize(m, old(e.text), old(e.attr), e.style, target, minSize))
    ensures current == TextWidth(m, e.text, FontNameIn(e.style, m).value, FontSizeIn(e.attr).value)
    ensures e.attr == old(e.attr) || e.attr == old(e.attr)["font-size" := Pixels(FontSizeIn(e.attr).value)]
  {
    ghost var name := FontNameIn(e.style, m).value;
    ghost var final := FinalSize(m, e.text, e.attr, e.style, target, minSize);
    ghost var text0, attr0 := e.text, e.attr;
    ghost var size := FontSizeIn(e.attr).value;
    current := Width(e, m).value;
    while target < current && FontSizeIn(e.attr).value >= minSize
      invariant e.text == text0 && FontSizeIn(e.attr) == Success(size)
      invariant size - ShrinkSteps(m, text0, name, size, target, minSize) as real == final
      invariant current == TextWidth(m, text0, name, size)
      invariant e.attr == attr0 || e.attr == attr0["font-size" := Pixels(size)]
      decreases ShrinkSteps(m, text0, name, size, target, minSize)
    {
      ShrinkStep(m, text0, name, size, target, minSize);
      SetFontSize(e, FontSizeIn(e.attr).value - 1.0);
      size := size - 1.0;
      current := Width(e, m).value;
    }
  }

  /** The second loop of `modify_text_to_fit_width`: truncate until the width is
      at most `target`; `n` truncations are known to fit. */
  method TruncateUntilFits(e: SvgElement, m: Metrics, target: real, current: real, ghost n: nat) returns (ghost steps: nat)
    requires Measurable(e, m)
    requires current == TextWidth(m, e.text, FontNameIn(e.style, m).value, FontSizeIn(e.attr).value)
    requires TextWidth(m, Iterate(TruncateText, e.text, n), FontNameIn(e.style, m).value, FontSizeIn(e.attr).value) <= target
    modifies e
    ensures e.text == Iterate(TruncateText, old(e.text), steps) && steps <= n
    ensures e.attr == old(e.attr)
    ensures TextWidth(m, e.text, FontNameIn(e.style, m).value, FontSizeIn(e.attr).value) <= target
    ensures forall j: nat :: j < steps ==>
      target < TextWidth(m, Iterate(TruncateText, old(e.text), j), FontNameIn(e.style, m).value, FontSizeIn(e.attr).value)
  {
    ghost var name, size, text0 := FontNameIn(e.style, m).value, FontSizeIn(e.attr).value, e.text;
    var width := current;
    steps := 0;
    while target < width
      invariant e.text == Iterate(TruncateText, text0, steps) && steps <= n
      invariant e.attr == old(e.attr)
      invariant width == TextWidth(m, e.text, name, size)
      invariant NotReachedBefore(TruncateText, FitsWidth(m, name, size, target), text0, steps)
      decreases n - steps
    {
      assert steps < n;
      NotReachedBeforeStep(TruncateText, FitsWidth(m, name, size, target), text0, steps);
      TruncateTextByOne(e);
      steps := steps + 1;
      width := Width(e, m).value;
    }
  }

  /** `modify_text_to_fit_width(target, min_font_size=6)`. The first loop lowers
      the font; the second truncates until the width is at most `target`, which
      happens exactly when some truncation fits at the final size
      (`FitsWithinBudget`); otherwise the source loops for ever. */
  method ModifyTextToFitWidth(e: SvgElement, m: Metrics, target: real, minSize: real := 6.0)
    returns (ghost steps: nat)
    requires Measurable(e, m)
    requires exists n: nat ::
      n <= Budget(e.text) && ReachedAfter(TruncateText, FitsWidth(m, FontName(e, m).value, FinalSize(m, e.text, e.attr, e.style, target, minSize), target), e.text, n)
    modifies e
    ensures Measurable(e, m) && Width(e, m).value <= target
    ensures FontSize(e) == Success(FinalSize(m, old(e.text), old(e.attr), e.style, target, minSize))
    ensures e.text == Iterate(TruncateText, old(e.text), steps) && steps <= Budget(old(e.text))
    ensures forall j: nat :: j < steps ==>
      target < TextWidth(m, Iterate(TruncateText, old(e.text), j), FontName(e, m).value, FontSize(e).value)
    ensures e.attr == old(e.attr) || e.attr == old(e.attr)["font-size" := Pixels(FontSize(e).value)]
  {
    ghost var n: nat :| n <= Budget(e.text)
      && ReachedAfter(TruncateText, FitsWidth(m, FontName(e, m).value, FinalSize(m, e.text, e.attr, e.style, target, minSize), target), e.text, n);
    var current := LowerFont(e, m, target, minSize);
    steps := TruncateUntilFits(e, m, target, current, n);
  }
}
