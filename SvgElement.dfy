// A generic SVG element (svg/svg_element.py): a tag out of a fixed set, an
// optional CSS class with the <style> text loaded for it, a mutable map of
// attributes and an optional text body.

module Elements {
  import opened Wrappers

  /** An attribute value. The source stores every value as a string; the model
      keeps the two numeric forms it writes apart from plain text:
      `str(x)` is `Number(x)`, `f"{x}px"` is `Pixels(x)`, and `Text` is a
      string that does not read as a number. */
  datatype AttrValue = Text(s: string) | Number(n: real) | Pixels(n: real)

  type Attributes = map<string, AttrValue>

  /** The four tags an element may carry. */
  predicate ValidTag(tag: string) {
    tag == "rect" || tag == "circle" || tag == "text" || tag == "line"
  }

  datatype ElementError = InvalidTag(tag: string)

  /** The text of the <style> element wrapping a CSS file's content. */
  function StyleText(css: string): (r: string)
    ensures |r| == |css| + 14
    ensures r[..10] == "<![CDATA[\n" && r[|r| - 4..] == "\n]]>"
    ensures r[10..|r| - 4] == css
  {
    "<![CDATA[\n" + css + "\n]]>"
  }

  /** The style loaded for a CSS class: only a non-empty class whose file exists
      (`cssFiles` maps each class to its file's content) yields one. */
  function LoadStyle(cssClass: Option<string>, cssFiles: map<string, string>): (r: Option<string>)
    ensures r.Some? <==> cssClass.Some? && cssClass.value != "" && cssClass.value in cssFiles
    ensures r.Some? ==> r.value == StyleText(cssFiles[cssClass.value])
  {
    match cssClass
    case Some(c) => if c != "" && c in cssFiles then Some(StyleText(cssFiles[c])) else None
    case None => None
  }

  /** The attribute names `set_position` writes: cx/cy for a circle, x/y otherwise. */
  function PositionKeys(tag: string): (string, string)
  {
    if tag == "circle" then ("cx", "cy") else ("x", "y")
  }

  class SvgElement {
    const tag: string
    const cssClass: Option<string>
    /** The <style> element's text, or None when no CSS file was found. */
    const style: Option<string>
    var attr: Attributes
    var text: Option<string>

    /** `SvgElement(tag, css_class, attr, text)` for a valid tag; a missing
        attribute map starts empty. */
    constructor (tag: string, cssClass: Option<string>, attr: Option<Attributes>, text: Option<string>, cssFiles: map<string, string>)
      requires ValidTag(tag)
      ensures this.tag == tag && this.cssClass == cssClass
      ensures this.style == LoadStyle(cssClass, cssFiles)
      ensures this.attr == (if attr.Some? then attr.value else map[])
      ensures this.text == text
    {
      this.tag := tag;
      this.cssClass := cssClass;
      this.attr := attr.GetOr(map[]);
      this.text := text;
      this.style := LoadStyle(cssClass, cssFiles);
    }

    /** `set_attr(key, value)`: `key` now maps to `value`, every other key is untouched. */
    method SetAttr(key: string, value: AttrValue)
      modifies this
      ensures attr == old(attr)[key := value]
      ensures GetAttr(key) == Some(value)
      ensures forall k :: k != key ==> GetAttr(k) == old(GetAttr(k))
      ensures attr.Keys == old(attr.Keys) + {key}
      ensures text == old(text)
    {
      attr := attr[key := value];
    }

    /** `get_attr(key)`: the value stored under `key`, None when there is none. */
    function GetAttr(key: string): (v: Option<AttrValue>)
      reads this
      ensures v.None? <==> key !in attr
      ensures v.Some? ==> v.value == attr[key]
    {
      if key !in attr then None else Some(attr[key])
    }

    /** `set_position(x, y)`: writes the given coordinates under cx/cy for a
        circle and x/y otherwise; a None coordinate leaves its attribute as it was
        and no other attribute changes. */
    method SetPosition(x: Option<real> := None, y: Option<real> := None)
      modifies this
      ensures x.Some? ==> GetAttr(PositionKeys(tag).0) == Some(Number(x.value))
      ensures y.Some? ==> GetAttr(PositionKeys(tag).1) == Some(Number(y.value))
      ensures x.None? ==> GetAttr(PositionKeys(tag).0) == old(GetAttr(PositionKeys(tag).0))
      ensures y.None? ==> GetAttr(PositionKeys(tag).1) == old(GetAttr(PositionKeys(tag).1))
      ensures forall k :: k != PositionKeys(tag).0 && k != PositionKeys(tag).1 ==> GetAttr(k) == old(GetAttr(k))
      ensures text == old(text)
    {
      var (keyX, keyY) := PositionKeys(tag);
      if x.Some? {
        SetAttr(keyX, Number(x.value));
      }
      if y.Some? {
        SetAttr(keyY, Number(y.value));
      }
    }

    /** The `text` property setter; the getter reads the field. */
    method SetText(value: Option<string>)
      modifies this
      ensures text == value
      ensures attr == old(attr)
    {
      text := value;
    }
  }

  /** Building an element: an invalid tag is refused with `InvalidTag`, any
      valid one yields a fresh element. */
  method NewElement(tag: string, cssClass: Option<string>, attr: Option<Attributes>, text: Option<string>, cssFiles: map<string, string>)
    returns (r: Result<SvgElement, ElementError>)
    ensures r.Failure? <==> !ValidTag(tag)
    ensures r.Failure? ==> r.error == InvalidTag(tag)
    ensures r.Success? ==> fresh(r.value) && r.value.tag == tag && r.value.text == text
    ensures r.Success? ==> r.value.attr == (if attr.Some? then attr.value else map[])
    ensures r.Success? ==> r.value.style == LoadStyle(cssClass, cssFiles)
  {
    if !ValidTag(tag) {
      return Failure(InvalidTag(tag));
    }
    var e := new SvgElement(tag, cssClass, attr, text, cssFiles);
    return Success(e);
  }
}
