// A group of SVG elements (svg/svg_group.py): the list of members, the <g>
// XML element their XML is appended to, and the composed "transform" string.

module Groups {
  import opened Wrappers
  import opened Strings

  /** An XML element: tag, string attributes and children. A child stands for
      the XML of the group member it was built from. */
  class XmlElement<T> {
    const tag: string
    var attrib: map<string, string>
    var children: seq<T>

    constructor (tag: string)
      ensures this.tag == tag && attrib == map[] && children == []
    {
      this.tag := tag;
      attrib := map[];
      children := [];
    }

    /** `append(child)`: one more child at the end. */
    method Append(child: T)
      modifies this
      ensures children == old(children) + [child]
      ensures attrib == old(attrib)
    {
      children := children + [child];
    }

    /** `set(key, value)`. */
    method Set(key: string, value: string)
      modifies this
      ensures attrib == old(attrib)[key := value]
      ensures children == old(children)
    {
      attrib := attrib[key := value];
    }

    /** `get(key, default)`: the stored value, or `default` when there is none. */
    function Get(key: string, default: string): (v: string)
      reads this
      ensures key in attrib ==> v == attrib[key]
      ensures key !in attrib ==> v == default
    {
      if key in attrib then attrib[key] else default
    }
  }

  // ---------------------------------------------------------------------------
  // decimal integers, as Python's str(int) writes them

  predicate IsDigit(c: char) {
    '0' <= c <= '9'
  }

  function DigitChar(d: nat): (c: char)
    requires d < 10
    ensures IsDigit(c)
  {
    ('0' as int + d) as char
  }

  function DigitValue(c: char): (d: nat)
    requires IsDigit(c)
    ensures d < 10 && DigitChar(d) == c
  {
    c as int - '0' as int
  }

  /** The decimal digits of `n`, most significant first, without leading zeros. */
  function NatToString(n: nat): (s: string)
    ensures |s| >= 1 && (|s| > 1 ==> s[0] != '0')
    ensures forall i :: 0 <= i < |s| ==> IsDigit(s[i])
    decreases n
  {
    if n < 10 then [DigitChar(n)] else NatToString(n / 10) + [DigitChar(n % 10)]
  }

  /** `str(i)`: a minus sign before the digits of a negative number. */
  function IntToString(i: int): (s: string)
    ensures s != [] && (s[0] == '-' <==> i < 0)
    ensures forall k :: 0 <= k < |s| ==> s[k] != ' ' && s[k] != ','
  {
    if i < 0 then "-" + NatToString(-i) else NatToString(i)
  }

  /** Reading a non-empty string of digits. */
  function ParseNat(s: string): Option<nat>
    decreases |s|
  {
    if s == [] || !IsDigit(s[|s| - 1]) then None
    else if |s| == 1 then Some(DigitValue(s[0]))
    else match ParseNat(s[..|s| - 1])
      case Some(high) => Some(high * 10 + DigitValue(s[|s| - 1]))
      case None => None
  }

  /** Reading an optionally negative decimal integer. */
  function ParseInt(s: string): Option<int>
  {
    if s != [] && s[0] == '-' then
      match ParseNat(s[1..])
      case Some(n) => Some(-(n as int))
      case None => None
    else
      match ParseNat(s)
      case Some(n) => Some(n)
      case None => None
  }

  lemma {:induction false} NatRoundTrip(n: nat)
    ensures ParseNat(NatToString(n)) == Some(n)
    decreases n
  {
    if n >= 10 {
      NatRoundTrip(n / 10);
      var s := NatToString(n);
      assert s[..|s| - 1] == NatToString(n / 10);
    }
  }

  /** Writing an integer and reading it back gives the integer. */
  lemma IntRoundTrip(i: int)
    ensures ParseInt(IntToString(i)) == Some(i)
  {
    if i < 0 {
      NatRoundTrip(-i);
      assert IntToString(i)[1..] == NatToString(-i);
    } else {
      NatRoundTrip(i);
    }
  }

  // ---------------------------------------------------------------------------
  // the transform attribute

  type Translation = (int, int)

  /** `f"translate({x},{y})"`. */
  function TranslateText(x: int, y: int): (s: string)
    ensures |s| > 10 && s[..10] == "translate(" && s[|s| - 1] == ')'
    ensures forall k :: 0 <= k < |s| ==> s[k] != ' '
  {
    "translate(" + IntToString(x) + "," + IntToString(y) + ")"
  }

  /** The transform `translate` writes: the new translation after the current
      one and a space, or alone when there is no current transform. */
  function Compose(current: string, x: int, y: int): string
  {
    if current != "" then current + " " + TranslateText(x, y) else TranslateText(x, y)
  }

  function TranslateTexts(ts: seq<Translation>): (r: seq<string>)
    ensures |r| == |ts|
    ensures forall i :: 0 <= i < |ts| ==> r[i] == TranslateText(ts[i].0, ts[i].1)
  {
    seq(|ts|, i requires 0 <= i < |ts| => TranslateText(ts[i].0, ts[i].1))
  }

  /** The transform string after the translations `ts`, in order. */
  function Transform(ts: seq<Translation>): string
  {
    Join(TranslateTexts(ts), ' ')
  }

  /** One more `translate` call extends the transform of the earlier ones. */
  lemma ComposeStep(ts: seq<Translation>, x: int, y: int)
    ensures Compose(Transform(ts), x, y) == Transform(ts + [(x, y)])
  {
    var texts := TranslateTexts(ts);
    assert TranslateTexts(ts + [(x, y)]) == texts + [TranslateText(x, y)];
    if ts == [] {
      assert Transform(ts) == "";
    } else {
      JoinAppend(texts, TranslateText(x, y), ' ');
      assert Transform(ts) != "" by {
        assert |texts| == 1 || Join(texts, ' ') == texts[0] + [' '] + Join(texts[1..], ' ');
      }
    }
  }

  /** Reading one "translate(x,y)" back. */
  function ParseTranslate(s: string): Option<Translation>
  {
    if |s| <= 10 || s[..10] != "translate(" || s[|s| - 1] != ')' then None
    else
      var parts := Split(s[10..|s| - 1], ',');
      if |parts| != 2 then None
      else match (ParseInt(parts[0]), ParseInt(parts[1]))
        case (Some(x), Some(y)) => Some((x, y))
        case _ => None
  }

  function ParseAll(pieces: seq<string>): Option<seq<Translation>>
    decreases |pieces|
  {
    if pieces == [] then Some([])
    else match (ParseTranslate(pieces[0]), ParseAll(pieces[1..]))
      case (Some(t), Some(rest)) => Some([t] + rest)
      case _ => None
  }

  /** Reading a transform string back into its translations. */
  function ParseTransform(s: string): Option<seq<Translation>>
  {
    if s == "" then Some([]) else ParseAll(Split(s, ' '))
  }

  lemma TranslateRoundTrip(x: int, y: int)
    ensures ParseTranslate(TranslateText(x, y)) == Some((x, y))
  {
    var s := TranslateText(x, y);
    var a, b := IntToString(x), IntToString(y);
    assert s[10..|s| - 1] == a + [','] + b;
    SplitPrefix(a, b, ',');
    SplitNoSeparator(b, ',');
    IntRoundTrip(x);
    IntRoundTrip(y);
  }

  lemma {:induction false} ParseAllTexts(ts: seq<Translation>)
    ensures ParseAll(TranslateTexts(ts)) == Some(ts)
    decreases |ts|
  {
    if ts != [] {
      var texts := TranslateTexts(ts);
      ParseAllTexts(ts[1..]);
      TranslateRoundTrip(ts[0].0, ts[0].1);
      assert texts[1..] == TranslateTexts(ts[1..]);
      assert ParseTranslate(texts[0]) == Some(ts[0]);
      assert ParseAll(texts) == Some([ts[0]] + ts[1..]);
      assert [ts[0]] + ts[1..] == ts;
    }
  }

  /** The transform string records every translation, in order. */
  lemma TransformRoundTrip(ts: seq<Translation>)
    ensures ParseTransform(Transform(ts)) == Some(ts)
  {
    var texts := TranslateTexts(ts);
    if ts != [] {
      assert Transform(ts) != "" by {
        assert |texts| == 1 || Join(texts, ' ') == texts[0] + [' '] + Join(texts[1..], ' ');
      }
      JoinSplit(texts, ' ');
      ParseAllTexts(ts);
    }
  }

  // ---------------------------------------------------------------------------
  // the group

  class SvgGroup<T> {
    var elements: seq<T>
    const tag: string
    const xml: XmlElement<T>
    /** Every (x, y) passed to `translate`, in order. */
    ghost var translations: seq<Translation>

    /** The transform attribute is the composition of the translations so far. */
    ghost predicate Valid()
      reads this, xml
    {
      xml.Get("transform", "") == Transform(translations)
    }

    /** A new group: no members, an empty <g> element, no transform. */
    constructor ()
      ensures elements == [] && tag == "group"
      ensures fresh(xml) && xml.tag == "g" && xml.attrib == map[] && xml.children == []
      ensures translations == [] && Valid()
    {
      elements := [];
      tag := "group";
      xml := new XmlElement("g");
      translations := [];
    }

    /** `populate_group`: appends the XML of every member, old and new alike. */
    method PopulateGroup()
      modifies xml
      ensures xml.children == old(xml.children) + elements
      ensures xml.attrib == old(xml.attrib)
    {
      for i := 0 to |elements|
        invariant xml.children == old(xml.children) + elements[..i]
        invariant xml.attrib == old(xml.attrib)
      {
        xml.Append(elements[i]);
        assert elements[..i + 1] == elements[..i] + [elements[i]];
      }
      assert elements[..|elements|] == elements;
    }

    /** `add_elements(es)`: the new members follow the old ones, and the XML
        grows by the whole member list. */
    method AddElements(es: seq<T>)
      modifies this, xml
      ensures elements == old(elements) + es
      ensures xml.children == old(xml.children) + elements
      ensures xml.attrib == old(xml.attrib) && translations == old(translations)
      ensures old(Valid()) ==> Valid()
    {
      for i := 0 to |es|
        invariant elements == old(elements) + es[..i]
        invariant xml.children == old(xml.children) && xml.attrib == old(xml.attrib)
        invariant translations == old(translations)
      {
        elements := elements + [es[i]];
        assert es[..i + 1] == es[..i] + [es[i]];
      }
      assert es[..|es|] == es;
      PopulateGroup();
    }

    /** `translate(x, y)`, by default (0, 0): the transform gains
        "translate(x,y)", after a space when one was there; the earlier
        transform stays as its prefix. */
    method Translate(x: int := 0, y: int := 0)
      modifies this, xml
      ensures xml.attrib == old(xml.attrib)["transform" := Compose(old(xml.Get("transform", "")), x, y)]
      ensures xml.Get("transform", "")[..|old(xml.Get("transform", ""))|] == old(xml.Get("transform", ""))
      ensures xml.children == old(xml.children) && elements == old(elements)
      ensures translations == old(translations) + [(x, y)]
      ensures old(Valid()) ==> Valid()
    {
      var current := xml.Get("transform", "");
      ghost var valid := Valid();
      xml.Set("transform", Compose(current, x, y));
      translations := translations + [(x, y)];
      if valid {
        ComposeStep(old(translations), x, y);
      }
    }

    /** `get_xml_element`: the group's own XML element, not a copy. */
    function GetXmlElement(): (e: XmlElement<T>)
      ensures e == xml
    {
      xml
    }

    /** While the group is valid its transform reads back as its translations. */
    lemma TransformReadsBack()
      requires Valid()
      ensures ParseTransform(xml.Get("transform", "")) == Some(translations)
    {
      TransformRoundTrip(translations);
    }
  }
}
