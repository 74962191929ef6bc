// Lookup of one geometry parameter in the task configuration by a
// slash-separated key path "element/property" (utils/utils_tasks.py).
// The parsed JSON configuration is passed in as a map of maps.

module TaskConfig {
  import opened Wrappers
  import opened Strings

  /** Why a lookup fails: the path names no property (Python's IndexError),
      or the element or the property is not in the configuration (KeyError). */
  datatype ConfigError =
    | MissingSegment
    | MissingElement(element: string)
    | MissingProperty(element: string, property: string)

  const Slash: set<char> := {'/'}

  /** The path's segments: strip leading, then trailing slashes, then split on '/'. */
  function KeyPath(url: string): (keys: seq<string>)
    ensures |keys| >= 1
  {
    Split(RStrip(LStrip(url, Slash), Slash), '/')
  }

  /** `get_task_config_param`: config[element][property] for the first two segments.
      A path with fewer than two segments fails before any lookup; the element
      is looked up before the property. */
  function GetTaskConfigParam<V>(config: map<string, map<string, V>>, url: string): (r: Result<V, ConfigError>)
    ensures r == Failure(MissingSegment) <==> |KeyPath(url)| < 2
    ensures r.Success? ==> exists e, p :: e in config && p in config[e] && r.value == config[e][p]
  {
    var keys := KeyPath(url);
    if |keys| < 2 then Failure(MissingSegment)
    else
      var element, property := keys[0], keys[1];
      if element !in config then Failure(MissingElement(element))
      else if property !in config[element] then Failure(MissingProperty(element, property))
      else Success(config[element][property])
  }

  /** A segment is a non-empty string without a slash. */
  predicate Segment(s: string) {
    s != [] && '/' !in s
  }

  /** Joining two segments with '/' gives a path that parses back to them. */
  lemma KeyPathOfPair(e: string, p: string)
    requires Segment(e) && Segment(p)
    ensures KeyPath(e + "/" + p) == [e, p]
  {
    var url := e + "/" + p;
    assert url[0] == e[0];
    assert LStrip(url, Slash) == url;
    assert url[|url| - 1] == p[|p| - 1];
    assert RStrip(url, Slash) == url;
    SplitPrefix(e, p, '/');
    SplitNoSeparator(p, '/');
  }

  /** "element/property" yields config[element][property], or names what is missing,
      the element taking precedence over the property. */
  lemma ElementProperty<V>(config: map<string, map<string, V>>, e: string, p: string)
    requires Segment(e) && Segment(p)
    ensures GetTaskConfigParam(config, e + "/" + p) ==
      if e !in config then Failure(MissingElement(e))
      else if p !in config[e] then Failure(MissingProperty(e, p))
      else Success(config[e][p])
  {
    KeyPathOfPair(e, p);
  }

  /** A string made of slashes strips to nothing. */
  lemma StripAllSlashes(s: string)
    requires AllIn(s, Slash)
    ensures LStrip(s, Slash) == [] && RStrip(s, Slash) == []
  {
  }

  /** Leading and trailing slashes, any number of them, do not change the path. */
  lemma SlashesIgnored(url: string, lead: string, trail: string)
    requires AllIn(lead, Slash) && AllIn(trail, Slash)
    ensures KeyPath(lead + url + trail) == KeyPath(url)
  {
    assert lead + url + trail == lead + (url + trail);
    LStripConcat(lead, url + trail, Slash);
    LStripConcat(url, trail, Slash);
    StripAllSlashes(trail);
    if !AllIn(url, Slash) {
      RStripConcat(LStrip(url, Slash), trail, Slash);
    }
  }

  /** Hence the lookup result does not depend on surrounding slashes. */
  lemma LookupIgnoresSlashes<V>(config: map<string, map<string, V>>, url: string, lead: string, trail: string)
    requires AllIn(lead, Slash) && AllIn(trail, Slash)
    ensures GetTaskConfigParam(config, lead + url + trail) == GetTaskConfigParam(config, url)
  {
    SlashesIgnored(url, lead, trail);
  }

  /** Two leading segments are split off whole, whatever follows them. */
  lemma SplitTwo(e: string, p: string, t: string)
    requires '/' !in e && '/' !in p
    ensures Split(e + "/" + p + "/" + t, '/') == [e, p] + Split(t, '/')
  {
    assert e + "/" + p + "/" + t == e + ['/'] + (p + ['/'] + t);
    SplitPrefix(e, p + ['/'] + t, '/');
    SplitPrefix(p, t, '/');
  }

  /** Right-stripping "e/p/rest" keeps "e/p", and the separator after it unless
      `rest` is all slashes. */
  lemma StripAfterPair(e: string, p: string, rest: string)
    requires Segment(e) && Segment(p)
    ensures RStrip(e + "/" + p + "/" + rest, Slash) ==
      if AllIn(rest, Slash) then e + "/" + p else e + "/" + p + "/" + RStrip(rest, Slash)
  {
    var ep := e + "/" + p;
    RStripConcat(ep + "/", rest, Slash);
    assert (ep + "/")[..|ep|] == ep;
    assert ep[|ep| - 1] == p[|p| - 1];
  }

  /** The first two segments of "e/p/rest" are e and p. */
  lemma KeyPathOfLonger(e: string, p: string, rest: string)
    requires Segment(e) && Segment(p)
    ensures var keys := KeyPath(e + "/" + p + "/" + rest);
      |keys| >= 2 && keys[0] == e && keys[1] == p
  {
    var url := e + "/" + p + "/" + rest;
    assert url[0] == e[0];
    assert LStrip(url, Slash) == url;
    StripAfterPair(e, p, rest);
    if AllIn(rest, Slash) {
      KeyPathOfPair(e, p);
      assert RStrip(LStrip(e + "/" + p, Slash), Slash) == e + "/" + p;
    } else {
      SplitTwo(e, p, RStrip(rest, Slash));
    }
  }

  /** Segments after the second are parsed but never looked at. */
  lemma ExtraSegmentsIgnored<V>(config: map<string, map<string, V>>, e: string, p: string, rest: string)
    requires Segment(e) && Segment(p)
    ensures GetTaskConfigParam(config, e + "/" + p + "/" + rest) == GetTaskConfigParam(config, e + "/" + p)
  {
    KeyPathOfPair(e, p);
    KeyPathOfLonger(e, p, rest);
  }

  /** A path whose stripped form holds no slash names no property. */
  lemma SingleSegment<V>(config: map<string, map<string, V>>, url: string)
    ensures GetTaskConfigParam(config, url) == Failure(MissingSegment) <==> '/' !in RStrip(LStrip(url, Slash), Slash)
  {
    SplitOnePiece(RStrip(LStrip(url, Slash), Slash), '/');
  }
}
