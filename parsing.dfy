/** The extraction helpers every CLF parser is built from: the parser configuration,
    attribute retrieval, the 0/1/many child lookup, child texts, the pairwise sliding
    window and the three-float parser. */
module Parsing {
  import opened Errors
  import opened Text
  import opened Xml

  /** The namespace name of CLF v3.0 documents. */
  const CLF_NAMESPACE: string := "urn:AMPAS:CLF:v3.0"

  /** Per-parse settings: the namespace the document's elements are expected in, or
      None when the document uses no namespace. */
  datatype ParserConfig = ParserConfig(namespaceName: Option<string>)

  /** The configuration a parse starts from. */
  const DefaultConfig: ParserConfig := ParserConfig(Some(CLF_NAMESPACE))

  /** `clf_namespace_prefix_mapping`: binds the prefix "clf" to the configured namespace,
      or gives None when no namespace, or the empty one, is configured. */
  function ClfNamespacePrefixMapping(config: ParserConfig): (m: Option<map<string, string>>)
    ensures m.Some? <==> config.namespaceName.Some? && config.namespaceName.value != ""
    ensures m.Some? ==> m.value.Keys == {"clf"} && m.value["clf"] == config.namespaceName.value
  {
    match config.namespaceName
    case Some(name) => if name != "" then Some(map["clf" := name]) else None
    case None => None
  }

  /** The namespace a child lookup by name selects: the "clf" prefix's namespace for a
      prefixed lookup, and no namespace for an unprefixed one. */
  function LookupNamespace(config: ParserConfig): string {
    match ClfNamespacePrefixMapping(config)
    case Some(m) => m["clf"]
    case None => ""
  }

  /** Whether the XPath step `clf:name` (or `name` when unprefixed) selects `c`. */
  predicate Selects(config: ParserConfig, name: string, c: Element) {
    c.localName == name && NamespaceUri(c) == LookupNamespace(config)
  }

  /** The elements of `cs` that the step `name` selects, in document order. */
  function Select(config: ParserConfig, name: string, cs: seq<Element>): (r: seq<Element>)
    ensures |r| <= |cs|
    ensures forall c :: c in r <==> c in cs && Selects(config, name, c)
  {
    if cs == [] then []
    else if Selects(config, name, cs[0]) then [cs[0]] + Select(config, name, cs[1..])
    else Select(config, name, cs[1..])
  }

  /** Selection distributes over concatenation, and a single element is kept exactly
      when the step selects it: together, the selected elements in document order,
      each as often as it occurs. */
  lemma {:induction false} SelectAppend(config: ParserConfig, name: string, a: seq<Element>, b: seq<Element>)
    ensures Select(config, name, a + b) == Select(config, name, a) + Select(config, name, b)
    ensures forall c :: Select(config, name, [c]) == if Selects(config, name, c) then [c] else []
    decreases |a|
  {
    if a != [] {
      assert (a + b)[1..] == a[1..] + b;
      SelectAppend(config, name, a[1..], b);
    } else {
      assert a + b == b;
    }
    forall c ensures Select(config, name, [c]) == if Selects(config, name, c) then [c] else [] {
      assert [c][1..] == [];
    }
  }

  /** The text nodes of the elements `cs`, in document order (the XPath step `text()`). */
  function TextsOf(cs: seq<Element>): (r: seq<string>)
    ensures |r| <= |cs|
    ensures (forall i :: 0 <= i < |cs| ==> cs[i].text.Some?) ==>
              |r| == |cs| && forall i :: 0 <= i < |cs| ==> cs[i].text == Some(r[i])
    ensures forall t :: t in r ==> exists c :: c in cs && c.text == Some(t)
  {
    if cs == [] then []
    else (if cs[0].text.Some? then [cs[0].text.value] else []) + TextsOf(cs[1..])
  }

  /** Text nodes distribute over concatenation. */
  lemma {:induction false} TextsOfAppend(a: seq<Element>, b: seq<Element>)
    ensures TextsOf(a + b) == TextsOf(a) + TextsOf(b)
    decreases |a|
  {
    if a != [] {
      var head := if a[0].text.Some? then [a[0].text.value] else [];
      assert (a + b)[0] == a[0];
      assert (a + b)[1..] == a[1..] + b;
      TextsOfAppend(a[1..], b);
      assert TextsOf(a + b) == head + TextsOf(a[1..] + b);
      assert TextsOf(a) == head + TextsOf(a[1..]);
    } else {
      assert a + b == b;
    }
  }

  /** A single element contributes its text when it has one and nothing otherwise. */
  lemma TextsOfSingle(c: Element)
    ensures TextsOf([c]) == if c.text.Some? then [c.text.value] else []
  {
    assert [c][1..] == [];
  }

  /** How `child_element` reads an XPath result: nothing, the one item, or a
      ParsingError for an ambiguous name. */
  function Single<T>(xs: seq<T>): (r: Result<Option<T>>)
    ensures r == Success(None) <==> xs == []
    ensures r.Failure? <==> |xs| >= 2
    ensures r.Failure? ==> r.error == ParsingError
    ensures r.Success? && r.value.Some? ==> xs == [r.value.value]
  {
    if |xs| == 0 then Success(None)
    else if |xs| == 1 then Success(Some(xs[0]))
    else Failure(ParsingError)
  }

  /** `map_optional`: applies `f` to a present value; an absent value stays absent.
      A failure of `f` (an enumeration rejecting a string) propagates. */
  function MapOptional<T, U>(f: T -> Result<U>, v: Option<T>): (r: Result<Option<U>>)
    ensures r == Success(None) <==> v.None?
    ensures v.Some? ==> (r.Success? <==> f(v.value).Success?)
    ensures v.Some? && r.Success? ==> r.value == Some(f(v.value).value)
    ensures v.Some? && r.Failure? ==> r.error == f(v.value).error
  {
    match v
    case None => Success(None)
    case Some(x) =>
      match f(x)
      case Success(y) => Success(Some(y))
      case Failure(e) => Failure(e)
  }

  /** `retrieve_attributes`: every key of `mapping` bound to the value of the attribute
      it names, or None where that attribute is absent. Never fails. */
  function RetrieveAttributes(e: Element, mapping: map<string, string>): (r: map<string, Option<string>>)
    ensures r.Keys == mapping.Keys
    ensures forall k :: k in mapping ==> (r[k].Some? <==> mapping[k] in e.attrs)
    ensures forall k :: k in mapping && mapping[k] in e.attrs ==> r[k] == Some(e.attrs[mapping[k]])
  {
    map k | k in mapping :: Get(e, mapping[k])
  }

  /** Python `float()` of an attribute value, where a ValueError yields None. */
  function AsFloat(v: Option<string>, conv: Conversions): Option<real> {
    match v
    case None => None
    case Some(s) => conv.toFloat(s)
  }

  /** `retrieve_attributes_as_float`: every key of `mapping` bound to the float of the
      attribute it names, or None where that attribute is absent or not a float.
      Never fails. */
  function RetrieveAttributesAsFloat(e: Element, mapping: map<string, string>, conv: Conversions)
    : (r: map<string, Option<real>>)
    ensures r.Keys == mapping.Keys
    ensures forall k :: k in mapping ==>
              (r[k].Some? <==> mapping[k] in e.attrs && conv.toFloat(e.attrs[mapping[k]]).Some?)
    ensures forall k :: k in mapping && r[k].Some? ==> conv.toFloat(e.attrs[mapping[k]]) == r[k]
  {
    var attributes := RetrieveAttributes(e, mapping);
    map k | k in attributes :: AsFloat(attributes[k], conv)
  }

  /** `must_have`: a ParsingError when the value is absent, true otherwise. */
  function MustHave<T>(v: Option<T>): (r: Result<bool>)
    ensures r.Failure? <==> v.None?
    ensures r.Failure? ==> r.error == ParsingError
    ensures r.Success? ==> r.value
  {
    if v.None? then Failure(ParsingError) else Success(true)
  }

  /** `child_element`: the one child named `name`, None when there is none, and a
      ParsingError when there are several. */
  function ChildElement(e: Element, name: string, config: ParserConfig): (r: Result<Option<Element>>)
    ensures r == Success(None) <==>
              forall i :: 0 <= i < |e.children| ==> !Selects(config, name, e.children[i])
    ensures r.Failure? <==>
              exists i, j :: 0 <= i < j < |e.children|
                && Selects(config, name, e.children[i]) && Selects(config, name, e.children[j])
    ensures r.Failure? ==> r.error == ParsingError
    ensures r.Success? && r.value.Some? ==>
              exists i :: 0 <= i < |e.children| && e.children[i] == r.value.value
                && Selects(config, name, e.children[i]) && OnlySelected(config, name, e.children, i)
  {
    var r := Single(Select(config, name, e.children));
    SelectedCount(config, name, e.children);
    r
  }

  /** Position `i` is the only position of `cs` that the step `name` selects. */
  predicate OnlySelected(config: ParserConfig, name: string, cs: seq<Element>, i: nat) {
    forall j :: 0 <= j < |cs| && j != i ==> !Selects(config, name, cs[j])
  }

  /** How many children a lookup finds, in terms of positions. */
  lemma {:induction false} SelectedCount(config: ParserConfig, name: string, cs: seq<Element>)
    ensures |Select(config, name, cs)| >= 2 <==>
              exists i, j :: 0 <= i < j < |cs| && Selects(config, name, cs[i]) && Selects(config, name, cs[j])
    ensures |Select(config, name, cs)| == 1 ==>
              exists i :: 0 <= i < |cs| && cs[i] == Select(config, name, cs)[0]
                && Selects(config, name, cs[i]) && OnlySelected(config, name, cs, i)
  {
    if cs != [] {
      var rest := cs[1..];
      SelectedCount(config, name, rest);
      if Selects(config, name, cs[0]) {
        if |Select(config, name, rest)| >= 1 {
          var c := Select(config, name, rest)[0];
          assert c in Select(config, name, rest);
          var j :| 0 <= j < |rest| && rest[j] == c;
          assert Selects(config, name, cs[0]) && Selects(config, name, cs[j + 1]);
        } else {
          forall j | 1 <= j < |cs| ensures !Selects(config, name, cs[j]) {
            assert cs[j] == rest[j - 1];
          }
          assert OnlySelected(config, name, cs, 0);
        }
      } else {
        if exists i, j :: 0 <= i < j < |cs| && Selects(config, name, cs[i]) && Selects(config, name, cs[j]) {
          var i, j :| 0 <= i < j < |cs| && Selects(config, name, cs[i]) && Selects(config, name, cs[j]);
          assert i > 0;
          assert rest[i - 1] == cs[i] && rest[j - 1] == cs[j];
        }
        if |Select(config, name, cs)| >= 2 {
          var i, j :| 0 <= i < j < |rest| && Selects(config, name, rest[i]) && Selects(config, name, rest[j]);
          assert cs[i + 1] == rest[i] && cs[j + 1] == rest[j];
        }
        if |Select(config, name, cs)| == 1 {
          var i :| 0 <= i < |rest| && rest[i] == Select(config, name, rest)[0]
            && Selects(config, name, rest[i]) && OnlySelected(config, name, rest, i);
          assert cs[i + 1] == rest[i];
          forall j | 0 <= j < |cs| && j != i + 1 ensures !Selects(config, name, cs[j]) {
            if j > 0 { assert cs[j] == rest[j - 1]; }
          }
        }
      }
    }
  }

  /** `child_element_or_exception`: the element `child_element` finds, and a
      ParsingError when it finds none or several. */
  function ChildElementOrException(e: Element, name: string, config: ParserConfig): (r: Result<Element>)
    ensures r.Success? <==> ChildElement(e, name, config).Success? && ChildElement(e, name, config).value.Some?
    ensures r.Success? ==> ChildElement(e, name, config) == Success(Some(r.value))
    ensures r.Failure? ==> r.error == ParsingError
  {
    var child :- ChildElement(e, name, config);
    if child.None? then Failure(ParsingError) else Success(child.value)
  }

  /** The text nodes of the children named `name` (the XPath `clf:name/text()`). */
  function ChildTexts(e: Element, name: string, config: ParserConfig): seq<string> {
    TextsOf(Select(config, name, e.children))
  }

  /** `element_as_text`: the text of the child named `name`, "" when no such child has
      text, and a ParsingError when several such children have text. */
  function ElementAsText(e: Element, name: string, config: ParserConfig): (r: Result<string>)
    ensures (forall i :: 0 <= i < |e.children| ==> !Selects(config, name, e.children[i])) ==>
              r == Success("")
    ensures forall i :: (0 <= i < |e.children| && Selects(config, name, e.children[i])
                         && OnlySelected(config, name, e.children, i)) ==>
              r == Success(e.children[i].text.GetOr(""))
    ensures r.Failure? <==> |ChildTexts(e, name, config)| >= 2
    ensures r.Failure? ==> r.error == ParsingError
    ensures |ChildTexts(e, name, config)| == 0 ==> r == Success("")
    ensures |ChildTexts(e, name, config)| == 1 ==> r == Success(ChildTexts(e, name, config)[0])
  {
    ElementAsTextUnique(e, name, config);
    var text :- Single(ChildTexts(e, name, config));
    if text.None? then Success("") else Success(text.value)
  }

  lemma ElementAsTextUnique(e: Element, name: string, config: ParserConfig)
    ensures (forall i :: 0 <= i < |e.children| ==> !Selects(config, name, e.children[i])) ==>
              Select(config, name, e.children) == []
    ensures forall i :: (0 <= i < |e.children| && Selects(config, name, e.children[i])
                         && OnlySelected(config, name, e.children, i)) ==>
              Select(config, name, e.children) == [e.children[i]]
  {
    forall i | 0 <= i < |e.children| && Selects(config, name, e.children[i])
      && OnlySelected(config, name, e.children, i)
      ensures Select(config, name, e.children) == [e.children[i]]
    {
      SelectUnique(config, name, e.children, i);
    }
    if forall i :: 0 <= i < |e.children| ==> !Selects(config, name, e.children[i]) {
      SelectNone(config, name, e.children);
    }
  }

  lemma {:induction false} SelectUnique(config: ParserConfig, name: string, cs: seq<Element>, i: nat)
    requires i < |cs| && Selects(config, name, cs[i]) && OnlySelected(config, name, cs, i)
    ensures Select(config, name, cs) == [cs[i]]
  {
    if i == 0 {
      SelectNone(config, name, cs[1..]);
    } else {
      SelectUnique(config, name, cs[1..], i - 1);
    }
  }

  lemma {:induction false} SelectNone(config: ParserConfig, name: string, cs: seq<Element>)
    requires forall j :: 0 <= j < |cs| ==> !Selects(config, name, cs[j])
    ensures Select(config, name, cs) == []
  {
    if cs != [] {
      SelectNone(config, name, cs[1..]);
    }
  }

  /** `elements_as_text_list`: the texts of the children named `name`, in document
      order; when every such child has text, exactly one entry per child. */
  function ElementsAsTextList(e: Element, name: string, config: ParserConfig): (r: seq<string>)
    ensures forall t :: t in r ==>
              exists c :: c in e.children && Selects(config, name, c) && c.text == Some(t)
    ensures var named := Select(config, name, e.children);
            (forall i :: 0 <= i < |named| ==> named[i].text.Some?) ==>
              |r| == |named| && forall i :: 0 <= i < |named| ==> named[i].text == Some(r[i])
  {
    ChildTexts(e, name, config)
  }

  /** The texts listed for an element with children `a + b` are those listed for `a`
      followed by those for `b`. */
  lemma ElementsAsTextListAppend(e: Element, name: string, config: ParserConfig, a: seq<Element>, b: seq<Element>)
    ensures ElementsAsTextList(e.(children := a + b), name, config)
            == ElementsAsTextList(e.(children := a), name, config) + ElementsAsTextList(e.(children := b), name, config)
  {
    SelectAppend(config, name, a, b);
    TextsOfAppend(Select(config, name, a), Select(config, name, b));
  }

  /** A single child contributes its text exactly when it is selected and has one. */
  lemma ElementsAsTextListSingle(e: Element, name: string, config: ParserConfig, c: Element)
    ensures ElementsAsTextList(e.(children := [c]), name, config)
            == if Selects(config, name, c) && c.text.Some? then [c.text.value] else []
  {
    SelectAppend(config, name, [c], []);
    assert [c] + [] == [c];
    if Selects(config, name, c) {
      TextsOfSingle(c);
    }
  }

  /** `sliding_window(s, n)`: every run of `n` consecutive items of `s`, in order. The
      window is a bounded queue primed with the first n - 1 items; each further item is
      appended (pushing out the oldest once n are held) and the window is emitted. */
  method SlidingWindow<T>(s: seq<T>, n: nat) returns (windows: seq<seq<T>>)
    requires n >= 1
    ensures |windows| == if |s| >= n then |s| - n + 1 else 0
    ensures forall i :: 0 <= i < |windows| ==> windows[i] == s[i..i + n]
  {
    var primed := if |s| < n - 1 then |s| else n - 1;
    var window := s[..primed];
    windows := [];
    var next := primed;
    while next < |s|
      invariant primed <= next <= |s|
      invariant primed < n - 1 ==> next == |s| && windows == []
      invariant primed == n - 1 ==> |windows| == next - (n - 1)
      invariant primed == n - 1 ==> window == s[(if next >= n then next - n else 0)..next]
      invariant forall i :: 0 <= i < |windows| ==> windows[i] == s[i..i + n]
    {
      window := window + [s[next]];
      if |window| > n {
        window := window[1..];
      }
      windows := windows + [window];
      next := next + 1;
    }
  }

  /** `three_floats`: the three whitespace-separated floats of `s`. A ParsingError when
      `s` is absent or does not hold exactly three tokens; a ConversionError when one
      of the three is not a float. */
  function ThreeFloats(s: Option<string>, conv: Conversions): (r: Result<(real, real, real)>)
    ensures s.None? ==> r == Failure(ParsingError)
    ensures s.Some? && |Split(s.value)| != 3 ==> r == Failure(ParsingError)
    ensures s.Some? && |Split(s.value)| == 3 ==>
              var parts := Split(s.value);
              && (r.Success? <==> forall i :: 0 <= i < 3 ==> conv.toFloat(parts[i]).Some?)
              && (r.Success? ==>
                    && conv.toFloat(parts[0]) == Some(r.value.0)
                    && conv.toFloat(parts[1]) == Some(r.value.1)
                    && conv.toFloat(parts[2]) == Some(r.value.2))
              && (r.Failure? ==> r.error == ConversionError)
  {
    if s.None? then Failure(ParsingError)
    else
      var parts := Split(s.value);
      if |parts| != 3 then Failure(ParsingError)
      else
        var values :- FloatsOf(parts, conv);
        Success((values[0], values[1], values[2]))
  }
}
