/** The seven process-node kinds of a CLF pipeline, the header they share, the
    registry that maps an element's tag to its kind's parser, and the check that
    adjacent nodes agree on bit depth. */
module ProcessNodes {
  import opened Errors
  import opened Text
  import opened Xml
  import opened Parsing
  import opened Values
  import opened Elements

  /** The attributes and description every process node carries. */
  datatype Header = Header(
    id: Option<string>,
    name: Option<string>,
    inBitDepth: BitDepth,
    outBitDepth: BitDepth,
    description: string)

  datatype ProcessNode =
    | Lut1D(header: Header, arr: Array, halfDomain: bool, rawHalfs: bool,
            interpolation1D: Option<Interpolation1D>)
    | Lut3D(header: Header, arr: Array, halfDomain: bool, rawHalfs: bool,
            interpolation3D: Interpolation3D)
    | Matrix(header: Header, arr: Array)
    | Range(header: Header, minInValue: real, maxInValue: real, minOutValue: real, maxOutValue: real,
            rangeStyle: Option<RangeStyle>)
    | Log(header: Header, logStyle: LogStyle, logParams: Option<LogParams>)
    | Exponent(header: Header, exponentStyle: ExponentStyle, exponentParams: Option<ExponentParams>)
    | AscCdl(header: Header, cdlStyle: AscCdlStyle, sopNode: Option<SOPNode>, satNode: Option<SatNode>)

  /** A process-node kind's parser, as the registry holds it. */
  type NodeParser = (Element, ParserConfig, Conversions) -> Result<ProcessNode>

  /** `ProcessNode.parse_attributes`: optional `id` and `name`; `inBitDepth` and
      `outBitDepth` converted to BitDepth (a ConversionError when absent or not in the
      vocabulary); the Description text, "" when there is none. */
  function ParseHeader(xml: Element, config: ParserConfig): (r: Result<Header>)
    ensures EnumOf(BitDepth.FromValue, Get(xml, "inBitDepth")).Failure? ==> r == Failure(ConversionError)
    ensures (EnumOf(BitDepth.FromValue, Get(xml, "inBitDepth")).Success?
             && EnumOf(BitDepth.FromValue, Get(xml, "outBitDepth")).Failure?) ==> r == Failure(ConversionError)
    ensures r.Success? <==>
              && "inBitDepth" in xml.attrs && BitDepth.FromValue(xml.attrs["inBitDepth"]).Some?
              && "outBitDepth" in xml.attrs && BitDepth.FromValue(xml.attrs["outBitDepth"]).Some?
              && ElementAsText(xml, "Description", config).Success?
    ensures r.Success? ==>
              && r.value.id == Get(xml, "id")
              && r.value.name == Get(xml, "name")
              && r.value.inBitDepth.Value() == xml.attrs["inBitDepth"]
              && r.value.outBitDepth.Value() == xml.attrs["outBitDepth"]
              && ElementAsText(xml, "Description", config) == Success(r.value.description)
    ensures r.Failure? ==>
              r.error == (if EnumOf(BitDepth.FromValue, Get(xml, "inBitDepth")).Failure?
                             || EnumOf(BitDepth.FromValue, Get(xml, "outBitDepth")).Failure?
                          then ConversionError
                          else ParsingError)
  {
    var attributes := RetrieveAttributes(xml, map["id" := "id", "name" := "name"]);
    var inBitDepth :- EnumOf(BitDepth.FromValue, Get(xml, "inBitDepth"));
    var outBitDepth :- EnumOf(BitDepth.FromValue, Get(xml, "outBitDepth"));
    var description :- ElementAsText(xml, "Description", config);
    Success(Header(attributes["id"], attributes["name"], inBitDepth, outBitDepth, description))
  }

  /** A boolean attribute: true exactly when its text is "true". */
  function Flag(xml: Element, name: string): (b: bool)
    ensures b <==> name in xml.attrs && xml.attrs[name] == "true"
  {
    Get(xml, name) == Some("true")
  }

  /** `a` is what Array.from_xml makes of the one Array child of `xml`. */
  predicate IsArrayChild(xml: Element, config: ParserConfig, conv: Conversions, a: Array) {
    exists i :: 0 <= i < |xml.children| && Selects(config, "Array", xml.children[i])
      && OnlySelected(config, "Array", xml.children, i)
      && ArrayFromXml(Some(xml.children[i]), config, conv) == Success(Some(a))
  }

  /** The mandatory Array child of LUT1D, LUT3D and Matrix: a ParsingError when there
      is none or several. */
  function ArrayChild(xml: Element, config: ParserConfig, conv: Conversions): (r: Result<Array>)
    ensures (forall i :: 0 <= i < |xml.children| ==> !Selects(config, "Array", xml.children[i])) ==>
              r == Failure(ParsingError)
    ensures r.Success? ==> IsArrayChild(xml, config, conv, r.value)
    ensures forall a :: IsArrayChild(xml, config, conv, a) ==> r == Success(a)
    ensures r.Failure? ==>
              r.error == (if ChildElement(xml, "Array", config).Success? && ChildElement(xml, "Array", config).value.Some?
                          then ConversionError
                          else ParsingError)
  {
    var child :- ChildElement(xml, "Array", config);
    var arr :- ArrayFromXml(child, config, conv);
    if arr.None? then Failure(ParsingError) else Success(arr.value)
  }

  /** `LUT1D.from_xml`. */
  function Lut1DFromXml(xml: Element, config: ParserConfig, conv: Conversions): (r: Result<ProcessNode>)
    ensures ParseHeader(xml, config).Failure? ==> r == Failure(ParseHeader(xml, config).error)
    ensures ParseHeader(xml, config).Success?
              && (forall i :: 0 <= i < |xml.children| ==> !Selects(config, "Array", xml.children[i])) ==>
              r == Failure(ParsingError)
    ensures r.Success? ==>
              && r.value.Lut1D?
              && Success(r.value.header) == ParseHeader(xml, config)
              && IsArrayChild(xml, config, conv, r.value.arr)
              && r.value.halfDomain == Flag(xml, "halfDomain")
              && r.value.rawHalfs == Flag(xml, "rawHalfs")
              && (r.value.interpolation1D.None? <==> "interpolation" !in xml.attrs)
              && (r.value.interpolation1D.Some? ==> r.value.interpolation1D.value.Value() == xml.attrs["interpolation"])
    ensures ParseHeader(xml, config).Success? && ArrayChild(xml, config, conv).Success? ==>
              (r.Failure? <==> "interpolation" in xml.attrs
                               && Interpolation1D.FromValue(xml.attrs["interpolation"]).None?)
    ensures r.Failure? ==>
              r.error == (if ParseHeader(xml, config).Failure? then ParseHeader(xml, config).error
                          else if ArrayChild(xml, config, conv).Failure? then ArrayChild(xml, config, conv).error
                          else ConversionError)
    ensures r.Failure? ==> !r.error.ValidationError?
  {
    var header :- ParseHeader(xml, config);
    var arr :- ArrayChild(xml, config, conv);
    var interpolation :- MapOptional(s => EnumOf(Interpolation1D.FromValue, Some(s)), Get(xml, "interpolation"));
    Success(Lut1D(header, arr, Flag(xml, "halfDomain"), Flag(xml, "rawHalfs"), interpolation))
  }

  /** `LUT3D.from_xml`: as LUT1D, but the interpolation is mandatory. */
  function Lut3DFromXml(xml: Element, config: ParserConfig, conv: Conversions): (r: Result<ProcessNode>)
    ensures ParseHeader(xml, config).Failure? ==> r == Failure(ParseHeader(xml, config).error)
    ensures ParseHeader(xml, config).Success?
              && (forall i :: 0 <= i < |xml.children| ==> !Selects(config, "Array", xml.children[i])) ==>
              r == Failure(ParsingError)
    ensures r.Success? ==>
              && r.value.Lut3D?
              && Success(r.value.header) == ParseHeader(xml, config)
              && IsArrayChild(xml, config, conv, r.value.arr)
              && r.value.halfDomain == Flag(xml, "halfDomain")
              && r.value.rawHalfs == Flag(xml, "rawHalfs")
              && "interpolation" in xml.attrs
              && r.value.interpolation3D.Value() == xml.attrs["interpolation"]
    ensures ParseHeader(xml, config).Success? && ArrayChild(xml, config, conv).Success? ==>
              (r.Failure? <==> "interpolation" !in xml.attrs
                               || Interpolation3D.FromValue(xml.attrs["interpolation"]).None?)
    ensures r.Failure? && ParseHeader(xml, config).Success? && ArrayChild(xml, config, conv).Success? ==>
              r.error == ConversionError
    ensures r.Failure? ==>
              r.error == (if ParseHeader(xml, config).Failure? then ParseHeader(xml, config).error
                          else if ArrayChild(xml, config, conv).Failure? then ArrayChild(xml, config, conv).error
                          else ConversionError)
    ensures r.Failure? ==> !r.error.ValidationError?
  {
    var header :- ParseHeader(xml, config);
    var arr :- ArrayChild(xml, config, conv);
    var interpolation :- EnumOf(Interpolation3D.FromValue, Get(xml, "interpolation"));
    Success(Lut3D(header, arr, Flag(xml, "halfDomain"), Flag(xml, "rawHalfs"), interpolation))
  }

  /** `Matrix.from_xml`. */
  function MatrixFromXml(xml: Element, config: ParserConfig, conv: Conversions): (r: Result<ProcessNode>)
    ensures ParseHeader(xml, config).Failure? ==> r == Failure(ParseHeader(xml, config).error)
    ensures ParseHeader(xml, config).Success?
              && (forall i :: 0 <= i < |xml.children| ==> !Selects(config, "Array", xml.children[i])) ==>
              r == Failure(ParsingError)
    ensures r.Success? <==> ParseHeader(xml, config).Success? && ArrayChild(xml, config, conv).Success?
    ensures r.Success? ==>
              && r.value.Matrix?
              && Success(r.value.header) == ParseHeader(xml, config)
              && IsArrayChild(xml, config, conv, r.value.arr)
    ensures r.Failure? ==>
              r.error == (if ParseHeader(xml, config).Failure? then ParseHeader(xml, config).error
                          else ArrayChild(xml, config, conv).error)
    ensures r.Failure? ==> !r.error.ValidationError?
  {
    var header :- ParseHeader(xml, config);
    var arr :- ArrayChild(xml, config, conv);
    Success(Matrix(header, arr))
  }

  /** `float(element_as_text(xml, name, config))`: the float of the named child's text.
      An absent child gives "", which is not a float, so a ConversionError. */
  function FloatChild(xml: Element, name: string, config: ParserConfig, conv: Conversions): (r: Result<real>)
    ensures (forall i :: 0 <= i < |xml.children| ==> !Selects(config, name, xml.children[i])) ==>
              r == Failure(ConversionError)
    ensures r.Success? <==>
              ElementAsText(xml, name, config).Success? && conv.toFloat(ElementAsText(xml, name, config).value).Some?
    ensures r.Success? ==> conv.toFloat(ElementAsText(xml, name, config).value) == Some(r.value)
    ensures r.Failure? ==>
              r.error == (if ElementAsText(xml, name, config).Failure? then ParsingError else ConversionError)
  {
    var text :- ElementAsText(xml, name, config);
    match conv.toFloat(text)
    case None => Failure(ConversionError)
    case Some(x) => Success(x)
  }

  /** `Range.from_xml`: the four bounds are the floats of their children's texts (so
      mandatory in effect); the style is optional. */
  function RangeFromXml(xml: Element, config: ParserConfig, conv: Conversions): (r: Result<ProcessNode>)
    ensures ParseHeader(xml, config).Failure? ==> r == Failure(ParseHeader(xml, config).error)
    ensures ParseHeader(xml, config).Success?
              && (forall i :: 0 <= i < |xml.children| ==> !Selects(config, "minInValue", xml.children[i])) ==>
              r == Failure(ConversionError)
    ensures r.Success? ==>
              && r.value.Range?
              && Success(r.value.header) == ParseHeader(xml, config)
              && FloatChild(xml, "minInValue", config, conv) == Success(r.value.minInValue)
              && FloatChild(xml, "maxInValue", config, conv) == Success(r.value.maxInValue)
              && FloatChild(xml, "minOutValue", config, conv) == Success(r.value.minOutValue)
              && FloatChild(xml, "maxOutValue", config, conv) == Success(r.value.maxOutValue)
              && (r.value.rangeStyle.None? <==> "style" !in xml.attrs)
              && (r.value.rangeStyle.Some? ==> r.value.rangeStyle.value.Value() == xml.attrs["style"])
    ensures ParseHeader(xml, config).Success? ==>
              (r.Success? <==> && FloatChild(xml, "minInValue", config, conv).Success?
                               && FloatChild(xml, "maxInValue", config, conv).Success?
                               && FloatChild(xml, "minOutValue", config, conv).Success?
                               && FloatChild(xml, "maxOutValue", config, conv).Success?
                               && ("style" !in xml.attrs || RangeStyle.FromValue(xml.attrs["style"]).Some?))
    ensures (&& ParseHeader(xml, config).Success?
             && FloatChild(xml, "minInValue", config, conv).Success?
             && FloatChild(xml, "maxInValue", config, conv).Success?
             && FloatChild(xml, "minOutValue", config, conv).Success?
             && FloatChild(xml, "maxOutValue", config, conv).Success?
             && r.Failure?) ==> r.error == ConversionError
    ensures r.Failure? ==>
              r.error == (if ParseHeader(xml, config).Failure? then ParseHeader(xml, config).error
                          else if FloatChild(xml, "minInValue", config, conv).Failure?
                          then FloatChild(xml, "minInValue", config, conv).error
                          else if FloatChild(xml, "maxInValue", config, conv).Failure?
                          then FloatChild(xml, "maxInValue", config, conv).error
                          else if FloatChild(xml, "minOutValue", config, conv).Failure?
                          then FloatChild(xml, "minOutValue", config, conv).error
                          else if FloatChild(xml, "maxOutValue", config, conv).Failure?
                          then FloatChild(xml, "maxOutValue", config, conv).error
                          else ConversionError)
    ensures r.Failure? ==> !r.error.ValidationError?
  {
    var header :- ParseHeader(xml, config);
    var minIn :- FloatChild(xml, "minInValue", config, conv);
    var maxIn :- FloatChild(xml, "maxInValue", config, conv);
    var minOut :- FloatChild(xml, "minOutValue", config, conv);
    var maxOut :- FloatChild(xml, "maxOutValue", config, conv);
    var style :- MapOptional(s => EnumOf(RangeStyle.FromValue, Some(s)), Get(xml, "style"));
    Success(Range(header, minIn, maxIn, minOut, maxOut, style))
  }

  /** `Log.from_xml`: the style is converted directly, so an absent or unknown style is
      a ConversionError; the LogParams child is optional. */
  function LogFromXml(xml: Element, config: ParserConfig, conv: Conversions): (r: Result<ProcessNode>)
    ensures ParseHeader(xml, config).Failure? ==> r == Failure(ParseHeader(xml, config).error)
    ensures ParseHeader(xml, config).Success? && EnumOf(LogStyle.FromValue, Get(xml, "style")).Failure? ==>
              r == Failure(ConversionError)
    ensures r.Success? ==>
              && r.value.Log?
              && Success(r.value.header) == ParseHeader(xml, config)
              && "style" in xml.attrs && r.value.logStyle.Value() == xml.attrs["style"]
              && (r.value.logParams.None? <==>
                    forall i :: 0 <= i < |xml.children| ==> !Selects(config, "LogParams", xml.children[i]))
    ensures r.Success? ==>
              && ChildElement(xml, "LogParams", config).Success?
              && Success(r.value.logParams) == LogParamsFromXml(ChildElement(xml, "LogParams", config).value, config, conv)
    ensures ParseHeader(xml, config).Success? && EnumOf(LogStyle.FromValue, Get(xml, "style")).Success? ==>
              (r.Success? <==> && ChildElement(xml, "LogParams", config).Success?
                               && LogParamsFromXml(ChildElement(xml, "LogParams", config).value, config, conv).Success?)
    ensures (&& ParseHeader(xml, config).Success? && EnumOf(LogStyle.FromValue, Get(xml, "style")).Success?
             && forall i :: 0 <= i < |xml.children| ==> !Selects(config, "LogParams", xml.children[i])) ==>
              r.Success? && r.value.logParams.None?
    ensures r.Failure? ==>
              r.error == (if ParseHeader(xml, config).Failure? then ParseHeader(xml, config).error
                          else if EnumOf(LogStyle.FromValue, Get(xml, "style")).Failure? then ConversionError
                          else if ChildElement(xml, "LogParams", config).Failure? then ParsingError
                          else ConversionError)
    ensures r.Failure? ==> !r.error.ValidationError?
  {
    var header :- ParseHeader(xml, config);
    var style :- EnumOf(LogStyle.FromValue, Get(xml, "style"));
    var paramElement :- ChildElement(xml, "LogParams", config);
    var logParams :- LogParamsFromXml(paramElement, config, conv);
    Success(Log(header, style, logParams))
  }

  /** `Exponent.from_xml`: an absent style is a ParsingError, an unknown one a
      ConversionError; the ExponentParams child is optional. */
  function ExponentFromXml(xml: Element, config: ParserConfig, conv: Conversions): (r: Result<ProcessNode>)
    ensures ParseHeader(xml, config).Failure? ==> r == Failure(ParseHeader(xml, config).error)
    ensures ParseHeader(xml, config).Success? && "style" !in xml.attrs ==> r == Failure(ParsingError)
    ensures (ParseHeader(xml, config).Success? && "style" in xml.attrs
             && ExponentStyle.FromValue(xml.attrs["style"]).None?) ==> r == Failure(ConversionError)
    ensures r.Success? ==>
              && r.value.Exponent?
              && Success(r.value.header) == ParseHeader(xml, config)
              && "style" in xml.attrs && r.value.exponentStyle.Value() == xml.attrs["style"]
              && (r.value.exponentParams.None? <==>
                    forall i :: 0 <= i < |xml.children| ==> !Selects(config, "ExponentParams", xml.children[i]))
    ensures r.Success? ==>
              && ChildElement(xml, "ExponentParams", config).Success?
              && Success(r.value.exponentParams)
                 == ExponentParamsFromXml(ChildElement(xml, "ExponentParams", config).value, config, conv)
    ensures (ParseHeader(xml, config).Success? && "style" in xml.attrs
             && ExponentStyle.FromValue(xml.attrs["style"]).Some?) ==>
              (r.Success? <==> && ChildElement(xml, "ExponentParams", config).Success?
                               && ExponentParamsFromXml(ChildElement(xml, "ExponentParams", config).value, config, conv).Success?)
    ensures (&& ParseHeader(xml, config).Success? && "style" in xml.attrs
             && ExponentStyle.FromValue(xml.attrs["style"]).Some?
             && forall i :: 0 <= i < |xml.children| ==> !Selects(config, "ExponentParams", xml.children[i])) ==>
              r.Success? && r.value.exponentParams.None?
    ensures r.Failure? ==>
              r.error == (if ParseHeader(xml, config).Failure? then ParseHeader(xml, config).error
                          else if "style" !in xml.attrs then ParsingError
                          else if ExponentStyle.FromValue(xml.attrs["style"]).None? then ConversionError
                          else if ChildElement(xml, "ExponentParams", config).Failure? then ParsingError
                          else ExponentParamsFromXml(ChildElement(xml, "ExponentParams", config).value, config, conv).error)
    ensures r.Failure? ==> !r.error.ValidationError?
  {
    var header :- ParseHeader(xml, config);
    var style :- MapOptional(s => EnumOf(ExponentStyle.FromValue, Some(s)), Get(xml, "style"));
    if style.None? then Failure(ParsingError)
    else
      var paramElement :- ChildElement(xml, "ExponentParams", config);
      var exponentParams :- ExponentParamsFromXml(paramElement, config, conv);
      Success(Exponent(header, style.value, exponentParams))
  }

  /** `ASC_CDL.from_xml`: the style is converted directly (absent or unknown: a
      ConversionError); the SOPNode and SatNode children are optional. */
  function AscCdlFromXml(xml: Element, config: ParserConfig, conv: Conversions): (r: Result<ProcessNode>)
    ensures ParseHeader(xml, config).Failure? ==> r == Failure(ParseHeader(xml, config).error)
    ensures ParseHeader(xml, config).Success? && EnumOf(AscCdlStyle.FromValue, Get(xml, "style")).Failure? ==>
              r == Failure(ConversionError)
    ensures r.Success? ==>
              && r.value.AscCdl?
              && Success(r.value.header) == ParseHeader(xml, config)
              && "style" in xml.attrs && r.value.cdlStyle.Value() == xml.attrs["style"]
              && (r.value.sopNode.None? <==>
                    forall i :: 0 <= i < |xml.children| ==> !Selects(config, "SOPNode", xml.children[i]))
              && (r.value.satNode.None? <==>
                    forall i :: 0 <= i < |xml.children| ==> !Selects(config, "SatNode", xml.children[i]))
    ensures r.Success? ==>
              && ChildElement(xml, "SOPNode", config).Success?
              && Success(r.value.sopNode) == SOPNodeFromXml(ChildElement(xml, "SOPNode", config).value, config, conv)
              && ChildElement(xml, "SatNode", config).Success?
              && Success(r.value.satNode) == SatNodeFromXml(ChildElement(xml, "SatNode", config).value, config, conv)
    ensures ParseHeader(xml, config).Success? && EnumOf(AscCdlStyle.FromValue, Get(xml, "style")).Success? ==>
              (r.Success? <==> && ChildElement(xml, "SOPNode", config).Success?
                               && SOPNodeFromXml(ChildElement(xml, "SOPNode", config).value, config, conv).Success?
                               && ChildElement(xml, "SatNode", config).Success?
                               && SatNodeFromXml(ChildElement(xml, "SatNode", config).value, config, conv).Success?)
    ensures (&& ParseHeader(xml, config).Success? && EnumOf(AscCdlStyle.FromValue, Get(xml, "style")).Success?
             && (forall i :: 0 <= i < |xml.children| ==> !Selects(config, "SOPNode", xml.children[i]))
             && (forall i :: 0 <= i < |xml.children| ==> !Selects(config, "SatNode", xml.children[i]))) ==>
              r.Success? && r.value.sopNode.None? && r.value.satNode.None?
    ensures r.Failure? ==>
              r.error == (if ParseHeader(xml, config).Failure? then ParseHeader(xml, config).error
                          else if EnumOf(AscCdlStyle.FromValue, Get(xml, "style")).Failure? then ConversionError
                          else if ChildElement(xml, "SOPNode", config).Failure? then ParsingError
                          else if SOPNodeFromXml(ChildElement(xml, "SOPNode", config).value, config, conv).Failure?
                          then SOPNodeFromXml(ChildElement(xml, "SOPNode", config).value, config, conv).error
                          else if ChildElement(xml, "SatNode", config).Failure? then ParsingError
                          else SatNodeFromXml(ChildElement(xml, "SatNode", config).value, config, conv).error)
    ensures r.Failure? ==> !r.error.ValidationError?
  {
    var header :- ParseHeader(xml, config);
    var style :- EnumOf(AscCdlStyle.FromValue, Get(xml, "style"));
    var sopElement :- ChildElement(xml, "SOPNode", config);
    var sopNode :- SOPNodeFromXml(sopElement, config, conv);
    var satElement :- ChildElement(xml, "SatNode", config);
    var satNode :- SatNodeFromXml(satElement, config, conv);
    Success(AscCdl(header, style, sopNode, satNode))
  }

  /** The tags a process node may have. */
  const NodeTags: set<string> := {"LUT1D", "LUT3D", "Matrix", "Range", "Log", "Exponent", "ASC_CDL"}

  /** `processing_node_constructors`, as the registration decorators leave it once the
      module is loaded: each tag bound to its kind's parser. */
  const Registry: map<string, NodeParser> := map[
    "LUT1D" := Lut1DFromXml,
    "LUT3D" := Lut3DFromXml,
    "Matrix" := MatrixFromXml,
    "Range" := RangeFromXml,
    "Log" := LogFromXml,
    "Exponent" := ExponentFromXml,
    "ASC_CDL" := AscCdlFromXml]

  /** `parse_process_node`: the parser registered for the element's local name (its
      namespace ignored); an unknown tag is a ParsingError. The registry lookup is
      written as a match on the tag; RegistryDispatch ties the two together. */
  function ParseProcessNode(xml: Element, config: ParserConfig, conv: Conversions): (r: Result<ProcessNode>)
    ensures xml.localName !in NodeTags ==> r == Failure(ParsingError)
    ensures r.Success? ==> xml.localName in NodeTags
    ensures r.Failure? ==> !r.error.ValidationError?
    ensures xml.localName == "Exponent" ==> r == ExponentFromXml(xml, config, conv)
  {
    match xml.localName
    case "LUT1D" => Lut1DFromXml(xml, config, conv)
    case "LUT3D" => Lut3DFromXml(xml, config, conv)
    case "Matrix" => MatrixFromXml(xml, config, conv)
    case "Range" => RangeFromXml(xml, config, conv)
    case "Log" => LogFromXml(xml, config, conv)
    case "Exponent" => ExponentFromXml(xml, config, conv)
    case "ASC_CDL" => AscCdlFromXml(xml, config, conv)
    case _ => Failure(ParsingError)
  }

  /** The registry holds exactly the seven tags, and running the parser it holds for
      an element's tag is parsing that element. */
  lemma RegistryDispatch(xml: Element, config: ParserConfig, conv: Conversions)
    ensures Registry.Keys == NodeTags
    ensures xml.localName in Registry ==>
              Registry[xml.localName](xml, config, conv) == ParseProcessNode(xml, config, conv)
  {
  }

  /** Node `a` writes the bit depth node `b` reads. */
  predicate Compatible(a: ProcessNode, b: ProcessNode) {
    a.header.outBitDepth == b.header.inBitDepth
  }

  /** Every node writes the bit depth its successor reads. */
  predicate ChainCompatible(nodes: seq<ProcessNode>) {
    forall i :: 0 <= i < |nodes| - 1 ==> Compatible(nodes[i], nodes[i + 1])
  }

  /** The first pair position at or after `from` whose nodes disagree, if any. */
  function FirstMismatch(nodes: seq<ProcessNode>, from: nat): (k: Option<nat>)
    ensures k.None? <==> forall i :: from <= i < |nodes| - 1 ==> Compatible(nodes[i], nodes[i + 1])
    ensures k.Some? ==>
              && from <= k.value < |nodes| - 1
              && !Compatible(nodes[k.value], nodes[k.value + 1])
              && forall i :: from <= i < k.value ==> Compatible(nodes[i], nodes[i + 1])
    decreases |nodes| - from
  {
    if from + 1 >= |nodes| then None
    else if !Compatible(nodes[from], nodes[from + 1]) then Some(from)
    else FirstMismatch(nodes, from + 1)
  }

  /** What `assert_bit_depth_compatibility` yields: true, or a ValidationError at the
      first pair of adjacent nodes that disagree. */
  function BitDepthCheck(nodes: seq<ProcessNode>): (r: Result<bool>)
    ensures r.Success? <==> ChainCompatible(nodes)
    ensures r.Success? ==> r.value
    ensures r.Failure? ==>
              && r.error.ValidationError?
              && r.error.pair < |nodes| - 1
              && !Compatible(nodes[r.error.pair], nodes[r.error.pair + 1])
              && forall i :: 0 <= i < r.error.pair ==> Compatible(nodes[i], nodes[i + 1])
  {
    match FirstMismatch(nodes, 0)
    case None => Success(true)
    case Some(k) => Failure(ValidationError(k))
  }

  /** `assert_bit_depth_compatibility`: walks the pairs of adjacent nodes and stops at
      the first whose bit depths disagree. */
  method AssertBitDepthCompatibility(nodes: seq<ProcessNode>) returns (r: Result<bool>)
    ensures r == BitDepthCheck(nodes)
  {
    var pairs: seq<seq<ProcessNode>> := SlidingWindow(nodes, 2);
    var i := 0;
    while i < |pairs|
      invariant 0 <= i <= |pairs|
      invariant forall j :: 0 <= j < i ==> Compatible(nodes[j], nodes[j + 1])
    {
      if pairs[i][0].header.outBitDepth != pairs[i][1].header.inBitDepth {
        assert pairs[i] == nodes[i..i + 2];
        return Failure(ValidationError(i));
      }
      assert pairs[i] == nodes[i..i + 2];
      i := i + 1;
    }
    return Success(true);
  }
}
