/** The fixed-shape structures nested inside process nodes (Array, SOPNode, SatNode,
    LogParams, ExponentParams) and inside the process list (Info, CalibrationInfo),
    with the style vocabularies of Range, Log and Exponent. Every parser takes the
    element that may be absent and gives None exactly when it is absent; the caller
    decides whether absence is an error. */
module Elements {
  import opened Errors
  import opened Text
  import opened Xml
  import opened Parsing
  import opened Values

  /** A flattened table: its entries and the dimensions they are laid out in. Nothing
      ties the number of entries to the product of the dimensions. */
  datatype Array = Array(values: seq<real>, dim: seq<int>)

  /** `Array.from_xml`: the whitespace-separated integers of the `dim` attribute and the
      whitespace-separated floats of the element's text, both in order. An absent `dim`
      or text, or a token that does not convert, is a ConversionError. */
  function ArrayFromXml(xml: Option<Element>, config: ParserConfig, conv: Conversions)
    : (r: Result<Option<Array>>)
    ensures xml.None? ==> r == Success(None)
    ensures xml.Some? ==>
              var e := xml.value;
              (r.Success? <==>
                 && "dim" in e.attrs && IntsOf(Split(e.attrs["dim"]), conv).Success?
                 && e.text.Some? && FloatsOf(Split(e.text.value), conv).Success?)
    ensures xml.Some? && r.Success? ==>
              var e, tokens := xml.value, Split(xml.value.attrs["dim"]);
              && r.value.Some?
              && |r.value.value.dim| == |tokens|
              && (forall i :: 0 <= i < |tokens| ==> conv.toInt(tokens[i]) == Some(r.value.value.dim[i]))
              && |r.value.value.values| == |Split(e.text.value)|
              && (forall i :: 0 <= i < |Split(e.text.value)| ==>
                    conv.toFloat(Split(e.text.value)[i]) == Some(r.value.value.values[i]))
    ensures r.Failure? ==> r.error == ConversionError
  {
    match xml
    case None => Success(None)
    case Some(e) =>
      if "dim" !in e.attrs then Failure(ConversionError)
      else
        var dim :- IntsOf(Split(e.attrs["dim"]), conv);
        if e.text.None? then Failure(ConversionError)
        else
          var values :- FloatsOf(Split(e.text.value), conv);
          Success(Some(Array(values, dim)))
  }

  /** The product of the dimensions `dim`. */
  function Product(dim: seq<int>): int {
    if dim == [] then 1 else dim[0] * Product(dim[1..])
  }

  lemma {:induction false} ProductAppend(dim: seq<int>, d: int)
    ensures Product(dim + [d]) == Product(dim) * d
  {
    if dim != [] {
      assert (dim + [d])[1..] == dim[1..] + [d];
      ProductAppend(dim[1..], d);
    } else {
      assert [] + [d] == [d];
    }
  }

  /** The trimming loop of `Array.as_array`: drops trailing dimensions of size 1.
      Python's `dim[-1]` raises IndexError once no dimension is left, so a `dim` made
      only of 1s (or empty) gives None. The result is a prefix of `dim` that keeps its
      product, ends in a dimension other than 1, and all that was dropped is 1s. */
  method TrimDims(dim: seq<int>) returns (r: Option<seq<int>>)
    ensures r.None? <==> forall i :: 0 <= i < |dim| ==> dim[i] == 1
    ensures r.Some? ==>
              && 1 <= |r.value| <= |dim|
              && r.value == dim[..|r.value|]
              && r.value[|r.value| - 1] != 1
              && (forall i :: |r.value| <= i < |dim| ==> dim[i] == 1)
              && Product(r.value) == Product(dim)
  {
    var d := dim;
    while |d| > 0 && d[|d| - 1] == 1
      invariant |d| <= |dim| && d == dim[..|d|]
      invariant forall i :: |d| <= i < |dim| ==> dim[i] == 1
      invariant Product(d) == Product(dim)
    {
      ProductAppend(d[..|d| - 1], 1);
      assert d == d[..|d| - 1] + [1];
      d := d[..|d| - 1];
    }
    if |d| == 0 {
      return None;
    }
    return Some(d);
  }

  datatype CalibrationInfo = CalibrationInfo(
    displayDeviceSerialNum: Option<string>,
    displayDeviceHostName: Option<string>,
    operatorName: Option<string>,
    calibrationDateTime: Option<string>,
    measurementProbe: Option<string>,
    calibrationSoftwareName: Option<string>,
    calibrationSoftwareVersion: Option<string>)

  const CalibrationInfoAttributes: map<string, string> := map[
    "display_device_serial_num" := "DisplayDeviceSerialNum",
    "display_device_host_name" := "DisplayDeviceHostName",
    "operator_name" := "OperatorName",
    "calibration_date_time" := "CalibrationDateTime",
    "measurement_probe" := "MeasurementProbe",
    "calibration_software_name" := "CalibrationSoftwareName",
    "calibration_software_version" := "CalibrationSoftwareVersion"]

  /** `CalibrationInfo.from_xml`: seven optional attributes; never fails. */
  function CalibrationInfoFromXml(xml: Option<Element>, config: ParserConfig): (r: Option<CalibrationInfo>)
    ensures r.None? <==> xml.None?
    ensures xml.Some? ==>
              var e := xml.value;
              && r.value.displayDeviceSerialNum == Get(e, "DisplayDeviceSerialNum")
              && r.value.displayDeviceHostName == Get(e, "DisplayDeviceHostName")
              && r.value.operatorName == Get(e, "OperatorName")
              && r.value.calibrationDateTime == Get(e, "CalibrationDateTime")
              && r.value.measurementProbe == Get(e, "MeasurementProbe")
              && r.value.calibrationSoftwareName == Get(e, "CalibrationSoftwareName")
              && r.value.calibrationSoftwareVersion == Get(e, "CalibrationSoftwareVersion")
  {
    match xml
    case None => None
    case Some(e) =>
      var a := RetrieveAttributes(e, CalibrationInfoAttributes);
      Some(CalibrationInfo(
        a["display_device_serial_num"], a["display_device_host_name"], a["operator_name"],
        a["calibration_date_time"], a["measurement_probe"], a["calibration_software_name"],
        a["calibration_software_version"]))
  }

  datatype RangeStyle = Clamp | NoClamp {
    function Value(): string {
      match this
      case Clamp => "Clamp"
      case NoClamp => "noClamp"
    }

    static function FromValue(s: string): (r: Option<RangeStyle>)
      ensures r.Some? ==> r.value.Value() == s
      ensures forall st: RangeStyle :: st.Value() == s ==> r == Some(st)
    {
      match s
      case "Clamp" => Some(Clamp)
      case "noClamp" => Some(NoClamp)
      case _ => None
    }
  }

  datatype LogStyle =
    | Log10 | AntiLog10 | Log2 | AntiLog2 | LinToLog | LogToLin | CameraLinToLog | CameraLogToLin
  {
    function Value(): string {
      match this
      case Log10 => "log10"
      case AntiLog10 => "antiLog10"
      case Log2 => "log2"
      case AntiLog2 => "antiLog2"
      case LinToLog => "linToLog"
      case LogToLin => "logToLin"
      case CameraLinToLog => "cameraLinToLog"
      case CameraLogToLin => "cameraLogToLin"
    }

    static function FromValue(s: string): (r: Option<LogStyle>)
      ensures r.Some? ==> r.value.Value() == s
      ensures forall st: LogStyle :: st.Value() == s ==> r == Some(st)
    {
      match s
      case "log10" => Some(Log10)
      case "antiLog10" => Some(AntiLog10)
      case "log2" => Some(Log2)
      case "antiLog2" => Some(AntiLog2)
      case "linToLog" => Some(LinToLog)
      case "logToLin" => Some(LogToLin)
      case "cameraLinToLog" => Some(CameraLinToLog)
      case "cameraLogToLin" => Some(CameraLogToLin)
      case _ => None
    }
  }

  datatype ExponentStyle =
    | BasicFwd | BasicRev | BasicMirrorFwd | BasicMirrorRev | BasicPassThruFwd | BasicPassThruRev
    | MonCurveFwd | MonCurveRev | MonCurveMirrorFwd | MonCurveMirrorRev
  {
    function Value(): string {
      match this
      case BasicFwd => "basicFwd"
      case BasicRev => "basicRev"
      case BasicMirrorFwd => "basicMirrorFwd"
      case BasicMirrorRev => "basicMirrorRev"
      case BasicPassThruFwd => "basicPassThruFwd"
      case BasicPassThruRev => "basicPassThruRev"
      case MonCurveFwd => "monCurveFwd"
      case MonCurveRev => "monCurveRev"
      case MonCurveMirrorFwd => "monCurveMirrorFwd"
      case MonCurveMirrorRev => "monCurveMirrorRev"
    }

    static function FromValue(s: string): (r: Option<ExponentStyle>)
      ensures r.Some? ==> r.value.Value() == s
      ensures forall st: ExponentStyle :: st.Value() == s ==> r == Some(st)
    {
      match s
      case "basicFwd" => Some(BasicFwd)
      case "basicRev" => Some(BasicRev)
      case "basicMirrorFwd" => Some(BasicMirrorFwd)
      case "basicMirrorRev" => Some(BasicMirrorRev)
      case "basicPassThruFwd" => Some(BasicPassThruFwd)
      case "basicPassThruRev" => Some(BasicPassThruRev)
      case "monCurveFwd" => Some(MonCurveFwd)
      case "monCurveRev" => Some(MonCurveRev)
      case "monCurveMirrorFwd" => Some(MonCurveMirrorFwd)
      case "monCurveMirrorRev" => Some(MonCurveMirrorRev)
      case _ => None
    }
  }

  /** Slope, offset and power of an ASC CDL, one value per colour channel. */
  datatype SOPNode = SOPNode(
    slope: (real, real, real),
    offset: (real, real, real),
    power: (real, real, real))

  /** The three floats held by the one child named `name`. */
  function TripleChild(e: Element, name: string, config: ParserConfig, conv: Conversions)
    : (r: Result<(real, real, real)>)
    ensures r.Success? ==> HoldsTriple(e, name, config, conv, r.value)
    ensures forall t :: HoldsTriple(e, name, config, conv, t) ==> r == Success(t)
    ensures ChildElementOrException(e, name, config).Failure? ==> r == Failure(ParsingError)
    ensures ChildElementOrException(e, name, config).Success? ==>
              r == ThreeFloats(ChildElementOrException(e, name, config).value.text, conv)
  {
    var child :- ChildElementOrException(e, name, config);
    ThreeFloats(child.text, conv)
  }

  /** The one child of `e` named `name` has text whose three floats are `t`. */
  predicate HoldsTriple(e: Element, name: string, config: ParserConfig, conv: Conversions,
                        t: (real, real, real))
  {
    exists i :: 0 <= i < |e.children| && Selects(config, name, e.children[i])
      && OnlySelected(config, name, e.children, i)
      && ThreeFloats(e.children[i].text, conv) == Success(t)
  }

  /** `SOPNode.from_xml`: the Slope, Offset and Power children are mandatory, each read
      with `three_floats`; a missing or repeated one is a ParsingError. */
  function SOPNodeFromXml(xml: Option<Element>, config: ParserConfig, conv: Conversions)
    : (r: Result<Option<SOPNode>>)
    ensures xml.None? ==> r == Success(None)
    ensures xml.Some? && r.Success? ==>
              && r.value.Some?
              && HoldsTriple(xml.value, "Slope", config, conv, r.value.value.slope)
              && HoldsTriple(xml.value, "Offset", config, conv, r.value.value.offset)
              && HoldsTriple(xml.value, "Power", config, conv, r.value.value.power)
    ensures xml.Some? && ChildElementOrException(xml.value, "Slope", config).Failure? ==>
              r == Failure(ParsingError)
    ensures (xml.Some? && forall i :: 0 <= i < |xml.value.children| ==>
                            !Selects(config, "Offset", xml.value.children[i])) ==> r.Failure?
    ensures (xml.Some? && forall i :: 0 <= i < |xml.value.children| ==>
                            !Selects(config, "Power", xml.value.children[i])) ==> r.Failure?
    ensures xml.Some? ==>
              (r.Success? <==> && TripleChild(xml.value, "Slope", config, conv).Success?
                               && TripleChild(xml.value, "Offset", config, conv).Success?
                               && TripleChild(xml.value, "Power", config, conv).Success?)
    ensures (&& xml.Some? && TripleChild(xml.value, "Slope", config, conv).Success?
             && ChildElementOrException(xml.value, "Offset", config).Failure?) ==> r == Failure(ParsingError)
    ensures (&& xml.Some? && TripleChild(xml.value, "Slope", config, conv).Success?
             && TripleChild(xml.value, "Offset", config, conv).Success?
             && ChildElementOrException(xml.value, "Power", config).Failure?) ==> r == Failure(ParsingError)
    ensures xml.Some? && r.Failure? ==>
              r.error == (if TripleChild(xml.value, "Slope", config, conv).Failure?
                          then TripleChild(xml.value, "Slope", config, conv).error
                          else if TripleChild(xml.value, "Offset", config, conv).Failure?
                          then TripleChild(xml.value, "Offset", config, conv).error
                          else TripleChild(xml.value, "Power", config, conv).error)
    ensures r.Failure? ==> !r.error.ValidationError?
  {
    match xml
    case None => Success(None)
    case Some(e) =>
      var slope :- TripleChild(e, "Slope", config, conv);
      var offset :- TripleChild(e, "Offset", config, conv);
      var power :- TripleChild(e, "Power", config, conv);
      Success(Some(SOPNode(slope, offset, power)))
  }

  datatype SatNode = SatNode(saturation: real)

  /** `SatNode.from_xml`: the Saturation child is mandatory and must hold text (else a
      ParsingError); the saturation is the float of that text. */
  function SatNodeFromXml(xml: Option<Element>, config: ParserConfig, conv: Conversions)
    : (r: Result<Option<SatNode>>)
    ensures xml.None? ==> r == Success(None)
    ensures xml.Some? && r.Success? ==>
              && r.value.Some?
              && exists i :: 0 <= i < |xml.value.children|
                   && Selects(config, "Saturation", xml.value.children[i])
                   && OnlySelected(config, "Saturation", xml.value.children, i)
                   && xml.value.children[i].text.Some?
                   && conv.toFloat(xml.value.children[i].text.value) == Some(r.value.value.saturation)
    ensures xml.Some? && (forall i :: 0 <= i < |xml.value.children| ==>
                            !Selects(config, "Saturation", xml.value.children[i])) ==>
              r == Failure(ParsingError)
    ensures xml.Some? ==>
              forall i :: (0 <= i < |xml.value.children|
                           && Selects(config, "Saturation", xml.value.children[i])
                           && OnlySelected(config, "Saturation", xml.value.children, i)
                           && xml.value.children[i].text.None?) ==> r == Failure(ParsingError)
    ensures xml.Some? ==>
              forall i :: (0 <= i < |xml.value.children|
                           && Selects(config, "Saturation", xml.value.children[i])
                           && OnlySelected(config, "Saturation", xml.value.children, i)
                           && xml.value.children[i].text.Some?) ==>
                (r.Success? <==> conv.toFloat(xml.value.children[i].text.value).Some?)
    ensures xml.Some? && ChildElementOrException(xml.value, "Saturation", config).Failure? ==>
              r == Failure(ParsingError)
    ensures (&& xml.Some? && ChildElementOrException(xml.value, "Saturation", config).Success?
             && ChildElementOrException(xml.value, "Saturation", config).value.text.Some? && r.Failure?) ==>
              r.error == ConversionError
    ensures r.Failure? ==> !r.error.ValidationError?
  {
    match xml
    case None => Success(None)
    case Some(e) =>
      var child :- ChildElementOrException(e, "Saturation", config);
      if child.text.None? then Failure(ParsingError)
      else
        match conv.toFloat(child.text.value)
        case None => Failure(ConversionError)
        case Some(saturation) => Success(Some(SatNode(saturation)))
  }

  datatype Info = Info(
    appRelease: Option<string>,
    copyright: Option<string>,
    revision: Option<string>,
    acesTransformId: Option<string>,
    acesUserName: Option<string>,
    calibrationInfo: Option<CalibrationInfo>)

  const InfoAttributes: map<string, string> := map[
    "app_release" := "AppRelease",
    "copyright" := "Copyright",
    "revision" := "Revision",
    "aces_transform_id" := "ACEStransformID",
    "aces_user_name" := "ACESuserName"]

  /** `Info.from_xml`: five optional attributes, and the CalibrationInfo read from the
      one CalibrationInfo child (None without one; a ParsingError with several). */
  function InfoFromXml(xml: Option<Element>, config: ParserConfig): (r: Result<Option<Info>>)
    ensures xml.None? ==> r == Success(None)
    ensures xml.Some? ==> (r.Success? <==> ChildElement(xml.value, "CalibrationInfo", config).Success?)
    ensures r.Failure? ==> r.error == ParsingError
    ensures xml.Some? && r.Success? ==>
              var e := xml.value;
              && r.value.Some?
              && r.value.value.appRelease == Get(e, "AppRelease")
              && r.value.value.copyright == Get(e, "Copyright")
              && r.value.value.revision == Get(e, "Revision")
              && r.value.value.acesTransformId == Get(e, "ACEStransformID")
              && r.value.value.acesUserName == Get(e, "ACESuserName")
              && (r.value.value.calibrationInfo.None? <==>
                    forall i :: 0 <= i < |e.children| ==> !Selects(config, "CalibrationInfo", e.children[i]))
              && r.value.value.calibrationInfo
                 == CalibrationInfoFromXml(ChildElement(e, "CalibrationInfo", config).value, config)
  {
    match xml
    case None => Success(None)
    case Some(e) =>
      var a := RetrieveAttributes(e, InfoAttributes);
      var calibration :- ChildElement(e, "CalibrationInfo", config);
      Success(Some(Info(a["app_release"], a["copyright"], a["revision"], a["aces_transform_id"],
                        a["aces_user_name"], CalibrationInfoFromXml(calibration, config))))
  }

  /** The channel a parameter list applies to, as `map_optional(Channel, ...)`. */
  function ChannelOf(e: Element): (r: Result<Option<Channel>>)
    ensures r.Failure? <==> "channel" in e.attrs && Channel.FromValue(e.attrs["channel"]).None?
    ensures r.Failure? ==> r.error == ConversionError
    ensures r.Success? ==> (r.value.None? <==> "channel" !in e.attrs)
    ensures r.Success? && r.value.Some? ==> r.value.value.Value() == e.attrs["channel"]
  {
    MapOptional(s => EnumOf(Channel.FromValue, Some(s)), Get(e, "channel"))
  }

  datatype LogParams = LogParams(
    base: Option<real>,
    logSideSlope: Option<real>,
    logSideOffset: Option<real>,
    linSideSlope: Option<real>,
    linSideOffset: Option<real>,
    linSideBreak: Option<real>,
    linearSlope: Option<real>,
    channel: Option<Channel>)

  const LogParamsAttributes: map<string, string> := map[
    "base" := "base",
    "log_side_slope" := "logSideSlope",
    "log_side_offset" := "logSideOffset",
    "lin_side_slope" := "linSideSlope",
    "lin_side_offset" := "linSideOffset",
    "lin_side_break" := "linSideBreak",
    "linear_slope" := "linearSlope"]

  /** `LogParams.from_xml`: seven optional floats (absent or unparsable: None) and an
      optional channel; only a channel outside R, G, B fails. */
  function LogParamsFromXml(xml: Option<Element>, config: ParserConfig, conv: Conversions)
    : (r: Result<Option<LogParams>>)
    ensures xml.None? ==> r == Success(None)
    ensures xml.Some? ==> (r.Failure? <==> ChannelOf(xml.value).Failure?)
    ensures r.Failure? ==> r.error == ConversionError
    ensures xml.Some? && r.Success? ==> r.value.Some?
    ensures xml.Some? && r.Success? && r.value.Some? ==>
              var e, p := xml.value, r.value.value;
              && p.base == AsFloat(Get(e, "base"), conv)
              && p.logSideSlope == AsFloat(Get(e, "logSideSlope"), conv)
              && p.logSideOffset == AsFloat(Get(e, "logSideOffset"), conv)
              && p.linSideSlope == AsFloat(Get(e, "linSideSlope"), conv)
              && p.linSideOffset == AsFloat(Get(e, "linSideOffset"), conv)
              && p.linSideBreak == AsFloat(Get(e, "linSideBreak"), conv)
              && p.linearSlope == AsFloat(Get(e, "linearSlope"), conv)
              && Success(p.channel) == ChannelOf(e)
  {
    match xml
    case None => Success(None)
    case Some(e) =>
      var a := RetrieveAttributesAsFloat(e, LogParamsAttributes, conv);
      var channel :- ChannelOf(e);
      Success(Some(LogParams(a["base"], a["log_side_slope"], a["log_side_offset"], a["lin_side_slope"],
                             a["lin_side_offset"], a["lin_side_break"], a["linear_slope"], channel)))
  }

  datatype ExponentParams = ExponentParams(exponent: real, offset: Option<real>, channel: Option<Channel>)

  const ExponentParamsAttributes: map<string, string> := map["exponent" := "exponent", "offset" := "offset"]

  /** `ExponentParams.from_xml`: `exponent` is mandatory (absent or unparsable: a
      ParsingError), `offset` degrades to None, and the channel is optional but must be
      R, G or B when present. */
  function ExponentParamsFromXml(xml: Option<Element>, config: ParserConfig, conv: Conversions)
    : (r: Result<Option<ExponentParams>>)
    ensures xml.None? ==> r == Success(None)
    ensures xml.Some? && AsFloat(Get(xml.value, "exponent"), conv).None? ==> r == Failure(ParsingError)
    ensures xml.Some? && AsFloat(Get(xml.value, "exponent"), conv).Some? ==>
              (r.Failure? <==> ChannelOf(xml.value).Failure?)
    ensures xml.Some? && AsFloat(Get(xml.value, "exponent"), conv).Some? && r.Failure? ==>
              r.error == ConversionError
    ensures xml.Some? && r.Success? ==> r.value.Some?
    ensures xml.Some? && r.Success? && r.value.Some? ==>
              var e, p := xml.value, r.value.value;
              && Some(p.exponent) == AsFloat(Get(e, "exponent"), conv)
              && p.offset == AsFloat(Get(e, "offset"), conv)
              && Success(p.channel) == ChannelOf(e)
  {
    match xml
    case None => Success(None)
    case Some(e) =>
      var a := RetrieveAttributesAsFloat(e, ExponentParamsAttributes, conv);
      var exponent := a["exponent"];
      if exponent.None? then Failure(ParsingError)
      else
        var channel :- ChannelOf(e);
        Success(Some(ExponentParams(exponent.value, a["offset"], channel)))
  }
}
