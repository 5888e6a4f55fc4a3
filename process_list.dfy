/** The ProcessList: the root of a CLF document, holding the metadata and the ordered
    chain of process nodes. */
module ProcessLists {
  import opened Errors
  import opened Text
  import opened Xml
  import opened Parsing
  import opened Elements
  import opened ProcessNodes

  datatype ProcessList = ProcessList(
    id: string,
    compatibleClfVersion: string,
    processNodes: seq<ProcessNode>,
    name: Option<string>,
    inverseOf: Option<string>,
    description: seq<string>,
    inputDescriptor: string,
    outputDescriptor: string,
    info: Option<Info>)

  /** The children of a ProcessList that are metadata rather than process nodes. */
  const IgnoredTags: set<string> := {"Description", "InputDescriptor", "OutputDescriptor", "Info"}

  /** The children that are taken as process nodes, in document order: every child
      whose local name (whatever its namespace) is not a metadata tag. */
  function NodeCandidates(children: seq<Element>): (r: seq<Element>)
    ensures forall c :: c in r <==> c in children && c.localName !in IgnoredTags
    ensures |r| <= |children|
    ensures (forall i :: 0 <= i < |children| ==> children[i].localName !in IgnoredTags) ==> r == children
  {
    if children == [] then []
    else if children[0].localName in IgnoredTags then NodeCandidates(children[1..])
    else [children[0]] + NodeCandidates(children[1..])
  }

  /** Candidates keep document order: the candidates of a concatenation are those of
      its first part followed by those of its second. */
  lemma {:induction false} NodeCandidatesAppend(a: seq<Element>, b: seq<Element>)
    ensures NodeCandidates(a + b) == NodeCandidates(a) + NodeCandidates(b)
    decreases |a|
  {
    if a == [] {
      assert a + b == b;
    } else {
      assert (a + b)[0] == a[0];
      assert (a + b)[1..] == a[1..] + b;
      NodeCandidatesAppend(a[1..], b);
    }
  }

  /** A single child is a candidate exactly when its tag is not a metadata tag. */
  lemma NodeCandidatesSingle(c: Element)
    ensures NodeCandidates([c]) == if c.localName in IgnoredTags then [] else [c]
  {
    assert [c][1..] == [];
  }

  /** The configuration the document is read with: the root's namespace decides it.
      No namespace switches the namespace off; the CLF namespace keeps the default;
      any other namespace is a ParsingError. */
  function ResolveConfig(root: Element): (r: Result<ParserConfig>)
    ensures r.Success? <==> NamespaceUri(root) == "" || NamespaceUri(root) == CLF_NAMESPACE
    ensures r.Failure? ==> r.error == ParsingError
    ensures NamespaceUri(root) == "" ==> r == Success(ParserConfig(None))
    ensures NamespaceUri(root) == CLF_NAMESPACE ==> r == Success(DefaultConfig)
  {
    var config := DefaultConfig;
    var namespace := NamespaceUri(root);
    if namespace == "" then Success(config.(namespaceName := None))
    else if namespace != config.namespaceName.value then Failure(ParsingError)
    else Success(config)
  }

  /** Every candidate parsed with `parse_process_node`, in order; the first failure
      is the result's failure. */
  function ParseNodes(candidates: seq<Element>, config: ParserConfig, conv: Conversions)
    : (r: Result<seq<ProcessNode>>)
    ensures r.Success? <==> forall i :: 0 <= i < |candidates| ==> ParseProcessNode(candidates[i], config, conv).Success?
    ensures r.Success? ==>
              && |r.value| == |candidates|
              && forall i :: 0 <= i < |candidates| ==> ParseProcessNode(candidates[i], config, conv) == Success(r.value[i])
    ensures r.Failure? ==>
              exists k :: 0 <= k < |candidates|
                && ParseProcessNode(candidates[k], config, conv) == Failure(r.error)
                && forall i :: 0 <= i < k ==> ParseProcessNode(candidates[i], config, conv).Success?
  {
    if candidates == [] then Success([])
    else
      var first :- ParseProcessNode(candidates[0], config, conv);
      var rest :- ParseNodes(candidates[1..], config, conv);
      assert forall i :: 1 <= i < |candidates| ==> candidates[i] == candidates[1..][i - 1];
      Success([first] + rest)
  }

  /** The error of the candidate list is the error of its first candidate that fails. */
  lemma FirstFailureIsParseNodesError(candidates: seq<Element>, config: ParserConfig,
                                       conv: Conversions, k: nat)
    requires k < |candidates| && ParseProcessNode(candidates[k], config, conv).Failure?
    requires forall i :: 0 <= i < k ==> ParseProcessNode(candidates[i], config, conv).Success?
    ensures ParseNodes(candidates, config, conv) == Failure(ParseProcessNode(candidates[k], config, conv).error)
  {
    var r := ParseNodes(candidates, config, conv);
    assert r.Failure?;
    var j :| 0 <= j < |candidates|
             && ParseProcessNode(candidates[j], config, conv) == Failure(r.error)
             && forall i :: 0 <= i < j ==> ParseProcessNode(candidates[i], config, conv).Success?;
    if j < k {
      assert false;
    } else if k < j {
      assert false;
    }
  }

  /** `ProcessList.from_xml`, step by step in the source's order: the mandatory `id`
      and `compCLFversion`, the namespace decision, the optional attributes, Info
      (read from the ProcessList element itself), the descriptions, the process nodes
      and finally the bit-depth check of the chain. */
  function ParseProcessList(root: Element, conv: Conversions): (r: Result<ProcessList>)
    ensures "id" !in root.attrs ==> r == Failure(ParsingError)
    ensures "id" in root.attrs && "compCLFversion" !in root.attrs ==> r == Failure(ParsingError)
    ensures ("id" in root.attrs && "compCLFversion" in root.attrs
             && NamespaceUri(root) != "" && NamespaceUri(root) != CLF_NAMESPACE) ==> r == Failure(ParsingError)
    ensures r.Success? ==>
              && "id" in root.attrs && r.value.id == root.attrs["id"]
              && "compCLFversion" in root.attrs && r.value.compatibleClfVersion == root.attrs["compCLFversion"]
              && (NamespaceUri(root) == "" || NamespaceUri(root) == CLF_NAMESPACE)
              && r.value.name == Get(root, "name")
              && r.value.inverseOf == Get(root, "inverseOf")
              && r.value.info.Some?
    ensures r.Success? ==>
              var config := ResolveConfig(root).value;
              && r.value.description == ElementsAsTextList(root, "Description", config)
              && ElementAsText(root, "InputDescriptor", config) == Success(r.value.inputDescriptor)
              && ElementAsText(root, "OutputDescriptor", config) == Success(r.value.outputDescriptor)
              && ParseNodes(NodeCandidates(root.children), config, conv) == Success(r.value.processNodes)
              && ChainCompatible(r.value.processNodes)
              && InfoFromXml(Some(root), config) == Success(r.value.info)
    ensures ("id" in root.attrs && "compCLFversion" in root.attrs && ResolveConfig(root).Success?
             && InfoFromXml(Some(root), ResolveConfig(root).value).Failure?) ==>
              r == Failure(InfoFromXml(Some(root), ResolveConfig(root).value).error)
    ensures (&& "id" in root.attrs && "compCLFversion" in root.attrs && ResolveConfig(root).Success?
             && InfoFromXml(Some(root), ResolveConfig(root).value).Success?
             && ElementAsText(root, "InputDescriptor", ResolveConfig(root).value).Failure?) ==>
              r == Failure(ElementAsText(root, "InputDescriptor", ResolveConfig(root).value).error)
    ensures (&& "id" in root.attrs && "compCLFversion" in root.attrs && ResolveConfig(root).Success?
             && InfoFromXml(Some(root), ResolveConfig(root).value).Success?
             && ElementAsText(root, "InputDescriptor", ResolveConfig(root).value).Success?
             && ElementAsText(root, "OutputDescriptor", ResolveConfig(root).value).Failure?) ==>
              r == Failure(ElementAsText(root, "OutputDescriptor", ResolveConfig(root).value).error)
    ensures (&& "id" in root.attrs && "compCLFversion" in root.attrs && ResolveConfig(root).Success?
             && InfoFromXml(Some(root), ResolveConfig(root).value).Success?
             && ElementAsText(root, "InputDescriptor", ResolveConfig(root).value).Success?
             && ElementAsText(root, "OutputDescriptor", ResolveConfig(root).value).Success?
             && ParseNodes(NodeCandidates(root.children), ResolveConfig(root).value, conv).Failure?) ==>
              r == Failure(ParseNodes(NodeCandidates(root.children), ResolveConfig(root).value, conv).error)
  {
    var _ :- MustHave(Get(root, "id"));
    var _ :- MustHave(Get(root, "compCLFversion"));
    var config :- ResolveConfig(root);
    var info :- InfoFromXml(Some(root), config);
    var description := ElementsAsTextList(root, "Description", config);
    var inputDescriptor :- ElementAsText(root, "InputDescriptor", config);
    var outputDescriptor :- ElementAsText(root, "OutputDescriptor", config);
    var nodes :- ParseNodes(NodeCandidates(root.children), config, conv);
    var _ :- BitDepthCheck(nodes);
    Success(ProcessList(root.attrs["id"], root.attrs["compCLFversion"], nodes, Get(root, "name"),
                        Get(root, "inverseOf"), description, inputDescriptor, outputDescriptor, info))
  }

  /** The document is rejected exactly at the first pair of adjacent process nodes whose
      bit depths disagree, once everything before the check has been read. */
  lemma IncompatibleChainRejected(root: Element, conv: Conversions, nodes: seq<ProcessNode>, k: nat)
    requires "id" in root.attrs && "compCLFversion" in root.attrs
    requires ResolveConfig(root).Success?
    requires InfoFromXml(Some(root), ResolveConfig(root).value).Success?
    requires ElementAsText(root, "InputDescriptor", ResolveConfig(root).value).Success?
    requires ElementAsText(root, "OutputDescriptor", ResolveConfig(root).value).Success?
    requires ParseNodes(NodeCandidates(root.children), ResolveConfig(root).value, conv) == Success(nodes)
    requires k < |nodes| - 1 && !Compatible(nodes[k], nodes[k + 1])
    requires forall i :: 0 <= i < k ==> Compatible(nodes[i], nodes[i + 1])
    ensures ParseProcessList(root, conv) == Failure(ValidationError(k))
  {
    assert BitDepthCheck(nodes) == Failure(ValidationError(k));
  }

  /** A document whose every step succeeds and whose chain is compatible is accepted,
      with each field taken from the step that reads it. */
  lemma ValidDocumentAccepted(root: Element, conv: Conversions, nodes: seq<ProcessNode>)
    requires "id" in root.attrs && "compCLFversion" in root.attrs
    requires ResolveConfig(root).Success?
    requires InfoFromXml(Some(root), ResolveConfig(root).value).Success?
    requires ElementAsText(root, "InputDescriptor", ResolveConfig(root).value).Success?
    requires ElementAsText(root, "OutputDescriptor", ResolveConfig(root).value).Success?
    requires ParseNodes(NodeCandidates(root.children), ResolveConfig(root).value, conv) == Success(nodes)
    requires ChainCompatible(nodes)
    ensures var config := ResolveConfig(root).value;
            ParseProcessList(root, conv)
            == Success(ProcessList(root.attrs["id"], root.attrs["compCLFversion"], nodes,
                                   Get(root, "name"), Get(root, "inverseOf"),
                                   ElementsAsTextList(root, "Description", config),
                                   ElementAsText(root, "InputDescriptor", config).value,
                                   ElementAsText(root, "OutputDescriptor", config).value,
                                   InfoFromXml(Some(root), config).value))
  {
    assert BitDepthCheck(nodes) == Success(true);
  }

  /** A process node that fails to parse, after the preamble and every earlier node have
      been read, fails the whole document with that node's own error. */
  lemma NodeErrorReachesCaller(root: Element, conv: Conversions, k: nat)
    requires "id" in root.attrs && "compCLFversion" in root.attrs
    requires ResolveConfig(root).Success?
    requires InfoFromXml(Some(root), ResolveConfig(root).value).Success?
    requires ElementAsText(root, "InputDescriptor", ResolveConfig(root).value).Success?
    requires ElementAsText(root, "OutputDescriptor", ResolveConfig(root).value).Success?
    requires k < |NodeCandidates(root.children)|
    requires ParseProcessNode(NodeCandidates(root.children)[k], ResolveConfig(root).value, conv).Failure?
    requires forall i :: 0 <= i < k ==>
               ParseProcessNode(NodeCandidates(root.children)[i], ResolveConfig(root).value, conv).Success?
    ensures ParseProcessList(root, conv)
            == Failure(ParseProcessNode(NodeCandidates(root.children)[k], ResolveConfig(root).value, conv).error)
  {
    FirstFailureIsParseNodesError(NodeCandidates(root.children), ResolveConfig(root).value, conv, k);
  }

  /** A ValidationError comes only from the bit-depth check: when the document fails with
      one, every earlier step succeeded and the parsed chain has a mismatch at the pair
      the error names. */
  lemma ValidationErrorOnlyFromChain(root: Element, conv: Conversions)
    requires ParseProcessList(root, conv).Failure? && ParseProcessList(root, conv).error.ValidationError?
    ensures "id" in root.attrs && "compCLFversion" in root.attrs && ResolveConfig(root).Success?
    ensures var config := ResolveConfig(root).value;
            && InfoFromXml(Some(root), config).Success?
            && ElementAsText(root, "InputDescriptor", config).Success?
            && ElementAsText(root, "OutputDescriptor", config).Success?
            && ParseNodes(NodeCandidates(root.children), config, conv).Success?
            && !ChainCompatible(ParseNodes(NodeCandidates(root.children), config, conv).value)
            && BitDepthCheck(ParseNodes(NodeCandidates(root.children), config, conv).value)
               == Failure(ParseProcessList(root, conv).error)
  {
  }

  /** `ProcessList.from_xml` as the source runs it: the configuration is rebound when
      the root has no namespace, and the chain is checked by walking adjacent pairs. */
  method ProcessListFromXml(root: Element, conv: Conversions) returns (r: Result<ProcessList>)
    ensures r == ParseProcessList(root, conv)
  {
    var id := Get(root, "id");
    var _ :- MustHave(id);
    var compatibleClfVersion := Get(root, "compCLFversion");
    var _ :- MustHave(compatibleClfVersion);

    var config := DefaultConfig;
    var namespace := NamespaceUri(root);
    if namespace == "" {
      config := config.(namespaceName := None);
    } else if namespace != config.namespaceName.value {
      return Failure(ParsingError);
    }

    var name := Get(root, "name");
    var inverseOf := Get(root, "inverseOf");
    var info :- InfoFromXml(Some(root), config);
    var description := ElementsAsTextList(root, "Description", config);
    var inputDescriptor :- ElementAsText(root, "InputDescriptor", config);
    var outputDescriptor :- ElementAsText(root, "OutputDescriptor", config);

    var nodes :- ParseNodes(NodeCandidates(root.children), config, conv);
    var _ :- AssertBitDepthCompatibility(nodes);

    return Success(ProcessList(id.value, compatibleClfVersion.value, nodes, name, inverseOf,
                               description, inputDescriptor, outputDescriptor, info));
  }
}

module ProcessListExamples {
  import opened Errors
  import opened Text
  import opened Xml
  import opened Parsing
  import opened Elements
  import opened ProcessNodes
  import opened ProcessLists

  /** A Log node in the CLF namespace reading `inDepth` and writing `outDepth`. */
  function LogNode(inDepth: string, outDepth: string): Element {
    Element(Some(CLF_NAMESPACE), "Log",
            map["inBitDepth" := inDepth, "outBitDepth" := outDepth, "style" := "log10"], None, [])
  }

  /** A childless Log node with known depths and style parses, carrying those depths. */
  lemma LogNodeParses(inDepth: Values.BitDepth, outDepth: Values.BitDepth, conv: Conversions)
    ensures var r := ParseProcessNode(LogNode(inDepth.Value(), outDepth.Value()), DefaultConfig, conv);
            r.Success? && r.value.header.inBitDepth == inDepth && r.value.header.outBitDepth == outDepth
  {
    var xml := LogNode(inDepth.Value(), outDepth.Value());
    assert ElementAsText(xml, "Description", DefaultConfig) == Success("");
    assert ChildElement(xml, "LogParams", DefaultConfig) == Success(None);
    assert Values.BitDepth.FromValue(inDepth.Value()) == Some(inDepth);
    assert Values.BitDepth.FromValue(outDepth.Value()) == Some(outDepth);
    assert Elements.LogStyle.FromValue("log10").Some?;
  }

  /** A ProcessList in the CLF namespace whose first node writes 8-bit integers and
      whose second reads 10-bit ones. */
  function MismatchedRoot(): Element {
    Element(Some(CLF_NAMESPACE), "ProcessList", map["id" := "x", "compCLFversion" := "3"], None,
            [LogNode("8i", "8i"), LogNode("10i", "10i")])
  }

  lemma MismatchedRootPreamble()
    ensures ResolveConfig(MismatchedRoot()) == Success(DefaultConfig)
    ensures ElementAsText(MismatchedRoot(), "InputDescriptor", DefaultConfig) == Success("")
    ensures ElementAsText(MismatchedRoot(), "OutputDescriptor", DefaultConfig) == Success("")
    ensures InfoFromXml(Some(MismatchedRoot()), DefaultConfig).Success?
  {
    var root := MismatchedRoot();
    assert Select(DefaultConfig, "InputDescriptor", root.children) == [];
    assert Select(DefaultConfig, "OutputDescriptor", root.children) == [];
    assert Select(DefaultConfig, "CalibrationInfo", root.children) == [];
  }

  /** Two nodes that each parse, parse as a pair in order. */
  lemma ParsePair(a: Element, b: Element, config: ParserConfig, conv: Conversions)
    requires ParseProcessNode(a, config, conv).Success? && ParseProcessNode(b, config, conv).Success?
    ensures ParseNodes([a, b], config, conv)
            == Success([ParseProcessNode(a, config, conv).value, ParseProcessNode(b, config, conv).value])
  {
    var pa, pb := ParseProcessNode(a, config, conv).value, ParseProcessNode(b, config, conv).value;
    var r := ParseNodes([a, b], config, conv);
    assert r.Success? by {
      forall i | 0 <= i < 2
        ensures ParseProcessNode([a, b][i], config, conv).Success?
      {
      }
    }
    assert r.value[0] == pa && r.value[1] == pb;
    assert r.value == [pa, pb];
  }

  lemma MismatchedRootNodes(conv: Conversions) returns (nodes: seq<ProcessNode>)
    ensures ParseNodes(NodeCandidates(MismatchedRoot().children), DefaultConfig, conv) == Success(nodes)
    ensures |nodes| == 2 && !Compatible(nodes[0], nodes[1])
  {
    var first, second := LogNode("8i", "8i"), LogNode("10i", "10i");
    assert MismatchedRoot().children == [first, second];
    assert NodeCandidates([first, second]) == [first, second];
    LogNodeParses(Values.I8, Values.I8, conv);
    LogNodeParses(Values.I10, Values.I10, conv);
    ParsePair(first, second, DefaultConfig, conv);
    nodes := [ParseProcessNode(first, DefaultConfig, conv).value, ParseProcessNode(second, DefaultConfig, conv).value];
  }

  /** One node that parses, parses alone. */
  lemma ParseSingle(a: Element, config: ParserConfig, conv: Conversions)
    requires ParseProcessNode(a, config, conv).Success?
    ensures ParseNodes([a], config, conv) == Success([ParseProcessNode(a, config, conv).value])
  {
    var pa := ParseProcessNode(a, config, conv).value;
    var r := ParseNodes([a], config, conv);
    assert r.Success? by {
      forall i | 0 <= i < 1
        ensures ParseProcessNode([a][i], config, conv).Success?
      {
      }
    }
    assert r.value[0] == pa;
    assert r.value == [pa];
  }

  /** A ProcessList in the CLF namespace holding one Log node from 10-bit to 10-bit
      integers, and nothing else. */
  function SingleLogRoot(): Element {
    Element(Some(CLF_NAMESPACE), "ProcessList", map["id" := "y", "compCLFversion" := "3"], None,
            [LogNode("10i", "10i")])
  }

  /** What the single-node document's preamble reads: the CLF configuration, empty
      input and output descriptors, no Description texts, and an Info that parses. */
  lemma SingleLogRootPreamble()
    ensures ResolveConfig(SingleLogRoot()) == Success(DefaultConfig)
    ensures ElementAsText(SingleLogRoot(), "InputDescriptor", DefaultConfig) == Success("")
    ensures ElementAsText(SingleLogRoot(), "OutputDescriptor", DefaultConfig) == Success("")
    ensures ElementsAsTextList(SingleLogRoot(), "Description", DefaultConfig) == []
    ensures InfoFromXml(Some(SingleLogRoot()), DefaultConfig).Success?
  {
    var root := SingleLogRoot();
    assert Select(DefaultConfig, "InputDescriptor", root.children) == [];
    assert Select(DefaultConfig, "OutputDescriptor", root.children) == [];
    assert Select(DefaultConfig, "CalibrationInfo", root.children) == [];
    assert Select(DefaultConfig, "Description", root.children) == [];
  }

  /** The single-node document's one candidate parses to a 10i Log node, and a chain of
      one node is compatible. */
  lemma SingleLogRootNodes(conv: Conversions) returns (nodes: seq<ProcessNode>)
    ensures ParseNodes(NodeCandidates(SingleLogRoot().children), DefaultConfig, conv) == Success(nodes)
    ensures |nodes| == 1 && nodes[0].Log? && nodes[0].header.inBitDepth == Values.I10
    ensures ChainCompatible(nodes)
  {
    var node := LogNode("10i", "10i");
    assert SingleLogRoot().children == [node];
    assert NodeCandidates([node]) == [node];
    LogNodeParses(Values.I10, Values.I10, conv);
    ParseSingle(node, DefaultConfig, conv);
    nodes := [ParseProcessNode(node, DefaultConfig, conv).value];
  }

  /** The single-node document is accepted, whatever the number syntax: it keeps its id
      and version, has no descriptions and holds the one parsed Log node. */
  lemma SingleLogAccepted(conv: Conversions)
    ensures var r := ParseProcessList(SingleLogRoot(), conv);
            && r.Success? && r.value.id == "y" && r.value.compatibleClfVersion == "3"
            && r.value.description == [] && r.value.inputDescriptor == "" && r.value.outputDescriptor == ""
            && |r.value.processNodes| == 1 && r.value.processNodes[0].Log?
            && r.value.processNodes[0].header.inBitDepth == Values.I10
  {
    var root := SingleLogRoot();
    SingleLogRootPreamble();
    var nodes := SingleLogRootNodes(conv);
    assert ResolveConfig(root).value == DefaultConfig;
    ValidDocumentAccepted(root, conv, nodes);
  }

  /** A ProcessList in the CLF namespace holding one Exponent node that has its bit
      depths but no `style` attribute. */
  function StylelessExponentRoot(): Element {
    Element(Some(CLF_NAMESPACE), "ProcessList", map["id" := "z", "compCLFversion" := "3"], None,
            [Element(Some(CLF_NAMESPACE), "Exponent", map["inBitDepth" := "16f", "outBitDepth" := "16f"], None, [])])
  }

  lemma StylelessExponentRootPreamble()
    ensures ResolveConfig(StylelessExponentRoot()) == Success(DefaultConfig)
    ensures ElementAsText(StylelessExponentRoot(), "InputDescriptor", DefaultConfig).Success?
    ensures ElementAsText(StylelessExponentRoot(), "OutputDescriptor", DefaultConfig).Success?
    ensures InfoFromXml(Some(StylelessExponentRoot()), DefaultConfig).Success?
  {
    var root := StylelessExponentRoot();
    assert Select(DefaultConfig, "InputDescriptor", root.children) == [];
    assert Select(DefaultConfig, "OutputDescriptor", root.children) == [];
    assert Select(DefaultConfig, "CalibrationInfo", root.children) == [];
  }

  /** The Exponent node without a style is the first and only candidate, and it fails to
      parse with a ParsingError. */
  lemma StylelessExponentNodeFails(conv: Conversions)
    ensures |NodeCandidates(StylelessExponentRoot().children)| == 1
    ensures ParseProcessNode(NodeCandidates(StylelessExponentRoot().children)[0], DefaultConfig, conv)
            == Failure(ParsingError)
  {
    var node := StylelessExponentRoot().children[0];
    assert StylelessExponentRoot().children == [node];
    assert NodeCandidates([node]) == [node];
    assert ElementAsText(node, "Description", DefaultConfig) == Success("");
    assert Values.BitDepth.FromValue("16f") == Some(Values.F16);
    assert ParseHeader(node, DefaultConfig).Success?;
  }

  /** Omitting the style of an Exponent node fails the whole document with a
      ParsingError, whatever the number syntax. */
  lemma StylelessExponentRejected(conv: Conversions)
    ensures ParseProcessList(StylelessExponentRoot(), conv) == Failure(ParsingError)
  {
    var root := StylelessExponentRoot();
    StylelessExponentRootPreamble();
    StylelessExponentNodeFails(conv);
    assert ResolveConfig(root).value == DefaultConfig;
    NodeErrorReachesCaller(root, conv, 0);
  }

  /** An Exponent node with a known style whose ExponentParams child gives an empty
      `exponent` attribute. */
  function EmptyExponentNode(): Element {
    Element(Some(CLF_NAMESPACE), "Exponent",
            map["inBitDepth" := "16f", "outBitDepth" := "16f", "style" := "basicFwd"], None,
            [Element(Some(CLF_NAMESPACE), "ExponentParams", map["exponent" := ""], None, [])])
  }

  /** The steps of `Exponent.from_xml` on that node: the header parses, the one
      ExponentParams child is found, and its empty exponent is a ParsingError. */
  lemma EmptyExponentNodeSteps(conv: Conversions)
    ensures ParseHeader(EmptyExponentNode(), DefaultConfig).Success?
    ensures ChildElement(EmptyExponentNode(), "ExponentParams", DefaultConfig)
            == Success(Some(EmptyExponentNode().children[0]))
    ensures ExponentParamsFromXml(Some(EmptyExponentNode().children[0]), DefaultConfig, conv) == Failure(ParsingError)
  {
    var node := EmptyExponentNode();
    assert ElementAsText(node, "Description", DefaultConfig) == Success("");
    assert Values.BitDepth.FromValue("16f") == Some(Values.F16);
    assert Select(DefaultConfig, "ExponentParams", node.children) == [node.children[0]];
  }

  lemma EmptyExponentFromXml(conv: Conversions)
    ensures ExponentFromXml(EmptyExponentNode(), DefaultConfig, conv) == Failure(ParsingError)
  {
    EmptyExponentNodeSteps(conv);
    assert ExponentStyle.FromValue("basicFwd").Some?;
  }

  /** An empty exponent is not a float, so the node fails with a ParsingError, whatever
      the number syntax. */
  lemma EmptyExponentNodeFails(conv: Conversions)
    ensures ParseProcessNode(EmptyExponentNode(), DefaultConfig, conv) == Failure(ParsingError)
  {
    EmptyExponentFromXml(conv);
  }

  /** A ProcessList in the CLF namespace holding only that Exponent node. */
  function EmptyExponentRoot(): Element {
    Element(Some(CLF_NAMESPACE), "ProcessList", map["id" := "w", "compCLFversion" := "3"], None,
            [EmptyExponentNode()])
  }

  lemma EmptyExponentRootPreamble()
    ensures ResolveConfig(EmptyExponentRoot()) == Success(DefaultConfig)
    ensures ElementAsText(EmptyExponentRoot(), "InputDescriptor", DefaultConfig).Success?
    ensures ElementAsText(EmptyExponentRoot(), "OutputDescriptor", DefaultConfig).Success?
    ensures InfoFromXml(Some(EmptyExponentRoot()), DefaultConfig).Success?
    ensures NodeCandidates(EmptyExponentRoot().children) == [EmptyExponentNode()]
  {
    var root := EmptyExponentRoot();
    assert Select(DefaultConfig, "InputDescriptor", root.children) == [];
    assert Select(DefaultConfig, "OutputDescriptor", root.children) == [];
    assert Select(DefaultConfig, "CalibrationInfo", root.children) == [];
    NodeCandidatesSingle(EmptyExponentNode());
  }

  /** The empty exponent fails the whole document with a ParsingError, whatever the
      number syntax. */
  lemma EmptyExponentRejected(conv: Conversions)
    ensures ParseProcessList(EmptyExponentRoot(), conv) == Failure(ParsingError)
  {
    var root := EmptyExponentRoot();
    EmptyExponentRootPreamble();
    EmptyExponentNodeFails(conv);
    assert ResolveConfig(root).value == DefaultConfig;
    NodeErrorReachesCaller(root, conv, 0);
  }

  /** The document is rejected at pair 0, whatever the number syntax. */
  lemma MismatchedChainExample(conv: Conversions)
    ensures ParseProcessList(MismatchedRoot(), conv) == Failure(ValidationError(0))
  {
    var root := MismatchedRoot();
    MismatchedRootPreamble();
    var nodes := MismatchedRootNodes(conv);
    assert ResolveConfig(root).value == DefaultConfig;
    IncompatibleChainRejected(root, conv, nodes, 0);
  }
}
