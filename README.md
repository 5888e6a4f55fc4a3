# CLF v3.0 reader: tree-to-model parser and validator

This project models the part of `colour_clf_io` that turns an already-loaded XML
tree of an Academy Common LUT Format (CLF) v3.0 document into a ProcessList. A
ProcessList is the document's metadata plus its ordered chain of process nodes. The
part also validates that the chain is well formed. The model follows the five layers
of the package:

- `parsing.dfy` (module `Parsing`) has the extraction helpers:
  - the namespace-prefix mapping of the parser configuration;
  - optional-value mapping;
  - attribute maps, as strings and as floats;
  - `must_have`;
  - child lookup with its none/one/many outcome, and its variant that fails when the
    child is absent;
  - the text of one child and the texts of all matching children;
  - the sliding window;
  - the three-float parser.
- `values.dfy` (module `Values`) has the closed vocabularies: BitDepth (with its scale
  factor and `all()`), Channel, the two interpolation enums and the ASC_CDL style.
  Each is built from its string the way Python's `Enum(value)` is.
- `elements.dfy` (module `Elements`) has the sub-element parsers (Array,
  CalibrationInfo, SOPNode, SatNode, Info, LogParams, ExponentParams). It also has the
  loop that strips trailing dimensions of size 1, and the Range, Log and Exponent
  style enums.
- `process_nodes.dfy` (module `ProcessNodes`) has:
  - the header every process node shares;
  - the seven node kinds and the registry that dispatches a tag to its parser;
  - the adjacent bit-depth check.
- `process_list.dfy` (module `ProcessLists`) has `ProcessList.from_xml`. It checks the
  mandatory root attributes, makes the three-way namespace decision, filters out the
  metadata children, parses the nodes in order and checks the chain. Module
  `ProcessListExamples` works through four concrete documents: one rejected at pair 0
  of its chain, two rejected with a ParsingError for an Exponent node (one without a
  style, one with an empty exponent), and one accepted.

These modules carry the rest of the model:

- `errors.dfy` (module `Errors`) has the Result and Option types. The error kinds are:
  - `ParsingError`;
  - `ValidationError`, which carries the index of the first incompatible pair;
  - `ConversionError`. This stands for the ValueError or AttributeError that Python
    raises when `Enum(value)`, `float()` or `int()` rejects a value, or when `None` is
    split.
- `xml.dfy` (module `Xml`) has the XML element: its namespace, local name, attributes,
  text and element children.
- `text.dfy` (module `Text`) has Python's `str.split()`. It also has a `Conversions`
  value that stands for Python's `float()` and `int()` of a string. Every parser that
  converts numbers receives this value as its last parameter. Its only fixed property
  is that the empty string is not a number, because `float("")` raises.

## Model

| member | source | states |
|---|---|---|
| Parsing.ClfNamespacePrefixMapping | colour_clf_io/parsing.py:64-75 | a mapping exists iff a non-empty namespace is configured, and it binds exactly the prefix `clf` to that namespace |
| Parsing.Select | colour_clf_io/parsing.py:243-249 | the XPath lookup of a named child keeps exactly the children with that local name in the configured namespace (no namespace when none is configured), never more than there are |
| Parsing.SelectAppend | colour_clf_io/parsing.py:243-249 | the lookup keeps document order and multiplicity: over a concatenation it is the lookup of the first part followed by that of the second, and one child is kept, once, iff it matches |
| Parsing.Single | colour_clf_io/parsing.py:250-259 | no match gives nothing, exactly one match gives that element, two or more give a ParsingError |
| Parsing.MapOptional | colour_clf_io/parsing.py:110-128 | absent in, absent out; a present value gives f of it, with f's failure passed through |
| Parsing.RetrieveAttributes | colour_clf_io/parsing.py:131-154 | returns exactly the mapping's keys, each bound to the named attribute's value or None when absent; never fails |
| Parsing.RetrieveAttributesAsFloat | colour_clf_io/parsing.py:157-190 | exactly the mapping's keys; a value is present only when the attribute is present and parses as a float, and it is that float; never fails |
| Parsing.MustHave | colour_clf_io/parsing.py:193-215 | fails with ParsingError iff the value is absent, and yields true otherwise |
| Parsing.ChildElement | colour_clf_io/parsing.py:218-259 | no selected child gives nothing; two selected children give a ParsingError; otherwise the result is the one selected child |
| Parsing.SelectedCount | colour_clf_io/parsing.py:250-259 | two or more selected children exist iff two distinct positions are selected; exactly one means one position selected and no other |
| Parsing.ChildElementOrException | colour_clf_io/parsing.py:262-296 | the same element as the plain lookup when one is found; a ParsingError when none is or when the lookup fails |
| Parsing.ElementAsText | colour_clf_io/parsing.py:299-323 | "" when the child is absent or no selected child has text; the one text when exactly one is selected; a ParsingError iff two or more text nodes are selected |
| Parsing.ElementsAsTextList | colour_clf_io/parsing.py:326-351 | each returned text belongs to a matching child; when every match has text, one text per match in document order |
| Parsing.TextsOf | colour_clf_io/parsing.py:345-351 | the `/text()` step: at most one text per element, one per element in order when every element has text, and every text is the text of one of the elements |
| Parsing.TextsOfAppend | colour_clf_io/parsing.py:345-351 | the texts of a concatenation of children are the texts of the first part followed by those of the second |
| Parsing.TextsOfSingle | colour_clf_io/parsing.py:345-351 | one child contributes exactly its text, or nothing when it has none |
| Parsing.ElementsAsTextListAppend | colour_clf_io/parsing.py:326-351 | the text list of a concatenation of children is the list of the first part followed by that of the second, so document order is kept |
| Parsing.ElementsAsTextListSingle | colour_clf_io/parsing.py:326-351 | one child contributes its text exactly when it matches and has text, and nothing otherwise |
| Parsing.SlidingWindow | colour_clf_io/parsing.py:354-363 | yields the len(s)-n+1 windows s[i..i+n] in index order, none when s is shorter than n |
| Parsing.ThreeFloats | colour_clf_io/parsing.py:366-393 | absent text, or a whitespace split that is not exactly three tokens, is a ParsingError; otherwise the three tokens converted in order, with a ConversionError when one does not convert |
| Text.Split | colour_clf_io/parsing.py:388 | every token of `str.split()` is non-empty and free of whitespace |
| Text.SplitAfterSpace | colour_clf_io/parsing.py:388 | a whitespace character separates: splitting around it splits each side independently, with any pending token closed by it |
| Text.SplitCharacterised | colour_clf_io/parsing.py:388 | `str.split()` of a + [ws] + b is split(a) followed by split(b); a non-empty whitespace-free string splits to itself; "" splits to nothing |
| Text.SplitJoinRoundTrip | colour_clf_io/parsing.py:388 | splitting the space-join of whitespace-free tokens gives those tokens back |
| Text.FloatsOf | colour_clf_io/elements.py:84 | `map(float, tokens)` succeeds iff every token converts, each result is its token's float, and a failure is a ConversionError |
| Text.IntsOf | colour_clf_io/elements.py:83 | `map(int, tokens)` succeeds iff every token converts, each result is its token's integer, and a failure is a ConversionError |
| Values.EnumOf | colour_clf_io/process_nodes.py:118-119 | Python `E(v)` succeeds iff v is present and names a member, yielding that member; otherwise a ConversionError |
| Values.BitDepth.FromValue | colour_clf_io/values.py:31-45 | accepts exactly the six value strings, case-sensitively; the member found has that value, and every member with that value is found |
| Values.BitDepth.ScaleFactor | colour_clf_io/values.py:47-76 | 2^n - 1 for the n-bit integer depths, 1.0 for the float depths, always at least 1 |
| Values.ScaleFactorExamples | colour_clf_io/values.py:55-60 | the doctests of scale_factor: 255 / 8i is 1.0, 0.5 * 8i is 127.5, 1023 / 10i is 1.0, 1 / 16f is 1.0 |
| Values.AllBitDepths | colour_clf_io/values.py:78-91 | the six value strings in declaration order; a string is listed iff it is a BitDepth value; no repeats |
| Values.Channel.FromValue | colour_clf_io/values.py:94-105 | accepts exactly R, G and B |
| Values.Interpolation1D.FromValue | colour_clf_io/values.py:108-117 | accepts only "linear" |
| Values.Interpolation3D.FromValue | colour_clf_io/values.py:120-130 | accepts exactly "trilinear" and "tetrahedral" |
| Values.AscCdlStyle.FromValue | colour_clf_io/values.py:133-145 | accepts exactly Fwd, Rev, FwdNoClamp and RevNoClamp |
| Elements.ArrayFromXml | colour_clf_io/elements.py:65-85 | absent in, absent out; otherwise dim is the integers of the split `dim` attribute and values the floats of the split text, in order; an absent `dim` or text, or a token that does not convert, is a ConversionError; dim and values are not checked against each other |
| Elements.ProductAppend | colour_clf_io/elements.py:100-101 | the product of the dimensions with one more dimension appended is the old product times it |
| Elements.TrimDims | colour_clf_io/elements.py:98-101 | fails iff every dimension is 1; otherwise a non-empty prefix of dim whose last entry is not 1, with only 1s dropped and the same product |
| Elements.CalibrationInfoFromXml | colour_clf_io/elements.py:124-154 | absent iff the element is absent; the seven attributes read as optional strings; never fails |
| Elements.RangeStyle.FromValue | colour_clf_io/elements.py:157-167 | accepts exactly "Clamp" and "noClamp" |
| Elements.LogStyle.FromValue | colour_clf_io/elements.py:170-186 | accepts exactly the eight log styles |
| Elements.ExponentStyle.FromValue | colour_clf_io/elements.py:189-208 | accepts exactly the ten exponent styles |
| Elements.SOPNodeFromXml | colour_clf_io/elements.py:225-245 | absent in, absent out; a Slope, Offset or Power child that is missing or ambiguous is a ParsingError, checked in that order; any failure is the failure of the first triple that fails; it succeeds iff all three triples parse, and then each is the three floats of its child's text |
| Elements.TripleChild | colour_clf_io/elements.py:242-244 | a missing or ambiguous child is a ParsingError; once the one child is found, the result is `three_floats` of its text; on success the three floats of that text, and whenever those floats exist they are the result |
| Elements.SatNodeFromXml | colour_clf_io/elements.py:261-282 | absent in, absent out; a missing or ambiguous Saturation child, or one without text, is a ParsingError; with the one child's text present, a failure is a ConversionError, and it succeeds iff that text is a float, saturation being that float |
| Elements.InfoFromXml | colour_clf_io/elements.py:303-334 | absent in, absent out; otherwise it fails only on an ambiguous CalibrationInfo child, reads the five attributes, and its calibration info is the CalibrationInfo parse of the one such child, None iff there is none |
| Elements.ChannelOf | colour_clf_io/elements.py:387 | an absent channel is None; a present one must be R, G or B, and anything else is a ConversionError |
| Elements.LogParamsFromXml | colour_clf_io/elements.py:357-389 | absent in, absent out; fails only on a present channel outside the vocabulary; each numeric field is the float of its attribute or None |
| Elements.ExponentParamsFromXml | colour_clf_io/elements.py:407-436 | absent in, absent out; an absent or unparsable exponent is a ParsingError; with a float exponent it fails iff the channel is outside the vocabulary, and then with a ConversionError; offset becomes None when it does not parse; the channel is optional |
| ProcessNodes.ParseHeader | colour_clf_io/process_nodes.py:93-127 | succeeds iff both bit depths are present and in the vocabulary and the Description lookup succeeds; an absent or unknown bit depth is a ConversionError, and an ambiguous Description a ParsingError; id and name are optional; description is "" when absent |
| ProcessNodes.Flag | colour_clf_io/process_nodes.py:241-242 | a flag is true iff the attribute's text is exactly "true" |
| ProcessNodes.ArrayChild | colour_clf_io/process_nodes.py:237-239 | no Array child, or several, is a ParsingError; a failing parse of the one Array child is a ConversionError; the result is the parse of the one Array child exactly when that parse succeeds |
| ProcessNodes.Lut1DFromXml | colour_clf_io/process_nodes.py:218-250 | the error of the first failing step: the header, then the Array child (ParsingError when missing or repeated, ConversionError when it does not parse), then an unknown interpolation (ConversionError); the flags are literal "true" tests; interpolation is None iff absent, and a present value outside the vocabulary is the only later failure |
| ProcessNodes.Lut3DFromXml | colour_clf_io/process_nodes.py:269-300 | as LUT1D, except that interpolation is mandatory: absent or unknown is a ConversionError; a failure is the error of the first failing step |
| ProcessNodes.MatrixFromXml | colour_clf_io/process_nodes.py:316-338 | succeeds iff the header and the one Array child parse; a failure is the header's error, else the Array child's (ParsingError when missing or repeated, ConversionError when it does not parse) |
| ProcessNodes.FloatChild | colour_clf_io/process_nodes.py:380-383 | succeeds iff the child's text lookup succeeds and that text is a float, and the result is that float; an ambiguous text is a ParsingError; an absent child gives "", and every text that is not a float a ConversionError |
| ProcessNodes.RangeFromXml | colour_clf_io/process_nodes.py:359-394 | given a good header, succeeds iff the four bounds are floats and the style is absent or known; a failure is the error of the first failing step (header, then the four bounds in order, then an unknown style, a ConversionError); each bound is the float of its child's text; style is None iff absent |
| ProcessNodes.LogFromXml | colour_clf_io/process_nodes.py:411-434 | a failure is the header's error, else ConversionError for an absent or unknown style, else ParsingError for an ambiguous LogParams child, else ConversionError from LogParams; given a good header and style, succeeds iff the LogParams lookup and parse succeed; logParams is that parse, None iff there is no such child |
| ProcessNodes.ExponentFromXml | colour_clf_io/process_nodes.py:451-475 | a failure is the header's error, else ParsingError for an absent style, ConversionError for an unknown one, ParsingError for an ambiguous ExponentParams child, else the ExponentParams error; given a good header and style, succeeds iff the ExponentParams lookup and parse succeed; exponentParams is that parse, None iff there is no such child |
| ProcessNodes.AscCdlFromXml | colour_clf_io/process_nodes.py:493-515 | a failure is the header's error, else ConversionError for the style, else the first failing lookup (ParsingError) or parse of SOPNode then SatNode; given a good header and style, succeeds iff those lookups and parses succeed; sopNode and satNode are those parses, each None iff there is no such child |
| ProcessNodes.ParseProcessNode | colour_clf_io/process_nodes.py:179-199 | a local name outside the seven tags is a ParsingError, so any parsed node came from one of the seven; an Exponent element is parsed by the Exponent parser; a node never fails with a ValidationError |
| ProcessNodes.RegistryDispatch | colour_clf_io/process_nodes.py:54-73 | the registry holds exactly the seven tags, and the parser it holds for an element's tag gives what parsing that element gives |
| ProcessNodes.FirstMismatch | colour_clf_io/process_nodes.py:169-173 | finds the first adjacent pair from a position on whose out and in bit depths differ, or reports that all pairs agree |
| ProcessNodes.BitDepthCheck | colour_clf_io/process_nodes.py:130-176 | true iff every adjacent pair agrees; otherwise a ValidationError naming the first disagreeing pair |
| ProcessNodes.AssertBitDepthCompatibility | colour_clf_io/process_nodes.py:169-176 | walking the windowed pairs with an early exit gives exactly that verdict |
| ProcessLists.NodeCandidates | colour_clf_io/process_list.py:110-113 | keeps exactly the children whose local name is not Description, InputDescriptor, OutputDescriptor or Info; with none of those, all children in order |
| ProcessLists.NodeCandidatesAppend | colour_clf_io/process_list.py:110-113 | the filter keeps document order: the candidates of a concatenation are those of the first part followed by those of the second |
| ProcessLists.NodeCandidatesSingle | colour_clf_io/process_list.py:110-113 | one child is kept iff its local name is not a metadata tag |
| ProcessLists.ResolveConfig | colour_clf_io/process_list.py:93-100 | no namespace switches prefixed lookups off; the CLF namespace keeps them; any other namespace is a ParsingError |
| ProcessLists.ParseNodes | colour_clf_io/process_list.py:116-118 | succeeds iff every candidate parses; one node per candidate in order; otherwise the error of the first candidate that fails |
| ProcessLists.FirstFailureIsParseNodesError | colour_clf_io/process_list.py:116-118 | when candidate k fails and every earlier one parses, the list fails with candidate k's own error |
| ProcessLists.ParseProcessList | colour_clf_io/process_list.py:80-131 | a missing id is a ParsingError whatever compCLFversion is; a missing compCLFversion is next; a foreign namespace is a ParsingError; after those, the first failure among Info, the InputDescriptor text, the OutputDescriptor text and the node list reaches the caller unchanged; on success the fields are the root attributes and texts, info is the Info parse of the root, the nodes are the candidates parsed in order, and their chain is bit-depth compatible |
| ProcessLists.IncompatibleChainRejected | colour_clf_io/process_list.py:116-119 | once everything before the check has been read, the document is rejected with a ValidationError at exactly the first incompatible pair |
| ProcessLists.ValidDocumentAccepted | colour_clf_io/process_list.py:80-131 | once every step before the check succeeds and the chain is compatible, the document is accepted, with every field taken from the step that reads it |
| ProcessLists.NodeErrorReachesCaller | colour_clf_io/process_list.py:104-118 | once the preamble, Info and both descriptors are read, the first process node that fails to parse fails the document with its own error, unchanged |
| ProcessLists.ValidationErrorOnlyFromChain | colour_clf_io/process_list.py:80-119 | a document that fails with a ValidationError read every earlier step successfully, and its parsed chain fails the bit-depth check with that same error |
| ProcessLists.ProcessListFromXml | colour_clf_io/process_list.py:80-131 | the step-by-step procedure, which rebinds the configuration and walks the pairs, gives exactly ParseProcessList's result |
| ProcessListExamples.LogNodeParses | colour_clf_io/process_nodes.py:411-434 | a childless Log node with known bit depths and the style log10 parses and keeps those bit depths |
| ProcessListExamples.MismatchedChainExample | colour_clf_io/process_list.py:116-119 | a document whose first Log node writes 8i and whose second reads 10i is rejected at pair 0, whatever the number syntax |
| ProcessListExamples.ParseSingle | colour_clf_io/process_list.py:116-118 | one candidate that parses gives the one-node chain |
| ProcessListExamples.ParsePair | colour_clf_io/process_list.py:116-118 | two candidates that parse give the two nodes in order |
| ProcessListExamples.SingleLogAccepted | colour_clf_io/process_list.py:80-131 | a CLF-namespace document with one 10i Log node is accepted whatever the number syntax, keeping its id and version and holding that one node |
| ProcessListExamples.StylelessExponentRejected | colour_clf_io/process_nodes.py:451-475 | a document whose one Exponent node has no style attribute is rejected with a ParsingError, whatever the number syntax |
| ProcessListExamples.EmptyExponentNodeFails | colour_clf_io/elements.py:407-436 | an Exponent node whose ExponentParams has an empty exponent fails with a ParsingError, whatever the number syntax |
| ProcessListExamples.EmptyExponentRejected | colour_clf_io/process_list.py:116-118 | a document holding only that Exponent node is rejected with a ParsingError, whatever the number syntax |

## Left out

- Loading documents (`read_clf`, `parse_clf` in `__init__.py`) and the lxml library: the
  model starts from the element tree, with namespace URIs, local names, attributes,
  text and element children as plain data.
- XPath text selection with mixed content: `name/text()` is taken as one text node per
  selected child that has text before its first sub-element. The text after a
  child's sub-elements (lxml "tails") is not modelled.
- Comments and processing instructions among a ProcessList's children are not
  modelled. lxml would let them reach the node filter.
- Python `float()` and `int()` and IEEE arithmetic: numbers are reals and integers
  given by a `Conversions` parameter, about which only `float("")` failing is
  assumed. Float overflow, NaN and rounding are out of scope.
- The numpy `reshape` in `Array.as_array` (elements.py:102): only the dimension-trimming
  loop is modelled. Python's IndexError from an all-ones or empty `dim` is the `None`
  result of `TrimDims`.
- Elements.ArrayFromXml: the element's own tag is not checked, as in the source.
- The `warn("Got empty process node.")` at process_list.py:114-115 is not modelled. It
  prints a warning only, and its condition tests a `filter` object, which is always
  truthy, so it never fires.
- Parsing.SlidingWindow: requires n >= 1. Python's `islice` raises for a negative
  count, so n = 0 is an error in the source; every caller uses n = 2.
- The `if xml is None: return None` branches of the seven process-node parsers and of
  `ProcessList.from_xml` are not modelled. The dispatcher and the document loader
  always pass an element, so the parsers take an element rather than an optional one.
- The registry decorator that writes a module-level dict at import time: the registry
  is a constant map (`ProcessNodes.Registry`) and dispatch is a match on the tag.
  `RegistryDispatch` proves that the two agree.
- Exact error-message strings: only the error kind, and for a ValidationError the
  index of the pair, are modelled.
- `errors.py` (two bare exception classes) is the `Error` datatype.
