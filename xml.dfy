/** The XML tree the reader walks, reduced to what it queries: an element's namespace,
    local name, attributes, text and element children. The tree is already built when
    parsing starts; loading it from a file or a string is not part of this model. */
module Xml {
  import opened Errors

  /** One XML element. `ns` is its namespace URI (None: no namespace); `text` is the
      text before its first child (None: no text node, as an empty element has). */
  datatype Element = Element(
    ns: Option<string>,
    localName: string,
    attrs: map<string, string>,
    text: Option<string>,
    children: seq<Element>)

  /** `element.get(name)`: the attribute's value, or None when it is absent. */
  function Get(e: Element, name: string): (v: Option<string>)
    ensures v.Some? <==> name in e.attrs
    ensures v.Some? ==> v.value == e.attrs[name]
  {
    if name in e.attrs then Some(e.attrs[name]) else None
  }

  /** The XPath `namespace-uri(.)` of an element: "" when it is in no namespace. */
  function NamespaceUri(e: Element): string {
    e.ns.GetOr("")
  }
}
