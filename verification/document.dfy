/**
 * The METS document as an algebraic tree. An element has a namespace-qualified
 * name, a map of attributes, an optional text and an ordered list of children;
 * it stands for the lxml element the reassembler builds, without namespace
 * declarations or serialisation.
 */
module Document {
  import opened Wrappers

  /** The four namespaces of the document, plus "no namespace" for plain attributes. */
  datatype Ns = NoNs | Mets | XLink | DC | Dnx

  datatype Name = Name(ns: Ns, local: string)

  datatype Element = Element(name: Name, attrs: map<Name, string>, text: Option<string>, children: seq<Element>)

  function MetsName(local: string): Name { Name(Mets, local) }

  /** An unqualified attribute name such as ID or MIMETYPE. */
  function Attr(local: string): Name { Name(NoNs, local) }
}
