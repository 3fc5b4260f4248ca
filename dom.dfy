/** The part of PHP's DOM library the checkstyle printer uses: elements with
    an ordered attribute list and ordered children, `setAttribute`,
    `appendChild`, a document with its declaration settings, and `saveXML`.
    Element trees are values; the two node classes hold the state that the
    printer changes in place while it builds the tree. */
module Dom {
  import opened Wrappers

  type Attributes = seq<(string, string)>

  datatype Element = Element(tag: string, attributes: Attributes, children: seq<Element>)

  /** A document: the XML version and encoding given at construction, the
      pretty-print flag and the top-level nodes. */
  datatype Document = Document(
    xmlVersion: string,
    encoding: string,
    formatOutput: bool,
    children: seq<Element>)

  /** The text `saveXML` produces for a document. Its characters (escaping,
      indentation, the XML declaration) are not modelled; the value stands for
      the serialisation of exactly this document. */
  datatype XmlText = SavedXml(document: Document)

  predicate HasAttribute(attrs: Attributes, name: string) {
    exists i :: 0 <= i < |attrs| && attrs[i].0 == name
  }

  /** An attribute as `hasAttribute` and `getAttribute` read it together:
      None when there is no attribute called `name`, otherwise the value of the
      first one. */
  function Lookup(attrs: Attributes, name: string): (r: Option<string>)
    ensures r.Some? <==> HasAttribute(attrs, name)
    ensures r.Some? ==> exists i :: 0 <= i < |attrs| && attrs[i] == (name, r.value) &&
                          forall k :: 0 <= k < i ==> attrs[k].0 != name
    decreases |attrs|
  {
    if |attrs| == 0 then None
    else if attrs[0].0 == name then Some(attrs[0].1)
    else
      var r := Lookup(attrs[1..], name);
      assert forall i :: 0 <= i < |attrs| - 1 ==> attrs[1..][i] == attrs[i + 1];
      r
  }

  function AttributeOf(e: Element, name: string): Option<string> {
    Lookup(e.attributes, name)
  }

  /** `setAttribute`: an existing attribute keeps its position and gets the new
      value; a new attribute is added after all existing ones. */
  function SetAttr(attrs: Attributes, name: string, value: string): (r: Attributes)
    ensures !HasAttribute(attrs, name) ==> r == attrs + [(name, value)]
    ensures HasAttribute(attrs, name) ==>
      |r| == |attrs| && forall i :: 0 <= i < |r| ==> r[i].0 == attrs[i].0
    decreases |attrs|
  {
    if |attrs| == 0 then [(name, value)]
    else if attrs[0].0 == name then [(name, value)] + attrs[1..]
    else
      var r := [attrs[0]] + SetAttr(attrs[1..], name, value);
      assert r[1..] == SetAttr(attrs[1..], name, value);
      assert HasAttribute(attrs, name) ==> HasAttribute(attrs[1..], name) by {
        if HasAttribute(attrs, name) {
          var i :| 0 <= i < |attrs| && attrs[i].0 == name;
          assert attrs[1..][i - 1].0 == name;
        }
      }
      r
  }

  /** After `setAttribute(name, value)`, `name` reads as `value` and every
      other attribute reads as before. */
  lemma {:induction false} SetAttrLookup(attrs: Attributes, name: string, value: string, other: string)
    ensures Lookup(SetAttr(attrs, name, value), other)
      == if other == name then Some(value) else Lookup(attrs, other)
    decreases |attrs|
  {
    if |attrs| > 0 && attrs[0].0 != name {
      SetAttrLookup(attrs[1..], name, value, other);
      assert SetAttr(attrs, name, value)[1..] == SetAttr(attrs[1..], name, value);
    } else if |attrs| > 0 {
      assert SetAttr(attrs, name, value)[1..] == attrs[1..];
    }
  }

  /** A DOM element node under construction. */
  class DomElement {
    const tagName: string
    var attributes: Attributes
    var childNodes: seq<Element>

    /** `createElement`: a new element with no attributes and no children. */
    constructor (tagName: string)
      ensures this.tagName == tagName && attributes == [] && childNodes == []
    {
      this.tagName := tagName;
      attributes := [];
      childNodes := [];
    }

    /** The tree rooted at this node. */
    function Value(): Element
      reads this
    {
      Element(tagName, attributes, childNodes)
    }

    method SetAttribute(name: string, value: string)
      modifies this
      ensures attributes == SetAttr(old(attributes), name, value)
      ensures childNodes == old(childNodes)
    {
      attributes := SetAttr(attributes, name, value);
    }

    /** `appendChild`: the child's tree becomes the last child of this node. */
    method AppendChild(child: DomElement)
      modifies this
      ensures childNodes == old(childNodes) + [old(child.Value())]
      ensures attributes == old(attributes)
    {
      childNodes := childNodes + [child.Value()];
    }
  }

  /** A DOM document under construction. */
  class DomDocument {
    const xmlVersion: string
    const encoding: string
    var formatOutput: bool
    var childNodes: seq<Element>

    /** `new DOMDocument(version, encoding)`: empty, not pretty-printed. */
    constructor (xmlVersion: string, encoding: string)
      ensures this.xmlVersion == xmlVersion && this.encoding == encoding
      ensures !formatOutput && childNodes == []
    {
      this.xmlVersion := xmlVersion;
      this.encoding := encoding;
      formatOutput := false;
      childNodes := [];
    }

    method AppendChild(child: DomElement)
      modifies this
      ensures childNodes == old(childNodes) + [child.Value()]
      ensures formatOutput == old(formatOutput)
    {
      childNodes := childNodes + [child.Value()];
    }

    /** `saveXML`: the text of the whole document. It stands for the
        declaration given at construction, the pretty-print flag and every
        top-level tree, so two documents differing in any of them have
        different texts. */
    function SaveXml(): (text: XmlText)
      reads this
      ensures text.document.xmlVersion == xmlVersion && text.document.encoding == encoding
      ensures text.document.formatOutput == formatOutput
      ensures text.document.children == childNodes
    {
      SavedXml(Document(xmlVersion, encoding, formatOutput, childNodes))
    }
  }
}
