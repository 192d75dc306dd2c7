/** The element tree the converters build with xml.etree.ElementTree,
    before it is serialised. An element with no text has text "". */
module Xml {
  import opened Outcome

  datatype Attr = Attr(name: string, value: string)

  datatype Node = Node(tag: string, attrs: seq<Attr>, text: string, children: seq<Node>)

  /** `ET.SubElement(parent, tag).text = text` */
  function Leaf(tag: string, text: string): Node {
    Node(tag, [], text, [])
  }

  /** An element holding only child elements. */
  function Elem(tag: string, attrs: seq<Attr>, children: seq<Node>): Node {
    Node(tag, attrs, "", children)
  }

  /** The "Yes" / "No" spelling of a flag. */
  function YesNo(b: bool): (r: string)
    ensures r == "Yes" <==> b
    ensures r == "No" <==> !b
  {
    if b then "Yes" else "No"
  }

  /** One leaf per tag, in order, each holding the same placeholder text. */
  function Pads(tags: seq<string>, pad: string): (r: seq<Node>)
    ensures |r| == |tags|
    ensures forall i :: 0 <= i < |tags| ==> r[i] == Leaf(tags[i], pad)
  {
    seq(|tags|, i requires 0 <= i < |tags| => Leaf(tags[i], pad))
  }

  /** The first child carrying the tag. */
  function Child(n: Node, tag: string): Option<Node> {
    FirstTagged(n.children, tag)
  }

  function FirstTagged(ns: seq<Node>, tag: string): Option<Node> {
    if |ns| == 0 then None else if ns[0].tag == tag then Some(ns[0]) else FirstTagged(ns[1..], tag)
  }

  /** The value of the first attribute with the name. */
  function AttrValue(n: Node, name: string): Option<string> {
    FirstNamed(n.attrs, name)
  }

  function FirstNamed(attrs: seq<Attr>, name: string): Option<string> {
    if |attrs| == 0 then None else if attrs[0].name == name then Some(attrs[0].value) else FirstNamed(attrs[1..], name)
  }

  /** The OLDAUDITENTRYIDS.LIST element holding one id. */
  function OldAuditIds(id: string): Node {
    Elem("OLDAUDITENTRYIDS.LIST", [Attr("TYPE", "Number")], [Leaf("OLDAUDITENTRYIDS", id)])
  }

  /** The LANGUAGENAME.LIST element naming a master. */
  function LanguageName(name: string): Node {
    Elem("LANGUAGENAME.LIST", [], [Elem("NAME.LIST", [Attr("TYPE", "String")], [Leaf("NAME", name)])])
  }

  /** LANGUAGENAME.LIST followed, inside it, by a LANGUAGEID. */
  function LanguageNameAndId(name: string, id: string): Node {
    Elem("LANGUAGENAME.LIST", [], [Elem("NAME.LIST", [Attr("TYPE", "String")], [Leaf("NAME", name)]), Leaf("LANGUAGEID", id)])
  }

  /** A TALLYMESSAGE wrapper around records. The converters spell its
      namespace attribute three ways (`xmlns:UDF`, `xmlns`, and the
      keyword-argument spelling `xmlns_UDF`), so the name is a parameter. */
  function Message(xmlnsName: string, records: seq<Node>): Node {
    Elem("TALLYMESSAGE", [Attr(xmlnsName, "TallyUDF")], records)
  }

  /** The fixed ENVELOPE / HEADER / BODY / IMPORTDATA scaffold every
      converter builds, with `data` as the children of REQUESTDATA. */
  function Envelope(reportName: string, data: seq<Node>): Node {
    Elem("ENVELOPE", [], [
      Elem("HEADER", [], [Leaf("TALLYREQUEST", "Import Data")]),
      Elem("BODY", [], [
        Elem("IMPORTDATA", [], [
          Elem("REQUESTDESC", [], [
            Leaf("REPORTNAME", reportName),
            Elem("STATICVARIABLES", [], [Leaf("SVCURRENTCOMPANY", "Techsolvo")])
          ]),
          Elem("REQUESTDATA", [], data)
        ])
      ])
    ])
  }

  /** The REQUESTDESC and REQUESTDATA elements of a document, found by tag. */
  function ImportData(doc: Node): Option<Node> {
    match Child(doc, "BODY")
    case None => None
    case Some(body) => Child(body, "IMPORTDATA")
  }

  function RequestData(doc: Node): seq<Node> {
    match ImportData(doc)
    case None => []
    case Some(imp) => match Child(imp, "REQUESTDATA") case Some(rd) => rd.children case None => []
  }

  function ReportName(doc: Node): string {
    match ImportData(doc)
    case None => ""
    case Some(imp) =>
      match Child(imp, "REQUESTDESC")
      case None => ""
      case Some(desc) => match Child(desc, "REPORTNAME") case Some(r) => r.text case None => ""
  }

  /** Reading the scaffold by tag finds the report name and the records it was built from. */
  lemma EnvelopeLayout(reportName: string, data: seq<Node>)
    ensures ReportName(Envelope(reportName, data)) == reportName
    ensures RequestData(Envelope(reportName, data)) == data
  {
    var doc := Envelope(reportName, data);
    var body := doc.children[1];
    assert Child(doc, "BODY") == Some(body) by {
      assert doc.children[0].tag == "HEADER";
      assert FirstTagged(doc.children[1..], "BODY") == Some(body);
    }
    var imp := body.children[0];
    assert ImportData(doc) == Some(imp);
    assert Child(imp, "REQUESTDESC") == Some(imp.children[0]);
    assert Child(imp, "REQUESTDATA") == Some(imp.children[1]) by {
      assert imp.children[0].tag == "REQUESTDESC";
      assert FirstTagged(imp.children[1..], "REQUESTDATA") == Some(imp.children[1]);
    }
  }

  /** The layout six of the converters share: each record in a
      TALLYMESSAGE of its own, in order, as the children of REQUESTDATA. */
  function OneMessageEach(reportName: string, xmlnsName: string, records: seq<Node>): Node {
    Envelope(reportName, seq(|records|, j requires 0 <= j < |records| => Message(xmlnsName, [records[j]])))
  }

  /** Reading such a document by tag finds the report name and one
      message per record, holding that record alone. */
  lemma OneMessageEachLayout(reportName: string, xmlnsName: string, records: seq<Node>)
    ensures ReportName(OneMessageEach(reportName, xmlnsName, records)) == reportName
    ensures |RequestData(OneMessageEach(reportName, xmlnsName, records))| == |records|
    ensures forall j :: 0 <= j < |records| ==>
      RequestData(OneMessageEach(reportName, xmlnsName, records))[j] == Message(xmlnsName, [records[j]])
  {
    EnvelopeLayout(reportName, seq(|records|, j requires 0 <= j < |records| => Message(xmlnsName, [records[j]])));
  }
}
