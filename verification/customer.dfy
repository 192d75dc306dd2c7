/** The customer converter: one LEDGER master per row, in row order, each
    in its own TALLYMESSAGE, under "All Masters". The table is read without
    fillna, so an empty cell holds "nan". Nothing in its loop raises: every
    cell is read with a default and escaped. */
module Customer {
  import opened Outcome
  import opened Rows
  import opened Text
  import opened Xml

  /** A LEDGER master: the escaped cells it shows, the uuid drawn for its
      row and its ALTERID. */
  datatype Ledger = Ledger(
    name: string,
    email: string,
    address: string,
    website: string,
    pan: string,
    country: string,
    mobile: string,
    guid: string,
    alterId: nat)

  /** The escaped cell of a column, "" when the column is missing. */
  function Escaped(row: Row, column: string): (r: string)
    ensures Unescape(r) == Cell(row, column, "")
  {
    EscapeRoundTrip(Cell(row, column, ""));
    Escape(Cell(row, column, ""))
  }

  /** The master for the row at position i (the frame's default index, so
      ALTERID is i + 1); `guid(i)` is the uuid4 value drawn for the row. */
  function LedgerOf(i: nat, row: Row, guid: nat -> string): Ledger {
    Ledger(
      Escaped(row, "customer_name"),
      Escaped(row, "email_id"),
      Escaped(row, "customer_primary_address"),
      Escaped(row, "website"),
      Escaped(row, "pan"),
      Escaped(row, "country"),
      Escaped(row, "mobile_no"),
      guid(i),
      i + 1)
  }

  /** The loop: every row gives a master, whatever its cells hold. */
  function Ledgers(rows: seq<Row>, guid: nat -> string): (r: seq<Ledger>)
    ensures |r| == |rows|
    ensures forall i :: 0 <= i < |rows| ==> r[i].alterId == i + 1 && r[i].guid == guid(i)
    ensures forall i :: 0 <= i < |rows| ==> Unescape(r[i].name) == Cell(rows[i], "customer_name", "")
  {
    seq(|rows|, i requires 0 <= i < |rows| => LedgerOf(i, rows[i], guid))
  }

  /** What a master reads from its row: each shown field unescapes to its
      cell, "" for a missing column. */
  lemma LedgerFields(i: nat, row: Row, guid: nat -> string)
    ensures var l := LedgerOf(i, row, guid);
      && Unescape(l.name) == Cell(row, "customer_name", "")
      && Unescape(l.email) == Cell(row, "email_id", "")
      && Unescape(l.address) == Cell(row, "customer_primary_address", "")
      && Unescape(l.website) == Cell(row, "website", "")
      && Unescape(l.pan) == Cell(row, "pan", "")
      && Unescape(l.country) == Cell(row, "country", "")
      && Unescape(l.mobile) == Cell(row, "mobile_no", "")
  {
  }

  /** ALTERIDs follow the rows: strictly increasing, so no two masters
      share one. */
  lemma AlterIdsIncrease(rows: seq<Row>, guid: nat -> string)
    ensures var ls := Ledgers(rows, guid);
      forall j, k :: 0 <= j < k < |ls| ==> 1 <= ls[j].alterId < ls[k].alterId <= |rows|
  {
  }

  // ---------------------------------------------------------------------
  // The element tree

  /** The children up to the fixed flags. The state column is never read:
      PRIORSTATENAME repeats the address. PINCODE is always empty. */
  function Head(l: Ledger): seq<Node> {
    [
      Elem("ADDRESS.LIST", [Attr("TYPE", "String")], [Leaf("ADDRESS", l.address)]),
      Elem("MAILINGNAME.LIST", [Attr("TYPE", "String")], [Leaf("MAILINGNAME", l.name)]),
      OldAuditIds("-1"),
      Leaf("GUID", l.guid), Leaf("EMAIL", l.email), Leaf("PRIORSTATENAME", l.address),
      Leaf("PINCODE", ""), Leaf("WEBSITE", l.website), Leaf("INCOMETAXNUMBER", l.pan),
      Leaf("COUNTRYNAME", "India"), Leaf("GSTREGISTRATIONTYPE", "Regular"),
      Leaf("VATDEALERTYPE", "Regular"), Leaf("PARENT", "Sundry Debtors"),
      Leaf("TAXCLASSIFICATIONNAME", ""), Leaf("TAXTYPE", "Others"),
      Leaf("COUNTRYOFRESIDENCE", l.country),
      Leaf("LEDGERPHONE", l.mobile), Leaf("LEDGERFAX", l.mobile),
      Leaf("LEDGERCONTACT", l.name), Leaf("LEDGERMOBILE", l.mobile),
      Leaf("GSTTYPE", ""), Leaf("APPROPRIATEFOR", ""), Leaf("EXCISELEDGERCLASSIFICATION", ""),
      Leaf("EXCISEDUTYTYPE", ""), Leaf("EXCISENATUREOFPURCHASE", ""), Leaf("LEDGERFBTCATEGORY", "")
    ]
  }

  /** The fixed flags, the same for every master. */
  const LedgerFlags: seq<Node> := [
    Leaf("ISBILLWISEON", "Yes"), Leaf("ISCOSTCENTRESON", "No"), Leaf("ISINTERESTON", "No"),
    Leaf("ALLOWINMOBILE", "No"), Leaf("ISCOSTTRACKINGON", "No"), Leaf("ISBENEFICIARYCODEON", "No"),
    Leaf("PLASINCOMEEXPENSE", "No"), Leaf("ISUPDATINGTARGETID", "No"), Leaf("ASORIGINAL", "Yes"),
    Leaf("ISCONDENSED", "No"), Leaf("AFFECTSSTOCK", "No"), Leaf("ISRATEINCLUSIVEVAT", "No"),
    Leaf("FORPAYROLL", "No"), Leaf("ISABCENABLED", "No"), Leaf("ISCREDITDAYSCHKON", "No"),
    Leaf("INTERESTONBILLWISE", "No"), Leaf("OVERRIDEINTEREST", "No"),
    Leaf("OVERRIDEADVINTEREST", "No"), Leaf("USEFORVAT", "No"), Leaf("IGNORETDSEXEMPT", "No"),
    Leaf("ISTCSAPPLICABLE", "No"), Leaf("ISTDSAPPLICABLE", "No"), Leaf("ISFBTAPPLICABLE", "No"),
    Leaf("ISGSTAPPLICABLE", "No"), Leaf("ISEXCISEAPPLICABLE", "No"), Leaf("ISTDSEXPENSE", "No"),
    Leaf("ISEDLIAPPLICABLE", "No"), Leaf("ISRELATEDPARTY", "No"),
    Leaf("USEFORESIELIGIBILITY", "No"), Leaf("ISINTERESTINCLLASTDAY", "No"),
    Leaf("APPROPRIATETAXVALUE", "No"), Leaf("ISBEHAVEASDUTY", "No"),
    Leaf("INTERESTINCLDAYOFADDITION", "No"), Leaf("INTERESTINCLDAYOFDEDUCTION", "No"),
    Leaf("ISOTHTERRITORYASSESSEE", "No"), Leaf("OVERRIDECREDITLIMIT", "No"),
    Leaf("ISAGAINSTFORMC", "No"), Leaf("ISCHEQUEPRINTINGENABLED", "Yes"),
    Leaf("ISPAYUPLOAD", "No"), Leaf("ISPAYBATCHONLYSAL", "No"), Leaf("ISBNFCODESUPPORTED", "No"),
    Leaf("ALLOWEXPORTWITHERRORS", "No"), Leaf("CONSIDERPURCHASEFOREXPORT", "No"),
    Leaf("ISTRANSPORTER", "No"), Leaf("USEFORNOTIONALITC", "No"), Leaf("ISECOMMOPERATOR", "No"),
    Leaf("SHOWINPAYSLIP", "No"), Leaf("USEFORGRATUITY", "No"), Leaf("ISTDSPROJECTED", "No"),
    Leaf("FORSERVICETAX", "No"), Leaf("ISINPUTCREDIT", "No"), Leaf("ISEXEMPTED", "No"),
    Leaf("ISABATEMENTAPPLICABLE", "No"), Leaf("ISSTXPARTY", "No"),
    Leaf("ISSTXNONREALIZEDTYPE", "No"), Leaf("ISUSEDFORCVD", "No"),
    Leaf("LEDBELONGSTONONTAXABLE", "No"), Leaf("ISEXCISEMERCHANTEXPORTER", "No"),
    Leaf("ISPARTYEXEMPTED", "No"), Leaf("ISSEZPARTY", "No"),
    Leaf("TDSDEDUCTEEISSPECIALRATE", "No"), Leaf("ISECHEQUESUPPORTED", "No"),
    Leaf("ISEDDSUPPORTED", "No"), Leaf("HASECHEQUEDELIVERYMODE", "No"),
    Leaf("HASECHEQUEDELIVERYTO", "No"), Leaf("HASECHEQUEPRINTLOCATION", "No"),
    Leaf("HASECHEQUEPAYABLELOCATION", "No"), Leaf("HASECHEQUEBANKLOCATION", "No"),
    Leaf("HASEDDDELIVERYMODE", "No"), Leaf("HASEDDDELIVERYTO", "No"),
    Leaf("HASEDDPRINTLOCATION", "No"), Leaf("HASEDDPAYABLELOCATION", "No"),
    Leaf("HASEDDBANKLOCATION", "No"), Leaf("ISEBANKINGENABLED", "No"),
    Leaf("ISEXPORTFILEENCRYPTED", "No"), Leaf("ISBATCHENABLED", "No"),
    Leaf("ISPRODUCTCODEBASED", "No"), Leaf("HASEDDCITY", "No"), Leaf("HASECHEQUECITY", "No"),
    Leaf("ISFILENAMEFORMATSUPPORTED", "No"), Leaf("HASCLIENTCODE", "No"),
    Leaf("PAYINSISBATCHAPPLICABLE", "No"), Leaf("PAYINSISFILENUMAPP", "No"),
    Leaf("ISSALARYTRANSGROUPEDFORBRS", "No"), Leaf("ISEBANKINGSUPPORTED", "No"),
    Leaf("ISSCBUAE", "No"), Leaf("ISBANKSTATUSAPP", "No"), Leaf("ISSALARYGROUPED", "No"),
    Leaf("USEFORPURCHASETAX", "No"), Leaf("AUDITED", "No")
  ]

  /** The children after the flags. */
  function Tail(l: Ledger): seq<Node> {
    [Leaf("SORTPOSITION", "1000"), Leaf("ALTERID", NatToString(l.alterId)), LanguageName(l.name)]
  }

  function Render(l: Ledger): Node {
    Elem("LEDGER", [Attr("NAME", l.name), Attr("RESERVEDNAME", "")], Head(l) + LedgerFlags + Tail(l))
  }

  /** Every master in a TALLYMESSAGE of its own, under "All Masters". */
  function Document(ls: seq<Ledger>): Node {
    OneMessageEach("All Masters", "xmlns_UDF", seq(|ls|, j requires 0 <= j < |ls| => Render(ls[j])))
  }

  function Convert(rows: seq<Row>, guid: nat -> string): Node {
    Document(Ledgers(rows, guid))
  }

  /** Where the children after the flags start. */
  const TailAt := 26 + 90

  /** Reads a master back from its LEDGER element, by position. */
  function ReadBack(n: Node): Option<Ledger> {
    if |n.attrs| < 1 || |n.children| != TailAt + 3 || |n.children[0].children| < 1 then None
    else match ParseNat(n.children[TailAt + 1].text)
      case None => None
      case Some(alterId) =>
        Some(Ledger(
          n.attrs[0].value,
          n.children[4].text,
          n.children[0].children[0].text,
          n.children[7].text,
          n.children[8].text,
          n.children[15].text,
          n.children[16].text,
          n.children[3].text,
          alterId))
  }

  lemma FlagCount()
    ensures |LedgerFlags| == 90
  {
  }

  /** Rendering loses nothing: the master reads back from its element. */
  lemma RenderRoundTrip(l: Ledger)
    ensures ReadBack(Render(l)) == Some(l)
  {
    var n := Render(l);
    FlagCount();
    assert n.children[TailAt + 1] == Tail(l)[1];
    NatRoundTrip(l.alterId);
  }

  /** The fields a LEDGER repeats: the customer name as NAME, MAILINGNAME,
      LEDGERCONTACT and in LANGUAGENAME.LIST; the address as ADDRESS and
      PRIORSTATENAME; the mobile number as LEDGERPHONE, LEDGERFAX and
      LEDGERMOBILE. PINCODE is empty and PARENT is "Sundry Debtors". */
  lemma RenderRepeats(l: Ledger)
    ensures var n := Render(l);
      && |n.children| == TailAt + 3
      && n.attrs[0].value == n.children[1].children[0].text == n.children[18].text
      && n.children[TailAt + 2] == LanguageName(n.attrs[0].value)
      && n.children[0].children[0].text == n.children[5].text
      && n.children[16].text == n.children[17].text == n.children[19].text
      && n.children[6] == Leaf("PINCODE", "")
      && n.children[9] == Leaf("COUNTRYNAME", "India")
      && n.children[12] == Leaf("PARENT", "Sundry Debtors")
  {
    FlagCount();
    var n := Render(l);
    assert n.children[TailAt + 2] == Tail(l)[2];
  }

  /** The converted document: under "All Masters", one TALLYMESSAGE per
      row, in row order, holding that row's LEDGER. */
  lemma ConvertShape(rows: seq<Row>, guid: nat -> string)
    ensures var doc := Convert(rows, guid);
      && ReportName(doc) == "All Masters"
      && |RequestData(doc)| == |rows|
      && forall j :: 0 <= j < |rows| ==> RequestData(doc)[j] == Message("xmlns_UDF", [Render(LedgerOf(j, rows[j], guid))])
  {
    var ls := Ledgers(rows, guid);
    OneMessageEachLayout("All Masters", "xmlns_UDF", seq(|ls|, j requires 0 <= j < |ls| => Render(ls[j])));
  }
}
