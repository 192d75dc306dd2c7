/** The pieces the sales-order and purchase-order converters share: the
    ledger-line fields of an inventory entry, the list of empty sub-lists
    that follows them, the ORDERDUEDATE element, and the two rewrites of
    the transaction_date cell. */
module OrderParts {
  import opened Outcome
  import opened Rows
  import opened Text
  import opened Xml
  import opened Dates

  /** The columns a ledger line reads, in element order. */
  const LineColumns: seq<string> := [
    "gst_class", "is_deemed_positive", "ledger_from_item", "remove_zero_entries", "is_party_ledger",
    "is_last_deemed_positive", "is_cap_vat_tax_altered", "is_cap_vat_not_claimed", "amount"
  ]

  /** The elements a ledger line fills after LEDGERNAME. */
  const LineTags: seq<string> := [
    "GSTCLASS", "ISDEEMEDPOSITIVE", "LEDGERFROMITEM", "REMOVEZEROENTRIES", "ISPARTYLEDGER",
    "ISLASTDEEMEDPOSITIVE", "ISCAPVATTAXALTERED", "ISCAPVATNOTCLAIMED", "AMOUNT"
  ]

  /** Position of ISDEEMEDPOSITIVE and AMOUNT in a ledger line. */
  const DeemedPositive := 1
  const Amount := 8

  /** A ledger line's values: `str(row.get(column, default))` per column. */
  function ReadLine(row: Row, defaults: seq<string>): (r: seq<string>)
    requires |defaults| == |LineColumns|
    ensures |r| == |LineColumns|
    ensures forall k :: 0 <= k < |r| ==> r[k] == Cell(row, LineColumns[k], defaults[k])
  {
    seq(|LineColumns|, k requires 0 <= k < |LineColumns| => Cell(row, LineColumns[k], defaults[k]))
  }

  /** LEDGERNAME, then one element per line value. */
  function LineLeaves(ledgerName: string, line: seq<string>): (r: seq<Node>)
    ensures |r| == 1 + |LineTags|
    ensures r[0] == Leaf("LEDGERNAME", ledgerName)
    ensures |line| == |LineTags| ==> forall k :: 0 <= k < |LineTags| ==> r[1 + k] == Leaf(LineTags[k], line[k])
  {
    [Leaf("LEDGERNAME", ledgerName)]
      + seq(|LineTags|, k requires 0 <= k < |LineTags| => Leaf(LineTags[k], if k < |line| then line[k] else ""))
  }

  /** An element whose text is `str(row.get(column, default))`. */
  datatype Field = Field(tag: string, column: string, default: string)

  /** The text of each field, read from the row. */
  function ReadFields(row: Row, fields: seq<Field>): (r: seq<string>)
    ensures |r| == |fields|
    ensures forall k :: 0 <= k < |fields| ==> r[k] == Cell(row, fields[k].column, fields[k].default)
  {
    seq(|fields|, k requires 0 <= k < |fields| => Cell(row, fields[k].column, fields[k].default))
  }

  /** One element per field, in order, holding the matching text. */
  function FieldLeaves(fields: seq<Field>, values: seq<string>): (r: seq<Node>)
    ensures |r| == |fields|
    ensures |values| == |fields| ==> forall k :: 0 <= k < |fields| ==> r[k] == Leaf(fields[k].tag, values[k])
  {
    seq(|fields|, k requires 0 <= k < |fields| => Leaf(fields[k].tag, if k < |values| then values[k] else ""))
  }

  /** `saxutils.escape` applied to each text. */
  function EscapeAll(values: seq<string>): (r: seq<string>)
    ensures |r| == |values|
    ensures forall k :: 0 <= k < |values| ==> Unescape(r[k]) == values[k]
  {
    EscapeAllRoundTrip(values);
    seq(|values|, k requires 0 <= k < |values| => Escape(values[k]))
  }

  lemma EscapeAllRoundTrip(values: seq<string>)
    ensures forall k :: 0 <= k < |values| ==> Unescape(Escape(values[k])) == values[k]
  {
    forall k | 0 <= k < |values| {
      EscapeRoundTrip(values[k]);
    }
  }

  /** A row without is_deemed_positive takes the default's side. */
  lemma DeemedPositiveDefault(row: Row, defaults: seq<string>)
    requires |defaults| == |LineColumns|
    ensures "is_deemed_positive" !in row ==> ReadLine(row, defaults)[DeemedPositive] == defaults[DeemedPositive]
  {
    assert LineColumns[DeemedPositive] == "is_deemed_positive";
  }

  /** Two lines read with the same defaults from the same row agree on
      every value; lines read with different defaults differ only in the
      columns the row lacks. */
  lemma LinesAgree(row: Row, d1: seq<string>, d2: seq<string>)
    requires |d1| == |d2| == |LineColumns|
    ensures forall k :: 0 <= k < |LineColumns| ==>
      (ReadLine(row, d1)[k] == ReadLine(row, d2)[k] <==> LineColumns[k] in row || d1[k] == d2[k])
  {
  }

  /** The defaults the inventory entry's allocation line reads with. */
  const AllocationDefaults: seq<string> := ["", "Yes", "No", "No", "No", "Yes", "No", "No", "None"]

  /** The empty lists between a voucher's own fields and its
      INVENTORYENTRIES.LIST. */
  const VoucherLists: seq<string> := [
    "EWAYBILLDETAILS.LIST", "EXCLUDEDTAXATIONS.LIST", "OLDAUDITENTRIES.LIST",
    "ACCOUNTAUDITENTRIES.LIST", "AUDITENTRIES.LIST", "DUTYHEADDETAILS.LIST"
  ]

  /** The empty sub-lists closing a ledger line, each holding eight spaces. */
  const AllocationLists: seq<string> := [
    "SERVICETAXDETAILS.LIST", "BANKALLOCATIONS.LIST", "BILLALLOCATIONS.LIST", "INTERESTCOLLECTION.LIST",
    "OLDAUDITENTRIES.LIST", "ACCOUNTAUDITENTRIES.LIST", "AUDITENTRIES.LIST", "INPUTCRALLOCS.LIST",
    "DUTYHEADDETAILS.LIST", "EXCISEDUTYHEADDETAILS.LIST", "RATEDETAILS.LIST", "SUMMARYALLOCS.LIST",
    "STPYMTDETAILS.LIST", "EXCISEPAYMENTALLOCATIONS.LIST", "TAXBILLALLOCATIONS.LIST", "TAXOBJECTALLOCATIONS.LIST",
    "TDSEXPENSEALLOCATIONS.LIST", "VATSTATUTORYDETAILS.LIST", "COSTTRACKALLOCATIONS.LIST", "REFVOUCHERDETAILS.LIST",
    "INVOICEWISEDETAILS.LIST", "VATITCDETAILS.LIST", "ADVANCETAXDETAILS.LIST"
  ]

  /** The empty sub-lists appended after those at the party's ledger line. */
  const LedgerExtraLists: seq<string> := [
    "PAYROLLMODEOFPAYMENT.LIST", "ATTDRECORDS.LIST", "GSTEWAYCONSIGNORADDRESS.LIST",
    "GSTEWAYCONSIGNEEADDRESS.LIST", "TEMPGSTRATEDETAILS.LIST"
  ]

  const ListPad := "        "

  /** The per-item flags of an INVENTORYENTRIES.LIST after STOCKITEMNAME. */
  const InventoryFlags: seq<string> := [
    "ISDEEMEDPOSITIVE", "ISLASTDEEMEDPOSITIVE", "ISAUTONEGATE", "ISCUSTOMSCLEARANCE",
    "ISTRACKCOMPONENT", "ISTRACKPRODUCTION", "ISPRIMARYITEM", "ISSCRAP"
  ]

  /** ORDERDUEDATE carries the due date twice, as its P attribute and as
      its text, and the row number as its JD attribute. */
  function OrderDueDate(number: nat, due: string): Node {
    Node("ORDERDUEDATE", [Attr("JD", NatToString(number)), Attr("P", due)], due, [])
  }

  lemma OrderDueDateShape(number: nat, due: string)
    ensures var n := OrderDueDate(number, due);
      && AttrValue(n, "P") == Some(n.text) && n.text == due
      && AttrValue(n, "JD") == Some(NatToString(number))
  {
    var attrs := OrderDueDate(number, due).attrs;
    assert attrs[0].name != "P" by { assert attrs[0].name[0] != 'P'; }
    assert attrs[1..] == [Attr("P", due)];
    assert FirstNamed(attrs[1..], "P") == Some(due);
    assert FirstNamed(attrs, "P") == FirstNamed(attrs[1..], "P");
  }

  /** The due-date input: `saxutils.escape(str(row.get('transaction_date')))`,
      which is "None" when the column is absent. */
  function DueText(row: Row): string {
    Escape(Cell(row, "transaction_date", "None"))
  }

  /** An order row gets past both date rewrites exactly when its
      transaction_date is present and strptime accepts it; the split
      rewrite never fails on such a cell. */
  lemma OrderDateGate(row: Row)
    ensures DueDate(DueText(row)).Ok? ==> "transaction_date" in row && row["transaction_date"] != ""
    ensures DueDate(DueText(row)).Ok? ==> CellDate(row, "transaction_date").Ok?
  {
    if DueDate(DueText(row)).Ok? {
      var td := Cell(row, "transaction_date", "None");
      DueDateImpliesCompact(DueText(row));
      EscapeKeepsDashes(td);
      DashedIsPresent(td);
      DashedIsText(td);
    }
  }

  /** A cell with two dashes is neither empty nor the "None" of a missing
      column, and the split rewrite accepts it. */
  lemma DashedIsPresent(td: string)
    requires Count(td, '-') == 2
    ensures td != "" && td != "None" && CompactDate(td).Ok?
  {
    CountAbsent("None", '-');
  }

  /** A zero-padded date cell goes through both rewrites: DATE becomes
      the `YYYYMMDD` text that reads back as the same day, and the due
      date is the day without a leading zero, the month's abbreviation and
      the year. */
  lemma PaddedOrderDate(row: Row, d: Date)
    requires ValidDate(d) && Cell(row, "transaction_date", "None") == DmyText(d)
    ensures CellDate(row, "transaction_date") == Ok(CompactText(d))
    ensures ParseCompact(CompactText(d)) == Some(d)
    ensures DueDate(DueText(row)) == Ok(NatToString(d.day) + "-" + MonthAbbrs[d.month - 1] + "-" + Pad4(d.year))
  {
    DmyTextPlain(d);
    DmyTextIsText(d);
    CompactRoundTrip(d);
    DueDateOf(d);
    MissingDateRejected();
    assert "transaction_date" in row by {
      if "transaction_date" !in row {
        ParseDmyRoundTrip(d);
      }
    }
  }
}
