/** The payment-entry converter: one Payment voucher per row, in row
    order, each in its own TALLYMESSAGE, under "Vouchers". The table is read
    without fillna, so an empty cell holds "nan". The posting date is
    rewritten leniently (a value that does not split into three parts gives
    an empty DATE); the only step that can abort is the float conversion of
    the amount columns. */
module PaymentEntry {
  import opened Outcome
  import opened Rows
  import opened Text
  import opened Xml
  import opened Dates

  /** A Payment voucher: the row-derived texts, already escaped where the
      converter escapes them, and the uuid drawn for the row. */
  datatype Payment = Payment(
    date: string,
    guid: string,
    party: string,
    voucherNumber: string,
    amount: string,
    bank: string,
    oldAuditEntryId: string)

  /** DATE: posting_date rewritten from `D-M-Y` to `YMD`. A missing
      column or a NaN cell gives "", and so does a text that does not
      split into three parts, whose ValueError the source catches. A number
      raises AttributeError at `.split`, which `except ValueError` does not
      catch. */
  function PostingDate(row: Row): (r: Result<string>)
    ensures r.Err? <==> "posting_date" in row && NumberCell(row["posting_date"])
    ensures r.Err? ==> r.error == AttributeError(row["posting_date"])
    ensures r.Ok? ==> r.value == "" || CompactDate(Cell(row, "posting_date", "")) == Ok(r.value)
    ensures r.Ok? && r.value != "" ==> var p := Split(Cell(row, "posting_date", ""), '-');
      |p| == 3 && Cell(row, "posting_date", "") == p[0] + "-" + p[1] + "-" + p[2] && r.value == p[2] + p[1] + p[0]
  {
    var cell := Cell(row, "posting_date", "");
    if NumberCell(cell) then Err(AttributeError(cell)) else Ok(LenientCompactDate(cell))
  }

  /** The voucher for the row at position i. `guid(i)` is the uuid4 value
      drawn for the row; `amount(row)` is the text of the float sum of the
      received_amount and total_taxes_and_charges cells (0 for a missing
      column), or the ValueError float() raises on a cell that is not a
      number, which aborts the conversion. The posting date is read first. */
  function MakePayment(i: nat, row: Row, guid: nat -> string, amount: Row -> Result<string>): (r: Result<Payment>)
    ensures r.Ok? <==> RowConverts(row, amount)
    ensures PostingDate(row).Err? ==> r == Err(PostingDate(row).error)
    ensures PostingDate(row).Ok? && amount(row).Err? ==> r == Err(amount(row).error)
    ensures r.Ok? ==> Unescape(r.value.amount) == amount(row).value && r.value.guid == guid(i)
  {
    var date :- PostingDate(row);
    var sum :- amount(row);
    EscapeRoundTrip(sum);
    Ok(Fill(i, row, guid, date, sum))
  }

  /** Both steps of a row that can raise succeed. */
  predicate RowConverts(row: Row, amount: Row -> Result<string>) {
    PostingDate(row).Ok? && amount(row).Ok?
  }

  function Fill(i: nat, row: Row, guid: nat -> string, date: string, sum: string): Payment {
    Payment(
      date,
      guid(i),
      Escape(Cell(row, "party_name", "")),
      Escape(Cell(row, "payment_order", "")),
      Escape(sum),
      Escape(Cell(row, "paid_to", "")),
      Cell(row, "old_audit_entry_id", "-1"))
  }

  /** The loop: one voucher per row, stopping at the first row whose
      posting date or amount raises. */
  function Payments(rows: seq<Row>, guid: nat -> string, amount: Row -> Result<string>): Result<seq<Payment>> {
    MapOk(rows, (i, row) => MakePayment(i, row, guid, amount))
  }

  /** The loop succeeds exactly when every row converts; then the j-th
      voucher is the j-th row's. Otherwise the error is the first failing
      row's. */
  lemma PaymentsAreRows(rows: seq<Row>, guid: nat -> string, amount: Row -> Result<string>)
    ensures var r := Payments(rows, guid, amount);
      && (r.Ok? <==> forall i :: 0 <= i < |rows| ==> RowConverts(rows[i], amount))
      && (r.Ok? ==> |r.value| == |rows| && forall j :: 0 <= j < |rows| ==> MakePayment(j, rows[j], guid, amount) == Ok(r.value[j]))
      && (r.Err? ==> exists i :: (0 <= i < |rows| && MakePayment(i, rows[i], guid, amount) == Err(r.error)
                                  && forall k :: 0 <= k < i ==> RowConverts(rows[k], amount)))
  {
    var f := (i: nat, row: Row) => MakePayment(i, row, guid, amount);
    var r := Payments(rows, guid, amount);
    assert forall i :: 0 <= i < |rows| ==> (f(i, rows[i]).Ok? <==> RowConverts(rows[i], amount));
    if r.Err? {
      var i :| 0 <= i < |rows| && f(i, rows[i]) == Err(r.error) && forall k :: 0 <= k < i ==> f(k, rows[k]).Ok?;
      assert MakePayment(i, rows[i], guid, amount) == Err(r.error);
    }
  }

  /** What a voucher reads from its row: the party, voucher number and
      bank ledger unescape to their cells, and the old audit id is the
      cell itself, "-1" when the column is missing. */
  lemma PaymentFields(i: nat, row: Row, guid: nat -> string, amount: Row -> Result<string>)
    requires RowConverts(row, amount)
    ensures var p := MakePayment(i, row, guid, amount).value;
      && Unescape(p.party) == Cell(row, "party_name", "")
      && Unescape(p.voucherNumber) == Cell(row, "payment_order", "")
      && Unescape(p.bank) == Cell(row, "paid_to", "")
      && ("old_audit_entry_id" !in row ==> p.oldAuditEntryId == "-1")
      && p.date == PostingDate(row).value
  {
    EscapeRoundTrip(Cell(row, "party_name", ""));
    EscapeRoundTrip(Cell(row, "payment_order", ""));
    EscapeRoundTrip(Cell(row, "paid_to", ""));
  }

  /** A zero-padded posting date is rewritten to its `YYYYMMDD` spelling,
      which reads back as the same date. */
  lemma PaddedPostingDate(row: Row, d: Date)
    requires ValidDate(d) && Cell(row, "posting_date", "") == DmyText(d)
    ensures PostingDate(row) == Ok(CompactText(d))
    ensures ParseCompact(PostingDate(row).value) == Some(d)
  {
    DmyTextIsText(d);
    CompactRoundTrip(d);
  }

  /** A missing or NaN posting date leaves DATE empty rather than
      aborting. */
  lemma MissingPostingDate(row: Row)
    requires "posting_date" !in row || row["posting_date"] == "nan"
    ensures PostingDate(row) == Ok("")
  {
    var s := Cell(row, "posting_date", "");
    CountAbsent(s, '-');
  }

  // ---------------------------------------------------------------------
  // The element tree

  function DebitEntry(p: Payment): Node {
    Elem("ALLLEDGERENTRIES.LIST", [],
      [Leaf("LEDGERNAME", p.party), Leaf("ISDEEMEDPOSITIVE", "Yes"), Leaf("AMOUNT", "-" + p.amount)])
  }

  function CreditEntry(p: Payment): Node {
    Elem("ALLLEDGERENTRIES.LIST", [],
      [Leaf("LEDGERNAME", p.bank), Leaf("ISDEEMEDPOSITIVE", "No"), Leaf("AMOUNT", p.amount)])
  }

  function Render(p: Payment): Node {
    Elem("VOUCHER",
      [Attr("REMOTEID", p.guid + "-00000029"), Attr("VCHKEY", p.guid + "-0000b147:00000020"),
       Attr("VCHTYPE", "Payment"), Attr("ACTION", "Create"), Attr("OBJVIEW", "Accounting Voucher View")],
      [OldAuditIds(p.oldAuditEntryId),
       Leaf("DATE", p.date), Leaf("GUID", p.guid), Leaf("PARTYLEDGERNAME", p.party),
       Leaf("VOUCHERTYPENAME", "Payment"), Leaf("VOUCHERNUMBER", p.voucherNumber),
       Leaf("FBTPAYMENTTYPE", "Default"), Leaf("PERSISTEDVIEW", "Accounting Voucher View"),
       Leaf("AMOUNT", p.amount), Leaf("LEDGERNAME", p.party),
       Elem("ALLLEDGERENTRIES.LIST", [], [DebitEntry(p), CreditEntry(p)])])
  }

  /** Every voucher in a TALLYMESSAGE of its own, under "Vouchers". */
  function Document(ps: seq<Payment>): Node {
    OneMessageEach("Vouchers", "xmlns_UDF", seq(|ps|, j requires 0 <= j < |ps| => Render(ps[j])))
  }

  function Convert(rows: seq<Row>, guid: nat -> string, amount: Row -> Result<string>): Result<Node> {
    var ps :- Payments(rows, guid, amount);
    Ok(Document(ps))
  }

  /** The text of the element at position k of a ledger entry. */
  function EntryText(entry: Node, k: nat): string {
    if k < |entry.children| then entry.children[k].text else ""
  }

  /** The two ledger entries balance: the party is debited (deemed
      positive, the amount negated) and the bank credited (not deemed
      positive, the amount as is), and the voucher's own AMOUNT is the
      credited one. The party ledger appears as PARTYLEDGERNAME, as
      LEDGERNAME and in the debit entry; REMOTEID and VCHKEY extend GUID. */
  lemma EntriesBalance(p: Payment)
    ensures var n := Render(p);
      var entries := n.children[10].children;
      && |entries| == 2
      && EntryText(entries[0], 2) == "-" + EntryText(entries[1], 2)
      && EntryText(entries[1], 2) == n.children[8].text
      && EntryText(entries[0], 1) == "Yes" && EntryText(entries[1], 1) == "No"
      && EntryText(entries[0], 0) == n.children[3].text == n.children[9].text == p.party
      && EntryText(entries[1], 0) == p.bank
      && n.attrs[0].value == n.children[2].text + "-00000029"
      && n.attrs[1].value == n.children[2].text + "-0000b147:00000020"
      && n.attrs[2] == Attr("VCHTYPE", "Payment") && n.children[4] == Leaf("VOUCHERTYPENAME", "Payment")
  {
  }

  /** The converted document: it exists exactly when every row's amount
      converts, and then holds, under "Vouchers", one TALLYMESSAGE per row,
      in row order, holding that row's voucher. */
  lemma ConvertShape(rows: seq<Row>, guid: nat -> string, amount: Row -> Result<string>)
    ensures Convert(rows, guid, amount).Ok? <==> forall i :: 0 <= i < |rows| ==> RowConverts(rows[i], amount)
    ensures Convert(rows, guid, amount).Ok? ==> var doc := Convert(rows, guid, amount).value;
      && ReportName(doc) == "Vouchers"
      && |RequestData(doc)| == |rows|
      && forall j :: 0 <= j < |rows| ==>
           RequestData(doc)[j] == Message("xmlns_UDF", [Render(MakePayment(j, rows[j], guid, amount).value)])
  {
    PaymentsAreRows(rows, guid, amount);
    var r := Payments(rows, guid, amount);
    if r.Ok? {
      var ps := r.value;
      OneMessageEachLayout("Vouchers", "xmlns_UDF", seq(|ps|, j requires 0 <= j < |ps| => Render(ps[j])));
    }
  }
}
