/** The sales-order converter: one VOUCHER of type "Sales Order" per
    distinct order name, the first row carrying a name winning, each in its
    own TALLYMESSAGE. The table is read with fillna(""), so an empty cell
    is "". */
module SalesOrder {
  import opened Outcome
  import opened Rows
  import opened Text
  import opened Xml
  import opened Dates
  import opened FirstSeen
  import opened OrderParts

  /** The row-derived contents of one sales-order voucher. `number` is the
      row position plus one (VOUCHERNUMBER, ALTERID, MASTERID and the JD
      of ORDERDUEDATE); `party` is the escaped customer name and
      `ledgerName` the same name unescaped; `reference` is the escaped
      order name and `orderNo` the same name unescaped. */
  datatype Order = Order(
    number: nat, remoteId: string, vchKey: string, date: string,
    party: string, ledgerName: string, reference: string, orderNo: string,
    cstFormIssueType: string, cstFormRecvType: string, paymentType: string, gstCategory: string,
    stockItemName: string, rate: string, total: string, qty: string,
    batchName: string, indentNo: string, trackingNumber: string, dueDate: string,
    oldAuditEntryId: string, line: seq<string>)

  /** The three batch cells are escaped without `str()`, so none of them
      may be a number. */
  predicate BatchCellsAreText(row: Row) {
    && ("batch_name" !in row || !NumberCell(row["batch_name"]))
    && ("indent_no" !in row || !NumberCell(row["indent_no"]))
    && ("tracking_number" !in row || !NumberCell(row["tracking_number"]))
  }

  /** The escaped BATCHNAME, INDENTNO and TRACKINGNUMBER texts. */
  datatype BatchTexts = BatchTexts(name: string, indent: string, tracking: string)

  /** The three escapes, in the source's order; the first number cell
      among them raises. */
  function EscapeBatch(row: Row): (r: Result<BatchTexts>)
    ensures r.Ok? <==> BatchCellsAreText(row)
    ensures "batch_name" in row && NumberCell(row["batch_name"]) ==> r == Err(AttributeError(row["batch_name"]))
    ensures ("batch_name" !in row || !NumberCell(row["batch_name"])) && "indent_no" in row && NumberCell(row["indent_no"])
      ==> r == Err(AttributeError(row["indent_no"]))
    ensures (&& ("batch_name" !in row || !NumberCell(row["batch_name"]))
             && ("indent_no" !in row || !NumberCell(row["indent_no"]))
             && "tracking_number" in row && NumberCell(row["tracking_number"]))
      ==> r == Err(AttributeError(row["tracking_number"]))
    ensures r.Err? ==> r.error in {
      AttributeError(Cell(row, "batch_name", "")), AttributeError(Cell(row, "indent_no", "")),
      AttributeError(Cell(row, "tracking_number", ""))}
    ensures r.Ok? ==>
      && Unescape(r.value.name) == Cell(row, "batch_name", "Primary Batch")
      && Unescape(r.value.indent) == Cell(row, "indent_no", "")
      && Unescape(r.value.tracking) == Cell(row, "tracking_number", "")
  {
    var name :- EscapeCell(row, "batch_name", "Primary Batch");
    var indent :- EscapeCell(row, "indent_no", "");
    var tracking :- EscapeCell(row, "tracking_number", "");
    Ok(BatchTexts(name, indent, tracking))
  }

  /** The voucher for the row at position i, whose name is not yet seen.
      `guid(i)` is the uuid4 value drawn for it. The steps that can raise
      come in the source's order: the DATE split, `row['customer_name']`,
      the escapes of BATCHNAME, INDENTNO and TRACKINGNUMBER, and strptime
      on the due date. */
  function MakeOrder(i: nat, row: Row, guid: nat -> string): (r: Result<Order>)
    ensures r.Ok? <==> "customer_name" in row && BatchCellsAreText(row) && DueDate(DueText(row)).Ok?
    ensures r.Err? ==> r.error in {
      AttributeError(Cell(row, "transaction_date", "")), UnpackError(Cell(row, "transaction_date", "")),
      KeyError("customer_name"),
      AttributeError(Cell(row, "batch_name", "")), AttributeError(Cell(row, "indent_no", "")),
      AttributeError(Cell(row, "tracking_number", "")), DateError(DueText(row))}
    ensures r.Ok? ==> r.value.number == i + 1 && |r.value.line| == |LineTags|
  {
    OrderDateGate(row);
    var date :- CellDate(row, "transaction_date");
    var customer :- Need(row, "customer_name");
    var batch :- EscapeBatch(row);
    var due :- DueDate(DueText(row));
    Ok(Fill(i, row, guid, date, customer, batch, due))
  }

  /** The voucher of a row whose date, customer, batch texts and due date
      were read. */
  function Fill(i: nat, row: Row, guid: nat -> string, date: string, customer: string,
                batch: BatchTexts, due: string): Order {
    var name := Cell(row, "name", "None");
    Order(
      i + 1, guid(i) + "-00000001", guid(i) + "-0000b146:00000008", date,
      Escape(customer), customer, Escape(name), name,
      Escape(Cell(row, "cst_form_issue_type", "")), Escape(Cell(row, "cst_form_recv_type", "")),
      Escape(Cell(row, "payment_type", "Default")), Escape(Cell(row, "gst_category", "")),
      Escape(Cell(row, "item_name", "None")), Escape(Cell(row, "rate", "None")),
      Escape(Cell(row, "total", "None")), Escape(Cell(row, "stock_qty", "None")),
      batch.name, batch.indent, batch.tracking, due,
      Cell(row, "old_audit_entry_id", "-1"), ReadLine(row, AllocationDefaults))
  }

  // ---------------------------------------------------------------------
  // The row loop

  /** `normalize_name(row['name'])`: KeyError without the column, and
      re.sub raises TypeError on a number. */
  function NameKey(row: Row): (r: Result<string>)
    ensures r.Ok? <==> "name" in row && !NumberCell(row["name"])
    ensures "name" !in row ==> r == Err(KeyError("name"))
    ensures "name" in row && NumberCell(row["name"]) ==> r == Err(TypeError(row["name"]))
    ensures r.Ok? ==> r.value == NormalizeName(Cell(row, "name", ""))
  {
    var name :- Need(row, "name");
    if NumberCell(name) then Err(TypeError(name)) else Ok(NormalizeName(name))
  }

  /** What the loop reads from a row: the outcome of computing the name's
      key, the key itself, and the voucher it would create. */
  datatype RowView = RowView(named: Result<string>, key: string, order: Result<Order>)

  function View(i: nat, row: Row, guid: nat -> string): RowView {
    RowView(NameKey(row), NormalizeName(Cell(row, "name", "")), MakeOrder(i, row, guid))
  }

  function Views(rows: seq<Row>, guid: nat -> string): (r: seq<RowView>)
    ensures |r| == |rows|
  {
    seq(|rows|, i requires 0 <= i < |rows| => View(i, rows[i], guid))
  }

  /** The normalised names seen so far and the vouchers created. */
  datatype SalesState = SalesState(seen: set<string>, orders: seq<Order>)

  /** One pass of the loop: computing the key raises for a nameless row
      or a number name, a seen name is skipped, and otherwise the voucher
      is built. */
  function Step(st: SalesState, v: RowView): Result<SalesState> {
    if v.named.Err? then Err(v.named.error)
    else if v.key in st.seen then Ok(st)
    else match v.order
      case Err(e) => Err(e)
      case Ok(o) => Ok(SalesState(st.seen + {v.key}, st.orders + [o]))
  }

  function Fold(vs: seq<RowView>): Result<SalesState> {
    if |vs| == 0 then Ok(SalesState({}, [])) else
    match Fold(vs[..|vs| - 1])
    case Err(e) => Err(e)
    case Ok(st) => Step(st, vs[|vs| - 1])
  }

  function Keys(vs: seq<RowView>): (r: seq<string>)
    ensures |r| == |vs|
  {
    seq(|vs|, i requires 0 <= i < |vs| => vs[i].key)
  }

  /** The voucher each view would create, one per row. */
  function Results(vs: seq<RowView>): (r: seq<Result<Order>>)
    ensures |r| == |vs|
  {
    seq(|vs|, i requires 0 <= i < |vs| => vs[i].order)
  }

  /** Reference: the vouchers the first-seen views would create, in order. */
  function Kept(vs: seq<RowView>): (r: seq<Result<Order>>)
    ensures |r| == |FirstIndices(Keys(vs))|
    ensures forall j :: 0 <= j < |r| ==> r[j] == vs[FirstIndices(Keys(vs))[j]].order
  {
    AtFirst(Keys(vs), Results(vs))
  }

  predicate AllNamed(vs: seq<RowView>) {
    forall i :: 0 <= i < |vs| ==> vs[i].named.Ok?
  }

  predicate AllOk(rs: seq<Result<Order>>) {
    forall j :: 0 <= j < |rs| ==> rs[j].Ok?
  }

  /** Each voucher wrapped as a successful result. */
  function Oks(os: seq<Order>): (r: seq<Result<Order>>)
    ensures |r| == |os|
  {
    seq(|os|, j requires 0 <= j < |os| => Ok(os[j]))
  }

  lemma KeptSnoc(vs: seq<RowView>, v: RowView)
    ensures Keys(vs + [v]) == Keys(vs) + [v.key]
    ensures Kept(vs + [v]) == if v.key in Keys(vs) then Kept(vs) else Kept(vs) + [v.order]
  {
    assert Keys(vs + [v]) == Keys(vs) + [v.key];
    assert Results(vs + [v]) == Results(vs) + [v.order];
    AtFirstSnoc(Keys(vs), Results(vs), v.key, v.order);
  }

  lemma SnocSteps(vs: seq<RowView>, v: RowView, rs: seq<Result<Order>>, r: Result<Order>)
    ensures AllNamed(vs + [v]) <==> AllNamed(vs) && v.named.Ok?
    ensures AllOk(rs + [r]) <==> AllOk(rs) && r.Ok?
  {
    assert forall i :: 0 <= i < |vs| ==> (vs + [v])[i] == vs[i];
    assert (vs + [v])[|vs|] == v;
    assert forall j :: 0 <= j < |rs| ==> (rs + [r])[j] == rs[j];
    assert (rs + [r])[|rs|] == r;
  }

  lemma OksSnoc(os: seq<Order>, o: Order)
    ensures Oks(os + [o]) == Oks(os) + [Ok(o)]
  {
  }

  /** The loop against the reference: it succeeds exactly when every row
      has a name that is a str and every first-seen row yields its
      voucher, and then it has created exactly those vouchers and seen
      every key. */
  lemma {:induction false} FoldSpec(vs: seq<RowView>)
    ensures Fold(vs).Ok? <==> AllNamed(vs) && AllOk(Kept(vs))
    ensures Fold(vs).Ok? ==> Oks(Fold(vs).value.orders) == Kept(vs)
    ensures Fold(vs).Ok? ==> Fold(vs).value.seen == Elements(Keys(vs))
  {
    if |vs| > 0 {
      var init := vs[..|vs| - 1];
      var v := vs[|vs| - 1];
      assert vs == init + [v];
      FoldSpec(init);
      KeptSnoc(init, v);
      SnocSteps(init, v, Kept(init), v.order);
      if Fold(init).Ok? {
        var st := Fold(init).value;
        if v.order.Ok? {
          OksSnoc(st.orders, v.order.value);
        }
        assert v.key in st.seen <==> v.key in Keys(init);
        assert Elements(Keys(init) + [v.key]) == Elements(Keys(init)) + {v.key};
      }
    }
  }
  function Orders(rows: seq<Row>, guid: nat -> string): Result<seq<Order>> {
    var st :- Fold(Views(rows, guid));
    Ok(st.orders)
  }

  /** The normalised order names of the rows; a nameless row contributes "". */
  function NameKeys(rows: seq<Row>): (r: seq<string>)
    ensures |r| == |rows|
  {
    seq(|rows|, i requires 0 <= i < |rows| => NormalizeName(Cell(rows[i], "name", "")))
  }

  /** Reference: what the rows holding each normalised name first would
      give, in row order. */
  function FirstOrders(rows: seq<Row>, guid: nat -> string): (r: seq<Result<Order>>)
    ensures |r| == |FirstIndices(NameKeys(rows))|
  {
    var f := FirstIndices(NameKeys(rows));
    seq(|f|, j requires 0 <= j < |f| => MakeOrder(f[j], rows[f[j]], guid))
  }

  lemma KeptOfRows(rows: seq<Row>, guid: nat -> string)
    ensures Keys(Views(rows, guid)) == NameKeys(rows)
    ensures Kept(Views(rows, guid)) == FirstOrders(rows, guid)
  {
    var vs := Views(rows, guid);
    assert Keys(vs) == NameKeys(rows);
    var f := FirstIndices(NameKeys(rows));
    var kept := Kept(vs);
    assert |kept| == |f|;
    forall j | 0 <= j < |f|
      ensures kept[j] == FirstOrders(rows, guid)[j]
    {
      assert vs[f[j]] == View(f[j], rows[f[j]], guid);
    }
  }

  lemma ViewsNamed(rows: seq<Row>, guid: nat -> string)
    ensures AllNamed(Views(rows, guid)) <==> forall i :: 0 <= i < |rows| ==> TextName(rows[i])
  {
    var vs := Views(rows, guid);
    assert forall i :: 0 <= i < |rows| ==> (vs[i].named.Ok? <==> TextName(rows[i]));
  }

  /** The row has a name that is a str. */
  predicate TextName(row: Row) {
    "name" in row && !NumberCell(row["name"])
  }

  /** Orders are de-duplicated by normalised name, first row wins: the
      conversion succeeds exactly when every row has a name that is a str
      and every first-seen row converts, and then its vouchers are those
      rows' vouchers, in row order. */
  lemma OrdersAreFirstSeen(rows: seq<Row>, guid: nat -> string)
    ensures Orders(rows, guid).Ok? <==>
      (forall i :: 0 <= i < |rows| ==> TextName(rows[i])) && AllOk(FirstOrders(rows, guid))
    ensures Orders(rows, guid).Ok? ==> Oks(Orders(rows, guid).value) == FirstOrders(rows, guid)
  {
    FoldSpec(Views(rows, guid));
    KeptOfRows(rows, guid);
    ViewsNamed(rows, guid);
  }

  /** The vouchers of a successful conversion: as many as there are
      distinct normalised names, numbered by strictly increasing row
      positions, with pairwise different normalised names. */
  lemma OrderNumbering(rows: seq<Row>, guid: nat -> string)
    requires Orders(rows, guid).Ok?
    ensures var os := Orders(rows, guid).value;
      && |os| == |Elements(NameKeys(rows))|
      && (forall j, j' :: 0 <= j < j' < |os| ==> os[j].number < os[j'].number)
      && (forall j :: 0 <= j < |os| ==> 1 <= os[j].number <= |rows|)
      && (forall j, j' :: 0 <= j < j' < |os| ==> NormalizeName(os[j].orderNo) != NormalizeName(os[j'].orderNo))
  {
    OrdersAreFirstSeen(rows, guid);
    DistinctCount(NameKeys(rows));
    var os := Orders(rows, guid).value;
    var f := FirstIndices(NameKeys(rows));
    forall j | 0 <= j < |os|
      ensures os[j].number == f[j] + 1 && os[j].orderNo == rows[f[j]]["name"]
    {
      OrderAt(rows, guid, j);
    }
    forall j, j' | 0 <= j < j' < |os|
      ensures NormalizeName(os[j].orderNo) != NormalizeName(os[j'].orderNo)
    {
      OrderAt(rows, guid, j);
      OrderAt(rows, guid, j');
      FirstKeysDiffer(NameKeys(rows), j, j');
    }
  }

  /** The j-th voucher is made from the row where the j-th distinct name
      first appears. */
  lemma OrderAt(rows: seq<Row>, guid: nat -> string, j: nat)
    requires Orders(rows, guid).Ok? && j < |Orders(rows, guid).value|
    ensures var f := FirstIndices(NameKeys(rows));
      && j < |f| && f[j] < |rows| && "name" in rows[f[j]]
      && Orders(rows, guid).value[j].number == f[j] + 1
      && Orders(rows, guid).value[j].orderNo == rows[f[j]]["name"]
      && NormalizeName(Orders(rows, guid).value[j].orderNo) == NameKeys(rows)[f[j]]
  {
    OrdersAreFirstSeen(rows, guid);
    var os := Orders(rows, guid).value;
    var f := FirstIndices(NameKeys(rows));
    assert Oks(os)[j] == Ok(os[j]);
    assert FirstOrders(rows, guid)[j] == MakeOrder(f[j], rows[f[j]], guid);
    OrderFields(f[j], rows[f[j]], guid);
  }

  // ---------------------------------------------------------------------
  // The element tree

  /** The flags every sales order sets to "No", in element order. */
  const NoFlags: seq<string> := [
    "DIFFACTUALQTY", "ISMSTFROMSYNC", "ASORIGINAL", "AUDITED", "FORJOBCOSTING",
    "ISOPTIONAL", "USEFOREXCISE", "ISFORJOBWORKIN", "ALLOWCONSUMPTION",
    "USEFORINTEREST", "USEFORGAINLOSS", "USEFORGODOWNTRANSFER",
    "USEFORCOMPOUND", "USEFORSERVICETAX", "ISDELETED", "ISONHOLD",
    "ISBOENOTAPPLICABLE", "ISEXCISEVOUCHER", "EXCISETAXOVERRIDE",
    "USEFORTAXUNITTRANSFER", "IGNOREPOSVALIDATION", "EXCISEOPENING",
    "USEFORFINALPRODUCTION", "ISTDSOVERRIDDEN", "ISTCSOVERRIDDEN",
    "ISTDSTCSCASHVCH", "INCLUDEADVPYMTVCH", "ISSUBWORKSCONTRACT",
    "ISVATOVERRIDDEN", "IGNOREORIGVCHDATE", "ISVATPAIDATCUSTOMS",
    "ISDECLAREDTOCUSTOMS", "ISSERVICETAXOVERRIDDEN", "ISISDVOUCHER",
    "ISEXCISEOVERRIDDEN", "ISEXCISESUPPLYVCH", "ISGSTOVERRIDDEN",
    "GSTNOTEXPORTED", "IGNOREGSTINVALIDATION", "ISGSTREFUND",
    "ISGSTSECSEVENAPPLICABLE", "ISVATPRINCIPALACCOUNT", "ISSHIPPINGWITHINSTATE",
    "ISOVERSEASTOURISTTRANS", "ISDESIGNATEDZONEPARTY", "ISCANCELLED",
    "ISPOSTDATED", "USETRACKINGNUMBER", "ISINVOICE",
    "MFGJOURNAL", "HASDISCOUNTS", "ASPAYSLIP", "ISCOSTCENTRE",
    "ISSTXNONREALIZEDVCH", "ISEXCISEMANUFACTURERON", "ISBLANKCHEQUE",
    "ISVOID", "ORDERLINESTATUS", "VATISAGNSTCANCSALES", "VATISPURCEXEMPTED",
    "ISVATRESTAXINVOICE", "VATISASSESABLECALCVCH", "ISDELIVERYSAMEASCONSIGNEE",
    "ISDISPATCHSAMEASCONSIGNOR", "CHANGEVCHMODE"
  ]

  const Pad6 := "      "

  /** OLDAUDITENTRYIDS.LIST through VCHGSTCLASS. */
  function Head(o: Order): (r: seq<Node>)
    ensures |r| == 18
  {
    [
      OldAuditIds("-1"),
      Leaf("DATE", o.date), Leaf("GUID", o.remoteId), Leaf("VATDEALERTYPE", "Unregistered"),
      Leaf("NARRATION", "New Sales Order"), Leaf("COUNTRYOFRESIDENCE", "India"),
      Leaf("PARTYNAME", o.party), Leaf("PARTYLEDGERNAME", o.party), Leaf("VOUCHERTYPENAME", "Sales Order"),
      Leaf("REFERENCE", o.reference), Leaf("VOUCHERNUMBER", NatToString(o.number)),
      Leaf("BASICBASEPARTYNAME", o.party), Leaf("CSTFORMISSUETYPE", o.cstFormIssueType),
      Leaf("CSTFORMRECVTYPE", o.cstFormRecvType), Leaf("FBTPAYMENTTYPE", o.paymentType),
      Leaf("PERSISTEDVIEW", "Invoice Voucher View"), Leaf("BASICBUYERNAME", o.party),
      Leaf("VCHGSTCLASS", o.gstCategory)
    ]
  }

  /** ALTERID through ISVATDUTYPAID. */
  function Tail(o: Order): (r: seq<Node>)
    ensures |r| == 6
  {
    [
      Leaf("ALTERID", NatToString(o.number)), Leaf("MASTERID", NatToString(o.number)),
      Leaf("VOUCHERKEY", o.vchKey), Leaf("EFFECTIVEDATE", o.date),
      Leaf("HASCASHFLOW", "Yes"), Leaf("ISVATDUTYPAID", "Yes")
    ]
  }

  function Batch(o: Order): Node {
    Elem("BATCHALLOCATIONS.LIST", [], [
      Leaf("BATCHNAME", o.batchName), Leaf("INDENTNO", o.indentNo), Leaf("ORDERNO", o.orderNo),
      Leaf("TRACKINGNUMBER", o.trackingNumber), Leaf("DYNAMICCSTISCLEARED", "No"),
      Leaf("AMOUNT", o.total), Leaf("ACTUALQTY", o.qty), Leaf("BILLEDQTY", o.qty),
      OrderDueDate(o.number, o.dueDate),
      Leaf("ADDITIONALDETAILS.LIST", Pad6), Leaf("VOUCHERCOMPONENTLIST.LIST", Pad6)
    ])
  }

  /** The SALORD line, posted against the sales-order ledger. */
  function Allocation(o: Order): Node {
    Elem("ACCOUNTINGALLOCATIONS.LIST", [], [OldAuditIds(o.oldAuditEntryId)]
      + LineLeaves("SALORD", o.line) + Pads(AllocationLists, ListPad))
  }

  /** The customer's line. */
  function LedgerEntry(o: Order): Node {
    Elem("LEDGERENTRIES.LIST", [], LineLeaves(o.ledgerName, o.line) + Pads(AllocationLists + LedgerExtraLists, ListPad))
  }

  function Inventory(o: Order): Node {
    Elem("INVENTORYENTRIES.LIST", [], [Leaf("STOCKITEMNAME", o.stockItemName)] + Pads(InventoryFlags, "No") + [
      Leaf("RATE", o.rate), Leaf("AMOUNT", o.total), Leaf("ACTUALQTY", o.qty), Leaf("BILLEDQTY", o.qty),
      Batch(o), Allocation(o), LedgerEntry(o)
    ])
  }

  function Render(o: Order): Node {
    Elem("VOUCHER", [
        Attr("REMOTEID", o.remoteId), Attr("VCHKEY", o.vchKey), Attr("VCHTYPE", "Sales Order"),
        Attr("ACTION", "Create"), Attr("OBJVIEW", "Invoice Voucher View")
      ],
      Head(o) + Pads(NoFlags, "No") + Tail(o) + Pads(VoucherLists, Pad6) + [Inventory(o)])
  }

  /** Every voucher in a TALLYMESSAGE of its own, under "Vouchers". */
  function Document(orders: seq<Order>): Node {
    OneMessageEach("Vouchers", "xmlns:UDF", seq(|orders|, j requires 0 <= j < |orders| => Render(orders[j])))
  }

  function Convert(rows: seq<Row>, guid: nat -> string): Result<Node> {
    var os :- Orders(rows, guid);
    Ok(Document(os))
  }

  /** Positions of the voucher's children. */
  const DateAt := 1
  const NumberAt := 10
  const AlterIdAt := 18 + 65
  const EffectiveDateAt := 18 + 65 + 3
  const InventoryAt := 18 + 65 + 6 + 6

  /** A rendered sales order repeats itself consistently: DATE equals
      EFFECTIVEDATE; VOUCHERNUMBER, ALTERID and MASTERID are the same
      number; GUID repeats REMOTEID and VOUCHERKEY repeats VCHKEY. */
  lemma VoucherFieldsAgree(o: Order)
    ensures var n := Render(o);
      && |n.children| == InventoryAt + 1
      && n.children[DateAt] == Leaf("DATE", o.date)
      && n.children[EffectiveDateAt] == Leaf("EFFECTIVEDATE", o.date)
      && n.children[2] == Leaf("GUID", o.remoteId) && n.attrs[0] == Attr("REMOTEID", o.remoteId)
      && n.children[EffectiveDateAt - 1] == Leaf("VOUCHERKEY", o.vchKey) && n.attrs[1] == Attr("VCHKEY", o.vchKey)
      && n.children[NumberAt].text == n.children[AlterIdAt].text == n.children[AlterIdAt + 1].text
      && n.children[NumberAt].text == NatToString(o.number)
  {
    var n := Render(o);
    var before := Head(o) + Pads(NoFlags, "No");
    assert n.children == before + Tail(o) + Pads(VoucherLists, Pad6) + [Inventory(o)];
    assert n.children[AlterIdAt] == Tail(o)[0];
    assert n.children[AlterIdAt + 1] == Tail(o)[1];
    assert n.children[EffectiveDateAt] == Tail(o)[3];
    assert n.children[EffectiveDateAt - 1] == Tail(o)[2];
  }

  /** The fixed flags: every tag of the no-list reads "No", in order,
      right after the head, and HASCASHFLOW and ISVATDUTYPAID read "Yes"
      right after EFFECTIVEDATE. */
  lemma FixedFlags(o: Order)
    ensures var n := Render(o);
      && |n.children| == InventoryAt + 1
      && (forall k :: 0 <= k < |NoFlags| ==> n.children[18 + k] == Leaf(NoFlags[k], "No"))
      && n.children[EffectiveDateAt + 1] == Leaf("HASCASHFLOW", "Yes")
      && n.children[EffectiveDateAt + 2] == Leaf("ISVATDUTYPAID", "Yes")
  {
    var n := Render(o);
    var before := Head(o) + Pads(NoFlags, "No");
    assert n.children == before + Tail(o) + Pads(VoucherLists, Pad6) + [Inventory(o)];
    forall k | 0 <= k < |NoFlags|
      ensures n.children[18 + k] == Leaf(NoFlags[k], "No")
    {
      assert n.children[18 + k] == before[18 + k];
    }
    assert n.children[EffectiveDateAt + 1] == Tail(o)[4];
    assert n.children[EffectiveDateAt + 2] == Tail(o)[5];
  }

  /** The due date sits in the batch allocation: ORDERDUEDATE's text
      equals its P attribute, and its JD is the voucher number. */
  lemma DueDateRepeats(o: Order)
    ensures var n := Render(o);
      && |n.children| == InventoryAt + 1
      && |n.children[InventoryAt].children| > 13 && |n.children[InventoryAt].children[13].children| > 8
    ensures var due := Render(o).children[InventoryAt].children[13].children[8];
      && due == OrderDueDate(o.number, o.dueDate)
      && AttrValue(due, "P") == Some(due.text)
      && AttrValue(due, "JD") == Some(NatToString(o.number))
  {
    var n := Render(o);
    assert n.children == Head(o) + Pads(NoFlags, "No") + Tail(o) + Pads(VoucherLists, Pad6) + [Inventory(o)];
    assert n.children[InventoryAt] == Inventory(o);
    assert Inventory(o).children[13] == Batch(o);
    OrderDueDateShape(o.number, o.dueDate);
  }

  /** The SALORD allocation and the customer's ledger entry carry the same
      values (deemed-positive flag, amount, and the rest); they differ
      only in LEDGERNAME, and the ledger entry closes with the five extra
      lists after the shared ones. */
  lemma LedgerLinesAgree(o: Order)
    requires |o.line| == |LineTags|
    ensures var alloc := Allocation(o).children;
      var ledger := LedgerEntry(o).children;
      && |alloc| > 1 + |LineTags| && |ledger| > |LineTags|
      && alloc[1] == Leaf("LEDGERNAME", "SALORD")
      && ledger[0] == Leaf("LEDGERNAME", o.ledgerName)
      && forall k :: 0 <= k < |LineTags| ==> alloc[2 + k] == ledger[1 + k] == Leaf(LineTags[k], o.line[k])
  {
    assert Allocation(o).children == [OldAuditIds(o.oldAuditEntryId)] + LineLeaves("SALORD", o.line) + Pads(AllocationLists, ListPad);
  }

  /** The ledger entry closes with the allocation's lists followed by the
      five extra ones, each holding the list padding. */
  lemma LedgerListsClose(o: Order)
    requires |o.line| == |LineTags|
    ensures var ledger := LedgerEntry(o).children;
      && |ledger| == 1 + |LineTags| + |AllocationLists| + |LedgerExtraLists|
      && (forall k :: 0 <= k < |AllocationLists| ==> ledger[1 + |LineTags| + k] == Leaf(AllocationLists[k], ListPad))
      && (forall k :: 0 <= k < |LedgerExtraLists| ==>
            ledger[1 + |LineTags| + |AllocationLists| + k] == Leaf(LedgerExtraLists[k], ListPad))
  {
    var pads := Pads(AllocationLists + LedgerExtraLists, ListPad);
    forall k | 0 <= k < |LedgerExtraLists|
      ensures pads[|AllocationLists| + k] == Leaf(LedgerExtraLists[k], ListPad)
    {
      assert (AllocationLists + LedgerExtraLists)[|AllocationLists| + k] == LedgerExtraLists[k];
    }
  }

  /** Where the lines sit: the inventory entry closes the voucher, and
      its last two children are the SALORD allocation and the customer's
      ledger entry. */
  lemma InventoryLayout(o: Order)
    ensures var n := Render(o);
      && |n.children| == InventoryAt + 1 && n.children[InventoryAt] == Inventory(o)
      && |Inventory(o).children| == 16
      && Inventory(o).children[14] == Allocation(o) && Inventory(o).children[15] == LedgerEntry(o)
  {
    var n := Render(o);
    assert n.children == Head(o) + Pads(NoFlags, "No") + Tail(o) + Pads(VoucherLists, Pad6) + [Inventory(o)];
  }

  /** What a voucher reads from its row: its number is the row position
      plus one; PARTYNAME unescapes to the customer name that LEDGERNAME
      carries verbatim, REFERENCE to the order name that ORDERNO carries;
      the ledger-line values are the row's cells, defaulted only where the
      column is absent. */
  lemma OrderFields(i: nat, row: Row, guid: nat -> string)
    requires MakeOrder(i, row, guid).Ok?
    ensures var o := MakeOrder(i, row, guid).value;
      && o.number == i + 1
      && "customer_name" in row && o.ledgerName == row["customer_name"] && Unescape(o.party) == o.ledgerName
      && o.orderNo == Cell(row, "name", "None") && Unescape(o.reference) == o.orderNo
      && |o.line| == |LineColumns|
      && Unescape(o.batchName) == Cell(row, "batch_name", "Primary Batch")
      && Unescape(o.indentNo) == Cell(row, "indent_no", "")
      && Unescape(o.trackingNumber) == Cell(row, "tracking_number", "")
      && forall k :: 0 <= k < |LineColumns| ==> o.line[k] == Cell(row, LineColumns[k], AllocationDefaults[k])
  {
    var o := MakeOrder(i, row, guid).value;
    assert o.batchName == EscapeBatch(row).value.name;
    assert o.indentNo == EscapeBatch(row).value.indent;
    assert o.trackingNumber == EscapeBatch(row).value.tracking;
    EscapeRoundTrip(o.ledgerName);
    EscapeRoundTrip(o.orderNo);
  }

  /** The converted document: it exists exactly when every row has a str
      name and every first row of a name converts, and then holds, under
      "Vouchers", one TALLYMESSAGE per distinct normalised name, in the
      order of first occurrence, holding the voucher of that first row. */
  lemma ConvertShape(rows: seq<Row>, guid: nat -> string)
    ensures Convert(rows, guid).Ok? <==>
      (forall i :: 0 <= i < |rows| ==> TextName(rows[i])) && AllOk(FirstOrders(rows, guid))
    ensures Convert(rows, guid).Ok? ==> var doc := Convert(rows, guid).value; var f := FirstIndices(NameKeys(rows));
      && ReportName(doc) == "Vouchers"
      && |RequestData(doc)| == |f|
      && forall j :: 0 <= j < |f| ==>
           (f[j] < |rows| && var o := MakeOrder(f[j], rows[f[j]], guid);
            o.Ok? && RequestData(doc)[j] == Message("xmlns:UDF", [Render(o.value)]))
  {
    OrdersAreFirstSeen(rows, guid);
    var r := Orders(rows, guid);
    if r.Ok? {
      var os := r.value;
      OrdersOfFirstRows(rows, guid);
      OneMessageEachLayout("Vouchers", "xmlns:UDF", seq(|os|, j requires 0 <= j < |os| => Render(os[j])));
    }
  }

  /** The vouchers of a successful conversion are those of the first rows
      of the distinct names, in order. */
  lemma OrdersOfFirstRows(rows: seq<Row>, guid: nat -> string)
    requires Orders(rows, guid).Ok?
    ensures var os := Orders(rows, guid).value; var f := FirstIndices(NameKeys(rows));
      && |os| == |f|
      && forall j :: 0 <= j < |f| ==> f[j] < |rows| && MakeOrder(f[j], rows[f[j]], guid) == Ok(os[j])
  {
    OrdersAreFirstSeen(rows, guid);
    var os := Orders(rows, guid).value;
    forall j | 0 <= j < |os|
      ensures MakeOrder(FirstIndices(NameKeys(rows))[j], rows[FirstIndices(NameKeys(rows))[j]], guid) == Ok(os[j])
    {
      assert Oks(os)[j] == FirstOrders(rows, guid)[j];
    }
  }

  /** A number in INDENTNO's cell stops a row that got past its date and
      customer: saxutils.escape is handed an int or a float. */
  lemma NumberIndentRaises(i: nat, row: Row, guid: nat -> string)
    requires CellDate(row, "transaction_date").Ok? && "customer_name" in row
    requires "batch_name" !in row || !NumberCell(row["batch_name"])
    requires "indent_no" in row && NumberCell(row["indent_no"])
    ensures MakeOrder(i, row, guid) == Err(AttributeError(row["indent_no"]))
  {
  }

  /** Once a row's name cannot be keyed, the loop has failed with that
      row's error, whatever follows. */
  lemma {:induction false} FoldStopsAtFirst(vs: seq<RowView>)
    requires |vs| > 0 && vs[0].named.Err?
    ensures Fold(vs) == Err(vs[0].named.error)
  {
    if |vs| > 1 {
      var init := vs[..|vs| - 1];
      assert init[0] == vs[0];
      FoldStopsAtFirst(init);
    }
  }

  /** A table whose first order name is a number fails with the TypeError
      re.sub raises on it. */
  lemma NumberNameRaises(rows: seq<Row>, guid: nat -> string)
    requires |rows| > 0 && "name" in rows[0] && NumberCell(rows[0]["name"])
    ensures Convert(rows, guid) == Err(TypeError(rows[0]["name"]))
  {
    FoldStopsAtFirst(Views(rows, guid));
  }

  /** A row with a zero-padded date: DATE is its `YYYYMMDD` spelling and
      ORDERDUEDATE the strftime spelling of the same day. */
  lemma PaddedDates(i: nat, row: Row, guid: nat -> string, d: Date)
    requires ValidDate(d) && Cell(row, "transaction_date", "None") == DmyText(d) && "customer_name" in row
    ensures MakeOrder(i, row, guid).Ok? <==> BatchCellsAreText(row)
    ensures MakeOrder(i, row, guid).Ok? ==> ParseCompact(MakeOrder(i, row, guid).value.date) == Some(d)
    ensures MakeOrder(i, row, guid).Ok? ==>
      MakeOrder(i, row, guid).value.dueDate == NatToString(d.day) + "-" + MonthAbbrs[d.month - 1] + "-" + Pad4(d.year)
  {
    PaddedOrderDate(row, d);
  }
}
