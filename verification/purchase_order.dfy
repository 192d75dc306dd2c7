/** The purchase-order converter: one VOUCHER of type "Purchase Order"
    per row, in row order, with no de-duplication. The table is read
    without fillna, so an empty cell holds "nan". Most voucher fields can be
    overridden by a column of the row and fall back to a fixed default. */
module PurchaseOrder {
  import opened Outcome
  import opened Rows
  import opened Text
  import opened Xml
  import opened Dates
  import opened OrderParts

  /** The row-derived contents of one purchase-order voucher. `number` is
      the row position plus one (the JD of ORDERDUEDATE and the default
      ALTERID and MASTERID); `party` is the escaped supplier and
      `supplierName` the escaped supplier_name cell; `head`, `flags`,
      `ids`, `inventory` and `batch` hold the texts of the overridable
      fields listed below, in element order; `line` is the PRCORD
      allocation and `partyLine` the supplier's ledger entry. */
  datatype Purchase = Purchase(
    number: nat, remoteId: string, vchKey: string, date: string, oldAuditEntryId: string,
    country: string, placeOfSupply: string, party: string, supplierName: string,
    voucherTypeName: string, reference: string, voucherNumber: string,
    head: seq<string>, flags: seq<string>, ids: seq<string>,
    inventory: seq<string>, batch: seq<string>, dueDate: string,
    line: seq<string>, ledgerName: string, partyLine: seq<string>)

  /** CSTFORMISSUETYPE through ISOPTIONAL, between BASICBASEPARTYNAME and EFFECTIVEDATE. */
  const HeadFields: seq<Field> := [
    Field("CSTFORMISSUETYPE", "cst_form_issue_type", ""), Field("CSTFORMRECVTYPE", "cst_form_recv_type", ""),
    Field("FBTPAYMENTTYPE", "fbt_payment_type", "Default"),
    Field("PERSISTEDVIEW", "persisted_view", "Invoice Voucher View"),
    Field("BASICBUYERNAME", "basic_buyer_name", "Techsolvo"), Field("VCHGSTCLASS", "vch_gst_class", ""),
    Field("DIFFACTUALQTY", "diff_actual_qty", "No"), Field("ISMSTFROMSYNC", "is_mst_from_sync", "No"),
    Field("ASORIGINAL", "as_original", "No"), Field("AUDITED", "audited", "No"),
    Field("FORJOBCOSTING", "for_job_costing", "No"), Field("ISOPTIONAL", "is_optional", "No")
  ]

  /** USEFOREXCISE through CHANGEVCHMODE, after EFFECTIVEDATE. The column
      of ISDISPATCHSAMEASCONSIGNOR is spelt with a space, as in the source. */
  const FlagFields: seq<Field> := [
    Field("USEFOREXCISE", "use_for_excise", "No"), Field("ISFORJOBWORKIN", "is_for_job_work_in", "No"),
    Field("ALLOWCONSUMPTION", "allow_consumption", "No"), Field("USEFORINTEREST", "use_for_interest", "No"),
    Field("USEFORGAINLOSS", "use_for_gain_loss", "No"),
    Field("USEFORGODOWNTRANSFER", "use_for_godown_transfer", "No"),
    Field("USEFORCOMPOUND", "use_for_compound", "No"),
    Field("USEFORSERVICETAX", "use_for_service_tax", "No"), Field("ISDELETED", "is_deleted", "No"),
    Field("ISONHOLD", "is_on_hold", "No"), Field("ISBOENOTAPPLICABLE", "is_boe_not_applicable", "No"),
    Field("ISEXCISEVOUCHER", "is_excise_voucher", "No"),
    Field("EXCISETAXOVERRIDE", "excise_tax_override", "No"),
    Field("USEFORTAXUNITTRANSFER", "use_for_tax_unit_transfer", "No"),
    Field("IGNOREPOSVALIDATION", "ignore_pos_validation", "No"),
    Field("EXCISEOPENING", "excise_opening", "No"),
    Field("USEFORFINALPRODUCTION", "use_for_final_production", "No"),
    Field("ISTDSOVERRIDDEN", "is_tds_overridden", "No"), Field("ISTCSOVERRIDDEN", "is_tcs_overridden", "No"),
    Field("ISTDSTCSCASHVCH", "is_tds_tcs_cash_vch", "No"),
    Field("INCLUDEADVPYMTVCH", "include_adv_payment_vch", "No"),
    Field("ISSUBWORKSCONTRACT", "is_sub_works_contract", "No"),
    Field("ISVATOVERRIDDEN", "is_vat_overridden", "No"),
    Field("IGNOREORIGVCHDATE", "ignore_orig_vch_date", "No"),
    Field("ISVATPAIDATCUSTOMS", "is_vat_paid_at_customs", "No"),
    Field("ISDECLAREDTOCUSTOMS", "is_declared_to_customs", "No"),
    Field("ISSERVICETAXOVERRIDDEN", "is_service_tax_overridden", "No"),
    Field("ISISDVOUCHER", "is_isd_voucher", "No"), Field("ISEXCISEOVERRIDDEN", "is_excise_overridden", "No"),
    Field("ISEXCISESUPPLYVCH", "is_excise_supply_vch", "No"),
    Field("ISGSTOVERRIDDEN", "is_gst_overridden", "No"), Field("GSTNOTEXPORTED", "gst_not_exported", "No"),
    Field("IGNOREGSTINVALIDATION", "ignore_gst_invalidation", "No"),
    Field("ISGSTREFUND", "is_gst_refund", "No"),
    Field("ISGSTSECSEVENAPPLICABLE", "is_gst_sec_seven_applicable", "No"),
    Field("ISVATPRINCIPALACCOUNT", "is_vat_principal_account", "No"),
    Field("ISSHIPPINGWITHINSTATE", "is_shipping_within_state", "No"),
    Field("ISOVERSEASTOURISTTRANS", "is_overseas_tourist_trans", "No"),
    Field("ISDESIGNATEDZONEPARTY", "is_designated_zone_party", "No"),
    Field("ISCANCELLED", "is_cancelled", "No"), Field("HASCASHFLOW", "has_cash_flow", "No"),
    Field("ISPOSTDATED", "is_post_dated", "No"), Field("USETRACKINGNUMBER", "use_tracking_number", "No"),
    Field("ISINVOICE", "is_invoice", "Yes"), Field("ISJOURNAL", "is_journal", "No"),
    Field("HASDISCOUNTS", "has_discounts", "No"), Field("ASPAYSLIP", "as_pay_slip", "No"),
    Field("ISCOSTCENTRE", "is_cost_centre", "No"),
    Field("ISSTXNONREALIZEDVCH", "is_stx_non_realized_vch", "No"),
    Field("ISEXCISEMANUFACTURERON", "is_excise_manufacturer_on", "No"),
    Field("ISBLANKCHEQUE", "is_blank_cheque", "No"), Field("ISVOID", "is_void", "No"),
    Field("ORDERLINESTATUS", "order_line_status", "No"),
    Field("VATISAGNSTCANCSALES", "vat_is_against_cancel_sales", "No"),
    Field("VATISPURCEXEMPTED", "vat_is_purchase_exempted", "No"),
    Field("ISVATRESTAXINVOICE", "is_vat_rest_tax_invoice", "No"),
    Field("VATISASSESABLECALCVCH", "vat_is_assessable_calc_vch", "No"),
    Field("ISVATDUTYPAID", "is_vat_duty_paid", "Yes"),
    Field("ISDELIVERYSAMEASCONSIGNEE", "is_delivery_same_as_consignee", "No"),
    Field("ISDISPATCHSAMEASCONSIGNOR", "is_dispatch_same_as consignor", "No"),
    Field("CHANGEVCHMODE", "change_vch_mode", "No")
  ]

  /** ALTERID, MASTERID and VOUCHERKEY; the first two default to the
      voucher's number. */
  function IdFields(number: nat): seq<Field> {
    [
      Field("ALTERID", "alter_id", NatToString(number)), Field("MASTERID", "master_id", NatToString(number)),
      Field("VOUCHERKEY", "voucher_key", "194914205827104")
    ]
  }

  /** The INVENTORYENTRIES.LIST fields, whose texts are escaped. */
  const InventoryFields: seq<Field> := [
    Field("STOCKITEMNAME", "item_name", "None"), Field("ISDEEMEDPOSITIVE", "is_deemed_positive", "Yes"),
    Field("ISLASTDEEMEDPOSITIVE", "is_last_deemed_positive", "Yes"), Field("ISAUTONEGATE", "is_auto_negate", "No"),
    Field("ISCUSTOMSCLEARANCE", "is_customs_clearance", "No"), Field("ISTRACKCOMPONENT", "is_track_component", "No"),
    Field("ISTRACKPRODUCTION", "is_track_production", "No"), Field("ISPRIMARYITEM", "is_primary_item", "No"),
    Field("ISSCRAP", "is_scrap", "No"), Field("RATE", "base_rate", "None"), Field("AMOUNT", "amount", "None"),
    Field("ACTUALQTY", "qty", "None"), Field("BILLEDQTY", "qty", "None")
  ]

  /** The BATCHALLOCATIONS.LIST fields before ORDERDUEDATE. */
  const BatchFields: seq<Field> := [
    Field("BATCHNAME", "batch_name", "Primary Batch"), Field("INDENTNO", "indent_no", ""),
    Field("ORDERNO", "name", "PUR/ORD/001_24"), Field("TRACKINGNUMBER", "tracking_number", ""),
    Field("DYNAMICCSTISCLEARED", "dynamic_cst_is_cleared", "No"), Field("AMOUNT", "amount", "None"),
    Field("ACTUALQTY", "stock_qty", "None"), Field("BILLEDQTY", "stock_qty", "None")
  ]

  /** The defaults the supplier's ledger line reads with: the opposite
      sides from the allocation line. */
  const PartyDefaults: seq<string> := ["Standard Rate", "No", "No", "No", "Yes", "No", "No", "No", "None"]

  /** DATE: the split rewrite of transaction_date. The table is read
      without fillna, so an empty cell is NaN, a float, on which `.split`
      raises AttributeError as it does on any other number. */
  function PurchaseDate(row: Row): (r: Result<string>)
    ensures "transaction_date" in row && row["transaction_date"] == "nan" ==> r == Err(AttributeError("nan"))
    ensures !("transaction_date" in row && row["transaction_date"] == "nan") ==> r == CellDate(row, "transaction_date")
  {
    if "transaction_date" in row && row["transaction_date"] == "nan" then Err(AttributeError("nan"))
    else CellDate(row, "transaction_date")
  }

  /** The voucher for the row at position i; `guid(i)` is the uuid4 value
      drawn for it. The three steps that can raise come in the source's
      order: the DATE split, `row['supplier']`, and strptime on the due date. */
  function MakePurchase(i: nat, row: Row, guid: nat -> string): (r: Result<Purchase>)
    ensures r.Ok? <==> "supplier" in row && DueDate(DueText(row)).Ok?
    ensures r.Err? ==> r.error in {
      AttributeError(Cell(row, "transaction_date", "")), UnpackError(Cell(row, "transaction_date", "")),
      KeyError("supplier"), DateError(DueText(row))}
    ensures r.Ok? ==> r.value.number == i + 1
  {
    OrderDateGate(row);
    NanIsNoDate();
    var date :- PurchaseDate(row);
    var supplier :- Need(row, "supplier");
    var due :- DueDate(DueText(row));
    Ok(Fill(i, row, guid, date, supplier, due))
  }

  lemma NanIsNoDate()
    ensures CompactDate("nan").Err?
  {
    assert Count("nan", '-') == 0;
  }

  /** A voucher that was made is the one filled from its row's date,
      supplier and due date. */
  lemma Made(i: nat, row: Row, guid: nat -> string)
    requires MakePurchase(i, row, guid).Ok?
    ensures PurchaseDate(row).Ok? && "supplier" in row && DueDate(DueText(row)).Ok?
    ensures MakePurchase(i, row, guid) == Ok(Fill(i, row, guid, PurchaseDate(row).value, row["supplier"], DueDate(DueText(row)).value))
  {
  }

  lemma MadeDates(i: nat, row: Row, guid: nat -> string)
    requires MakePurchase(i, row, guid).Ok?
    ensures PurchaseDate(row).Ok? && DueDate(DueText(row)).Ok?
    ensures MakePurchase(i, row, guid).value.date == PurchaseDate(row).value
    ensures MakePurchase(i, row, guid).value.dueDate == DueDate(DueText(row)).value
  {
    Made(i, row, guid);
  }

  /** The voucher of a row whose date, supplier and due date were read. */
  function Fill(i: nat, row: Row, guid: nat -> string, date: string, supplier: string, due: string): Purchase {
    Purchase(
      i + 1, guid(i) + "-00000008", guid(i) + "-0000b146:00000010", date, Cell(row, "old_audit_entry_id", "-1"),
      Cell(row, "country_of_residence", "India"), Cell(row, "shipping_address", "Delhi"),
      Escape(supplier), Escape(Cell(row, "supplier_name", "")),
      Cell(row, "voucher_type_name", "Purchase Order"), Escape(Strip(Cell(row, "name", ""))),
      Cell(row, "voucher_number", "1"),
      ReadFields(row, HeadFields), ReadFields(row, FlagFields), ReadFields(row, IdFields(i + 1)),
      EscapeAll(ReadFields(row, InventoryFields)), ReadFields(row, BatchFields), due,
      ReadLine(row, AllocationDefaults), Cell(row, "supplier_name", "None"), ReadLine(row, PartyDefaults))
  }

  /** Every row becomes a voucher; the first row that raises aborts. */
  function Purchases(rows: seq<Row>, guid: nat -> string): Result<seq<Purchase>> {
    MapOk(rows, (i: nat, row: Row) => MakePurchase(i, row, guid))
  }

  // ---------------------------------------------------------------------
  // The element tree

  const Pad5 := "     "

  /** OLDAUDITENTRYIDS.LIST through BASICBASEPARTYNAME. */
  function Head(p: Purchase): (r: seq<Node>)
    ensures |r| == 11
  {
    [
      OldAuditIds(p.oldAuditEntryId), Leaf("DATE", p.date), Leaf("GUID", p.remoteId),
      Leaf("COUNTRYOFRESIDENCE", p.country), Leaf("PLACEOFSUPPLY", p.placeOfSupply),
      Leaf("PARTYNAME", p.party), Leaf("PARTYLEDGERNAME", p.supplierName),
      Leaf("VOUCHERTYPENAME", p.voucherTypeName), Leaf("REFERENCE", p.reference),
      Leaf("VOUCHERNUMBER", p.voucherNumber), Leaf("BASICBASEPARTYNAME", p.supplierName)
    ]
  }

  function Batch(p: Purchase): Node {
    Elem("BATCHALLOCATIONS.LIST", [], FieldLeaves(BatchFields, p.batch) + [
      OrderDueDate(p.number, p.dueDate),
      Leaf("ADDITIONALDETAILS.LIST", Pad5), Leaf("VOUCHERCOMPONENTLIST.LIST", Pad5)
    ])
  }

  /** The PRCORD line, posted against the purchase-order ledger. */
  function Allocation(p: Purchase): Node {
    Elem("ACCOUNTINGALLOCATIONS.LIST", [], [OldAuditIds(p.oldAuditEntryId)]
      + LineLeaves("PRCORD", p.line) + Pads(AllocationLists, ListPad))
  }

  /** The empty lists opening the second ACCOUNTINGALLOCATIONS.LIST. */
  const PartyAllocationLists: seq<string> := [
    "DUTYHEADDETAILS.LIST", "SUPPLEMENTARYDUTYHEADDETAILS.LIST", "TAXOBJECTALLOCATIONS.LIST",
    "REFVOUCHERDETAILS.LIST", "EXCISEALLOCATIONS.LIST", "EXPENSEALLOCATIONS.LIST",
    "INVOICEDELNOTES.LIST", "INVOICEORDERLIST.LIST", "INVOICEINDENTLIST.LIST",
    "ATTENDANCEENTRIES.LIST", "ORIGINVOICEDETAILS.LIST", "INVOICEEXPORTLIST.LIST"
  ]

  /** The supplier's line, nested inside a second ACCOUNTINGALLOCATIONS.LIST. */
  function LedgerEntry(p: Purchase): Node {
    Elem("LEDGERENTRIES.LIST", [], [OldAuditIds(p.oldAuditEntryId)]
      + LineLeaves(p.ledgerName, p.partyLine) + Pads(AllocationLists, ListPad))
  }

  function PartyAllocation(p: Purchase): Node {
    Elem("ACCOUNTINGALLOCATIONS.LIST", [], Pads(PartyAllocationLists, ListPad) + [LedgerEntry(p)] + Pads(LedgerExtraLists, ListPad))
  }

  function Inventory(p: Purchase): Node {
    Elem("INVENTORYENTRIES.LIST", [], FieldLeaves(InventoryFields, p.inventory) + [Batch(p), Allocation(p), PartyAllocation(p)])
  }

  function Render(p: Purchase): Node {
    Elem("VOUCHER", [
        Attr("REMOTEID", p.remoteId), Attr("VCHKEY", p.vchKey), Attr("VCHTYPE", "Purchase Order"),
        Attr("ACTION", "Create"), Attr("OBJVIEW", "Invoice Voucher View")
      ],
      Head(p) + FieldLeaves(HeadFields, p.head) + [Leaf("EFFECTIVEDATE", p.date)] + FieldLeaves(FlagFields, p.flags)
        + FieldLeaves(IdFields(p.number), p.ids) + Pads(VoucherLists, Pad5) + [Inventory(p)])
  }

  /** Every voucher in a TALLYMESSAGE of its own, under "Vouchers". */
  function Document(ps: seq<Purchase>): Node {
    OneMessageEach("Vouchers", "xmlns_UDF", seq(|ps|, j requires 0 <= j < |ps| => Render(ps[j])))
  }

  function Convert(rows: seq<Row>, guid: nat -> string): Result<Node> {
    var ps :- Purchases(rows, guid);
    Ok(Document(ps))
  }

  // ---------------------------------------------------------------------
  // Properties

  /** Every row becomes exactly one voucher, in row order, numbered by its
      position: the conversion succeeds exactly when every row names a
      supplier and has a date strptime accepts, and otherwise fails with the
      error of the first row that does not. */
  lemma PurchasesAreRows(rows: seq<Row>, guid: nat -> string)
    ensures Purchases(rows, guid).Ok? <==>
      forall i :: 0 <= i < |rows| ==> "supplier" in rows[i] && DueDate(DueText(rows[i])).Ok?
    ensures Purchases(rows, guid).Ok? ==> var ps := Purchases(rows, guid).value;
      && |ps| == |rows|
      && forall i :: 0 <= i < |rows| ==> MakePurchase(i, rows[i], guid) == Ok(ps[i]) && ps[i].number == i + 1
    ensures Purchases(rows, guid).Err? ==> exists i :: (0 <= i < |rows|
      && MakePurchase(i, rows[i], guid) == Err(Purchases(rows, guid).error)
      && forall k :: 0 <= k < i ==> "supplier" in rows[k] && DueDate(DueText(rows[k])).Ok?)
  {
  }

  /** What a voucher reads from its row: PARTYNAME unescapes to the
      supplier, REFERENCE to the stripped order name, each inventory text
      to its cell; every overridable field is the row's cell where the
      column is present and its default otherwise, ALTERID and MASTERID
      defaulting to the voucher's number. */
  lemma PurchaseFields(i: nat, row: Row, guid: nat -> string)
    requires MakePurchase(i, row, guid).Ok?
    ensures var p := MakePurchase(i, row, guid).value;
      && "supplier" in row && Unescape(p.party) == row["supplier"]
      && Unescape(p.reference) == Strip(Cell(row, "name", ""))
      && |p.inventory| == |InventoryFields|
      && (forall k :: 0 <= k < |InventoryFields| ==>
            Unescape(p.inventory[k]) == Cell(row, InventoryFields[k].column, InventoryFields[k].default))
      && |p.head| == |HeadFields| && |p.flags| == |FlagFields| && |p.ids| == 3
      && (forall k :: 0 <= k < |HeadFields| ==> p.head[k] == Cell(row, HeadFields[k].column, HeadFields[k].default))
      && (forall k :: 0 <= k < |FlagFields| ==> p.flags[k] == Cell(row, FlagFields[k].column, FlagFields[k].default))
      && ("alter_id" in row ==> p.ids[0] == row["alter_id"])
      && ("alter_id" !in row ==> p.ids[0] == NatToString(i + 1))
      && ("master_id" in row ==> p.ids[1] == row["master_id"])
      && ("master_id" !in row ==> p.ids[1] == NatToString(i + 1))
      && p.ids[2] == Cell(row, "voucher_key", "194914205827104")
  {
    Made(i, row, guid);
    EscapeRoundTrip(row["supplier"]);
    EscapeRoundTrip(Strip(Cell(row, "name", "")));
  }

  /** The PRCORD allocation and the supplier's ledger line read the same
      columns with different defaults: they agree on a value exactly when
      the row carries its column or the defaults coincide, so a row without
      is_deemed_positive puts the two lines on opposite sides. */
  lemma SidesOpposite(i: nat, row: Row, guid: nat -> string)
    requires MakePurchase(i, row, guid).Ok?
    ensures var p := MakePurchase(i, row, guid).value;
      && |p.line| == |p.partyLine| == |LineColumns|
      && (forall k :: 0 <= k < |LineColumns| ==>
            (p.line[k] == p.partyLine[k] <==> LineColumns[k] in row || (k != 0 && k != 1 && k != 4 && k != 5)))
      && ("is_deemed_positive" !in row ==> p.line[DeemedPositive] == "Yes" && p.partyLine[DeemedPositive] == "No")
  {
    Made(i, row, guid);
    var p := MakePurchase(i, row, guid).value;
    assert p.line == ReadLine(row, AllocationDefaults) && p.partyLine == ReadLine(row, PartyDefaults);
    LinesAgree(row, AllocationDefaults, PartyDefaults);
    DefaultsDiffer();
    DeemedPositiveDefault(row, AllocationDefaults);
    DeemedPositiveDefault(row, PartyDefaults);
    SideDefaults();
  }

  lemma SideDefaults()
    ensures AllocationDefaults[DeemedPositive] == "Yes" && PartyDefaults[DeemedPositive] == "No"
  {
  }

  lemma DefaultsDiffer()
    ensures forall k :: 0 <= k < |LineColumns| ==>
      (AllocationDefaults[k] == PartyDefaults[k] <==> k != 0 && k != 1 && k != 4 && k != 5)
  {
  }

  /** A NaN transaction_date aborts the conversion with AttributeError
      before any other cell is looked at. */
  lemma NanDateRejected(i: nat, row: Row, guid: nat -> string)
    requires "transaction_date" in row && row["transaction_date"] == "nan"
    ensures MakePurchase(i, row, guid) == Err(AttributeError("nan"))
  {
  }

  /** A row with a zero-padded date passes both date rewrites. */
  lemma PaddedDateRead(row: Row, d: Date)
    requires ValidDate(d) && Cell(row, "transaction_date", "None") == DmyText(d)
    ensures PurchaseDate(row) == Ok(CompactText(d))
    ensures DueDate(DueText(row)) == Ok(NatToString(d.day) + "-" + MonthAbbrs[d.month - 1] + "-" + Pad4(d.year))
  {
    PaddedOrderDate(row, d);
    var td := Cell(row, "transaction_date", "None");
    DmyTextLength(d);
    assert td != "nan" by {
      assert |td| >= 10 && |"nan"| == 3;
    }
  }

  /** A row with a zero-padded date and a supplier converts: DATE is the
      date's `YYYYMMDD` spelling and ORDERDUEDATE the strftime spelling
      of the same day. */
  lemma PaddedDates(i: nat, row: Row, guid: nat -> string, d: Date)
    requires ValidDate(d) && Cell(row, "transaction_date", "None") == DmyText(d) && "supplier" in row
    ensures MakePurchase(i, row, guid).Ok?
    ensures ParseCompact(MakePurchase(i, row, guid).value.date) == Some(d)
    ensures MakePurchase(i, row, guid).value.dueDate == NatToString(d.day) + "-" + MonthAbbrs[d.month - 1] + "-" + Pad4(d.year)
  {
    PaddedDateRead(row, d);
    CompactRoundTrip(d);
    MadeDates(i, row, guid);
  }

  /** Positions of the voucher's children. */
  const EffectiveDateAt := 11 + 12
  const InventoryAt := 11 + 12 + 1 + 61 + 3 + 6

  /** A rendered purchase order repeats itself consistently: DATE equals
      EFFECTIVEDATE, GUID repeats REMOTEID, and ORDERDUEDATE's text equals
      its P attribute while its JD is the voucher's number. */
  lemma VoucherFieldsAgree(p: Purchase)
    ensures var n := Render(p);
      && |n.children| == InventoryAt + 1
      && n.children[1] == Leaf("DATE", p.date)
      && n.children[EffectiveDateAt] == Leaf("EFFECTIVEDATE", p.date)
      && n.children[2] == Leaf("GUID", p.remoteId) && n.attrs[0] == Attr("REMOTEID", p.remoteId)
    ensures var due := Render(p).children[InventoryAt].children[13].children[8];
      && due == OrderDueDate(p.number, p.dueDate)
      && AttrValue(due, "P") == Some(due.text)
      && AttrValue(due, "JD") == Some(NatToString(p.number))
  {
    var n := Render(p);
    var front := Head(p) + FieldLeaves(HeadFields, p.head);
    assert n.children == front + [Leaf("EFFECTIVEDATE", p.date)] + FieldLeaves(FlagFields, p.flags)
      + FieldLeaves(IdFields(p.number), p.ids) + Pads(VoucherLists, Pad5) + [Inventory(p)];
    assert n.children[EffectiveDateAt] == Leaf("EFFECTIVEDATE", p.date);
    assert n.children[InventoryAt] == Inventory(p);
    assert Inventory(p).children[13] == Batch(p);
    OrderDueDateShape(p.number, p.dueDate);
  }

  /** The supplier's LEDGERENTRIES.LIST sits inside the second
      ACCOUNTINGALLOCATIONS.LIST, after its twelve empty lists; it and the
      PRCORD allocation carry the same line elements, each with its own value. */
  lemma LedgerNesting(p: Purchase)
    requires |p.line| == |p.partyLine| == |LineTags|
    ensures var inv := Render(p).children[InventoryAt];
      var alloc := inv.children[14];
      var ledger := inv.children[15].children[12];
      && ledger.tag == "LEDGERENTRIES.LIST"
      && alloc.children[1] == Leaf("LEDGERNAME", "PRCORD")
      && ledger.children[1] == Leaf("LEDGERNAME", p.ledgerName)
      && forall k :: 0 <= k < |LineTags| ==>
           alloc.children[2 + k] == Leaf(LineTags[k], p.line[k]) && ledger.children[2 + k] == Leaf(LineTags[k], p.partyLine[k])
  {
    VoucherFieldsAgree(p);
    var inv := Inventory(p);
    assert inv.children[14] == Allocation(p) && inv.children[15] == PartyAllocation(p);
    assert PartyAllocation(p).children[12] == LedgerEntry(p);
  }

  /** The converted document of a successful conversion: under
      "Vouchers", one TALLYMESSAGE per row, in row order, holding that row's
      voucher (PurchasesAreRows says which voucher and when the conversion
      succeeds). */
  lemma ConvertShape(rows: seq<Row>, guid: nat -> string)
    ensures Convert(rows, guid).Ok? <==> Purchases(rows, guid).Ok?
    ensures Convert(rows, guid).Ok? ==> var doc := Convert(rows, guid).value; var ps := Purchases(rows, guid).value;
      && ReportName(doc) == "Vouchers"
      && |RequestData(doc)| == |rows| == |ps|
      && forall j :: 0 <= j < |rows| ==> RequestData(doc)[j] == Message("xmlns_UDF", [Render(ps[j])])
  {
    var r := Purchases(rows, guid);
    if r.Ok? {
      var ps := r.value;
      OneMessageEachLayout("Vouchers", "xmlns_UDF", seq(|ps|, j requires 0 <= j < |ps| => Render(ps[j])));
    }
  }
}
