# Tally ERP 9 import converters, modelled in Dafny

The repository turns CSV exports (from ERPNext/Frappe) into Tally ERP 9
import XML. Each converter reads one table and writes an `ENVELOPE` whose
`HEADER` asks Tally to "Import Data", whose `REQUESTDESC` names the report
("Vouchers" or "All Masters") and company ("Techsolvo"), and whose
`REQUESTDATA` holds one `TALLYMESSAGE` per record. There is one exception:
the journal converter puts every voucher into a single `TALLYMESSAGE`.

This project models the row logic of the seven converters:

- **journal_entry**: journal vouchers. A row whose `name` is true in Python's sense (neither empty nor a number equal to zero) starts a voucher; rows with a false name after it add ledger lines to it.
- **item_master**: `UNIT`, `STOCKGROUP` and `STOCKITEM` masters. A table without a single unit cell raises UnboundLocalError, because `count` is assigned only inside the unit loop.
  - Units come from the distinct `stock_uom` cells.
  - Items are de-duplicated on their space-free, lower-cased name.
  - A group is declared just before the first item that needs it.
- **sales_order**: Sales Order vouchers, de-duplicated on the whitespace-free, lower-cased order name.
- **purchase_order**: Purchase Order vouchers, one per row.
- **coa**: `GROUP` masters, one per row that names an account.
- **payment_entry**: Payment vouchers with a balanced debit/credit pair.
- **customer**: `LEDGER` masters, one per row.

## How the model is built

- **Rows.** A table row is a `map<string, string>`.
  - A missing column is a missing key.
  - An empty cell in a table read without `fillna` is the text `"nan"`, which is what `str()` makes of pandas' NaN.
  - `row.get(column, default)` is `Rows.Cell`. `row[column]` is `Rows.Need`, which fails with `KeyError`.
  - `Rows.NumberCell` says which cell texts pandas hands over as numbers (an integer, or a decimal such as `12.0`). A string operation applied to such a cell without `str()` raises: `Rows.EscapeCell` is `saxutils.escape(row.get(column, default))`.
  - `if cell:` is `Rows.Truthy`: a cell is false when it is empty or a number equal to zero (`0`, `0.0`, `-0.0`).
- **Errors.** A Python exception inside a row loop aborts the whole conversion. It is modelled as `Outcome.Result`, with the exception as an `Outcome.Error`.
- **Text operations.** `saxutils.escape` (`&`, `<`, `>`) is `Text.Escape`, with `Text.Unescape` as its inverse. `str.strip`, `str.lower`, `re.sub(r'\s+', '', …)` and `str.split` are written out in `Text`.
- **Dates.**
  - The `D-M-Y` → `YMD` split rewrite is `Dates.CompactDate`.
  - `datetime.strptime(s, "%d-%m-%Y")` is `Dates.ParseDmy`. It follows CPython's field patterns, restricted to ASCII digits, and its calendar check.
  - `strftime("%d-%b-%Y").lstrip("0")` is `Dates.DueDate`.
- **Document structure.** Each converter first builds a typed record per row (`Order`, `Purchase`, `Account`, …). A `Render` function then lays the record out as an `Xml.Node` in the source's element order. `Xml.Envelope` builds the scaffold; six converters put each record in a TALLYMESSAGE of its own (`Xml.OneMessageEach`), the journal converter puts all its vouchers in one. `Xml.ReportName` and `Xml.RequestData` read the scaffold back by tag.
- **UUIDs.** Each uuid4 value is a parameter `guid: nat -> string`, indexed by row (or voucher) position.
- **Loops.** Loops are folds over row prefixes. Each loop has an independent reference definition, such as "the first row of each key", "the rows that name an account" or "the groups by leader name". A lemma proves that the loop equals its reference.

## Model

| member | source | states |
|---|---|---|
| Outcome.MapOk | tallyerp9_import/purchase_order.py:59-64 | a per-row loop succeeds iff every row's step does; then the values are the steps' results in order, otherwise the error is the first failing row's |
| Xml.OneMessageEachLayout | tallyerp9_import/coa.py:44-72 | reading the shared scaffold by tag finds the report name and one TALLYMESSAGE per record, in order, holding that record alone |
| Rows.Cell | tallyerp9_import/customer.py:61 | `row.get(column, default)`: the cell when the column exists, the default exactly when it does not |
| Rows.TruthyIsPythonTruth | tallyerp9_import/journal_entry.py:56 | the one-pass truth test agrees with Python's: a number cell is true iff it is not zero, any other cell iff it is not empty |
| Rows.IntCellIsNumber | tallyerp9_import/journal_entry.py:95-96 | a cell int() reads is a number cell with no decimal point |
| Rows.EscapeCell | tallyerp9_import/sales_order.py:192-195 | escaping a cell without `str()` fails with AttributeError exactly when the cell is a number; otherwise the text unescapes to the cell or the default |
| Text.Strip | tallyerp9_import/coa.py:59 | the result is a contiguous slice of the input with only whitespace removed on either side and no whitespace at either end |
| Text.Escape | tallyerp9_import/customer.py:61 | escaping never shortens, keeps emptiness, and leaves no `<` or `>` |
| Text.EscapeRoundTrip | tallyerp9_import/customer.py:61-72 | unescaping an escaped text gives the text back, so escaping loses nothing |
| Text.NormalizeName | tallyerp9_import/sales_order.py:66-67 | the duplicate-check key holds no whitespace |
| Text.NormalizeIgnoresSpace | tallyerp9_import/sales_order.py:66-67 | inserting whitespace anywhere in a name does not change its key |
| Text.NormalizeIgnoresCase | tallyerp9_import/sales_order.py:66-67 | lower-casing a name first does not change its key, so the key is blind to ASCII letter case |
| Text.SpaceFreeIgnoresCase | tallyerp9_import/item_master.py:98 | lower-casing an item name first does not change its key |
| Text.SpaceFreeIgnoresSpace | tallyerp9_import/item_master.py:98 | inserting a ' ' anywhere in an item name does not change its key |
| Text.SpaceFreeKeepsOtherSpace | tallyerp9_import/item_master.py:98 | inserting any other whitespace character (a tab, say) lengthens the item key by one, so it changes, while the order-name key stays the same |
| Text.SplitJoin | tallyerp9_import/sales_order.py:102 | splitting on a separator undoes joining dash-free parts |
| Text.NatRoundTrip | tallyerp9_import/sales_order.py:117 | the decimal text of a number reads back as that number |
| Text.IntRoundTrip | tallyerp9_import/journal_entry.py:96 | the decimal text of a signed amount reads back as that amount |
| Dates.CellDate | tallyerp9_import/journal_entry.py:80-84 | a missing or false date cell (empty, or the number zero) gives an empty DATE; any other number fails with AttributeError at `.split`; a text takes the split rewrite |
| Dates.CompactDate | tallyerp9_import/sales_order.py:101-105 | the split rewrite succeeds iff the text has exactly two dashes; then the text is the three parts joined by dashes and the result is year+month+day; otherwise UnpackError |
| Dates.ParseDmy | tallyerp9_import/sales_order.py:203 | strptime accepts only valid calendar dates in texts with two dashes, and otherwise raises DateError |
| Dates.ParseDmyRoundTrip | tallyerp9_import/sales_order.py:203 | strptime reads the zero-padded spelling of every valid date back as that date |
| Dates.CompactRoundTrip | tallyerp9_import/sales_order.py:101-105 | the compact rewrite of a padded date reads back as the same date |
| Dates.DueDateOf | tallyerp9_import/sales_order.py:202-204 | the due date of a padded date is the unpadded day, the month abbreviation and the four-digit year |
| Dates.DueDateImpliesCompact | tallyerp9_import/sales_order.py:101-105 | any text strptime accepts also passes the split rewrite |
| Dates.RewritesAgree | tallyerp9_import/sales_order.py:101-105 | DATE and ORDERDUEDATE of a padded date describe the same day |
| Dates.CalendarChecked | tallyerp9_import/sales_order.py:203 | a padded day-month-year text with in-range fields is accepted exactly when the year is not 0 and the month of that year has the day |
| Dates.LeapDayRejected | tallyerp9_import/sales_order.py:203 | 29 February of any non-leap year is rejected |
| Dates.MonthLengthChecked | tallyerp9_import/sales_order.py:203 | the 31st of April, June, September or November is rejected in every year |
| Dates.MissingDateRejected | tallyerp9_import/purchase_order.py:237-238 | "", "nan" and "None" are not dates to strptime nor to the split rewrite, and the lenient rewrite gives "" for both "" and "nan" |
| Dates.UnpaddedDate | tallyerp9_import/sales_order.py:101-105 | an unpadded date passes the split rewrite glued as written, so DATE is not an eight-digit date, while strptime accepts it |
| Dates.OnlyDueDateChecks | tallyerp9_import/sales_order.py:101-105 | any three dash-free parts pass the split rewrite; only the due date inspects them |
| FirstSeen.Distinct | tallyerp9_import/item_master.py:38 | `unique()`: no repeats, the same elements as the input |
| FirstSeen.FirstIndices | tallyerp9_import/sales_order.py:69-74 | exactly the positions where a key first occurs, increasing |
| FirstSeen.DistinctAtFirstIndices | tallyerp9_import/item_master.py:38 | the distinct keys are the keys at their first positions |
| FirstSeen.DistinctCount | tallyerp9_import/item_master.py:100-101 | there are as many first positions as distinct keys and as elements of the key set |
| JournalEntry.GroupingIsExpected | tallyerp9_import/journal_entry.py:52-64 | the grouping loop succeeds iff every row has a `name`; it then yields one group per distinct leader name in order of first appearance, each with the last leader of that name and the rows after it whose name is false (empty or a zero number) |
| JournalEntry.GroupCount | tallyerp9_import/journal_entry.py:52-64 | there are as many vouchers as distinct leader names |
| JournalEntry.RepeatedLeader | tallyerp9_import/journal_entry.py:56-61 | a true name that leads again, after a row whose name is false, replaces its group's leader and drops the lines it had gathered, keeping the group's place |
| JournalEntry.SignedAmount | tallyerp9_import/journal_entry.py:96 | a Customer line's amount is never positive and any other line's never negative; the magnitude is the cell's |
| JournalEntry.AmountCell | tallyerp9_import/journal_entry.py:95-96 | a missing amount column writes "0"; a present one converts iff it is a number, otherwise TypeError on that cell; an integer cell writes a text that reads back as -abs or abs of its value, a float cell writes its own digits, sign aside, with their decimal point |
| JournalEntry.AmountTextSign | tallyerp9_import/journal_entry.py:96 | an AMOUNT text is non-empty and starts with "-" exactly on a Customer line, except the integer zero "0"; a float zero on the Customer side keeps its "-0.0" |
| JournalEntry.LeaderEntry | tallyerp9_import/journal_entry.py:91-96 | the leader's line names the row's party and is deemed positive exactly for a Customer |
| JournalEntry.FollowerEntry | tallyerp9_import/journal_entry.py:98-104 | a follower needs `party_type` (KeyError otherwise), defaults its ledger to "Ledger", and is deemed positive exactly for a Customer |
| JournalEntry.SignRule | tallyerp9_import/journal_entry.py:93-104 | each line reads the debit column (Customer) or the credit column (otherwise), which must be a number; "0" when absent; an integer cell reads back as the signed value, a float cell keeps its digits; the text starts with "-" exactly on a Customer line other than the integer zero |
| JournalEntry.MakeVoucher | tallyerp9_import/journal_entry.py:66-104 | a voucher carries its ids, the leader's date and party, and one line for the leader followed by one per follower, in order |
| JournalEntry.VouchersFromRows | tallyerp9_import/journal_entry.py:66-104 | the j-th voucher is built from the expected group of the j-th distinct leader name |
| JournalEntry.VoucherShape | tallyerp9_import/journal_entry.py:68-104 | GUID repeats REMOTEID; after five fixed elements come exactly the ledger lines; ISDEEMEDPOSITIVE is "Yes" exactly for Customer lines |
| JournalEntry.FirstNumber | tallyerp9_import/journal_entry.py:106 | the first position of a number text, with no number text before it; none exactly when no text is a number |
| JournalEntry.Serialize | tallyerp9_import/journal_entry.py:106 | ET.tostring succeeds iff no PARTYLEDGERNAME or LEDGERNAME text is a number cell, and then writes the document; otherwise TypeError names the first such text in document order |
| JournalEntry.CellTextsHold | tallyerp9_import/journal_entry.py:88-100 | every voucher's party text and every line's ledger name is among the texts serialised |
| JournalEntry.NumberPartyRaises | tallyerp9_import/journal_entry.py:88-106 | a voucher whose party, or one of whose ledger names, is a number cell makes the serialisation raise TypeError |
| JournalEntry.Convert | tallyerp9_import/journal_entry.py:52-106 | an error while building the vouchers is the conversion's error; otherwise the conversion is the serialisation of the vouchers |
| JournalEntry.DocumentShape | tallyerp9_import/journal_entry.py:40-50 | the report is "All Masters" and all vouchers share one TALLYMESSAGE, in order |
| ItemMaster.UomCellsMember | tallyerp9_import/item_master.py:38 | a unit text is collected iff some row holds it and it is not NaN |
| ItemMaster.UnitsFromColumn | tallyerp9_import/item_master.py:38-85 | every non-NaN unit cell yields a UNIT, every UNIT comes from such a cell, and there is one per distinct cell |
| ItemMaster.ItemsAreFirstSeen | tallyerp9_import/item_master.py:95-101 | the loop creates exactly one STOCKITEM per item key, built from the key's first row, in row order |
| ItemMaster.GroupsAreFirstNeeded | tallyerp9_import/item_master.py:103-152 | the STOCKGROUPs are the distinct groups of the kept items, in order of first need |
| ItemMaster.MasterCounts | tallyerp9_import/item_master.py:100-152 | there are as many items as distinct item keys, and no group is declared twice |
| ItemMaster.MastersWellOrdered | tallyerp9_import/item_master.py:103-156 | each STOCKGROUP is immediately followed by an item of that group, and every item's parent group is declared before it |
| ItemMaster.Convert | tallyerp9_import/item_master.py:38-87 | the conversion succeeds exactly when the table has a `stock_uom` column and at least one unit cell; without the column it fails with KeyError, without a unit with UnboundLocalError on `count`; otherwise the UNITs come first, then the loop's masters |
| ItemMaster.NoUnitRaises | tallyerp9_import/item_master.py:65-87 | a table whose unit cells are all NaN (an empty table among them) fails with UnboundLocalError |
| ItemMaster.DocumentShape | tallyerp9_import/item_master.py:55-156 | for a table with at least one unit: under "All Masters", one `xmlns` TALLYMESSAGE per record, in order; a message holds a UNIT exactly when it is among the first ones, one per unit |
| ItemMaster.RenderNames | tallyerp9_import/item_master.py:66-160 | a rendered master's NAME attribute is its name, and an item's PARENT is its group; a UNIT's NAME child is its name and its ALTERID is "1", since `count` is reset to 0 for every unit |
| OrderParts.ReadLine | tallyerp9_import/sales_order.py:226-235 | each ledger-line value is its column's cell, or that column's default when the column is absent |
| OrderParts.LinesAgree | tallyerp9_import/purchase_order.py:321-338 | two readings of a row with different defaults agree on a value iff the column is present or the defaults agree |
| OrderParts.OrderDateGate | tallyerp9_import/sales_order.py:101-105 | a row whose due date parses has a non-empty date cell and passes the split rewrite too |
| OrderParts.PaddedOrderDate | tallyerp9_import/sales_order.py:101-105 | a padded transaction date gives the compact DATE and the stripped strftime due date of that day |
| SalesOrder.MakeOrder | tallyerp9_import/sales_order.py:101-204 | a row converts iff it has `customer_name`, none of `batch_name`, `indent_no` and `tracking_number` is a number, and strptime accepts its date; the error is an AttributeError or UnpackError on the date cell, a KeyError, an AttributeError on one of those three cells or a DateError; VOUCHERNUMBER is the row position plus one |
| SalesOrder.EscapeBatch | tallyerp9_import/sales_order.py:192-195 | BATCHNAME, INDENTNO and TRACKINGNUMBER are escaped exactly when none of the three cells is a number; the first number cell, in that order, is the one named by the AttributeError; each escaped text unescapes to its cell or default ("Primary Batch", "", "") |
| SalesOrder.NumberIndentRaises | tallyerp9_import/sales_order.py:192-195 | a row past its date and customer whose `indent_no` is a number fails with AttributeError on that cell |
| SalesOrder.NameKey | tallyerp9_import/sales_order.py:66-72 | the duplicate-check key is computed exactly when the row has a `name` that is not a number; otherwise KeyError or re.sub's TypeError |
| SalesOrder.FoldStopsAtFirst | tallyerp9_import/sales_order.py:69-74 | a loop whose first row's name cannot be keyed fails with that row's error, whatever follows |
| SalesOrder.NumberNameRaises | tallyerp9_import/sales_order.py:66-72 | a table whose first order name is a number fails with TypeError |
| SalesOrder.FoldSpec | tallyerp9_import/sales_order.py:69-74 | the loop succeeds iff every row's name can be keyed and every kept row converts; it keeps the first row of each normalised name and remembers exactly the keys seen |
| SalesOrder.OrdersAreFirstSeen | tallyerp9_import/sales_order.py:69-74 | the orders are exactly the conversions of the first row of each normalised order name, in row order |
| SalesOrder.OrderNumbering | tallyerp9_import/sales_order.py:69-117 | one order per distinct key; voucher numbers strictly increase within 1..rows; no two orders share a normalised name |
| SalesOrder.OrderFields | tallyerp9_import/sales_order.py:113-235 | PARTYNAME unescapes to `customer_name`, REFERENCE to the order name, ORDERNO is that name, BATCHNAME, INDENTNO and TRACKINGNUMBER unescape to their cells or defaults, and the allocation line reads its columns with the source's defaults |
| SalesOrder.VoucherFieldsAgree | tallyerp9_import/sales_order.py:86-170 | DATE equals EFFECTIVEDATE, GUID repeats REMOTEID, VOUCHERKEY repeats VCHKEY, and VOUCHERNUMBER, ALTERID and MASTERID are the same number |
| SalesOrder.FixedFlags | tallyerp9_import/sales_order.py:127-160 | every flag of the no-list is "No", and HASCASHFLOW and ISVATDUTYPAID are "Yes" |
| SalesOrder.DueDateRepeats | tallyerp9_import/sales_order.py:201-204 | ORDERDUEDATE sits in the batch allocation; its text equals its P attribute and its JD is the voucher number |
| SalesOrder.LedgerLinesAgree | tallyerp9_import/sales_order.py:237-277 | the SALORD allocation and the customer's ledger entry carry the same line values under the same tags, differing only in LEDGERNAME |
| SalesOrder.LedgerListsClose | tallyerp9_import/sales_order.py:249-282 | the ledger entry closes with the allocation's empty lists followed by the five extra ones |
| SalesOrder.InventoryLayout | tallyerp9_import/sales_order.py:171-265 | the inventory entry closes the voucher and ends with the SALORD allocation and the ledger entry |
| SalesOrder.PaddedDates | tallyerp9_import/sales_order.py:101-204 | with a padded date and a customer, the row converts exactly when no batch cell is a number, with a DATE that reads back as the day and the stripped strftime due date |
| SalesOrder.ConvertShape | tallyerp9_import/sales_order.py:53-78 | the document exists iff every row has a name that is not a number and every first row of a name converts; then it holds, under "Vouchers", one `xmlns:UDF` TALLYMESSAGE per distinct normalised name, in order of first occurrence, with the voucher of that first row |
| PurchaseOrder.PurchaseDate | tallyerp9_import/purchase_order.py:60-64 | a NaN date cell raises AttributeError; otherwise the split rewrite of a present, non-empty cell, else "" |
| PurchaseOrder.MakePurchase | tallyerp9_import/purchase_order.py:59-239 | a row converts iff it has `supplier` and a date strptime accepts; the error is the split, key, NaN or date failure; the number used for JD and the default ALTERID/MASTERID is the row position plus one |
| PurchaseOrder.PurchasesAreRows | tallyerp9_import/purchase_order.py:59-239 | the loop succeeds iff every row converts; then one voucher per row in order, otherwise the first failing row's error |
| PurchaseOrder.PurchaseFields | tallyerp9_import/purchase_order.py:66-239 | PARTYNAME unescapes to `supplier`, REFERENCE to the stripped `name`, the inventory texts to their cells, and the head and flag fields are their cells or defaults; ALTERID and MASTERID are their cells or the voucher's number, VOUCHERKEY its cell or "194914205827104" |
| PurchaseOrder.SidesOpposite | tallyerp9_import/purchase_order.py:246-338 | the item-side and party-side lines agree on a value iff its column is present or their defaults agree; with no `is_deemed_positive` column they say "Yes" and "No" |
| PurchaseOrder.NanDateRejected | tallyerp9_import/purchase_order.py:60-61 | a NaN date aborts the conversion with AttributeError |
| PurchaseOrder.PaddedDates | tallyerp9_import/purchase_order.py:59-239 | a padded date and a supplier make the row convert, with a DATE that reads back as the day and the stripped strftime due date |
| PurchaseOrder.VoucherFieldsAgree | tallyerp9_import/purchase_order.py:76-239 | DATE equals EFFECTIVEDATE, GUID repeats REMOTEID, and ORDERDUEDATE's text equals its P attribute while JD is the voucher number |
| PurchaseOrder.LedgerNesting | tallyerp9_import/purchase_order.py:242-338 | the party's LEDGERENTRIES.LIST sits inside the second accounting allocation, and each side shows its own line values |
| PurchaseOrder.ConvertShape | tallyerp9_import/purchase_order.py:51-75 | a converted document holds, under "Vouchers", one `xmlns_UDF` TALLYMESSAGE per row, in row order, with that row's voucher |
| ChartOfAccounts.AccountName | tallyerp9_import/coa.py:59-69 | the name is empty iff the stripped cell is, and it unescapes to the stripped cell |
| ChartOfAccounts.ParentText | tallyerp9_import/coa.py:86-91 | PARENT is a tab exactly when the raw cell is missing, empty, NaN or a tab, and otherwise the raw, unstripped cell |
| ChartOfAccounts.NamedRows | tallyerp9_import/coa.py:58-69 | exactly the positions of the rows that name an account, increasing |
| ChartOfAccounts.AccountsAreNamedRows | tallyerp9_import/coa.py:58-91 | the j-th GROUP is built from the j-th row that names an account, with that row's uuid |
| ChartOfAccounts.AccountsFromRows | tallyerp9_import/coa.py:58-91 | each GROUP name unescapes to a non-empty stripped cell, and each GROUP carries its row's uuid and parent text |
| ChartOfAccounts.RenderNames | tallyerp9_import/coa.py:78-121 | NAME, RESERVEDNAME and the LANGUAGENAME.LIST name are all the account name; PARENT is the parent text; SORTPOSITION is "30" and ALTERID "4" |
| ChartOfAccounts.ConvertShape | tallyerp9_import/coa.py:50-72 | the document holds, under "All Masters", one `xmlns:UDF` TALLYMESSAGE per row that names an account, in row order, with that row's GROUP |
| PaymentEntry.PostingDate | tallyerp9_import/payment_entry.py:62-71 | reading the date fails, with AttributeError, exactly when the cell is a number, which `except ValueError` does not catch; otherwise DATE is empty or the split rewrite of the posting date, and when non-empty the cell is its three parts joined by dashes |
| PaymentEntry.MakePayment | tallyerp9_import/payment_entry.py:60-79 | a row converts iff its posting date and its amount do; it fails with the date's error first, else with the amount's; AMOUNT unescapes to the amount text |
| PaymentEntry.PaymentsAreRows | tallyerp9_import/payment_entry.py:60-126 | the loop succeeds iff every row's posting date and amount convert; then one voucher per row in order, otherwise the first failing row's error |
| PaymentEntry.PaymentFields | tallyerp9_import/payment_entry.py:74-123 | party, voucher number and bank ledger unescape to their cells; the old audit id defaults to "-1"; DATE is the posting date read |
| PaymentEntry.PaddedPostingDate | tallyerp9_import/payment_entry.py:62-66 | a padded posting date becomes the compact date, which reads back as the same day |
| PaymentEntry.MissingPostingDate | tallyerp9_import/payment_entry.py:62-71 | a missing or NaN posting date leaves DATE empty instead of raising |
| PaymentEntry.EntriesBalance | tallyerp9_import/payment_entry.py:83-126 | the party is debited with the negated amount and the bank credited with it; the voucher AMOUNT is the credit; REMOTEID and VCHKEY extend GUID; VCHTYPE and VOUCHERTYPENAME are "Payment" |
| PaymentEntry.ConvertShape | tallyerp9_import/payment_entry.py:52-82 | the document exists iff every row's posting date and amount convert; then it holds, under "Vouchers", one `xmlns_UDF` TALLYMESSAGE per row, in row order, with that row's voucher |
| Customer.Escaped | tallyerp9_import/customer.py:61-72 | each shown field unescapes to its cell, "" for a missing column |
| Customer.Ledgers | tallyerp9_import/customer.py:59-216 | one LEDGER per row, in order, with ALTERID the row position plus one, the row's uuid, and a name that unescapes to `customer_name` |
| Customer.AlterIdsIncrease | tallyerp9_import/customer.py:216 | ALTERIDs strictly increase within 1..rows, so no two masters share one |
| Customer.RenderRoundTrip | tallyerp9_import/customer.py:81-220 | the master can be read back from its LEDGER element: rendering loses no field |
| Customer.RenderRepeats | tallyerp9_import/customer.py:81-220 | the name appears as NAME, MAILINGNAME, LEDGERCONTACT and the language name; PRIORSTATENAME repeats ADDRESS; phone, fax and mobile are all `mobile_no`; PINCODE is empty; COUNTRYNAME is "India"; PARENT is "Sundry Debtors" |
| Customer.ConvertShape | tallyerp9_import/customer.py:51-78 | the document holds, under "All Masters", one `xmlns_UDF` TALLYMESSAGE per row, in row order, with that row's LEDGER |

## Left out

- File retrieval through Frappe, the CSV read (`skiprows`, column-name stripping), minidom pretty-printing, writing the file and creating the File document: I/O outside the conversion.
- Serialisation of the element tree to text: the model stops at the tree (`Xml.Node`). The one serialisation failure that matters, the journal converter's TypeError on a number `party` text, is modelled (`JournalEntry.Serialize`).
- pandas' parsing of cell values: every cell is the text `str()` would give. Whether a cell is a number is decided from its own text (`Rows.NumberCell`). pandas decides it for the whole column, so an integer-looking cell in a text column counts as a number here. Other number spellings, such as `1e5` or `inf`, are taken as text.
- `Text.Lower`: lower-cases only `A`–`Z`, because Python's full Unicode case mapping is not modelled. Whitespace follows Python's `str.isspace`.
- Dates.ParseDmy: the day, month and year fields accept ASCII digits only. CPython's `\d` also matches other Unicode decimal digits, which `int()` then reads; that case is not modelled.
- Dates.DueDate: `%Y` is written as four digits. For years below 1000 the output depends on the runtime: CPython releases that hand `%Y` to glibc's strftime print such a year without leading zeros (`5-Mar-999`), later ones pad it (`5-Mar-0999`). The model always pads.
- Dates.DueDateOf: promises the four-digit year, with the same gap as Dates.DueDate.
- OrderParts.PaddedOrderDate: its due date has the four-digit year, with the same gap as Dates.DueDate.
- SalesOrder.PaddedDates: its ORDERDUEDATE has the four-digit year, with the same gap as Dates.DueDate.
- PurchaseOrder.PaddedDates: its ORDERDUEDATE has the four-digit year, with the same gap as Dates.DueDate.
- The uuid4 values: they are parameters indexed by row, because they are random.
- JournalEntry.AmountCell: a float cell is taken to be the text `str()` printed for it, so abs() only drops the sign. A float that prints in exponent form (`1e+16`) is a text here and gives TypeError.
- PaymentEntry.MakePayment: the amount `str(float(received_amount) + float(total_taxes_and_charges))` is the parameter `amount(row)`. Float parsing, addition and printing are not modelled. The ValueError of a non-numeric cell is carried as that parameter's error.
- The journal converter names its report "All Masters" although it imports vouchers; the model follows the code.
- The sales converter's `normalize_name` is used as written. The item converter's `normalize_name` helper is never called: items use `replace(" ", "").lower()`, which is what the model uses.
- PurchaseOrder: `delivery_due_date` and `amount` are computed from `schedule_date` and `total` but never written, so they are not modelled.
- ChartOfAccounts: the stripped `Parent Account` value and the `Is Group` value read at the top of the loop are never used (PARENT re-reads the raw cell), so they are not modelled.
- Customer: the `gstin`, `pincode`, `state`, `income_tax_number`, `ledger_phone`, `ledger_fax`, `ledger_contact` and `ledger_mobile` cells are read but never written, so they are not modelled.
- hooks.py: app metadata, not conversion logic.
