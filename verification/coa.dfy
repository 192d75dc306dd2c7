/** The chart-of-accounts converter: one GROUP master per row that names
    an account, in row order, each in its own TALLYMESSAGE, under
    "All Masters". The table is read without fillna, so an empty cell
    holds "nan". Nothing in its loop raises. */
module ChartOfAccounts {
  import opened Outcome
  import opened Rows
  import opened Text
  import opened Xml

  /** A GROUP master: its escaped name, the uuid drawn for its row, and
      the text of its PARENT element. */
  datatype Account = Account(name: string, guid: string, parent: string)

  /** The escaped, stripped Account Name cell. It is empty exactly when
      the stripped cell is, and it unescapes to the stripped cell. */
  function AccountName(row: Row): (r: string)
    ensures r == "" <==> Strip(Cell(row, "Account Name", "")) == ""
    ensures Unescape(r) == Strip(Cell(row, "Account Name", ""))
  {
    EscapeRoundTrip(Strip(Cell(row, "Account Name", "")));
    Escape(Strip(Cell(row, "Account Name", "")))
  }

  /** The PARENT text: the raw Parent Account cell, unstripped and
      unescaped, or a tab when the cell is missing, empty or NaN. */
  function ParentText(row: Row): (r: string)
    ensures r == "\t" || r == Cell(row, "Parent Account", "")
    ensures var raw := Cell(row, "Parent Account", "");
      r == "\t" <==> raw == "" || raw == "\t" || Lower(raw) == "nan"
  {
    var raw := Cell(row, "Parent Account", "");
    if Lower(raw) == "nan" || raw == "" then "\t" else raw
  }

  /** Whether a row names an account: its stripped Account Name cell is
      not empty (the escaped name is empty exactly then, by AccountName). */
  predicate Names(row: Row) {
    Strip(Cell(row, "Account Name", "")) != ""
  }

  /** The master for the row at position i; `guid(i)` is the uuid4 value
      drawn for that row. */
  function AccountOf(i: nat, row: Row, guid: nat -> string): Account {
    Account(AccountName(row), guid(i), ParentText(row))
  }

  /** The loop. A uuid is drawn for every row, skipped or not, so the
      master of row i carries `guid(i)`; a row whose account name is empty
      is skipped. */
  function Accounts(rows: seq<Row>, guid: nat -> string): (r: seq<Account>)
    ensures |r| <= |rows|
  {
    if |rows| == 0 then [] else
    var i := |rows| - 1;
    Accounts(rows[..i], guid) + (if Names(rows[i]) then [AccountOf(i, rows[i], guid)] else [])
  }

  /** The positions holding true, in order. */
  function Marked(flags: seq<bool>): (r: seq<nat>)
    ensures forall j :: 0 <= j < |r| ==> r[j] < |flags| && flags[r[j]]
    ensures forall i :: 0 <= i < |flags| && flags[i] ==> i in r
    ensures forall j, j' :: 0 <= j < j' < |r| ==> r[j] < r[j']
  {
    if |flags| == 0 then [] else
    var i := |flags| - 1;
    Marked(flags[..i]) + (if flags[i] then [i] else [])
  }

  /** Reference: the positions of the rows that name an account, in order. */
  function NamedRows(rows: seq<Row>): (r: seq<nat>)
    ensures forall j :: 0 <= j < |r| ==> r[j] < |rows| && Names(rows[r[j]])
    ensures forall i :: 0 <= i < |rows| && Names(rows[i]) ==> i in r
    ensures forall j, j' :: 0 <= j < j' < |r| ==> r[j] < r[j']
  {
    Marked(seq(|rows|, k requires 0 <= k < |rows| => Names(rows[k])))
  }

  lemma NamedRowsSnoc(rows: seq<Row>)
    requires |rows| > 0
    ensures var i := |rows| - 1;
      NamedRows(rows) == NamedRows(rows[..i]) + (if Names(rows[i]) then [i] else [])
  {
    var i := |rows| - 1;
    var flags := seq(|rows|, k requires 0 <= k < |rows| => Names(rows[k]));
    assert flags[..i] == seq(i, k requires 0 <= k < i => Names(rows[..i][k]));
  }

  /** The loop keeps exactly the named rows, in order: its j-th master is
      the one of the j-th row that names an account. */
  lemma {:induction false} AccountsAreNamedRows(rows: seq<Row>, guid: nat -> string)
    ensures |Accounts(rows, guid)| == |NamedRows(rows)|
    ensures forall j :: 0 <= j < |NamedRows(rows)| ==>
      Accounts(rows, guid)[j] == AccountOf(NamedRows(rows)[j], rows[NamedRows(rows)[j]], guid)
  {
    if |rows| > 0 {
      AccountsAreNamedRows(rows[..|rows| - 1], guid);
      AccountsStep(rows, guid);
    }
  }

  /** One row more: the claim for all rows but the last carries over. */
  lemma AccountsStep(rows: seq<Row>, guid: nat -> string)
    requires |rows| > 0
    requires var init := rows[..|rows| - 1];
      && |Accounts(init, guid)| == |NamedRows(init)|
      && forall j :: 0 <= j < |NamedRows(init)| ==>
           Accounts(init, guid)[j] == AccountOf(NamedRows(init)[j], init[NamedRows(init)[j]], guid)
    ensures |Accounts(rows, guid)| == |NamedRows(rows)|
    ensures forall j :: 0 <= j < |NamedRows(rows)| ==>
      Accounts(rows, guid)[j] == AccountOf(NamedRows(rows)[j], rows[NamedRows(rows)[j]], guid)
  {
    var i := |rows| - 1;
    var init := rows[..i];
    NamedRowsSnoc(rows);
    var f := NamedRows(init);
    var a0 := Accounts(init, guid);
    var r := NamedRows(rows);
    var a := Accounts(rows, guid);
    assert a == a0 + (if Names(rows[i]) then [AccountOf(i, rows[i], guid)] else []);
    SnocEntries(rows, guid, f, a0, Names(rows[i]));
  }

  /** The step on plain sequences: masters matching positions of the rows
      but the last stay matched when the last row's master is appended
      with its position, or when neither is. */
  lemma SnocEntries(rows: seq<Row>, guid: nat -> string, f: seq<nat>, a0: seq<Account>, named: bool)
    requires |rows| > 0 && |a0| == |f|
    requires forall j :: 0 <= j < |f| ==> f[j] < |rows| - 1 && a0[j] == AccountOf(f[j], rows[..|rows| - 1][f[j]], guid)
    ensures var i := |rows| - 1;
      var r := f + (if named then [i] else []);
      var a := a0 + (if named then [AccountOf(i, rows[i], guid)] else []);
      |a| == |r| && forall j :: 0 <= j < |r| ==> a[j] == AccountOf(r[j], rows[r[j]], guid)
  {
    var i := |rows| - 1;
    var r := f + (if named then [i] else []);
    var a := a0 + (if named then [AccountOf(i, rows[i], guid)] else []);
    forall j | 0 <= j < |r|
      ensures a[j] == AccountOf(r[j], rows[r[j]], guid)
    {
      if j < |f| {
        assert r[j] == f[j] && a[j] == a0[j];
        assert rows[..i][f[j]] == rows[f[j]];
      }
    }
  }

  /** What each master reads from its row: its name unescapes to the
      row's stripped, non-empty Account Name, and it carries the row's
      uuid and PARENT text. */
  lemma AccountsFromRows(rows: seq<Row>, guid: nat -> string)
    ensures var a := Accounts(rows, guid); var f := NamedRows(rows);
      && |a| == |f|
      && forall j :: 0 <= j < |a| ==>
           && Unescape(a[j].name) == Strip(Cell(rows[f[j]], "Account Name", "")) != ""
           && a[j].guid == guid(f[j])
           && a[j].parent == ParentText(rows[f[j]])
  {
    AccountsAreNamedRows(rows, guid);
  }

  // ---------------------------------------------------------------------
  // The element tree

  /** The fixed flags after GRPCREDITPARENT. */
  const GroupFlags: seq<Node> := [
    Leaf("ISBILLWISEON", "No"), Leaf("ISCOSTCENTRESON", "No"), Leaf("ISADDABLE", "No"),
    Leaf("ISUPDATINGTARGETID", "No"), Leaf("ASORIGINAL", "Yes"), Leaf("ISSUBLEDGER", "No"),
    Leaf("ISREVENUE", "No"), Leaf("AFFECTSGROSSPROFIT", "No"), Leaf("ISDEEMEDPOSITIVE", "No"),
    Leaf("TRACKNEGATIVEBALANCES", "No"), Leaf("ISCONDENSED", "No"), Leaf("AFFECTSSTOCK", "No"),
    Leaf("ISGROUPFORLOANRCPT", "No"), Leaf("ISGROUPFORLOANPYMNT", "No"), Leaf("ISRATEINCLUSIVEVAT", "No"),
    Leaf("ISINVDETAILSENABLE", "No")
  ]

  /** The empty lists closing a GROUP, each holding eight spaces. */
  const TrailingLists: seq<string> := [
    "XBRLDETAIL.LIST", "AUDITDETAILS.LIST", "SCHVIDETAILS.LIST", "EXCISETARIFFDETAILS.LIST",
    "TCSCATEGORYDETAILS.LIST", "TDSCATEGORYDETAILS.LIST", "GSTCLASSFNIGSTRATES.LIST",
    "EXTARIFFDUTYHEADDETAILS.LIST"
  ]

  function Render(a: Account): Node {
    Elem("GROUP", [Attr("NAME", a.name), Attr("RESERVEDNAME", a.name)],
      [Leaf("GUID", a.guid), Leaf("PARENT", a.parent), Leaf("GRPDEBITPARENT", ""), Leaf("GRPCREDITPARENT", "")]
      + GroupFlags
      + [
        Leaf("SORTPOSITION", "30"), Leaf("ALTERID", "4"),
        Leaf("SERVICETAXDETAILS.LIST", "       "), Leaf("VATDETAILS.LIST", "      "),
        Leaf("SALESTAXCESSDETAILS.LIST", "     "), Leaf("GSTDETAILS.LIST", "      "),
        LanguageNameAndId(a.name, "1033")
      ]
      + Pads(TrailingLists, "        "))
  }

  /** Every master in a TALLYMESSAGE of its own, under "All Masters". */
  function Document(accounts: seq<Account>): Node {
    OneMessageEach("All Masters", "xmlns:UDF", seq(|accounts|, j requires 0 <= j < |accounts| => Render(accounts[j])))
  }

  function Convert(rows: seq<Row>, guid: nat -> string): Node {
    Document(Accounts(rows, guid))
  }

  /** Where the name appears in a GROUP. */
  const LanguageAt := 4 + 16 + 6

  /** A GROUP carries its name three times: as NAME, as RESERVEDNAME, and
      in its LANGUAGENAME.LIST, next to LANGUAGEID 1033; its PARENT is the
      master's parent text. */
  lemma RenderNames(a: Account)
    ensures var n := Render(a);
      && AttrValue(n, "NAME") == Some(a.name)
      && AttrValue(n, "RESERVEDNAME") == Some(a.name)
      && Child(n, "PARENT") == Some(Leaf("PARENT", a.parent))
      && n.children[LanguageAt] == LanguageNameAndId(a.name, "1033")
      && n.children[LanguageAt - 6] == Leaf("SORTPOSITION", "30")
      && n.children[LanguageAt - 5] == Leaf("ALTERID", "4")
  {
    var n := Render(a);
    assert n.attrs[0].name != "RESERVEDNAME" by { assert n.attrs[0].name[0] != 'R'; }
    assert FirstNamed(n.attrs[1..], "RESERVEDNAME") == Some(a.name);
    assert n.children[0].tag != "PARENT" by { assert n.children[0].tag[0] != 'P'; }
    assert FirstTagged(n.children[1..], "PARENT") == Some(Leaf("PARENT", a.parent));
  }

  /** The converted document: under "All Masters", one TALLYMESSAGE per
      row that names an account, in row order, holding that row's GROUP. */
  lemma ConvertShape(rows: seq<Row>, guid: nat -> string)
    ensures var doc := Convert(rows, guid); var f := NamedRows(rows);
      && ReportName(doc) == "All Masters"
      && |RequestData(doc)| == |f|
      && forall j :: 0 <= j < |f| ==>
           RequestData(doc)[j] == Message("xmlns:UDF", [Render(AccountOf(f[j], rows[f[j]], guid))])
  {
    var a := Accounts(rows, guid);
    AccountsAreNamedRows(rows, guid);
    OneMessageEachLayout("All Masters", "xmlns:UDF", seq(|a|, j requires 0 <= j < |a| => Render(a[j])));
  }
}
