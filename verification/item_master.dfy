/** The item-master converter: one UNIT per distinct unit of measure, then
    one STOCKITEM per distinct item name, each item preceded by a
    STOCKGROUP the first time its group is needed. */
module ItemMaster {
  import opened Outcome
  import opened Rows
  import opened Text
  import opened Xml
  import opened FirstSeen

  /** The uploaded table: its column names (after stripping) and its rows.
      pandas gives every row every column; the model does not rely on it. */
  datatype Table = Table(columns: set<string>, rows: seq<Row>)

  /** The master records of the document, one per TALLYMESSAGE. */
  datatype Master =
    | Unit(name: string)
    | StockGroup(name: string, alterId: nat)
    | StockItem(name: string, parent: string, baseUnits: string, alterId: nat, hsnCode: string)

  // ---------------------------------------------------------------------
  // Units of measure

  /** The non-missing stock_uom cells in row order (`df['stock_uom'].dropna()`). */
  function UomCells(rows: seq<Row>): seq<string> {
    if |rows| == 0 then [] else
    var c := Cell(rows[|rows| - 1], "stock_uom", "nan");
    UomCells(rows[..|rows| - 1]) + (if c == "nan" then [] else [c])
  }

  /** A cell text is collected exactly when some row holds it and it is not missing. */
  lemma {:induction false} UomCellsMember(rows: seq<Row>, c: string)
    ensures c in UomCells(rows) <==> c != "nan" && exists i :: 0 <= i < |rows| && Cell(rows[i], "stock_uom", "nan") == c
  {
    if |rows| > 0 {
      var init := rows[..|rows| - 1];
      UomCellsMember(init, c);
      assert forall i :: 0 <= i < |init| ==> init[i] == rows[i];
    }
  }

  /** `.unique()` then one UNIT per value, named by its escaped, stripped text. */
  function Units(rows: seq<Row>): (r: seq<Master>)
    ensures |r| == |Distinct(UomCells(rows))|
    ensures forall i :: 0 <= i < |r| ==> r[i] == Unit(Escape(Strip(Distinct(UomCells(rows))[i])))
  {
    var d := Distinct(UomCells(rows));
    seq(|d|, i requires 0 <= i < |d| => Unit(Escape(Strip(d[i]))))
  }

  /** Every present unit cell has its UNIT, and every UNIT comes from a
      present unit cell; the UNITs are as many as the distinct cell texts. */
  lemma UnitsFromColumn(rows: seq<Row>)
    ensures forall i :: 0 <= i < |rows| && Cell(rows[i], "stock_uom", "nan") != "nan" ==>
      Unit(Escape(Strip(rows[i]["stock_uom"]))) in Units(rows)
    ensures forall u :: u in Units(rows) ==>
      exists i :: (0 <= i < |rows| && "stock_uom" in rows[i] &&
                   rows[i]["stock_uom"] != "nan" && u == Unit(Escape(Strip(rows[i]["stock_uom"]))))
    ensures |Units(rows)| == |Elements(UomCells(rows))|
  {
    var cells := UomCells(rows);
    var d := Distinct(cells);
    var us := Units(rows);
    forall i | 0 <= i < |rows| && Cell(rows[i], "stock_uom", "nan") != "nan"
      ensures Unit(Escape(Strip(rows[i]["stock_uom"]))) in us
    {
      var c := rows[i]["stock_uom"];
      UomCellsMember(rows, c);
      assert c in d;
      var k :| 0 <= k < |d| && d[k] == c;
      assert us[k] == Unit(Escape(Strip(c)));
    }
    forall u | u in us
      ensures exists i :: (0 <= i < |rows| && "stock_uom" in rows[i] &&
                           rows[i]["stock_uom"] != "nan" && u == Unit(Escape(Strip(rows[i]["stock_uom"]))))
    {
      var k :| 0 <= k < |us| && us[k] == u;
      var c := d[k];
      assert c in cells;
      UomCellsMember(rows, c);
      var i :| 0 <= i < |rows| && Cell(rows[i], "stock_uom", "nan") == c;
    }
    DistinctCount(cells);
  }

  // ---------------------------------------------------------------------
  // Stock groups and items

  /** The escaped, stripped item_group cell; "Primary" when the column is absent. */
  function GroupName(row: Row): string {
    Escape(Strip(Cell(row, "item_group", "Primary")))
  }

  /** The escaped, stripped item_name cell; empty when the column is absent. */
  function ItemName(row: Row): string {
    Escape(Strip(Cell(row, "item_name", "")))
  }

  /** The duplicate-check key: the item name with spaces removed, lower-cased. */
  function ItemKey(row: Row): string {
    SpaceFreeLower(ItemName(row))
  }

  /** The STOCKITEM built from the row at position i. */
  function ItemOf(i: nat, row: Row): Master {
    StockItem(ItemName(row), GroupName(row), Escape(Cell(row, "stock_uom", "Nos")), i + 1,
              Cell(row, "gst_hsn_code", "None"))
  }

  /** What the loop reads from the row at position i: the duplicate-check
      key, the group name, and the item it would create. */
  datatype RowView = RowView(key: string, group: string, item: Master)

  function View(i: nat, row: Row): RowView {
    RowView(ItemKey(row), GroupName(row), ItemOf(i, row))
  }

  function Views(rows: seq<Row>): (r: seq<RowView>)
    ensures |r| == |rows|
  {
    seq(|rows|, i requires 0 <= i < |rows| => View(i, rows[i]))
  }

  /** The loop's state: keys of the items created, names of the groups
      created, and the records emitted so far. */
  datatype MasterState = MasterState(created: set<string>, groups: set<string>, out: seq<Master>)

  /** One pass of the row loop at row position i. */
  function Step(st: MasterState, i: nat, v: RowView): MasterState {
    if v.key in st.created then st else
    var withGroup := if v.group in st.groups then st.out else st.out + [StockGroup(v.group, i + 1)];
    MasterState(st.created + {v.key}, st.groups + {v.group}, withGroup + [v.item])
  }

  /** The state after the loop has visited every row. */
  function Fold(vs: seq<RowView>): MasterState {
    if |vs| == 0 then MasterState({}, {}, []) else
    Step(Fold(vs[..|vs| - 1]), |vs| - 1, vs[|vs| - 1])
  }

  function Masters(rows: seq<Row>): MasterState {
    Fold(Views(rows))
  }

  function Keys(vs: seq<RowView>): (r: seq<string>)
    ensures |r| == |vs|
  {
    seq(|vs|, i requires 0 <= i < |vs| => vs[i].key)
  }

  /** The STOCKITEM records of an output, in order. */
  function Items(out: seq<Master>): seq<Master> {
    if |out| == 0 then [] else
    var m := out[|out| - 1];
    Items(out[..|out| - 1]) + (if m.StockItem? then [m] else [])
  }

  /** The names of the STOCKGROUP records of an output, in order. */
  function GroupNames(out: seq<Master>): seq<string> {
    if |out| == 0 then [] else
    var m := out[|out| - 1];
    GroupNames(out[..|out| - 1]) + (if m.StockGroup? then [m.name] else [])
  }

  lemma ItemsSnoc(out: seq<Master>, m: Master)
    ensures Items(out + [m]) == Items(out) + (if m.StockItem? then [m] else [])
    ensures GroupNames(out + [m]) == GroupNames(out) + (if m.StockGroup? then [m.name] else [])
  {
    assert (out + [m])[..|out|] == out;
  }

  /** The item and the group each view would add, one per row. */
  function ItemsOf(vs: seq<RowView>): (r: seq<Master>)
    ensures |r| == |vs|
  {
    seq(|vs|, i requires 0 <= i < |vs| => vs[i].item)
  }

  function GroupsOf(vs: seq<RowView>): (r: seq<string>)
    ensures |r| == |vs|
  {
    seq(|vs|, i requires 0 <= i < |vs| => vs[i].group)
  }

  /** Reference: the items of the views whose key is seen for the first time. */
  function KeptItems(vs: seq<RowView>): (r: seq<Master>)
    ensures |r| == |FirstIndices(Keys(vs))|
    ensures forall j :: 0 <= j < |r| ==> r[j] == vs[FirstIndices(Keys(vs))[j]].item
  {
    AtFirst(Keys(vs), ItemsOf(vs))
  }

  /** Reference: the groups of those first-seen views, in the same order. */
  function KeptGroups(vs: seq<RowView>): (r: seq<string>)
    ensures |r| == |FirstIndices(Keys(vs))|
    ensures forall j :: 0 <= j < |r| ==> r[j] == vs[FirstIndices(Keys(vs))[j]].group
  {
    AtFirst(Keys(vs), GroupsOf(vs))
  }

  lemma KeysSnoc(vs: seq<RowView>, v: RowView)
    ensures Keys(vs + [v]) == Keys(vs) + [v.key]
    ensures v.key in Keys(vs) ==> KeptItems(vs + [v]) == KeptItems(vs) && KeptGroups(vs + [v]) == KeptGroups(vs)
    ensures v.key !in Keys(vs) ==>
      KeptItems(vs + [v]) == KeptItems(vs) + [v.item] && KeptGroups(vs + [v]) == KeptGroups(vs) + [v.group]
  {
    KeptItemsSnoc(vs, v);
    KeptGroupsSnoc(vs, v);
  }

  lemma KeptItemsSnoc(vs: seq<RowView>, v: RowView)
    ensures Keys(vs + [v]) == Keys(vs) + [v.key]
    ensures KeptItems(vs + [v]) == if v.key in Keys(vs) then KeptItems(vs) else KeptItems(vs) + [v.item]
  {
    assert Keys(vs + [v]) == Keys(vs) + [v.key];
    assert ItemsOf(vs + [v]) == ItemsOf(vs) + [v.item];
    AtFirstSnoc(Keys(vs), ItemsOf(vs), v.key, v.item);
  }

  lemma KeptGroupsSnoc(vs: seq<RowView>, v: RowView)
    ensures Keys(vs + [v]) == Keys(vs) + [v.key]
    ensures KeptGroups(vs + [v]) == if v.key in Keys(vs) then KeptGroups(vs) else KeptGroups(vs) + [v.group]
  {
    assert Keys(vs + [v]) == Keys(vs) + [v.key];
    assert GroupsOf(vs + [v]) == GroupsOf(vs) + [v.group];
    AtFirstSnoc(Keys(vs), GroupsOf(vs), v.key, v.group);
  }

  /** Each view's item is a STOCKITEM in the view's group. */
  predicate Coherent(vs: seq<RowView>) {
    forall i :: 0 <= i < |vs| ==> vs[i].item.StockItem? && vs[i].item.parent == vs[i].group
  }

  /** The loop creates one item per key, the first occurrence's. */
  lemma {:induction false} FoldItems(vs: seq<RowView>)
    requires Coherent(vs)
    ensures Items(Fold(vs).out) == KeptItems(vs)
    ensures Fold(vs).created == Elements(Keys(vs))
  {
    if |vs| > 0 {
      var init := vs[..|vs| - 1];
      var v := vs[|vs| - 1];
      assert vs == init + [v];
      FoldItems(init);
      KeysSnoc(init, v);
      var st := Fold(init);
      assert v.key in st.created <==> v.key in Keys(init);
      if v.key !in st.created {
        var withGroup := if v.group in st.groups then st.out else st.out + [StockGroup(v.group, |init| + 1)];
        if v.group !in st.groups {
          ItemsSnoc(st.out, StockGroup(v.group, |init| + 1));
        }
        assert Items(withGroup) == Items(st.out);
        ItemsSnoc(withGroup, v.item);
        assert Elements(Keys(vs)) == Elements(Keys(init)) + {v.key};
      }
    }
  }

  /** The loop creates each group once, when its first kept item needs it. */
  lemma {:induction false} FoldGroups(vs: seq<RowView>)
    requires Coherent(vs)
    ensures GroupNames(Fold(vs).out) == Distinct(KeptGroups(vs))
    ensures Fold(vs).groups == Elements(KeptGroups(vs))
  {
    if |vs| > 0 {
      var init := vs[..|vs| - 1];
      var v := vs[|vs| - 1];
      assert vs == init + [v];
      FoldGroups(init);
      FoldItems(init);
      KeysSnoc(init, v);
      if v.key !in Keys(init) {
        GroupStep(Fold(init), KeptGroups(init), |init|, v);
      }
    }
  }

  /** One pass that creates an item extends the group list by its group
      unless that group is already there. */
  lemma GroupStep(st: MasterState, kept: seq<string>, i: nat, v: RowView)
    requires GroupNames(st.out) == Distinct(kept) && st.groups == Elements(kept)
    requires v.key !in st.created && v.item.StockItem?
    ensures GroupNames(Step(st, i, v).out) == Distinct(kept + [v.group])
    ensures Step(st, i, v).groups == Elements(kept + [v.group])
  {
    DistinctSnoc(kept, v.group);
    var withGroup := if v.group in st.groups then st.out else st.out + [StockGroup(v.group, i + 1)];
    if v.group !in st.groups {
      ItemsSnoc(st.out, StockGroup(v.group, i + 1));
    }
    ItemsSnoc(withGroup, v.item);
    assert Elements(kept + [v.group]) == Elements(kept) + {v.group};
  }

  /** The item-name keys of the rows. */
  function ItemKeys(rows: seq<Row>): (r: seq<string>)
    ensures |r| == |rows|
  {
    seq(|rows|, i requires 0 <= i < |rows| => ItemKey(rows[i]))
  }

  lemma ViewsCoherent(rows: seq<Row>)
    ensures Coherent(Views(rows))
  {
  }

  /** Items are created once per key, first occurrence wins: the loop's
      STOCKITEMs are exactly the items of the rows whose key is seen for
      the first time, each built from its own row and position. */
  lemma ItemsAreFirstSeen(rows: seq<Row>)
    ensures var f := FirstIndices(ItemKeys(rows));
      && |Items(Masters(rows).out)| == |f|
      && forall j :: 0 <= j < |f| ==> f[j] < |rows| && Items(Masters(rows).out)[j] == ItemOf(f[j], rows[f[j]])
    ensures Masters(rows).created == Elements(ItemKeys(rows))
  {
    var vs := Views(rows);
    assert Keys(vs) == ItemKeys(rows);
    ViewsCoherent(rows);
    FoldItems(vs);
    var f := FirstIndices(ItemKeys(rows));
    var kept := KeptItems(vs);
    forall j | 0 <= j < |f| ensures f[j] < |rows| && kept[j] == ItemOf(f[j], rows[f[j]]) {
      assert kept[j] == vs[f[j]].item;
    }
  }

  /** The groups of the rows whose item key is seen for the first time, in row order. */
  function KeptRowGroups(rows: seq<Row>): (r: seq<string>)
    ensures |r| == |FirstIndices(ItemKeys(rows))|
  {
    var f := FirstIndices(ItemKeys(rows));
    seq(|f|, j requires 0 <= j < |f| => GroupName(rows[f[j]]))
  }

  lemma KeptGroupsOfViews(rows: seq<Row>)
    ensures KeptGroups(Views(rows)) == KeptRowGroups(rows)
  {
    var vs := Views(rows);
    assert Keys(vs) == ItemKeys(rows);
    var f := FirstIndices(ItemKeys(rows));
    var g1 := KeptGroups(vs);
    var g2 := KeptRowGroups(rows);
    forall j | 0 <= j < |g1|
      ensures g1[j] == g2[j]
    {
      assert vs[f[j]] == View(f[j], rows[f[j]]);
    }
  }

  /** Groups are created once each, in the order their first kept item
      needs them: the STOCKGROUP names are the distinct groups of the
      first-seen rows, and a group is created only for a kept item. */
  lemma GroupsAreFirstNeeded(rows: seq<Row>)
    ensures GroupNames(Masters(rows).out) == Distinct(KeptRowGroups(rows))
  {
    ViewsCoherent(rows);
    FoldGroups(Views(rows));
    KeptGroupsOfViews(rows);
  }

  /** The number of STOCKITEMs is the number of distinct item keys, and no
      group name appears twice. */
  lemma MasterCounts(rows: seq<Row>)
    ensures |Items(Masters(rows).out)| == |Elements(ItemKeys(rows))|
    ensures var names := GroupNames(Masters(rows).out);
      forall i, j :: 0 <= i < j < |names| ==> names[i] != names[j]
  {
    ItemsAreFirstSeen(rows);
    GroupsAreFirstNeeded(rows);
    DistinctCount(ItemKeys(rows));
  }

  /** A STOCKGROUP is always immediately followed by a STOCKITEM in it. */
  predicate GroupsLead(out: seq<Master>) {
    forall p :: 0 <= p < |out| && out[p].StockGroup? ==>
      p + 1 < |out| && out[p + 1].StockItem? && out[p + 1].parent == out[p].name
  }

  /** Some STOCKGROUP before position p is named g. */
  predicate DeclaredBefore(out: seq<Master>, p: int, g: string)
    requires 0 <= p <= |out|
  {
    exists q :: 0 <= q < p && out[q].StockGroup? && out[q].name == g
  }

  /** Every STOCKITEM's PARENT names a STOCKGROUP emitted before it. */
  predicate ParentsDeclared(out: seq<Master>) {
    forall p :: 0 <= p < |out| && out[p].StockItem? ==> DeclaredBefore(out, p, out[p].parent)
  }

  lemma DeclaredExtends(out: seq<Master>, more: seq<Master>, p: int, g: string)
    requires 0 <= p <= |out|
    requires DeclaredBefore(out, p, g)
    ensures DeclaredBefore(out + more, p, g)
  {
    var q :| 0 <= q < p && out[q].StockGroup? && out[q].name == g;
    assert (out + more)[q] == out[q];
  }

  lemma {:induction false} FoldWellOrdered(vs: seq<RowView>)
    requires Coherent(vs)
    ensures forall m :: m in Fold(vs).out ==> !m.Unit?
    ensures GroupsLead(Fold(vs).out)
    ensures ParentsDeclared(Fold(vs).out)
    ensures forall g :: g in Fold(vs).groups ==> DeclaredBefore(Fold(vs).out, |Fold(vs).out|, g)
  {
    if |vs| > 0 {
      var init := vs[..|vs| - 1];
      var v := vs[|vs| - 1];
      FoldWellOrdered(init);
      var st := Fold(init);
      if v.key !in st.created {
        if v.group in st.groups {
          StepKeepsOrder(st.out, [v.item], v.group, st.groups);
        } else {
          var added := [StockGroup(v.group, |init| + 1), v.item];
          StepKeepsOrder(st.out, added, v.group, st.groups);
          assert st.out + [StockGroup(v.group, |init| + 1)] + [v.item] == st.out + added;
        }
      }
    }
  }

  /** The order Tally needs for import: UNITs hold no place in the loop's
      output, a group comes right before an item that uses it, and every
      item's parent group has been declared earlier. */
  lemma MastersWellOrdered(rows: seq<Row>)
    ensures forall m :: m in Masters(rows).out ==> !m.Unit?
    ensures GroupsLead(Masters(rows).out)
    ensures ParentsDeclared(Masters(rows).out)
  {
    ViewsCoherent(rows);
    FoldWellOrdered(Views(rows));
  }

  /** The step lemma for MastersWellOrdered: appending an item, possibly
      after its new group, keeps the order. */
  lemma StepKeepsOrder(out: seq<Master>, added: seq<Master>, g: string, groups: set<string>)
    requires forall m :: m in out ==> !m.Unit?
    requires GroupsLead(out) && ParentsDeclared(out)
    requires forall h :: h in groups ==> DeclaredBefore(out, |out|, h)
    requires || (g in groups && |added| == 1)
             || (|added| == 2 && added[0].StockGroup? && added[0].name == g)
    requires added[|added| - 1].StockItem? && added[|added| - 1].parent == g
    ensures forall m :: m in out + added ==> !m.Unit?
    ensures GroupsLead(out + added) && ParentsDeclared(out + added)
    ensures forall h :: h in groups + {g} ==> DeclaredBefore(out + added, |out + added|, h)
  {
    var all := out + added;
    forall h | h in groups + {g}
      ensures DeclaredBefore(all, |all|, h)
    {
      if h in groups {
        DeclaredExtends(out, added, |out|, h);
      } else {
        assert all[|out|] == added[0];
      }
    }
    forall p | 0 <= p < |all| && all[p].StockItem?
      ensures DeclaredBefore(all, p, all[p].parent)
    {
      if p < |out| {
        assert all[p] == out[p];
        DeclaredExtends(out, added, p, out[p].parent);
      } else if |added| == 1 {
        DeclaredExtends(out, added, |out|, g);
      } else {
        assert all[|out|] == added[0];
      }
    }
    forall p | 0 <= p < |all| && all[p].StockGroup?
      ensures p + 1 < |all| && all[p + 1].StockItem? && all[p + 1].parent == all[p].name
    {
      if p < |out| {
        assert all[p] == out[p];
      }
    }
  }

  // ---------------------------------------------------------------------
  // Rendering

  const UnitGuid := "1e84c8a2-7b56-4823-a1f6-cc4b4e3a8f40-00000001"
  const GroupGuid := "56bc34aa-e52d-4342-8654-2daf966384be-000000a7"
  const ItemGuid := "56bc34aa-e52d-4342-8654-2daf966384be-000000d1"

  /** The flags of a STOCKGROUP after ASORIGINAL, all "No". */
  const GroupFlags := [
    "IGNOREPHYSICALDIFFERENCE", "IGNORENEGATIVESTOCK", "TREATSALESASMANUFACTURED",
    "TREATPURCHASESASCONSUMED", "TREATREJECTSASSCRAP", "HASMFGDATE", "ALLOWUSEOFEXPIREDITEMS",
    "IGNOREBATCHES", "IGNOREGODOWNS"
  ]

  /** The flags of a STOCKITEM after ISRATEINCLUSIVEVAT, all "No". */
  const ItemFlags := GroupFlags + [
    "CALCONMRP", "EXCLUDEJRNLFORVALUATION", "ISMRPINCLOFTAX", "ISADDLTAXEXEMPT",
    "ISSUPPLEMENTRYDUTYON", "GVATISEXCISEAPPL", "REORDERASHIGHER", "MINORDERASHIGHER",
    "ISEXCISECALCULATEONMRP", "INCLUSIVETAX", "GSTCALCSLABONMRP", "MODIFYMRPRATE"
  ]

  /** The empty list elements closing a STOCKITEM, each holding six spaces. */
  const ItemLists := [
    "SERVICETAXDETAILS.LIST", "VATDETAILS.LIST", "SALESTAXCESSDETAILS.LIST",
    "SCHVIDETAILS.LIST", "EXCISETARIFFDETAILS.LIST", "TCSCATEGORYDETAILS.LIST",
    "TDSCATEGORYDETAILS.LIST", "EXCLUDEDTAXATIONS.LIST", "OLDAUDITENTRIES.LIST",
    "ACCOUNTAUDITENTRIES.LIST", "AUDITENTRIES.LIST", "MRPDETAILS.LIST",
    "VATCLASSIFICATIONDETAILS.LIST", "COMPONENTLIST.LIST", "ADDITIONALLEDGERS.LIST",
    "SALESLIST.LIST", "PURCHASELIST.LIST", "FULLPRICELIST.LIST", "BATCHALLOCATIONS.LIST",
    "TRADEREXCISEDUTIES.LIST", "STANDARDCOSTLIST.LIST", "STANDARDPRICELIST.LIST",
    "EXCISEITEMGODOWN.LIST", "MULTICOMPONENTLIST.LIST", "LBTDETAILS.LIST",
    "PRICELEVELLIST.LIST", "GSTCLASSFNIGSTRATES.LIST", "EXTARIFFDUTYHEADDETAILS.LIST",
    "TEMPGSTITEMSLABRATES.LIST"
  ]

  function Render(m: Master): Node {
    match m
    case Unit(name) =>
      Elem("UNIT", [Attr("NAME", name), Attr("RESERVEDNAME", "")], [
        Leaf("NAME", name), Leaf("GUID", UnitGuid), Leaf("ISUPDATINGTARGETID", "No"),
        Leaf("ASORIGINAL", "Yes"), Leaf("ISGSTEXCLUDED", "No"), Leaf("ISSIMPLEUNIT", "Yes"),
        Leaf("ALTERID", "1")
      ])
    case StockGroup(name, alterId) =>
      Elem("STOCKGROUP", [Attr("NAME", name), Attr("RESERVEDNAME", "")], [
        Leaf("GUID", GroupGuid), Leaf("PARENT", ""), Leaf("BASEUNITS", "Nos"), Leaf("ADDITIONALUNITS", ""),
        Leaf("ISBATCHWISEON", "No"), Leaf("ISPERISHABLEON", "No"), Leaf("ISADDABLE", "No"),
        Leaf("ISUPDATINGTARGETID", "No"), Leaf("ASORIGINAL", "Yes")
      ] + Pads(GroupFlags, "No") + [
        Leaf("ALTERID", NatToString(alterId)),
        Leaf("SERVICETAXDETAILS.LIST", ""), Leaf("VATDETAILS.LIST", ""),
        Leaf("SALESTAXCESSDETAILS.LIST", ""), Leaf("GSTDETAILS.LIST", ""),
        LanguageNameAndId(name, "1033"),
        Leaf("SCHVIDETAILS.LIST", ""), Leaf("EXCISETARIFFDETAILS.LIST", ""),
        Leaf("TCSCATEGORYDETAILS.LIST", ""), Leaf("TDSCATEGORYDETAILS.LIST", ""),
        Leaf("GSTCLASSFNIGSTRATES.LIST", ""), Leaf("EXTARIFFDUTYHEADDETAILS.LIST", ""),
        Leaf("TEMPGSTITEMSLABRATES.LIST", "")
      ])
    case StockItem(name, parent, baseUnits, alterId, hsnCode) =>
      Elem("STOCKITEM", [Attr("NAME", name), Attr("RESERVEDNAME", "")], [
        Leaf("GUID", ItemGuid), Leaf("PARENT", parent), Leaf("CATEGORY", ""),
        Leaf("TAXCLASSIFICATIONNAME", ""), Leaf("BASEUNITS", baseUnits), Leaf("ADDITIONALUNITS", ""),
        Leaf("EXCISEITEMCLASSIFICATION", ""), Leaf("ISCOSTCENTRESON", "No"), Leaf("ISBATCHWISEON", "No"),
        Leaf("ISPERISHABLEON", "No"), Leaf("ISENTRYTAXAPPLICABLE", "No"), Leaf("ISCOSTTRACKINGON", "No"),
        Leaf("ISUPDATINGTARGETID", "No"), Leaf("ASORIGINAL", "Yes"), Leaf("ISRATEINCLUSIVEVAT", "No")
      ] + Pads(ItemFlags, "No") + [
        Leaf("ALTERID", NatToString(alterId)), Leaf("DENOMINATOR", "1"), Leaf("RATEOFVAT", "0"),
        Elem("GSTDETAILS.LIST", [], [
          Leaf("APPLICABLEFROM", "20170701"), Leaf("CALCULATIONTYPE", "On Value"),
          Leaf("HSNCODE", hsnCode), Leaf("ISREVERSECHARGEAPPLICABLE", "No"),
          Leaf("ISNONGSTGOODS", "No"), Leaf("GSTINELIGIBLEITC", "No"),
          Leaf("INCLUDEEXPFORSLABCALC", "No")
        ]),
        LanguageName(name)
      ] + Pads(ItemLists, "      "))
  }

  /** Every record in a TALLYMESSAGE of its own. */
  function Document(records: seq<Master>): Node {
    OneMessageEach("All Masters", "xmlns", seq(|records|, i requires 0 <= i < |records| => Render(records[i])))
  }

  /** The converter: `df['stock_uom']` raises when the column is missing.
      The unit loop assigns `count` only in its body, and `count += 1`
      follows the loop, so a table without a single unit cell raises
      UnboundLocalError there. Otherwise the UNITs come first, then the
      loop's groups and items. */
  function Convert(t: Table): (r: Result<Node>)
    ensures r.Ok? <==> "stock_uom" in t.columns && |Units(t.rows)| > 0
    ensures "stock_uom" !in t.columns ==> r == Err(KeyError("stock_uom"))
    ensures "stock_uom" in t.columns && |Units(t.rows)| == 0 ==> r == Err(UnboundLocalError("count"))
    ensures r.Ok? ==> r.value == Document(Units(t.rows) + Masters(t.rows).out)
  {
    if "stock_uom" !in t.columns then Err(KeyError("stock_uom"))
    else if |Distinct(UomCells(t.rows))| == 0 then Err(UnboundLocalError("count"))
    else Ok(Document(Units(t.rows) + Masters(t.rows).out))
  }

  /** A table with the column but no unit cell, such as an empty table or
      one whose unit cells are all NaN, stops at `count += 1`. */
  lemma NoUnitRaises(t: Table)
    requires "stock_uom" in t.columns
    requires forall i :: 0 <= i < |t.rows| ==> Cell(t.rows[i], "stock_uom", "nan") == "nan"
    ensures Convert(t) == Err(UnboundLocalError("count"))
  {
    var cells := UomCells(t.rows);
    if |cells| > 0 {
      UomCellsMember(t.rows, cells[0]);
      assert false;
    }
  }

  /** A record renders under its own name: the NAME attribute of a UNIT,
      STOCKGROUP or STOCKITEM is the record's name, and a STOCKITEM's
      PARENT element names its group. */
  lemma RenderNames(m: Master)
    ensures AttrValue(Render(m), "NAME") == Some(m.name)
    ensures m.StockItem? ==> Child(Render(m), "PARENT") == Some(Leaf("PARENT", m.parent))
    ensures m.Unit? ==> var n := Render(m);
      |n.children| == 7 && n.children[0] == Leaf("NAME", m.name) && n.children[6] == Leaf("ALTERID", "1")
  {
    if m.StockItem? {
      var n := Render(m);
      assert n.children[0].tag == "GUID";
      assert FirstTagged(n.children[1..], "PARENT") == Some(Leaf("PARENT", m.parent));
    }
  }

  /** The document lists one TALLYMESSAGE per record, in order: the UNITs
      first, then the groups and items. */
  lemma DocumentShape(t: Table)
    requires "stock_uom" in t.columns && |Units(t.rows)| > 0
    ensures var records := Units(t.rows) + Masters(t.rows).out;
      var data := RequestData(Convert(t).value);
      && ReportName(Convert(t).value) == "All Masters"
      && |data| == |Units(t.rows)| + |Masters(t.rows).out|
      && forall i :: 0 <= i < |data| ==>
           data[i] == Message("xmlns", [Render(records[i])]) && (Render(records[i]).tag == "UNIT" <==> i < |Units(t.rows)|)
  {
    var records := Units(t.rows) + Masters(t.rows).out;
    MastersWellOrdered(t.rows);
    OneMessageEachLayout("All Masters", "xmlns", seq(|records|, i requires 0 <= i < |records| => Render(records[i])));
    forall i | |Units(t.rows)| <= i < |records|
      ensures Render(records[i]).tag != "UNIT"
    {
      assert records[i] in Masters(t.rows).out;
    }
  }
}
