/** The journal-entry converter (tallyerp9_import/journal_entry.py).

    Rows arrive with empty cells filled with "". A row whose `name` is
    true in Python's sense (not "", not a zero number) leads a journal
    voucher; the rows after it whose name is false are the voucher's
    further ledger lines. Leaders are collected in an
    insertion-ordered dict keyed by name, so a repeated name keeps its
    first position but replaces the leader and drops the lines gathered
    so far. Each group becomes one VOUCHER inside a single TALLYMESSAGE. */
module JournalEntry {
  import opened Outcome
  import opened Rows
  import opened Text
  import opened Dates
  import opened Xml
  import opened FirstSeen

  /** Every row has a `name` column; `row['name']` raises otherwise. */
  predicate HasNames(rows: seq<Row>) {
    forall i :: 0 <= i < |rows| ==> "name" in rows[i]
  }

  /** `if row['name']`: a name that is true in Python's sense opens a
      voucher; "" and a zero number do not. */
  predicate IsLeader(row: Row)
    requires "name" in row
  {
    Truthy(row["name"])
  }

  predicate AllFollowers(rows: seq<Row>)
    requires HasNames(rows)
  {
    forall i :: 0 <= i < |rows| ==> !IsLeader(rows[i])
  }

  /** A voucher's rows: the leader and the rows appended after it. */
  datatype Group = Group(name: string, leader: Row, followers: seq<Row>)

  /** The dict `grouped_entries` and the variable `current_name`. */
  datatype GroupState = GroupState(groups: seq<Group>, current: Option<string>)

  /** The position of the group with this name. */
  function Find(groups: seq<Group>, name: string): (r: Option<nat>)
    ensures r.Some? ==> r.value < |groups| && groups[r.value].name == name
    ensures r.None? ==> forall j :: 0 <= j < |groups| ==> groups[j].name != name
  {
    if |groups| == 0 then None
    else if groups[0].name == name then Some(0)
    else match Find(groups[1..], name)
      case None => None
      case Some(k) => Some(k + 1)
  }

  /** `grouped_entries[g.name] = g` on an insertion-ordered dict: a name
      already present keeps its position and gets the new value; a new
      name goes last. */
  function Assign(groups: seq<Group>, g: Group): (r: seq<Group>)
    ensures Find(groups, g.name).None? ==> r == groups + [g]
    ensures Find(groups, g.name).Some? ==> |r| == |groups|
    ensures Find(groups, g.name).Some? ==> r[Find(groups, g.name).value] == g
    ensures Find(groups, g.name).Some? ==> forall j :: 0 <= j < |r| && j != Find(groups, g.name).value ==> r[j] == groups[j]
  {
    match Find(groups, g.name)
    case None => groups + [g]
    case Some(k) => groups[k := g]
  }

  /** One iteration of the grouping loop (lines 55-64). */
  function GroupStep(st: GroupState, row: Row): (r: Result<GroupState>)
    ensures r.Ok? <==> "name" in row && (Truthy(row["name"]) || st.current.None? || Find(st.groups, st.current.value).Some?)
  {
    var name :- Need(row, "name");
    if Truthy(name) then
      Ok(GroupState(Assign(st.groups, Group(name, row, [])), Some(name)))
    else match st.current
      case None => Ok(st)
      case Some(c) =>
        match Find(st.groups, c)
        case None => Err(KeyError(c))
        case Some(k) =>
          var g := st.groups[k];
          Ok(GroupState(st.groups[k := g.(followers := g.followers + [row])], st.current))
  }

  /** The grouping loop over all rows. */
  function Grouping(rows: seq<Row>): (r: Result<GroupState>)
    ensures r.Ok? ==> HasNames(rows)
  {
    if |rows| == 0 then Ok(GroupState([], None)) else
    var st :- Grouping(rows[..|rows| - 1]);
    GroupStep(st, rows[|rows| - 1])
  }

  // ---------------------------------------------------------------------
  // A direct description of the groups, stated without the loop.

  /** The leaders' names, in row order, repeats included. */
  function LeaderNames(rows: seq<Row>): seq<string>
    requires HasNames(rows)
  {
    if |rows| == 0 then [] else
    var init := rows[..|rows| - 1];
    var last := rows[|rows| - 1];
    if IsLeader(last) then LeaderNames(init) + [last["name"]] else LeaderNames(init)
  }

  /** The last position whose name is k, or -1. */
  function LastNamed(rows: seq<Row>, k: string): (r: int)
    requires HasNames(rows)
    ensures -1 <= r < |rows|
    ensures r >= 0 ==> rows[r]["name"] == k
  {
    if |rows| == 0 then -1
    else if rows[|rows| - 1]["name"] == k then |rows| - 1
    else LastNamed(rows[..|rows| - 1], k)
  }

  /** The position of the last leader, or -1 when there is none. */
  function LastLeader(rows: seq<Row>): (r: int)
    requires HasNames(rows)
    ensures -1 <= r < |rows|
    ensures r >= 0 ==> IsLeader(rows[r])
  {
    if |rows| == 0 then -1
    else if IsLeader(rows[|rows| - 1]) then |rows| - 1
    else LastLeader(rows[..|rows| - 1])
  }

  /** The rows at the front of `rows` that are not leaders. */
  function Run(rows: seq<Row>): seq<Row>
    requires HasNames(rows)
  {
    if |rows| == 0 || IsLeader(rows[0]) then [] else [rows[0]] + Run(rows[1..])
  }

  /** The group a leader name ends up with: the name's last leader, and
      the non-leader rows right after it. (A name that never leads has no
      group; it is given an empty one.) */
  function ExpectedGroup(rows: seq<Row>, k: string): Group
    requires HasNames(rows)
  {
    var last := LastNamed(rows, k);
    if last < 0 then Group(k, map[], []) else Group(k, rows[last], Run(rows[last + 1..]))
  }

  /** The groups in order: one per distinct leader name, placed where the
      name first leads. Non-leader rows before the first leader belong to
      no group. */
  function ExpectedGroups(rows: seq<Row>): (r: seq<Group>)
    requires HasNames(rows)
    ensures |r| == |Distinct(LeaderNames(rows))|
  {
    var keys := Distinct(LeaderNames(rows));
    seq(|keys|, j requires 0 <= j < |keys| => ExpectedGroup(rows, keys[j]))
  }

  /** The current name after the loop: the name of the last leader. */
  function ExpectedCurrent(rows: seq<Row>): Option<string>
    requires HasNames(rows)
  {
    var m := LastLeader(rows);
    if m < 0 then None else Some(rows[m]["name"])
  }

  function GroupNames(groups: seq<Group>): (r: seq<string>)
    ensures |r| == |groups| && forall j :: 0 <= j < |groups| ==> r[j] == groups[j].name
  {
    seq(|groups|, j requires 0 <= j < |groups| => groups[j].name)
  }

  /** The loop variables after a prefix of the rows, as described. */
  predicate Describes(rows: seq<Row>, st: GroupState)
    requires HasNames(rows)
  {
    && GroupNames(st.groups) == Distinct(LeaderNames(rows))
    && (forall j :: 0 <= j < |st.groups| ==> st.groups[j] == ExpectedGroup(rows, st.groups[j].name))
    && st.current == ExpectedCurrent(rows)
  }

  lemma DescribedIsExpected(rows: seq<Row>, st: GroupState)
    requires HasNames(rows) && Describes(rows, st)
    ensures st.groups == ExpectedGroups(rows)
  {
    var keys := Distinct(LeaderNames(rows));
    assert |st.groups| == |keys|;
    forall j | 0 <= j < |keys| ensures st.groups[j] == ExpectedGroups(rows)[j] {
      assert st.groups[j].name == GroupNames(st.groups)[j] == keys[j];
    }
  }

  /** LastNamed finds the last position holding the name. */
  lemma {:induction false} LastNamedIsLast(rows: seq<Row>, k: string, i: int)
    requires HasNames(rows) && LastNamed(rows, k) < i < |rows|
    ensures rows[i]["name"] != k
  {
    if i < |rows| - 1 {
      LastNamedIsLast(rows[..|rows| - 1], k, i);
    }
  }

  /** A position holding k with no later k is the last one. */
  lemma {:induction false} LastNamedAt(rows: seq<Row>, k: string, m: nat)
    requires HasNames(rows) && m < |rows| && rows[m]["name"] == k
    requires forall i :: m < i < |rows| ==> rows[i]["name"] != k
    ensures LastNamed(rows, k) == m
  {
    if m < |rows| - 1 {
      LastNamedAt(rows[..|rows| - 1], k, m);
    }
  }

  /** LastLeader finds the last leader. */
  lemma {:induction false} LastLeaderIsLast(rows: seq<Row>, i: int)
    requires HasNames(rows) && LastLeader(rows) < i < |rows|
    ensures !IsLeader(rows[i])
  {
    if i < |rows| - 1 {
      LastLeaderIsLast(rows[..|rows| - 1], i);
    }
  }

  /** Run takes the non-leader rows at the front, and stops at a leader. */
  lemma {:induction false} RunSpec(rows: seq<Row>)
    requires HasNames(rows)
    ensures |Run(rows)| <= |rows| && Run(rows) == rows[..|Run(rows)|]
    ensures HasNames(Run(rows)) && AllFollowers(Run(rows))
    ensures |Run(rows)| < |rows| ==> IsLeader(rows[|Run(rows)|])
  {
    if |rows| > 0 && !IsLeader(rows[0]) {
      RunSpec(rows[1..]);
      var r := Run(rows[1..]);
      assert Run(rows) == [rows[0]] + r;
      assert HasNames(Run(rows));
      forall i | 0 <= i < |Run(rows)| ensures !IsLeader(Run(rows)[i]) {
        if i > 0 { assert Run(rows)[i] == r[i - 1]; }
      }
    }
  }

  lemma {:induction false} RunSnoc(rows: seq<Row>, row: Row)
    requires HasNames(rows) && "name" in row
    ensures HasNames(rows + [row])
    ensures AllFollowers(rows) && !IsLeader(row) ==> Run(rows + [row]) == rows + [row]
    ensures !(AllFollowers(rows) && !IsLeader(row)) ==> Run(rows + [row]) == Run(rows)
  {
    var t := rows + [row];
    if |rows| > 0 {
      assert t[1..] == rows[1..] + [row];
      assert HasNames(rows[1..]);
      RunSnoc(rows[1..], row);
      if !IsLeader(rows[0]) {
        assert AllFollowers(rows) <==> AllFollowers(rows[1..]) by {
          if AllFollowers(rows[1..]) {
            forall i | 0 <= i < |rows| ensures !IsLeader(rows[i]) {
              if i > 0 { assert rows[i] == rows[1..][i - 1]; }
            }
          }
        }
        assert rows == [rows[0]] + rows[1..];
      }
    }
  }

  lemma Snoc(rows: seq<Row>, row: Row)
    requires HasNames(rows) && "name" in row
    ensures HasNames(rows + [row])
    ensures (rows + [row])[..|rows|] == rows
    ensures LeaderNames(rows + [row]) == if IsLeader(row) then LeaderNames(rows) + [row["name"]] else LeaderNames(rows)
    ensures LastNamed(rows + [row], row["name"]) == |rows|
    ensures LastLeader(rows + [row]) == if IsLeader(row) then |rows| else LastLeader(rows)
  {
    LeaderNamesSnoc(rows, row);
    LastNamedOwn(rows, row);
    LastLeaderSnoc(rows, row);
  }

  lemma LeaderNamesSnoc(rows: seq<Row>, row: Row)
    requires HasNames(rows) && "name" in row
    ensures HasNames(rows + [row])
    ensures LeaderNames(rows + [row]) == if IsLeader(row) then LeaderNames(rows) + [row["name"]] else LeaderNames(rows)
  {
    assert (rows + [row])[..|rows|] == rows;
  }

  lemma LastNamedOwn(rows: seq<Row>, row: Row)
    requires HasNames(rows) && "name" in row
    ensures HasNames(rows + [row])
    ensures LastNamed(rows + [row], row["name"]) == |rows|
  {
  }

  lemma LastLeaderSnoc(rows: seq<Row>, row: Row)
    requires HasNames(rows) && "name" in row
    ensures HasNames(rows + [row])
    ensures LastLeader(rows + [row]) == if IsLeader(row) then |rows| else LastLeader(rows)
  {
    assert (rows + [row])[..|rows|] == rows;
  }

  lemma LastNamedSnoc(rows: seq<Row>, row: Row, k: string)
    requires HasNames(rows) && "name" in row && row["name"] != k
    ensures HasNames(rows + [row])
    ensures LastNamed(rows + [row], k) == LastNamed(rows, k)
  {
    assert (rows + [row])[..|rows|] == rows;
  }

  /** A leader's own group, right after it: the leader and no lines. */
  lemma OwnGroupAfterLeader(rows: seq<Row>, row: Row)
    requires HasNames(rows) && "name" in row && IsLeader(row)
    ensures HasNames(rows + [row])
    ensures ExpectedGroup(rows + [row], row["name"]) == Group(row["name"], row, [])
  {
    Snoc(rows, row);
    var t := rows + [row];
    assert t[|rows| + 1..] == [];
  }

  /** A leader leaves every other name's group alone. */
  lemma OtherGroupAfterLeader(rows: seq<Row>, row: Row, k: string)
    requires HasNames(rows) && "name" in row && IsLeader(row)
    requires k != row["name"]
    ensures HasNames(rows + [row])
    ensures ExpectedGroup(rows + [row], k) == ExpectedGroup(rows, k)
  {
    var last := LastNamed(rows, k);
    LastNamedSnoc(rows, row, k);
    if last >= 0 {
      LeaderEndsRun(rows, row, last + 1);
    }
    SameGroupAfter(rows, row, k);
  }

  /** An appended leader does not join the rows that run on from an
      earlier position. */
  lemma LeaderEndsRun(rows: seq<Row>, row: Row, i: nat)
    requires HasNames(rows) && "name" in row && IsLeader(row) && i <= |rows|
    ensures HasNames(rows + [row])
    ensures Run((rows + [row])[i..]) == Run(rows[i..])
  {
    SliceSnoc(rows, row, i);
    assert HasNames(rows[i..]);
    RunSnoc(rows[i..], row);
  }

  /** The rows after the last leader are all followers. */
  lemma FollowersAfter(rows: seq<Row>, m: nat)
    requires HasNames(rows) && m < |rows|
    requires LastLeader(rows) <= m
    ensures HasNames(rows[m + 1..]) && AllFollowers(rows[m + 1..])
  {
    var tail := rows[m + 1..];
    forall j | 0 <= j < |tail| ensures "name" in tail[j] && !IsLeader(tail[j]) {
      FollowerAt(rows, m, j);
    }
  }

  lemma FollowerAt(rows: seq<Row>, m: nat, j: nat)
    requires HasNames(rows) && m < |rows| && LastLeader(rows) <= m && j < |rows| - m - 1
    ensures "name" in rows[m + 1..][j] && !IsLeader(rows[m + 1..][j])
  {
    assert rows[m + 1..][j] == rows[m + 1 + j];
    LastLeaderIsLast(rows, m + 1 + j);
  }

  /** A non-leader row joins the group of the last leader. */
  lemma CurrentGroupAfterFollower(rows: seq<Row>, row: Row)
    requires HasNames(rows) && "name" in row && !IsLeader(row)
    requires LastLeader(rows) >= 0
    ensures HasNames(rows + [row])
    ensures var c := rows[LastLeader(rows)]["name"];
      ExpectedGroup(rows + [row], c) == ExpectedGroup(rows, c).(followers := ExpectedGroup(rows, c).followers + [row])
  {
    var m := LastLeader(rows);
    var c := rows[m]["name"];
    var t := rows + [row];
    LastLeaderIsLastNamed(rows, row);
    FollowersAfterLast(rows, row);
    assert ExpectedGroup(rows, c) == Group(c, rows[m], rows[m + 1..]);
    assert ExpectedGroup(t, c) == Group(c, t[m], rows[m + 1..] + [row]);
  }

  /** The last leader's name is not used again after it, one row more or not. */
  lemma LastLeaderIsLastNamed(rows: seq<Row>, row: Row)
    requires HasNames(rows) && "name" in row && !IsLeader(row)
    requires LastLeader(rows) >= 0
    ensures HasNames(rows + [row])
    ensures var m := LastLeader(rows); var c := rows[m]["name"];
      LastNamed(rows, c) == m && LastNamed(rows + [row], c) == m
  {
    var m := LastLeader(rows);
    var c := rows[m]["name"];
    LastNamedSnoc(rows, row, c);
    forall i | m < i < |rows| ensures rows[i]["name"] != c {
      LastLeaderIsLast(rows, i);
    }
    LastNamedAt(rows, c, m);
  }

  /** Every row after the last leader follows it, and so does one more
      non-leader row. */
  lemma FollowersAfterLast(rows: seq<Row>, row: Row)
    requires HasNames(rows) && "name" in row && !IsLeader(row)
    requires LastLeader(rows) >= 0
    ensures HasNames(rows + [row])
    ensures var m := LastLeader(rows);
      && HasNames(rows[m + 1..]) && Run(rows[m + 1..]) == rows[m + 1..]
      && HasNames((rows + [row])[m + 1..]) && Run((rows + [row])[m + 1..]) == rows[m + 1..] + [row]
  {
    FollowersFrom(rows, row, LastLeader(rows));
  }

  lemma FollowersFrom(rows: seq<Row>, row: Row, m: nat)
    requires HasNames(rows) && "name" in row && !IsLeader(row)
    requires m < |rows| && LastLeader(rows) <= m
    ensures HasNames(rows + [row])
    ensures HasNames(rows[m + 1..]) && Run(rows[m + 1..]) == rows[m + 1..]
    ensures HasNames((rows + [row])[m + 1..]) && Run((rows + [row])[m + 1..]) == rows[m + 1..] + [row]
  {
    var tail := rows[m + 1..];
    FollowersAfter(rows, m);
    FollowerRun(tail, row);
    SliceSnoc(rows, row, m + 1);
  }

  lemma SliceSnoc(rows: seq<Row>, row: Row, i: nat)
    requires i <= |rows|
    ensures (rows + [row])[i..] == rows[i..] + [row]
  {
  }

  /** A run of followers and one more follower is read whole. */
  lemma FollowerRun(tail: seq<Row>, row: Row)
    requires HasNames(tail) && AllFollowers(tail) && "name" in row && !IsLeader(row)
    ensures HasNames(tail + [row])
    ensures Run(tail) == tail && Run(tail + [row]) == tail + [row]
  {
    RunSnoc(tail, row);
    RunOfFollowers(tail);
  }

  lemma {:induction false} RunOfFollowers(rows: seq<Row>)
    requires HasNames(rows) && AllFollowers(rows)
    ensures Run(rows) == rows
  {
    if |rows| > 0 {
      var tail := rows[1..];
      assert HasNames(tail);
      assert AllFollowers(tail) by {
        forall i | 0 <= i < |tail| ensures !IsLeader(tail[i]) {
          assert tail[i] == rows[i + 1];
        }
      }
      RunOfFollowers(tail);
    }
  }

  /** ... and leaves the group of every other leader name alone, since a
      later leader already ended it. */
  lemma OtherGroupAfterFollower(rows: seq<Row>, row: Row, k: string)
    requires HasNames(rows) && "name" in row
    requires LastLeader(rows) >= 0 && k != rows[LastLeader(rows)]["name"] && k != row["name"]
    requires LastNamed(rows, k) >= 0 ==> IsLeader(rows[LastNamed(rows, k)])
    ensures HasNames(rows + [row])
    ensures ExpectedGroup(rows + [row], k) == ExpectedGroup(rows, k)
  {
    var last := LastNamed(rows, k);
    LastNamedSnoc(rows, row, k);
    if last >= 0 {
      EarlierLeaderRun(rows, row, last);
      SameGroupAfter(rows, row, k);
    } else {
      SameGroupAfter(rows, row, k);
    }
  }

  /** The run after a leader other than the last one ended at a later
      leader, so an appended row does not join it. */
  lemma EarlierLeaderRun(rows: seq<Row>, row: Row, last: nat)
    requires HasNames(rows) && "name" in row && last < |rows| && IsLeader(rows[last])
    requires LastLeader(rows) >= 0 && last != LastLeader(rows)
    ensures HasNames(rows + [row])
    ensures Run((rows + [row])[last + 1..]) == Run(rows[last + 1..])
  {
    var m := LastLeader(rows);
    if last > m { LastLeaderIsLast(rows, last); }
    RunEndedBefore(rows, row, last, m);
  }

  /** A name's group is unchanged by an appended row that leaves its last
      leader and the run after it alone. */
  lemma SameGroupAfter(rows: seq<Row>, row: Row, k: string)
    requires HasNames(rows) && "name" in row && LastNamed(rows + [row], k) == LastNamed(rows, k)
    requires LastNamed(rows, k) >= 0 ==>
      Run((rows + [row])[LastNamed(rows, k) + 1..]) == Run(rows[LastNamed(rows, k) + 1..])
    ensures HasNames(rows + [row])
    ensures ExpectedGroup(rows + [row], k) == ExpectedGroup(rows, k)
  {
    var last := LastNamed(rows, k);
    if last >= 0 {
      assert (rows + [row])[last] == rows[last];
    }
  }

  /** A row appended after a later leader does not join the rows that run
      on from an earlier position. */
  lemma RunEndedBefore(rows: seq<Row>, row: Row, last: nat, m: nat)
    requires HasNames(rows) && "name" in row && last < m < |rows| && IsLeader(rows[m])
    ensures HasNames(rows + [row])
    ensures Run((rows + [row])[last + 1..]) == Run(rows[last + 1..])
  {
    var tail := rows[last + 1..];
    assert (rows + [row])[last + 1..] == tail + [row];
    assert HasNames(tail);
    assert tail[m - last - 1] == rows[m];
    assert !AllFollowers(tail);
    RunSnoc(tail, row);
  }

  /** Assigning a name keeps the dict's names in first-insertion order. */
  lemma AssignNames(groups: seq<Group>, g: Group)
    ensures GroupNames(Assign(groups, g)) ==
      if g.name in GroupNames(groups) then GroupNames(groups) else GroupNames(groups) + [g.name]
  {
    var r := Assign(groups, g);
    match Find(groups, g.name)
    case None =>
      assert g.name !in GroupNames(groups);
    case Some(p) =>
      assert g.name in GroupNames(groups) by { assert GroupNames(groups)[p] == g.name; }
  }

  /** Find returns the first position holding the name. */
  lemma {:induction false} FindFirst(groups: seq<Group>, name: string, k: nat)
    requires k < |groups| && groups[k].name == name
    requires forall j :: 0 <= j < k ==> groups[j].name != name
    ensures Find(groups, name) == Some(k)
  {
    if k > 0 {
      FindFirst(groups[1..], name, k - 1);
    }
  }

  /** With distinct names, the group at position k is the one Find returns. */
  lemma FindAt(groups: seq<Group>, name: string, k: nat)
    requires k < |groups| && groups[k].name == name
    requires forall i, j :: 0 <= i < j < |GroupNames(groups)| ==> GroupNames(groups)[i] != GroupNames(groups)[j]
    ensures Find(groups, name) == Some(k)
  {
    forall j | 0 <= j < k ensures groups[j].name != name {
      assert GroupNames(groups)[j] != GroupNames(groups)[k];
    }
    FindFirst(groups, name, k);
  }

  lemma LeaderStep(rows: seq<Row>, row: Row, st: GroupState)
    requires HasNames(rows) && "name" in row && IsLeader(row)
    requires Describes(rows, st)
    ensures HasNames(rows + [row])
    ensures GroupStep(st, row).Ok? && Describes(rows + [row], GroupStep(st, row).value)
  {
    var k := row["name"];
    var groups' := Assign(st.groups, Group(k, row, []));
    LeaderNamesStep(rows, row, st);
    if Find(st.groups, k).None? {
      LeaderAppends(rows, row, st);
    } else {
      LeaderReplaces(rows, row, st);
    }
    assert GroupStep(st, row) == Ok(GroupState(groups', Some(k)));
  }

  /** A leader row keeps the dict's names the distinct leader names, and
      becomes the current name. */
  lemma LeaderNamesStep(rows: seq<Row>, row: Row, st: GroupState)
    requires HasNames(rows) && "name" in row && IsLeader(row)
    requires Describes(rows, st)
    ensures HasNames(rows + [row])
    ensures GroupNames(Assign(st.groups, Group(row["name"], row, []))) == Distinct(LeaderNames(rows + [row]))
    ensures ExpectedCurrent(rows + [row]) == Some(row["name"])
  {
    var k := row["name"];
    Snoc(rows, row);
    DistinctSnoc(LeaderNames(rows), k);
    AssignNames(st.groups, Group(k, row, []));
  }

  /** A new leader name opens a group at the end of the dict. */
  lemma LeaderAppends(rows: seq<Row>, row: Row, st: GroupState)
    requires HasNames(rows) && "name" in row && IsLeader(row)
    requires Describes(rows, st) && Find(st.groups, row["name"]).None?
    ensures HasNames(rows + [row])
    ensures var groups' := Assign(st.groups, Group(row["name"], row, []));
      forall j :: 0 <= j < |groups'| ==> groups'[j] == ExpectedGroup(rows + [row], groups'[j].name)
  {
    var t := rows + [row];
    Snoc(rows, row);
    var g := Group(row["name"], row, []);
    var groups' := Assign(st.groups, g);
    OwnGroupAfterLeader(rows, row);
    forall j | 0 <= j < |groups'| ensures groups'[j] == ExpectedGroup(t, groups'[j].name) {
      if j < |st.groups| {
        assert groups'[j] == st.groups[j];
        OtherGroupAfterLeader(rows, row, st.groups[j].name);
      } else {
        assert groups'[j] == g;
      }
    }
  }

  /** A repeated leader name starts its group afresh, in its old place. */
  lemma LeaderReplaces(rows: seq<Row>, row: Row, st: GroupState)
    requires HasNames(rows) && "name" in row && IsLeader(row)
    requires Describes(rows, st) && Find(st.groups, row["name"]).Some?
    ensures HasNames(rows + [row])
    ensures var groups' := Assign(st.groups, Group(row["name"], row, []));
      forall j :: 0 <= j < |groups'| ==> groups'[j] == ExpectedGroup(rows + [row], groups'[j].name)
  {
    var t := rows + [row];
    Snoc(rows, row);
    var g := Group(row["name"], row, []);
    var groups' := Assign(st.groups, g);
    var p := Find(st.groups, row["name"]).value;
    OwnGroupAfterLeader(rows, row);
    forall j | 0 <= j < |groups'| ensures groups'[j] == ExpectedGroup(t, groups'[j].name) {
      if j != p {
        assert groups'[j] == st.groups[j];
        assert GroupNames(st.groups)[j] != GroupNames(st.groups)[p];
        OtherGroupAfterLeader(rows, row, st.groups[j].name);
      } else {
        assert groups'[j] == g;
      }
    }
  }

  /** Every leader name is a true name some row carries. */
  lemma {:induction false} LeaderNamesNonEmpty(rows: seq<Row>, k: string)
    requires HasNames(rows) && k in LeaderNames(rows)
    ensures Truthy(k) && LastNamed(rows, k) >= 0
  {
    var init := rows[..|rows| - 1];
    var row := rows[|rows| - 1];
    if !(IsLeader(row) && row["name"] == k) {
      LeaderNamesNonEmpty(init, k);
    }
  }

  lemma FollowerStep(rows: seq<Row>, row: Row, st: GroupState)
    requires HasNames(rows) && "name" in row && !IsLeader(row)
    requires Describes(rows, st)
    ensures HasNames(rows + [row])
    ensures GroupStep(st, row).Ok? && Describes(rows + [row], GroupStep(st, row).value)
  {
    Snoc(rows, row);
    if LastLeader(rows) < 0 {
      FollowerBeforeAnyLeader(rows, row, st);
    } else {
      FollowerAfterLeader(rows, row, st);
    }
  }

  /** A non-leader row before any leader is dropped. */
  lemma FollowerBeforeAnyLeader(rows: seq<Row>, row: Row, st: GroupState)
    requires HasNames(rows) && "name" in row && !IsLeader(row)
    requires Describes(rows, st) && LastLeader(rows) < 0
    ensures HasNames(rows + [row])
    ensures GroupStep(st, row) == Ok(st) && Describes(rows + [row], st)
  {
    Snoc(rows, row);
    if |LeaderNames(rows)| > 0 {
      var k := LeaderNames(rows)[0];
      LeaderNamesNonEmpty(rows, k);
      var i := LastNamed(rows, k);
      LastLeaderIsLast(rows, i);
      assert false;
    }
  }

  lemma FollowerAfterLeader(rows: seq<Row>, row: Row, st: GroupState)
    requires HasNames(rows) && "name" in row && !IsLeader(row)
    requires Describes(rows, st) && LastLeader(rows) >= 0
    ensures HasNames(rows + [row])
    ensures GroupStep(st, row).Ok? && Describes(rows + [row], GroupStep(st, row).value)
  {
    Snoc(rows, row);
    var p := CurrentGroupAt(rows, st);
    var g := st.groups[p];
    var groups' := st.groups[p := g.(followers := g.followers + [row])];
    assert GroupStep(st, row) == Ok(GroupState(groups', st.current));
    assert GroupNames(groups') == GroupNames(st.groups);
    FollowerGroups(rows, row, st, p);
  }

  /** The current name's group sits where Find looks for it. */
  lemma CurrentGroupAt(rows: seq<Row>, st: GroupState) returns (p: nat)
    requires HasNames(rows) && Describes(rows, st) && LastLeader(rows) >= 0
    ensures p < |st.groups| && st.groups[p].name == rows[LastLeader(rows)]["name"]
    ensures st.current == Some(st.groups[p].name) && Find(st.groups, st.groups[p].name) == Some(p)
  {
    var m := LastLeader(rows);
    var c := rows[m]["name"];
    var keys := Distinct(LeaderNames(rows));
    LeaderNamesAfterLast(rows, m);
    assert c in keys;
    p :| 0 <= p < |keys| && keys[p] == c;
    assert GroupNames(st.groups)[p] == c;
    FindAt(st.groups, c, p);
  }

  /** After a follower joins the current group, every group is as expected. */
  lemma FollowerGroups(rows: seq<Row>, row: Row, st: GroupState, p: nat)
    requires HasNames(rows) && "name" in row && !IsLeader(row)
    requires Describes(rows, st) && LastLeader(rows) >= 0
    requires p < |st.groups| && st.groups[p].name == rows[LastLeader(rows)]["name"]
    ensures HasNames(rows + [row])
    ensures var g := st.groups[p];
      var groups' := st.groups[p := g.(followers := g.followers + [row])];
      forall j :: 0 <= j < |groups'| ==> groups'[j] == ExpectedGroup(rows + [row], groups'[j].name)
  {
    var t := rows + [row];
    Snoc(rows, row);
    var g := st.groups[p];
    var groups' := st.groups[p := g.(followers := g.followers + [row])];
    CurrentGroupAfterFollower(rows, row);
    forall j | 0 <= j < |groups'| ensures groups'[j] == ExpectedGroup(t, groups'[j].name) {
      if j != p {
        OtherGroupKept(rows, row, st, j, p);
      }
    }
  }

  lemma OtherGroupKept(rows: seq<Row>, row: Row, st: GroupState, j: nat, p: nat)
    requires HasNames(rows) && "name" in row && !IsLeader(row)
    requires Describes(rows, st) && LastLeader(rows) >= 0
    requires j < |st.groups| && p < |st.groups| && j != p
    requires st.groups[p].name == rows[LastLeader(rows)]["name"]
    ensures HasNames(rows + [row])
    ensures st.groups[j] == ExpectedGroup(rows + [row], st.groups[j].name)
  {
    var keys := Distinct(LeaderNames(rows));
    var n := st.groups[j].name;
    assert GroupNames(st.groups)[j] != GroupNames(st.groups)[p];
    assert n in LeaderNames(rows) by { assert keys[j] == n; }
    LeaderNamesNonEmpty(rows, n);
    assert IsLeader(rows[LastNamed(rows, n)]) && n != row["name"];
    OtherGroupAfterFollower(rows, row, n);
  }

  /** The last leader's name is among the leader names. */
  lemma {:induction false} LeaderNamesAfterLast(rows: seq<Row>, m: nat)
    requires HasNames(rows) && m < |rows| && IsLeader(rows[m])
    ensures rows[m]["name"] in LeaderNames(rows)
  {
    var init := rows[..|rows| - 1];
    if m < |rows| - 1 {
      assert init[m] == rows[m];
      LeaderNamesAfterLast(init, m);
    }
  }

  /** The grouping loop succeeds exactly when every row has a `name`
      column, and then builds the groups described by ExpectedGroups. */
  lemma {:induction false} GroupingIsExpected(rows: seq<Row>)
    ensures Grouping(rows).Ok? <==> HasNames(rows)
    ensures Grouping(rows).Ok? ==> Describes(rows, Grouping(rows).value)
    ensures Grouping(rows).Ok? ==> Grouping(rows).value.groups == ExpectedGroups(rows)
    ensures Grouping(rows).Ok? ==> Grouping(rows).value.current == ExpectedCurrent(rows)
  {
    if |rows| > 0 {
      var init := rows[..|rows| - 1];
      var row := rows[|rows| - 1];
      assert rows == init + [row];
      GroupingIsExpected(init);
      if HasNames(rows) {
        assert HasNames(init);
        var st := Grouping(init).value;
        if IsLeader(row) { LeaderStep(init, row, st); } else { FollowerStep(init, row, st); }
        DescribedIsExpected(rows, Grouping(rows).value);
      }
    } else {
      assert Describes(rows, GroupState([], None));
    }
  }

  /** The distinct names that lead a voucher somewhere in the rows. */
  function LeaderNameSet(rows: seq<Row>): set<string>
    requires HasNames(rows)
  {
    set i | 0 <= i < |rows| && IsLeader(rows[i]) :: rows[i]["name"]
  }

  lemma {:induction false} LeaderNamesElements(rows: seq<Row>)
    requires HasNames(rows)
    ensures Elements(LeaderNames(rows)) == LeaderNameSet(rows)
  {
    if |rows| > 0 {
      var init := rows[..|rows| - 1];
      var row := rows[|rows| - 1];
      assert rows == init + [row];
      LeaderNamesElements(init);
      Snoc(init, row);
      assert LeaderNameSet(rows) == LeaderNameSet(init) + (if IsLeader(row) then {row["name"]} else {}) by {
        forall k | k in LeaderNameSet(rows)
          ensures k in LeaderNameSet(init) + (if IsLeader(row) then {row["name"]} else {})
        {
          var i :| 0 <= i < |rows| && IsLeader(rows[i]) && rows[i]["name"] == k;
          if i < |init| { assert init[i] == rows[i]; }
        }
        forall k | k in LeaderNameSet(init) ensures k in LeaderNameSet(rows) {
          var i :| 0 <= i < |init| && IsLeader(init[i]) && init[i]["name"] == k;
          assert rows[i] == init[i];
        }
        if IsLeader(row) { assert rows[|rows| - 1] == row; }
      }
    }
  }

  /** The number of vouchers is the number of distinct leader names. */
  lemma GroupCount(rows: seq<Row>)
    requires HasNames(rows)
    ensures Grouping(rows).Ok?
    ensures |Grouping(rows).value.groups| == |LeaderNameSet(rows)|
  {
    GroupingIsExpected(rows);
    DistinctCount(LeaderNames(rows));
    LeaderNamesElements(rows);
  }

  /** A re-used name keeps its first position but takes the later leader
      and drops the lines gathered under the earlier one. */
  lemma RepeatedLeader(a: Row, b: Row, c: Row)
    requires "name" in a && "name" in b && "name" in c
    requires a["name"] == c["name"] && Truthy(a["name"]) && !Truthy(b["name"])
    ensures Grouping([a, b, c]) == Ok(GroupState([Group(a["name"], c, [])], Some(a["name"])))
  {
    var n := a["name"];
    var s1 := GroupState([Group(n, a, [])], Some(n));
    var s2 := GroupState([Group(n, a, [b])], Some(n));
    assert Need(a, "name") == Ok(n);
    assert Find([], n) == None;
    assert Assign([], Group(n, a, [])) == [Group(n, a, [])];
    assert GroupStep(GroupState([], None), a) == Ok(s1);
    assert [a][..0] == [];
    assert Grouping([a]) == Ok(s1);
    assert Find(s1.groups, n) == Some(0);
    assert Need(b, "name") == Ok(b["name"]);
    assert s1.groups[0].followers + [b] == [b];
    assert s1.groups[0 := Group(n, a, [b])] == s2.groups;
    assert GroupStep(s1, b) == Ok(s2);
    assert [a, b][..1] == [a];
    assert Grouping([a, b]) == Ok(s2);
    assert Find(s2.groups, n) == Some(0);
    assert Need(c, "name") == Ok(n);
    assert s2.groups[0 := Group(n, c, [])] == [Group(n, c, [])];
    assert Assign(s2.groups, Group(n, c, [])) == [Group(n, c, [])];
    assert [a, b, c][..2] == [a, b];
  }

  // ---------------------------------------------------------------------
  // Vouchers.

  /** One ALLLEDGERENTRIES.LIST: LEDGERNAME, ISDEEMEDPOSITIVE and the
      AMOUNT text. */
  datatype Entry = Entry(ledgerName: string, deemedPositive: bool, amount: string)

  datatype Voucher = Voucher(remoteId: string, vchKey: string, date: string, partyLedgerName: string, entries: seq<Entry>)

  /** `-abs(x)` for a deemed-positive (Customer) line, `abs(x)` otherwise. */
  function SignedAmount(deemedPositive: bool, x: int): (r: int)
    ensures deemedPositive ==> r <= 0
    ensures !deemedPositive ==> r >= 0
    ensures r == x || r == -x
  {
    var a := if x < 0 then -x else x;
    if deemedPositive then -a else a
  }

  /** The AMOUNT text `str(-abs(x))` of a deemed-positive (Customer) line,
      `str(abs(x))` of any other, where x is `row.get(column, 0)`: a
      missing column is the integer 0; an integer cell keeps its value; a
      float cell (any amount column with a blank in it) keeps its printed
      digits, so abs() drops its minus sign and -abs() writes one, "-0.0"
      included; abs() of a str, "" included, raises TypeError. */
  function AmountCell(row: Row, column: string, deemedPositive: bool): (r: Result<string>)
    ensures column !in row ==> r == Ok("0")
    ensures column in row ==> (r.Ok? <==> NumberCell(row[column]))
    ensures r.Err? ==> column in row && r.error == TypeError(row[column])
    ensures column in row && ParseInt(row[column]).Some? ==>
      r.Ok? && ParseInt(r.value) == Some(SignedAmount(deemedPositive, ParseInt(row[column]).value))
    ensures column in row && NumberCell(row[column]) && ParseInt(row[column]).None? ==>
      r.Ok? && Unsigned(r.value) == Unsigned(row[column]) && '.' in r.value
  {
    if column !in row then Ok("0")
    else
      var cell := row[column];
      match ParseInt(cell)
      case Some(x) =>
        IntCellIsNumber(cell);
        IntRoundTrip(SignedAmount(deemedPositive, x));
        Ok(IntToString(SignedAmount(deemedPositive, x)))
      case None =>
        if !NumberCell(cell) then Err(TypeError(cell))
        else
          assert '.' in Unsigned(cell) by { FloatCellHasPoint(cell); }
          if deemedPositive then Ok("-" + Unsigned(cell)) else Ok(Unsigned(cell))
  }

  /** A number cell int() cannot read is a float: it has a decimal point
      and starts, after any minus sign, with a digit. */
  lemma FloatCellHasPoint(s: string)
    requires NumberCell(s) && ParseInt(s).None?
    ensures '.' in Unsigned(s) && IsDigit(Unsigned(s)[0])
  {
    var body := Unsigned(s);
    if '.' !in body {
      assert AllDigits(body) by {
        forall i | 0 <= i < |body| ensures IsDigit(body[i]) {
          assert body[i] in body;
        }
      }
      assert false;
    }
  }

  /** An AMOUNT text starts with "-" exactly on a deemed-positive line,
      except the integer zero, which -abs() leaves as "0". */
  lemma AmountTextSign(row: Row, column: string, deemedPositive: bool)
    requires AmountCell(row, column, deemedPositive).Ok?
    ensures var t := AmountCell(row, column, deemedPositive).value;
      |t| > 0 && (t[0] == '-' <==> deemedPositive && t != "0")
  {
    var t := AmountCell(row, column, deemedPositive).value;
    if column in row {
      var cell := row[column];
      if ParseInt(cell).None? {
        FloatCellHasPoint(cell);
      }
    }
  }

  /** The amount column a line reads: debit for a Customer, credit otherwise. */
  function AmountColumn(deemedPositive: bool): string {
    if deemedPositive then "debit_in_account_currency" else "credit_in_account_currency"
  }

  /** The leader's own line (lines 91-96). */
  function LeaderEntry(row: Row): (r: Result<Entry>)
    ensures r.Ok? ==> r.value.ledgerName == Cell(row, "party", "")
    ensures r.Ok? ==> (r.value.deemedPositive <==> Cell(row, "party_type", "") == "Customer")
  {
    var positive := Cell(row, "party_type", "") == "Customer";
    var amount :- AmountCell(row, AmountColumn(positive), positive);
    Ok(Entry(Cell(row, "party", ""), positive, amount))
  }

  /** A following line (lines 99-104): `party_type` must be present here. */
  function FollowerEntry(row: Row): (r: Result<Entry>)
    ensures "party_type" !in row ==> r == Err(KeyError("party_type"))
    ensures r.Ok? ==> r.value.ledgerName == Cell(row, "party", "Ledger")
    ensures r.Ok? ==> (r.value.deemedPositive <==> row["party_type"] == "Customer")
  {
    var partyType :- Need(row, "party_type");
    var positive := partyType == "Customer";
    var amount :- AmountCell(row, AmountColumn(positive), positive);
    Ok(Entry(Cell(row, "party", "Ledger"), positive, amount))
  }

  /** The sign rule for any line: a Customer line reads the debit column,
      any other the credit column; an absent column gives "0", an integer
      cell gives plus or minus its value, a float cell its own digits; and
      the text starts with "-" exactly on a Customer line, bar the integer
      zero. */
  lemma SignRule(row: Row, e: Entry, leader: bool)
    requires (if leader then LeaderEntry(row) else FollowerEntry(row)) == Ok(e)
    ensures var column := AmountColumn(e.deemedPositive);
      && (column !in row ==> e.amount == "0")
      && (column in row ==> NumberCell(row[column]))
      && (column in row && ParseInt(row[column]).Some? ==>
            exists x :: ParseInt(row[column]) == Some(x) && ParseInt(e.amount) == Some(SignedAmount(e.deemedPositive, x)))
      && (column in row && ParseInt(row[column]).None? ==> Unsigned(e.amount) == Unsigned(row[column]))
    ensures |e.amount| > 0 && (e.amount[0] == '-' <==> e.deemedPositive && e.amount != "0")
  {
    var column := AmountColumn(e.deemedPositive);
    assert AmountCell(row, column, e.deemedPositive) == Ok(e.amount);
    AmountTextSign(row, column, e.deemedPositive);
    if column in row && ParseInt(row[column]).Some? {
      var x := ParseInt(row[column]).value;
      assert ParseInt(row[column]) == Some(x);
    }
  }

  /** One group's voucher. `remoteGuid(j)` and `keyGuid(j)` are the two
      uuid4 values drawn for the j-th voucher. */
  function MakeVoucher(j: nat, g: Group, remoteGuid: nat -> string, keyGuid: nat -> string): (r: Result<Voucher>)
    ensures r.Ok? ==> r.value.remoteId == remoteGuid(j) + "-00000001"
    ensures r.Ok? ==> r.value.vchKey == keyGuid(j) + "-0000b146:00000008"
    ensures r.Ok? ==> CellDate(g.leader, "posting_date") == Ok(r.value.date)
    ensures r.Ok? ==> r.value.partyLedgerName == Cell(g.leader, "party", "")
    ensures r.Ok? ==> |r.value.entries| == 1 + |g.followers|
    ensures r.Ok? ==> LeaderEntry(g.leader) == Ok(r.value.entries[0])
    ensures r.Ok? ==> forall i :: 0 <= i < |g.followers| ==> FollowerEntry(g.followers[i]) == Ok(r.value.entries[1 + i])
  {
    var date :- CellDate(g.leader, "posting_date");
    var main :- LeaderEntry(g.leader);
    var rest :- MapOk(g.followers, (i: nat, row: Row) => FollowerEntry(row));
    Ok(Voucher(remoteGuid(j) + "-00000001", keyGuid(j) + "-0000b146:00000008", date, Cell(g.leader, "party", ""), [main] + rest))
  }

  /** All vouchers, one per group, in the dict's order. */
  function Vouchers(rows: seq<Row>, remoteGuid: nat -> string, keyGuid: nat -> string): (r: Result<seq<Voucher>>)
    ensures r.Ok? ==> HasNames(rows) && Grouping(rows).Ok?
    ensures r.Ok? ==> Grouping(rows).Ok? && |r.value| == |Grouping(rows).value.groups|
    ensures r.Ok? ==> Grouping(rows).Ok? && forall j :: 0 <= j < |r.value| ==> MakeVoucher(j, Grouping(rows).value.groups[j], remoteGuid, keyGuid) == Ok(r.value[j])
  {
    var st :- Grouping(rows);
    MapOk(st.groups, (j: nat, g: Group) => MakeVoucher(j, g, remoteGuid, keyGuid))
  }

  /** Vouchers in terms of the rows: one per distinct leader name, in the
      order the names first lead, built from the name's last leader and
      the lines after it. */
  lemma VouchersFromRows(rows: seq<Row>, remoteGuid: nat -> string, keyGuid: nat -> string)
    requires Vouchers(rows, remoteGuid, keyGuid).Ok?
    ensures var vs := Vouchers(rows, remoteGuid, keyGuid).value;
      var keys := Distinct(LeaderNames(rows));
      && |vs| == |keys|
      && forall j :: 0 <= j < |vs| ==>
           MakeVoucher(j, ExpectedGroup(rows, keys[j]), remoteGuid, keyGuid) == Ok(vs[j])
  {
    GroupingIsExpected(rows);
  }

  // ---------------------------------------------------------------------
  // The element tree.

  function RenderEntry(e: Entry): Node {
    Elem("ALLLEDGERENTRIES.LIST", [], [
      Leaf("LEDGERNAME", e.ledgerName),
      Leaf("ISDEEMEDPOSITIVE", YesNo(e.deemedPositive)),
      Leaf("AMOUNT", e.amount)
    ])
  }

  function RenderVoucher(v: Voucher): Node {
    Elem("VOUCHER", [
        Attr("REMOTEID", v.remoteId), Attr("VCHKEY", v.vchKey), Attr("VCHTYPE", "Journal"),
        Attr("ACTION", "Create"), Attr("OBJVIEW", "Accounting Voucher View")
      ],
      [
        OldAuditIds("-1"),
        Leaf("DATE", v.date),
        Leaf("GUID", v.remoteId),
        Leaf("PARTYLEDGERNAME", v.partyLedgerName),
        Leaf("VOUCHERTYPENAME", "Journal")
      ] + seq(|v.entries|, i requires 0 <= i < |v.entries| => RenderEntry(v.entries[i])))
  }

  /** The whole document: every voucher inside one TALLYMESSAGE. */
  function Document(vouchers: seq<Voucher>): Node {
    Envelope("All Masters", [Message("xmlns:UDF", seq(|vouchers|, j requires 0 <= j < |vouchers| => RenderVoucher(vouchers[j])))])
  }

  /** The cell texts ET.tostring writes, in document order: each
      voucher's PARTYLEDGERNAME, then the LEDGERNAME of each of its lines.
      Every other text is a str the converter built itself. */
  function CellTexts(vouchers: seq<Voucher>): seq<string> {
    if |vouchers| == 0 then [] else
    var v := vouchers[|vouchers| - 1];
    CellTexts(vouchers[..|vouchers| - 1]) + [v.partyLedgerName] + LedgerNames(v.entries)
  }

  function LedgerNames(entries: seq<Entry>): (r: seq<string>)
    ensures |r| == |entries| && forall i :: 0 <= i < |entries| ==> r[i] == entries[i].ledgerName
  {
    seq(|entries|, i requires 0 <= i < |entries| => entries[i].ledgerName)
  }

  /** The position of the first number cell among the texts, if any. */
  function FirstNumber(texts: seq<string>): (r: Option<nat>)
    ensures r.Some? ==> r.value < |texts| && NumberCell(texts[r.value])
    ensures r.Some? ==> forall i :: 0 <= i < r.value ==> !NumberCell(texts[i])
    ensures r.None? <==> forall i :: 0 <= i < |texts| ==> !NumberCell(texts[i])
  {
    if |texts| == 0 then None
    else if NumberCell(texts[0]) then Some(0)
    else match FirstNumber(texts[1..])
      case Some(k) => Some(k + 1)
      case None => None
  }

  /** `ET.tostring(envelope)`: a text that is an int or a float (a number
      `party` cell) cannot be serialised, and the first one met raises
      TypeError; otherwise the document is written. */
  function Serialize(vouchers: seq<Voucher>): (r: Result<Node>)
    ensures r.Ok? <==> forall t :: t in CellTexts(vouchers) ==> !NumberCell(t)
    ensures r.Ok? ==> r.value == Document(vouchers)
    ensures r.Err? ==>
      exists i :: 0 <= i < |CellTexts(vouchers)| && r.error == TypeError(CellTexts(vouchers)[i])
        && NumberCell(CellTexts(vouchers)[i]) && forall h :: 0 <= h < i ==> !NumberCell(CellTexts(vouchers)[h])
  {
    var texts := CellTexts(vouchers);
    match FirstNumber(texts)
    case Some(i) => Err(TypeError(texts[i]))
    case None => Ok(Document(vouchers))
  }

  /** The conversion: build every voucher, then serialise the document. */
  function Convert(rows: seq<Row>, remoteGuid: nat -> string, keyGuid: nat -> string): (r: Result<Node>)
    ensures Vouchers(rows, remoteGuid, keyGuid).Err? ==> r == Err(Vouchers(rows, remoteGuid, keyGuid).error)
    ensures Vouchers(rows, remoteGuid, keyGuid).Ok? ==> r == Serialize(Vouchers(rows, remoteGuid, keyGuid).value)
  {
    var vs :- Vouchers(rows, remoteGuid, keyGuid);
    Serialize(vs)
  }

  /** Every voucher's party text and every line's ledger name is among
      the texts serialised. */
  lemma {:induction false} CellTextsHold(vouchers: seq<Voucher>, j: nat)
    requires j < |vouchers|
    ensures vouchers[j].partyLedgerName in CellTexts(vouchers)
    ensures forall i :: 0 <= i < |vouchers[j].entries| ==> vouchers[j].entries[i].ledgerName in CellTexts(vouchers)
  {
    var n := |vouchers| - 1;
    var init := CellTexts(vouchers[..n]);
    var v := vouchers[n];
    assert CellTexts(vouchers) == init + [v.partyLedgerName] + LedgerNames(v.entries);
    if j < n {
      CellTextsHold(vouchers[..n], j);
      assert vouchers[..n][j] == vouchers[j];
    } else {
      forall i | 0 <= i < |v.entries| ensures v.entries[i].ledgerName in CellTexts(vouchers) {
        assert CellTexts(vouchers)[|init| + 1 + i] == LedgerNames(v.entries)[i];
      }
    }
  }

  /** A voucher whose party, or one of whose lines' ledger, is a number
      cell makes the serialisation raise TypeError. */
  lemma NumberPartyRaises(vouchers: seq<Voucher>, j: nat)
    requires j < |vouchers|
    requires NumberCell(vouchers[j].partyLedgerName)
      || exists i :: 0 <= i < |vouchers[j].entries| && NumberCell(vouchers[j].entries[i].ledgerName)
    ensures Serialize(vouchers).Err? && Serialize(vouchers).error.TypeError?
  {
    CellTextsHold(vouchers, j);
  }

  /** A rendered voucher: the GUID element repeats the REMOTEID attribute,
      and after five fixed elements come exactly the ledger lines, the
      leader's first; ISDEEMEDPOSITIVE is "Yes" exactly for Customer lines,
      whose AMOUNT alone can start with "-". */
  lemma VoucherShape(v: Voucher)
    ensures var n := RenderVoucher(v);
      && AttrValue(n, "REMOTEID") == Some(v.remoteId)
      && n.children[2] == Leaf("GUID", v.remoteId)
      && |n.children| == 5 + |v.entries|
      && forall i :: 0 <= i < |v.entries| ==>
           && n.children[5 + i].tag == "ALLLEDGERENTRIES.LIST"
           && n.children[5 + i].children[0].text == v.entries[i].ledgerName
           && (n.children[5 + i].children[1].text == "Yes" <==> v.entries[i].deemedPositive)
           && n.children[5 + i].children[2].text == v.entries[i].amount
  {
  }

  /** The document holds a single TALLYMESSAGE whose children are the
      vouchers in order, under the report name "All Masters". */
  lemma DocumentShape(vouchers: seq<Voucher>)
    ensures ReportName(Document(vouchers)) == "All Masters"
    ensures |RequestData(Document(vouchers))| == 1
    ensures RequestData(Document(vouchers))[0].tag == "TALLYMESSAGE"
    ensures |RequestData(Document(vouchers))[0].children| == |vouchers|
    ensures forall j :: 0 <= j < |vouchers| ==> RequestData(Document(vouchers))[0].children[j] == RenderVoucher(vouchers[j])
  {
    EnvelopeLayout("All Masters", [Message("xmlns:UDF", seq(|vouchers|, j requires 0 <= j < |vouchers| => RenderVoucher(vouchers[j])))]);
  }
}
