/** Weekly advances: the stored advance rows and their aggregation per member for one week
    (get_weekly_advances). The database query is a filter over the rows. */
module Advances {
  import opened Calendar
  import opened Tables
  import opened Models

  /** The rows filed under the week (weekStart, weekEnd), in storage order. */
  function RecordsOfWeek(records: seq<AdvanceRecord>, weekStart: Date, weekEnd: Date): (rows: seq<AdvanceRecord>)
    ensures |rows| <= |records|
    ensures forall r :: r in rows <==> r in records && r.weekStart == weekStart && r.weekEnd == weekEnd
    ensures forall r :: multiset(rows)[r] == (if r.weekStart == weekStart && r.weekEnd == weekEnd then multiset(records)[r] else 0)
  {
    if |records| == 0 then []
    else
      var rest := RecordsOfWeek(records[..|records| - 1], weekStart, weekEnd);
      var last := records[|records| - 1];
      assert records == records[..|records| - 1] + [last];
      if last.weekStart == weekStart && last.weekEnd == weekEnd then rest + [last] else rest
  }

  /** The sum of the amounts of the rows of one member. */
  function MemberSum(rows: seq<AdvanceRecord>, name: string): real {
    if |rows| == 0 then 0.0
    else MemberSum(rows[..|rows| - 1], name) + (if rows[|rows| - 1].memberName == name then rows[|rows| - 1].amount else 0.0)
  }

  /** The sum of all amounts. */
  function RowsTotal(rows: seq<AdvanceRecord>): real {
    if |rows| == 0 then 0.0 else RowsTotal(rows[..|rows| - 1]) + rows[|rows| - 1].amount
  }

  predicate HasRowsFor(rows: seq<AdvanceRecord>, name: string) {
    exists j :: 0 <= j < |rows| && rows[j].memberName == name
  }

  /** Extending the rows by one: the sums and the set of members grow by that row. */
  lemma PrefixStep(rows: seq<AdvanceRecord>, i: int)
    requires 0 <= i < |rows|
    ensures forall name ::
      MemberSum(rows[..i + 1], name) == MemberSum(rows[..i], name) + (if rows[i].memberName == name then rows[i].amount else 0.0)
    ensures forall name :: HasRowsFor(rows[..i + 1], name) <==> HasRowsFor(rows[..i], name) || rows[i].memberName == name
    ensures RowsTotal(rows[..i + 1]) == RowsTotal(rows[..i]) + rows[i].amount
  {
    var p := rows[..i + 1];
    assert p[..i] == rows[..i];
    forall name ensures HasRowsFor(p, name) <==> HasRowsFor(rows[..i], name) || rows[i].memberName == name {
      if HasRowsFor(p, name) {
        var j :| 0 <= j < i + 1 && p[j].memberName == name;
        if j < i {
          assert rows[..i][j].memberName == name;
        }
      }
      if HasRowsFor(rows[..i], name) {
        var j :| 0 <= j < i && rows[..i][j].memberName == name;
        assert p[j].memberName == name;
      }
      assert p[i] == rows[i];
    }
  }

  /** t holds the per-member totals of rows. */
  ghost predicate Accumulates(t: Table, rows: seq<AdvanceRecord>) {
    Distinct(t) &&
    (forall name :: Has(t, name) <==> HasRowsFor(rows, name)) &&
    (forall name :: Get(t, name) == MemberSum(rows, name)) &&
    Total(t) == RowsTotal(rows)
  }

  /** Adding one more row's amount to its member keeps the totals right. */
  lemma AccumulateStep(t: Table, rows: seq<AdvanceRecord>, i: int)
    requires 0 <= i < |rows| && Accumulates(t, rows[..i])
    ensures Accumulates(AddTo(t, rows[i].memberName, rows[i].amount), rows[..i + 1])
  {
    PrefixStep(rows, i);
    AddToFacts(t, rows[i].memberName, rows[i].amount);
  }

  /** The per-member totals of rows: each row's amount added to its member, in row order. */
  function WeeklyTotals(rows: seq<AdvanceRecord>): Table {
    if |rows| == 0 then []
    else
      var last := rows[|rows| - 1];
      AddTo(WeeklyTotals(rows[..|rows| - 1]), last.memberName, last.amount)
  }

  /** The totals have one key per member with rows, holding the sum of that member's amounts,
      and they add up to the sum of all rows. */
  lemma {:induction false} WeeklyTotalsAccumulate(rows: seq<AdvanceRecord>)
    ensures Accumulates(WeeklyTotals(rows), rows)
    decreases |rows|
  {
    if |rows| == 0 {
      assert forall name :: !HasRowsFor(rows, name);
    } else {
      var i := |rows| - 1;
      WeeklyTotalsAccumulate(rows[..i]);
      assert rows[..i][..i] == rows[..i];
      assert rows[..i + 1] == rows;
      AccumulateStep(WeeklyTotals(rows[..i]), rows, i);
    }
  }

  /** get_weekly_advances: the advance rows of the week, summed per member (one key per member
      with rows that week, holding that member's total, the totals adding up to all rows). */
  method GetWeeklyAdvances(records: seq<AdvanceRecord>, weekStart: Date, weekEnd: Date) returns (advances: Table)
    ensures advances == WeeklyTotals(RecordsOfWeek(records, weekStart, weekEnd))
    ensures Accumulates(advances, RecordsOfWeek(records, weekStart, weekEnd))
  {
    var rows := RecordsOfWeek(records, weekStart, weekEnd);
    advances := [];
    var i := 0;
    while i < |rows|
      invariant 0 <= i <= |rows|
      invariant advances == WeeklyTotals(rows[..i])
    {
      var row := rows[i];
      assert rows[..i + 1][..i] == rows[..i];
      advances := AddTo(advances, row.memberName, row.amount);
      i := i + 1;
    }
    assert rows[..|rows|] == rows;
    assert Accumulates(advances, rows) by {
      WeeklyTotalsAccumulate(rows);
    }
  }
}
