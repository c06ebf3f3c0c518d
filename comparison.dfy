/** The comparison series: two schedules aligned by index into one row per
    period of the longer one, with null where a schedule has already ended
    (src/App.jsx:66-79). */
module Comparison {
  import opened Cadence
  import opened Amortisation

  /** A chart field that is either a number or JavaScript's `null`. */
  datatype Nullable<T> = Null | Value(v: T)

  /** One row of the comparison. `date` is `Null` where the JavaScript code would
      put the empty string. */
  datatype Row = Row(
    date: Nullable<int>,
    balance: Nullable<int>,
    interest: Nullable<int>,
    totalPaid: Nullable<int>,
    balance2: Nullable<int>,
    interest2: Nullable<int>,
    totalPaid2: Nullable<int>)

  /** The three amounts of a record, without its date. */
  datatype Amounts = Amounts(balance: int, interest: int, totalPaid: int)

  function AmountsOf(r: Record): Amounts
  {
    Amounts(r.balance, r.interest, r.totalPaid)
  }

  function MaxLength(l1: nat, l2: nat): nat
  {
    if l1 >= l2 then l1 else l2
  }

  /** `s[i]?.field ?? null` for the three amounts. */
  function Field(s: seq<Record>, i: nat, pick: Record -> int): Nullable<int>
  {
    if i < |s| then Value(pick(s[i])) else Null
  }

  /** `s1[i]?.date || s2[i]?.date || ''`: a record's date is never empty, so
      the first schedule that reaches index `i` supplies it. */
  function RowDate(s1: seq<Record>, s2: seq<Record>, i: nat): Nullable<int>
  {
    if i < |s1| then Value(s1[i].date) else if i < |s2| then Value(s2[i].date) else Null
  }

  function MergeRow(s1: seq<Record>, s2: seq<Record>, i: nat): Row
  {
    Row(RowDate(s1, s2, i),
        Field(s1, i, (r: Record) => r.balance),
        Field(s1, i, (r: Record) => r.interest),
        Field(s1, i, (r: Record) => r.totalPaid),
        Field(s2, i, (r: Record) => r.balance),
        Field(s2, i, (r: Record) => r.interest),
        Field(s2, i, (r: Record) => r.totalPaid))
  }

  /** `Array.from({ length: maxLength }).map(...)`: a row per index of the longer
      schedule. A schedule's fields are present exactly at the indices it
      reaches, and every row has a date. */
  function Merge(s1: seq<Record>, s2: seq<Record>): (rows: seq<Row>)
    ensures |rows| == MaxLength(|s1|, |s2|)
    ensures forall i :: 0 <= i < |rows| ==> rows[i].date != Null
    ensures forall i :: 0 <= i < |rows| ==>
      (i < |s1| <==> rows[i].balance != Null) &&
      (i < |s1| <==> rows[i].interest != Null) &&
      (i < |s1| <==> rows[i].totalPaid != Null)
    ensures forall i :: 0 <= i < |rows| ==>
      (i < |s2| <==> rows[i].balance2 != Null) &&
      (i < |s2| <==> rows[i].interest2 != Null) &&
      (i < |s2| <==> rows[i].totalPaid2 != Null)
  {
    seq(MaxLength(|s1|, |s2|), i requires 0 <= i => MergeRow(s1, s2, i))
  }

  /** Where a schedule reaches index `i`, the row carries that record's values
      unchanged (a zero stays a zero rather than becoming null); the date
      comes from the first schedule when it reaches `i`, else the second. */
  lemma MergeValues(s1: seq<Record>, s2: seq<Record>, i: nat)
    requires i < |Merge(s1, s2)|
    ensures var row := Merge(s1, s2)[i];
      row.date == Value(if i < |s1| then s1[i].date else s2[i].date) &&
      (i < |s1| ==> row.balance == Value(s1[i].balance) &&
                    row.interest == Value(s1[i].interest) &&
                    row.totalPaid == Value(s1[i].totalPaid)) &&
      (i < |s2| ==> row.balance2 == Value(s2[i].balance) &&
                    row.interest2 == Value(s2[i].interest) &&
                    row.totalPaid2 == Value(s2[i].totalPaid))
  {
  }

  /** The first schedule read back from the rows: their leading run with all
      first-schedule fields present. */
  function FirstColumn(rows: seq<Row>): seq<Record>
  {
    if |rows| == 0 then []
    else match (rows[0].date, rows[0].balance, rows[0].interest, rows[0].totalPaid)
      case (Value(d), Value(b), Value(n), Value(t)) => [Record(d, b, n, t)] + FirstColumn(rows[1..])
      case _ => []
  }

  /** The second schedule's amounts read back from the rows. */
  function SecondColumn(rows: seq<Row>): seq<Amounts>
  {
    if |rows| == 0 then []
    else match (rows[0].balance2, rows[0].interest2, rows[0].totalPaid2)
      case (Value(b), Value(n), Value(t)) => [Amounts(b, n, t)] + SecondColumn(rows[1..])
      case _ => []
  }

  lemma {:induction false} FirstColumnFrom(s1: seq<Record>, s2: seq<Record>, k: nat)
    requires k <= |s1|
    ensures FirstColumn(Merge(s1, s2)[k..]) == s1[k..]
    decreases |s1| - k
  {
    var rows := Merge(s1, s2);
    if k < |s1| {
      FirstColumnFrom(s1, s2, k + 1);
      MergeValues(s1, s2, k);
      assert rows[k..][1..] == rows[k + 1..];
      assert s1[k..] == [s1[k]] + s1[k + 1..];
    } else if k < |rows| {
      assert rows[k..][0] == rows[k];
    }
  }

  lemma {:induction false} SecondColumnFrom(s1: seq<Record>, s2: seq<Record>, k: nat)
    requires k <= |s2|
    ensures SecondColumn(Merge(s1, s2)[k..]) == seq(|s2| - k, j requires 0 <= j < |s2| - k => AmountsOf(s2[k + j]))
    decreases |s2| - k
  {
    var rows := Merge(s1, s2);
    if k < |s2| {
      SecondColumnFrom(s1, s2, k + 1);
      MergeValues(s1, s2, k);
      assert rows[k..][1..] == rows[k + 1..];
    } else if k < |rows| {
      assert rows[k..][0] == rows[k];
    }
  }

  /** Merging loses neither schedule: the first can be read back whole, and
      the second's amounts can be read back whole. */
  lemma MergeRoundTrip(s1: seq<Record>, s2: seq<Record>)
    ensures FirstColumn(Merge(s1, s2)) == s1
    ensures SecondColumn(Merge(s1, s2)) == seq(|s2|, j requires 0 <= j < |s2| => AmountsOf(s2[j]))
  {
    FirstColumnFrom(s1, s2, 0);
    SecondColumnFrom(s1, s2, 0);
    assert Merge(s1, s2)[0..] == Merge(s1, s2);
    assert s1[0..] == s1;
  }

  /** The two loans of the comparison simulated and merged (lines 66-79). */
  method CompareLoans(loan1: Params, loan2: Params) returns (merged: seq<Row>)
    ensures merged == Merge(Schedule(loan1), Schedule(loan2))
    ensures forall i :: 0 <= i < |merged| ==>
      (merged[i].balance == Null || merged[i].balance.v >= 0) &&
      (merged[i].balance2 == Null || merged[i].balance2.v >= 0)
  {
    var s1 := CalculateSchedule(loan1);
    var s2 := CalculateSchedule(loan2);
    merged := Merge(s1, s2);
    BalancesNonNegative(loan1);
    BalancesNonNegative(loan2);
    forall i | 0 <= i < |merged|
      ensures merged[i].balance == Null || merged[i].balance.v >= 0
      ensures merged[i].balance2 == Null || merged[i].balance2.v >= 0
    {
      MergeValues(s1, s2, i);
    }
  }
}
