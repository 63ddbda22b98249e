/** The weekly report's post-processing: rows of (MySQL `DAYOFWEEK`,
    metres) for the current week become seven Monday-first daily distances
    and their total. */
module Weekly {
  import opened FixedPoint

  /** A grouped row: `DAYOFWEEK(ymd)` (1 = Sunday ... 7 = Saturday) and the
      day's `SUM(total_distance_m)`. */
  datatype DowRow = DowRow(dow: int, metres: int)

  const DaysPerWeek: nat := 7

  /** Whether `dow` is a `DAYOFWEEK` value. */
  predicate IsDow(dow: int) {
    1 <= dow <= DaysPerWeek
  }

  /** The Monday-first position of a `DAYOFWEEK` value: `(dow + 5) % 7`
      (both operands are positive, so the truncating `%` of JavaScript and
      Dafny's agree). */
  function DowIndex(dow: int): (k: int)
    requires IsDow(dow)
    ensures 0 <= k < DaysPerWeek
  {
    (dow + 5) % DaysPerWeek
  }

  /** The `DAYOFWEEK` value at a Monday-first position. */
  function DowAt(k: int): (dow: int)
    requires 0 <= k < DaysPerWeek
    ensures IsDow(dow)
  {
    (k + 1) % DaysPerWeek + 1
  }

  /** The remap is a bijection from 1..7 onto 0..6. */
  lemma DowIndexIsBijective()
    ensures forall dow :: IsDow(dow) ==> DowAt(DowIndex(dow)) == dow
    ensures forall k :: 0 <= k < DaysPerWeek ==> DowIndex(DowAt(k)) == k
    ensures forall d1, d2 :: IsDow(d1) && IsDow(d2) && DowIndex(d1) == DowIndex(d2) ==> d1 == d2
  {
  }

  /** Monday (2) is first, Wednesday (4) third and Sunday (1) last. */
  lemma DowIndexNamedDays()
    ensures DowIndex(2) == 0
    ensures DowIndex(4) == 2
    ensures DowIndex(1) == 6
    ensures DowIndex(7) == 5
  {
  }

  /** Whether every row carries a `DAYOFWEEK` value. */
  predicate WellFormedRows(rows: seq<DowRow>) {
    forall i :: 0 <= i < |rows| ==> IsDow(rows[i].dow)
  }

  /** Whether no row maps to position `k`. */
  predicate NoRowFor(rows: seq<DowRow>, k: int)
    requires WellFormedRows(rows)
  {
    forall i :: 0 <= i < |rows| ==> DowIndex(rows[i].dow) != k
  }

  /** Whether the rows name each day at most once, as `GROUP BY dow` does. */
  predicate OneRowPerDay(rows: seq<DowRow>) {
    forall i, j :: 0 <= i < j < |rows| ==> rows[i].dow != rows[j].dow
  }

  /** The reference value of position `k`: the rounded distance of the last
      row that maps there (a later row overwrites an earlier one), or 0 when
      no row maps there. */
  function DayValue(rows: seq<DowRow>, k: int): int
    requires WellFormedRows(rows)
    decreases |rows|
  {
    if |rows| == 0 then 0
    else
      var last := rows[|rows| - 1];
      if DowIndex(last.dow) == k then CentiKmOfMetres(last.metres)
      else DayValue(rows[..|rows| - 1], k)
  }

  /** A position that no row maps to stays 0. */
  lemma {:induction false} DayValueWithoutRows(rows: seq<DowRow>, k: int)
    requires WellFormedRows(rows)
    requires NoRowFor(rows, k)
    ensures DayValue(rows, k) == 0
    decreases |rows|
  {
    if |rows| > 0 {
      DayValueWithoutRows(rows[..|rows| - 1], k);
    }
  }

  /** With one row per day, as the grouped query returns, each position holds
      its own row's rounded distance. */
  lemma {:induction false} DayValueOfRow(rows: seq<DowRow>, i: int)
    requires WellFormedRows(rows)
    requires 0 <= i < |rows|
    requires OneRowPerDay(rows)
    ensures DayValue(rows, DowIndex(rows[i].dow)) == CentiKmOfMetres(rows[i].metres)
    decreases |rows|
  {
    if i < |rows| - 1 {
      DayValueOfRow(rows[..|rows| - 1], i);
    }
  }

  /** The sum of a sequence, as `reduce((a, b) => a + b, 0)`. */
  function Sum(xs: seq<int>): int
    decreases |xs|
  {
    if |xs| == 0 then 0 else Sum(xs[..|xs| - 1]) + xs[|xs| - 1]
  }

  /** The weekly report: `dailyDistances` in hundredths of a kilometre,
      Monday first, and their total. */
  method WeeklyDistances(rows: seq<DowRow>) returns (days: seq<int>, total: int)
    requires WellFormedRows(rows)
    ensures |days| == DaysPerWeek
    ensures forall k :: 0 <= k < DaysPerWeek ==> days[k] == DayValue(rows, k)
    ensures forall k :: 0 <= k < DaysPerWeek && NoRowFor(rows, k) ==> days[k] == 0
    ensures OneRowPerDay(rows) ==>
      forall i :: 0 <= i < |rows| ==> days[DowIndex(rows[i].dow)] == CentiKmOfMetres(rows[i].metres)
    ensures total == Sum(days)
  {
    days := seq(DaysPerWeek, _ => 0);
    var i := 0;
    while i < |rows|
      invariant 0 <= i <= |rows|
      invariant |days| == DaysPerWeek
      invariant forall k :: 0 <= k < DaysPerWeek ==> days[k] == DayValue(rows[..i], k)
    {
      assert rows[..i + 1][..i] == rows[..i];
      days := days[DowIndex(rows[i].dow) := CentiKmOfMetres(rows[i].metres)];
      i := i + 1;
    }
    assert rows[..i] == rows;
    total := 0;
    var j := 0;
    while j < DaysPerWeek
      invariant 0 <= j <= DaysPerWeek
      invariant total == Sum(days[..j])
    {
      assert days[..j + 1][..j] == days[..j];
      total := total + days[j];
      j := j + 1;
    }
    assert days[..j] == days;
    forall k | 0 <= k < DaysPerWeek && NoRowFor(rows, k)
      ensures days[k] == 0
    {
      DayValueWithoutRows(rows, k);
    }
    if OneRowPerDay(rows) {
      forall i | 0 <= i < |rows|
        ensures days[DowIndex(rows[i].dow)] == CentiKmOfMetres(rows[i].metres)
      {
        DayValueOfRow(rows, i);
      }
    }
  }

  /** A run of 5555 m finishing on a Wednesday fills the third position
      with 5.56 km and leaves Monday at 0. */
  lemma WednesdayExample()
    ensures DayValue([DowRow(4, 5555)], 2) == 556
    ensures DayValue([DowRow(4, 5555)], 0) == 0
  {
  }
}
