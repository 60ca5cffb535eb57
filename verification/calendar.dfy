/** Time as the pipeline uses it: instants are epoch seconds (`real`, UTC),
    calendar days are whole days since 1970-01-01, and a daily calendar is
    a contiguous run of days. */
module Calendar {

  const SecondsPerDay: int := 86400

  /** Python's `int(x)` on a float: truncation toward zero. */
  function TruncToInt(x: real): (r: int)
    ensures 0.0 <= x ==> r as real <= x < r as real + 1.0
    ensures x < 0.0 ==> r as real - 1.0 < x <= r as real
  {
    if x >= 0.0 then x.Floor else -((-x).Floor)
  }

  /** The calendar day (UTC midnight normalisation) of an instant. */
  function Day(t: real): (d: int)
    ensures (d * SecondsPerDay) as real <= t < ((d + 1) * SecondsPerDay) as real
  {
    (t / SecondsPerDay as real).Floor
  }

  /** The instant at midnight UTC opening day `d`. */
  function Midnight(d: int): real {
    (d * SecondsPerDay) as real
  }

  lemma DayOfMidnight(d: int)
    ensures Day(Midnight(d)) == d
  {
  }

  /** Whole days are ordered like their instants: an instant at or after the
      midnight opening day `d` falls on day `d` or later. */
  lemma DayMonotone(t: real, d: int)
    ensures Midnight(d) <= t <==> d <= Day(t)
  {
  }

  /** Later instants fall on the same or a later day. */
  lemma DayMono(a: real, b: real)
    requires a <= b
    ensures Day(a) <= Day(b)
  {
    DayMonotone(b, Day(a));
  }

  /** `min()` of a non-empty column of instants. */
  function Earliest(ts: seq<real>): (r: real)
    requires |ts| > 0
    ensures r in ts
    ensures forall i :: 0 <= i < |ts| ==> r <= ts[i]
  {
    if |ts| == 1 then ts[0]
    else
      var m := Earliest(ts[1..]);
      assert forall i :: 1 <= i < |ts| ==> ts[i] == ts[1..][i - 1];
      if ts[0] <= m then ts[0] else m
  }

  /** `max()` of a non-empty column of instants. */
  function Latest(ts: seq<real>): (r: real)
    requires |ts| > 0
    ensures r in ts
    ensures forall i :: 0 <= i < |ts| ==> ts[i] <= r
  {
    if |ts| == 1 then ts[0]
    else
      var m := Latest(ts[1..]);
      assert forall i :: 1 <= i < |ts| ==> ts[i] == ts[1..][i - 1];
      if ts[0] >= m then ts[0] else m
  }

  /** `pd.date_range(lo, hi)` with daily frequency: every day from `lo` to
      `hi`, both included, in order. */
  function Days(lo: int, hi: int): (r: seq<int>)
    ensures |r| == if lo <= hi then hi - lo + 1 else 0
    ensures forall i :: 0 <= i < |r| ==> r[i] == lo + i
  {
    if lo <= hi then seq(hi - lo + 1, i requires 0 <= i <= hi - lo => lo + i) else []
  }

  lemma DaysMembership(lo: int, hi: int, d: int)
    ensures d in Days(lo, hi) <==> lo <= d <= hi
  {
    if lo <= d <= hi {
      assert Days(lo, hi)[d - lo] == d;
    }
  }

  // ---------------------------------------------------------------------------
  // Gregorian years
  // ---------------------------------------------------------------------------

  predicate IsLeap(y: int) {
    y % 4 == 0 && (y % 100 != 0 || y % 400 == 0)
  }

  function DaysInYear(y: int): int {
    if IsLeap(y) then 366 else 365
  }

  /** Day number of 1 January of year `y`. */
  function YearStartDay(y: int): int
    decreases if y >= 1970 then y - 1970 else 1970 - y
  {
    if y == 1970 then 0
    else if y > 1970 then YearStartDay(y - 1) + DaysInYear(y - 1)
    else YearStartDay(y + 1) - DaysInYear(y)
  }

  lemma YearStartStep(y: int)
    ensures YearStartDay(y + 1) == YearStartDay(y) + DaysInYear(y)
  {
  }

  lemma {:induction false} YearStartMonotone(a: int, b: int)
    requires a <= b
    ensures YearStartDay(a) <= YearStartDay(b)
    ensures a < b ==> YearStartDay(a) < YearStartDay(b)
    decreases b - a
  {
    if a < b {
      YearStartStep(a);
      YearStartMonotone(a + 1, b);
    }
  }

  function YearUp(y: int, d: int): (r: int)
    requires YearStartDay(y) <= d
    ensures YearStartDay(r) <= d < YearStartDay(r + 1)
    decreases d - YearStartDay(y)
  {
    YearStartStep(y);
    if d < YearStartDay(y + 1) then y else YearUp(y + 1, d)
  }

  function YearDown(y: int, d: int): (r: int)
    requires d < YearStartDay(y + 1)
    ensures YearStartDay(r) <= d < YearStartDay(r + 1)
    decreases YearStartDay(y + 1) - d
  {
    YearStartStep(y);
    if YearStartDay(y) <= d then y else YearDown(y - 1, d)
  }

  /** The Gregorian year that day `d` belongs to. */
  function YearOfDay(d: int): (y: int)
    ensures YearStartDay(y) <= d < YearStartDay(y + 1)
  {
    if d >= 0 then YearUp(1970, d) else YearDown(1969, d)
  }

  /** Years partition the days: the year found is the only one containing `d`. */
  lemma YearOfDayUnique(d: int, y: int)
    requires YearStartDay(y) <= d < YearStartDay(y + 1)
    ensures YearOfDay(d) == y
  {
    var z := YearOfDay(d);
    if z < y {
      YearStartMonotone(z + 1, y);
    } else if y < z {
      YearStartMonotone(y + 1, z);
    }
  }
}
