// The reservation engine's simplified calendar: a date is a (month, day)
// pair, every month has exactly 30 days and there is no year. Walking
// forward one day rolls past day 30 into day 1 of the next month; the
// month number itself is never wrapped (month 12 rolls into month 13).

module Dates {

  datatype Date = Date(month: int, day: int)

  const DaysPerMonth: int := 30

  /** A day number the 30-day rule can produce: 1..30. */
  predicate ValidDay(x: Date)
  {
    1 <= x.day <= DaysPerMonth
  }

  /** The position of a date on the 30-day time line; one step of the walk
      moves it by exactly one. */
  function Index(x: Date): int
  {
    DaysPerMonth * x.month + x.day - 1
  }

  /** `day += 1; if day > 30: day, month = 1, month + 1`. */
  function NextDay(x: Date): (y: Date)
    ensures ValidDay(x) ==> ValidDay(y) && Index(y) == Index(x) + 1
    ensures y.day != 31
  {
    if x.day + 1 > DaysPerMonth then Date(x.month + 1, 1) else Date(x.month, x.day + 1)
  }

  /** A stay the walking loops of the source terminate on: both ends have a
      day in 1..30 and check-in does not come after check-out. */
  predicate ValidRange(checkIn: Date, checkOut: Date)
  {
    ValidDay(checkIn) && ValidDay(checkOut) && Index(checkIn) <= Index(checkOut)
  }

  /** The dates a walk from checkIn to checkOut (both inclusive) visits. */
  predicate InRange(checkIn: Date, checkOut: Date, x: Date)
  {
    ValidDay(x) && Index(checkIn) <= Index(x) <= Index(checkOut)
  }

  /** Two valid dates on the same position of the time line are equal. */
  lemma IndexInjective(x: Date, y: Date)
    requires ValidDay(x) && ValidDay(y)
    ensures x == y <==> Index(x) == Index(y)
  {
  }

  /** The sequence of dates visited, one step at a time, from checkIn until
      the step that reaches checkOut. */
  function Walk(checkIn: Date, checkOut: Date): (w: seq<Date>)
    requires ValidRange(checkIn, checkOut)
    decreases Index(checkOut) - Index(checkIn)
  {
    if checkIn == checkOut then [checkIn]
    else
      IndexInjective(checkIn, checkOut);
      [checkIn] + Walk(NextDay(checkIn), checkOut)
  }

  /** The k-th date of the walk sits k steps after check-in; the walk is one
      longer than the distance between its ends. */
  lemma {:induction false} WalkAt(checkIn: Date, checkOut: Date, k: nat)
    requires ValidRange(checkIn, checkOut)
    ensures |Walk(checkIn, checkOut)| == Index(checkOut) - Index(checkIn) + 1
    ensures k < |Walk(checkIn, checkOut)| ==>
      ValidDay(Walk(checkIn, checkOut)[k]) &&
      Index(Walk(checkIn, checkOut)[k]) == Index(checkIn) + k
    decreases Index(checkOut) - Index(checkIn)
  {
    if checkIn != checkOut {
      IndexInjective(checkIn, checkOut);
      WalkAt(NextDay(checkIn), checkOut, if k == 0 then 0 else k - 1);
    }
  }

  /** The walk visits exactly the valid dates between its ends. */
  lemma WalkIsRange(checkIn: Date, checkOut: Date, x: Date)
    requires ValidRange(checkIn, checkOut)
    ensures x in Walk(checkIn, checkOut) <==> InRange(checkIn, checkOut, x)
  {
    var w := Walk(checkIn, checkOut);
    WalkAt(checkIn, checkOut, 0);
    if x in w {
      var k :| 0 <= k < |w| && w[k] == x;
      WalkAt(checkIn, checkOut, k);
    }
    if InRange(checkIn, checkOut, x) {
      var k := Index(x) - Index(checkIn);
      WalkAt(checkIn, checkOut, k);
      IndexInjective(w[k], x);
      assert w[k] == x;
    }
  }

  /** The 30-day rollover: (1,29) to (2,2) visits four dates and no day 31. */
  lemma RolloverExample()
    ensures Walk(Date(1, 29), Date(2, 2)) == [Date(1, 29), Date(1, 30), Date(2, 1), Date(2, 2)]
    ensures forall x :: x in Walk(Date(1, 29), Date(2, 2)) ==> x.day != 31
  {
    assert NextDay(Date(1, 29)) == Date(1, 30);
    assert NextDay(Date(1, 30)) == Date(2, 1);
    assert NextDay(Date(2, 1)) == Date(2, 2);
  }
}
