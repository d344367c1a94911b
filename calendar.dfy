// The occupancy ledger of backend/calendar.py: a list of month nodes sorted
// by month number, each holding a list of day nodes sorted by day number,
// each holding a list of (room type, quantity) pairs.
//
// The source links the nodes with next_month / next_day pointers and
// splices new nodes in place; here each list is a sequence of node values
// that the methods rebuild, while keeping the source's scan-then-insert
// loops. The point lookup is count_booked_rooms of
// backend/manager_report.py, which is also what reservation_system.py and
// room_manager.py use under the name get_booked_quantity.

module Calendar {
  import opened Dates

  datatype Booking = Booking(roomType: string, qty: int)

  datatype DayNode = DayNode(dayNumber: int, bookings: seq<Booking>)

  datatype MonthNode = MonthNode(monthNumber: int, dayList: seq<DayNode>)

  // ---------------------------------------------------------------------
  // Shape of the ledger
  // ---------------------------------------------------------------------

  predicate PositiveQuantities(bookings: seq<Booking>)
  {
    forall k :: 0 <= k < |bookings| ==> bookings[k].qty >= 1
  }

  /** Day numbers strictly ascending: no duplicates, chronological. */
  predicate DaysAscending(days: seq<DayNode>)
  {
    forall i, j :: 0 <= i < j < |days| ==> days[i].dayNumber < days[j].dayNumber
  }

  predicate DaysWellFormed(days: seq<DayNode>)
  {
    DaysAscending(days) && forall j :: 0 <= j < |days| ==> PositiveQuantities(days[j].bookings)
  }

  /** Month numbers strictly ascending: no duplicates, chronological. */
  predicate MonthsAscending(head: seq<MonthNode>)
  {
    forall i, j :: 0 <= i < j < |head| ==> head[i].monthNumber < head[j].monthNumber
  }

  predicate WellFormed(head: seq<MonthNode>)
  {
    MonthsAscending(head) && forall i :: 0 <= i < |head| ==> DaysWellFormed(head[i].dayList)
  }

  // ---------------------------------------------------------------------
  // The lookup (count_booked_rooms) as a specification function
  // ---------------------------------------------------------------------

  predicate HasType(bookings: seq<Booking>, roomType: string)
  {
    exists k :: 0 <= k < |bookings| && bookings[k].roomType == roomType
  }

  /** The quantity of the first pair naming the room type, or 0. */
  function QtyOf(bookings: seq<Booking>, roomType: string): int
  {
    if bookings == [] then 0
    else if bookings[0].roomType == roomType then bookings[0].qty
    else QtyOf(bookings[1..], roomType)
  }

  /** Scan of one month's days: the first day with that number that lists
      the type answers; a day without the type lets the scan go on. */
  function DayLookup(days: seq<DayNode>, day: int, roomType: string): int
  {
    if days == [] then 0
    else if days[0].dayNumber == day && HasType(days[0].bookings, roomType) then
      QtyOf(days[0].bookings, roomType)
    else DayLookup(days[1..], day, roomType)
  }

  /** Booked quantity of a room type on (month, day): the scan stops at the
      first month node with that number, whether or not the day is found. */
  function BookedCount(head: seq<MonthNode>, month: int, day: int, roomType: string): int
  {
    if head == [] then 0
    else if head[0].monthNumber == month then DayLookup(head[0].dayList, day, roomType)
    else BookedCount(head[1..], month, day, roomType)
  }

  lemma {:induction false} QtyOfAbsent(bookings: seq<Booking>, roomType: string)
    requires !HasType(bookings, roomType)
    ensures QtyOf(bookings, roomType) == 0
  {
    if bookings != [] {
      assert !HasType(bookings[1..], roomType) by {
        forall k | 0 <= k < |bookings| - 1 ensures bookings[1..][k].roomType != roomType {
          assert bookings[1..][k] == bookings[k + 1];
        }
      }
      QtyOfAbsent(bookings[1..], roomType);
    }
  }

  lemma {:induction false} QtyOfPresent(bookings: seq<Booking>, roomType: string)
    requires PositiveQuantities(bookings) && HasType(bookings, roomType)
    ensures QtyOf(bookings, roomType) >= 1
  {
    if bookings[0].roomType != roomType {
      assert HasType(bookings[1..], roomType) by {
        var k :| 0 <= k < |bookings| && bookings[k].roomType == roomType;
        assert bookings[1..][k - 1] == bookings[k];
      }
      QtyOfPresent(bookings[1..], roomType);
    }
  }

  /** In a well-formed day list the lookup reads the unique day node with
      that number. */
  lemma {:induction false} DayLookupFound(days: seq<DayNode>, j: nat, roomType: string)
    requires DaysAscending(days) && j < |days|
    ensures DayLookup(days, days[j].dayNumber, roomType) == QtyOf(days[j].bookings, roomType)
  {
    var d := days[j].dayNumber;
    if j == 0 {
      if !HasType(days[0].bookings, roomType) {
        QtyOfAbsent(days[0].bookings, roomType);
        DayLookupMissing(days[1..], d, roomType);
      }
    } else {
      DayLookupFound(days[1..], j - 1, roomType);
    }
  }

  lemma {:induction false} DayLookupMissing(days: seq<DayNode>, day: int, roomType: string)
    requires forall j :: 0 <= j < |days| ==> days[j].dayNumber != day
    ensures DayLookup(days, day, roomType) == 0
  {
    if days != [] {
      DayLookupMissing(days[1..], day, roomType);
    }
  }

  /** In a well-formed ledger the lookup reads the unique month node with
      that number. */
  lemma {:induction false} BookedCountFound(head: seq<MonthNode>, i: nat, day: int, roomType: string)
    requires MonthsAscending(head) && i < |head|
    ensures BookedCount(head, head[i].monthNumber, day, roomType) == DayLookup(head[i].dayList, day, roomType)
  {
    if i > 0 {
      BookedCountFound(head[1..], i - 1, day, roomType);
    }
  }

  lemma {:induction false} BookedCountMissing(head: seq<MonthNode>, month: int, day: int, roomType: string)
    requires forall i :: 0 <= i < |head| ==> head[i].monthNumber != month
    ensures BookedCount(head, month, day, roomType) == 0
  {
    if head != [] {
      BookedCountMissing(head[1..], month, day, roomType);
    }
  }

  lemma {:induction false} DayLookupNonNegative(days: seq<DayNode>, day: int, roomType: string)
    requires forall j :: 0 <= j < |days| ==> PositiveQuantities(days[j].bookings)
    ensures DayLookup(days, day, roomType) >= 0
  {
    if days != [] {
      if days[0].dayNumber == day && HasType(days[0].bookings, roomType) {
        QtyOfPresent(days[0].bookings, roomType);
      } else {
        DayLookupNonNegative(days[1..], day, roomType);
      }
    }
  }

  /** A ledger never reports a negative count. */
  lemma {:induction false} BookedCountNonNegative(head: seq<MonthNode>, month: int, day: int, roomType: string)
    requires WellFormed(head)
    ensures BookedCount(head, month, day, roomType) >= 0
  {
    if head != [] {
      if head[0].monthNumber == month {
        DayLookupNonNegative(head[0].dayList, day, roomType);
      } else {
        BookedCountNonNegative(head[1..], month, day, roomType);
      }
    }
  }

  /** The empty ledger books nothing. */
  lemma EmptyLedger(month: int, day: int, roomType: string)
    ensures WellFormed([]) && BookedCount([], month, day, roomType) == 0
  {
  }

  // ---------------------------------------------------------------------
  // Structural updates and what they do to the lookup
  // ---------------------------------------------------------------------

  /** A booking pair after one more unit of roomType is recorded. */
  function Bump(b: Booking, roomType: string): Booking
  {
    if b.roomType == roomType then Booking(b.roomType, b.qty + 1) else b
  }

  function Bumped(bookings: seq<Booking>, roomType: string): (r: seq<Booking>)
    ensures |r| == |bookings|
  {
    seq(|bookings|, k requires 0 <= k < |bookings| => Bump(bookings[k], roomType))
  }

  lemma {:induction false} BumpedLookup(bookings: seq<Booking>, roomType: string, u: string)
    ensures HasType(Bumped(bookings, roomType), u) <==> HasType(bookings, u)
    ensures QtyOf(Bumped(bookings, roomType), u) ==
      QtyOf(bookings, u) + (if u == roomType && HasType(bookings, u) then 1 else 0)
  {
    var r := Bumped(bookings, roomType);
    assert forall k :: 0 <= k < |r| ==> r[k].roomType == bookings[k].roomType;
    if bookings != [] {
      assert r[1..] == Bumped(bookings[1..], roomType);
      BumpedLookup(bookings[1..], roomType, u);
      if bookings[0].roomType != u {
        assert HasType(bookings, u) <==> HasType(bookings[1..], u) by {
          if HasType(bookings, u) {
            var k :| 0 <= k < |bookings| && bookings[k].roomType == u;
            assert bookings[1..][k - 1] == bookings[k];
          }
        }
      }
    }
  }

  /** Lines 94-100: every pair of that type is raised by one; when there is
      none, (roomType, 1) is appended. */
  method AddBooking(bookings: seq<Booking>, roomType: string) returns (r: seq<Booking>)
    ensures QtyOf(r, roomType) == QtyOf(bookings, roomType) + 1
    ensures forall u :: u != roomType ==> QtyOf(r, u) == QtyOf(bookings, u)
    ensures forall u :: HasType(r, u) <==> HasType(bookings, u) || u == roomType
    ensures !HasType(bookings, roomType) ==> r == bookings + [Booking(roomType, 1)]
    ensures PositiveQuantities(bookings) ==> PositiveQuantities(r)
  {
    r := bookings;
    var updated := false;
    for i := 0 to |bookings|
      invariant |r| == |bookings|
      invariant forall k :: 0 <= k < i ==> r[k] == Bump(bookings[k], roomType)
      invariant forall k :: i <= k < |r| ==> r[k] == bookings[k]
      invariant updated <==> exists k :: 0 <= k < i && bookings[k].roomType == roomType
    {
      if r[i].roomType == roomType {
        r := r[i := Booking(r[i].roomType, r[i].qty + 1)];
        updated := true;
      }
    }
    assert r == Bumped(bookings, roomType);
    forall u {
      BumpedLookup(bookings, roomType, u);
    }
    if !updated {
      var r0 := r;
      r := r + [Booking(roomType, 1)];
      QtyOfAbsent(bookings, roomType);
      assert r0 == bookings;
      AppendLookup(bookings, Booking(roomType, 1));
    }
  }

  lemma {:induction false} AppendLookup(bookings: seq<Booking>, b: Booking)
    requires !HasType(bookings, b.roomType)
    ensures QtyOf(bookings + [b], b.roomType) == b.qty
    ensures forall u :: u != b.roomType ==> QtyOf(bookings + [b], u) == QtyOf(bookings, u)
    ensures forall u :: HasType(bookings + [b], u) <==> HasType(bookings, u) || u == b.roomType
  {
    var r := bookings + [b];
    assert r[|bookings|] == b;
    if bookings != [] {
      assert r[1..] == bookings[1..] + [b];
      assert !HasType(bookings[1..], b.roomType) by {
        forall k | 0 <= k < |bookings| - 1 ensures bookings[1..][k].roomType != b.roomType {
          assert bookings[1..][k] == bookings[k + 1];
        }
      }
      AppendLookup(bookings[1..], b);
    }
    forall u ensures HasType(r, u) <==> HasType(bookings, u) || u == b.roomType {
      if HasType(r, u) {
        var k :| 0 <= k < |r| && r[k].roomType == u;
        if k < |bookings| { assert bookings[k] == r[k]; }
      }
      if HasType(bookings, u) {
        var k :| 0 <= k < |bookings| && bookings[k].roomType == u;
        assert r[k] == bookings[k];
      }
    }
  }

  /** Inserting an empty day node at its sorted place changes no count. */
  lemma {:induction false} InsertDayLookup(days: seq<DayNode>, j: nat, day: int, d: int, roomType: string)
    requires DaysAscending(days) && j <= |days|
    requires forall k :: 0 <= k < j ==> days[k].dayNumber < day
    requires j < |days| ==> days[j].dayNumber > day
    ensures DaysAscending(days[..j] + [DayNode(day, [])] + days[j..])
    ensures DayLookup(days[..j] + [DayNode(day, [])] + days[j..], d, roomType) == DayLookup(days, d, roomType)
  {
    var n := days[..j] + [DayNode(day, [])] + days[j..];
    if j == 0 {
      assert n[1..] == days;
      assert !HasType([], roomType);
    } else {
      assert n[0] == days[0];
      assert n[1..] == days[1..][..j - 1] + [DayNode(day, [])] + days[1..][j - 1..];
      InsertDayLookup(days[1..], j - 1, day, d, roomType);
    }
  }

  /** Replacing the bookings of the day node at j changes only that day's
      counts, which become those of the new bookings. */
  lemma {:induction false} ReplaceDayLookup(days: seq<DayNode>, j: nat, b: seq<Booking>, d: int, roomType: string)
    requires DaysAscending(days) && j < |days|
    ensures DaysAscending(days[j := DayNode(days[j].dayNumber, b)])
    ensures DayLookup(days[j := DayNode(days[j].dayNumber, b)], d, roomType) ==
      if d == days[j].dayNumber then QtyOf(b, roomType) else DayLookup(days, d, roomType)
  {
    var n := days[j := DayNode(days[j].dayNumber, b)];
    if j == 0 {
      assert n[1..] == days[1..];
      if d == days[0].dayNumber && !HasType(b, roomType) {
        QtyOfAbsent(b, roomType);
        DayLookupMissing(days[1..], d, roomType);
      }
    } else {
      assert n[1..] == days[1..][j - 1 := DayNode(days[j].dayNumber, b)];
      ReplaceDayLookup(days[1..], j - 1, b, d, roomType);
    }
  }

  lemma {:induction false} InsertMonthLookup(head: seq<MonthNode>, i: nat, month: int, m: int, d: int, roomType: string)
    requires MonthsAscending(head) && i <= |head|
    requires forall k :: 0 <= k < i ==> head[k].monthNumber < month
    requires i < |head| ==> head[i].monthNumber > month
    ensures MonthsAscending(head[..i] + [MonthNode(month, [])] + head[i..])
    ensures BookedCount(head[..i] + [MonthNode(month, [])] + head[i..], m, d, roomType) == BookedCount(head, m, d, roomType)
  {
    var n := head[..i] + [MonthNode(month, [])] + head[i..];
    if i == 0 {
      assert n[1..] == head;
      if m == month {
        BookedCountMissing(head, m, d, roomType);
      }
    } else {
      assert n[0] == head[0];
      assert n[1..] == head[1..][..i - 1] + [MonthNode(month, [])] + head[1..][i - 1..];
      InsertMonthLookup(head[1..], i - 1, month, m, d, roomType);
    }
  }

  lemma {:induction false} ReplaceMonthLookup(head: seq<MonthNode>, i: nat, days: seq<DayNode>, m: int, d: int, roomType: string)
    requires MonthsAscending(head) && i < |head|
    ensures MonthsAscending(head[i := MonthNode(head[i].monthNumber, days)])
    ensures BookedCount(head[i := MonthNode(head[i].monthNumber, days)], m, d, roomType) ==
      if m == head[i].monthNumber then DayLookup(days, d, roomType) else BookedCount(head, m, d, roomType)
  {
    var n := head[i := MonthNode(head[i].monthNumber, days)];
    if i == 0 {
      assert n[1..] == head[1..];
    } else {
      assert n[1..] == head[1..][i - 1 := MonthNode(head[i].monthNumber, days)];
      ReplaceMonthLookup(head[1..], i - 1, days, m, d, roomType);
    }
  }

  // ---------------------------------------------------------------------
  // store_booking_range and its steps
  // ---------------------------------------------------------------------

  /** Lines 64-78: find the month node, or create it before the first node
      whose number is not smaller (as the new head when it goes first). */
  method FindOrInsertMonth(head: seq<MonthNode>, month: int) returns (newHead: seq<MonthNode>, i: nat)
    requires WellFormed(head)
    ensures WellFormed(newHead)
    ensures i <= |head| && i < |newHead| && newHead[i].monthNumber == month
    ensures forall k :: 0 <= k < i ==> head[k].monthNumber < month
    ensures i < |head| ==> head[i].monthNumber >= month
    ensures newHead == if i < |head| && head[i].monthNumber == month then head
                       else head[..i] + [MonthNode(month, [])] + head[i..]
    ensures forall m, d, t :: BookedCount(newHead, m, d, t) == BookedCount(head, m, d, t)
  {
    var h := head;
    if h == [] {
      h := [MonthNode(month, [])];
    }
    i := 0;
    while i < |h| && h[i].monthNumber < month
      invariant i <= |h|
      invariant forall k :: 0 <= k < i ==> h[k].monthNumber < month
    {
      i := i + 1;
    }
    if head == [] {
      assert i == 0;
    }
    if i == |h| || h[i].monthNumber != month {
      forall m, d, t ensures BookedCount(h[..i] + [MonthNode(month, [])] + h[i..], m, d, t) == BookedCount(h, m, d, t) {
        InsertMonthLookup(h, i, month, m, d, t);
      }
      InsertMonthLookup(h, i, month, 0, 0, "");
      h := h[..i] + [MonthNode(month, [])] + h[i..];
    }
    newHead := h;
  }

  /** Lines 81-91: the same find-or-insert on the month's day list. */
  method FindOrInsertDay(days: seq<DayNode>, day: int) returns (newDays: seq<DayNode>, j: nat)
    requires DaysWellFormed(days)
    ensures DaysWellFormed(newDays)
    ensures j <= |days| && j < |newDays| && newDays[j].dayNumber == day
    ensures forall k :: 0 <= k < j ==> days[k].dayNumber < day
    ensures j < |days| ==> days[j].dayNumber >= day
    ensures newDays == if j < |days| && days[j].dayNumber == day then days
                       else days[..j] + [DayNode(day, [])] + days[j..]
    ensures forall d, t :: DayLookup(newDays, d, t) == DayLookup(days, d, t)
  {
    j := 0;
    while j < |days| && days[j].dayNumber < day
      invariant j <= |days|
      invariant forall k :: 0 <= k < j ==> days[k].dayNumber < day
    {
      j := j + 1;
    }
    newDays := days;
    if j == |days| || days[j].dayNumber != day {
      forall d, t ensures DayLookup(days[..j] + [DayNode(day, [])] + days[j..], d, t) == DayLookup(days, d, t) {
        InsertDayLookup(days, j, day, d, t);
      }
      InsertDayLookup(days, j, day, 0, "");
      newDays := days[..j] + [DayNode(day, [])] + days[j..];
      assert forall k :: 0 <= k < |newDays| ==>
        newDays[k] == (if k < j then days[k] else if k == j then DayNode(day, []) else days[k - 1]);
    }
  }

  /** One pass of the loop body of store_booking_range: one more unit of
      roomType on (month, day), nothing else changed. */
  method IncrementDate(head: seq<MonthNode>, month: int, day: int, roomType: string) returns (newHead: seq<MonthNode>)
    requires WellFormed(head)
    ensures WellFormed(newHead)
    ensures forall m, d, t ::
              BookedCount(newHead, m, d, t) ==
              BookedCount(head, m, d, t) + (if m == month && d == day && t == roomType then 1 else 0)
    ensures |newHead| > 0
    ensures newHead[0].monthNumber ==
      if head == [] || month < head[0].monthNumber then month else head[0].monthNumber
  {
    var h, i := FindOrInsertMonth(head, month);
    var days, j := FindOrInsertDay(h[i].dayList, day);
    var bookings := AddBooking(days[j].bookings, roomType);
    var newDays := days[j := DayNode(day, bookings)];
    newHead := h[i := MonthNode(month, newDays)];
    forall m, d, t ensures BookedCount(newHead, m, d, t) ==
      BookedCount(head, m, d, t) + (if m == month && d == day && t == roomType then 1 else 0)
    {
      ReplaceMonthLookup(h, i, newDays, m, d, t);
      ReplaceDayLookup(days, j, bookings, d, t);
      DayLookupFound(days, j, t);
      BookedCountFound(h, i, d, t);
    }
    ReplaceMonthLookup(h, i, newDays, 0, 0, "");
    ReplaceDayLookup(days, j, bookings, 0, "");
    assert DaysWellFormed(newDays);
  }

  /** store_booking_range (lines 38-110): for every date from the start to the
      end date inclusive, walked under the 30-day rule, one more unit of
      roomType is booked; all other counts stay. The returned head is the
      start month's node when the ledger was empty or that month comes
      before the old head. */
  method StoreBookingRange(start: Date, end: Date, roomType: string, head: seq<MonthNode>)
    returns (newHead: seq<MonthNode>)
    requires WellFormed(head)
    requires ValidRange(start, end)
    ensures WellFormed(newHead)
    ensures forall m, d, t ::
              BookedCount(newHead, m, d, t) ==
              BookedCount(head, m, d, t) + (if t == roomType && InRange(start, end, Date(m, d)) then 1 else 0)
    ensures |newHead| > 0
    ensures newHead[0].monthNumber ==
      if head == [] || start.month < head[0].monthNumber then start.month else head[0].monthNumber
  {
    var cur := start;
    newHead := head;
    while true
      invariant ValidDay(cur) && Index(start) <= Index(cur) <= Index(end)
      invariant WellFormed(newHead)
      invariant forall m, d, t ::
                  BookedCount(newHead, m, d, t) ==
                  BookedCount(head, m, d, t) +
                  (if t == roomType && ValidDay(Date(m, d)) && Index(start) <= Index(Date(m, d)) < Index(cur) then 1 else 0)
      invariant cur == start ==> newHead == head
      invariant cur != start ==>
                  |newHead| > 0 &&
                  newHead[0].monthNumber ==
                  (if head == [] || start.month < head[0].monthNumber then start.month else head[0].monthNumber)
      decreases Index(end) - Index(cur)
    {
      IndexInjective(cur, start);
      newHead := IncrementDate(newHead, cur.month, cur.day, roomType);
      if cur == end {
        break;
      }
      IndexInjective(cur, end);
      cur := NextDay(cur);
    }
  }

  /** count_booked_rooms (backend/manager_report.py lines 40-73), with its
      month and day cursors. */
  method CountBookedRooms(month: int, day: int, roomType: string, head: seq<MonthNode>) returns (qty: int)
    ensures qty == BookedCount(head, month, day, roomType)
    ensures WellFormed(head) ==> qty >= 0
  {
    if WellFormed(head) {
      BookedCountNonNegative(head, month, day, roomType);
    }
    var i := 0;
    while i < |head|
      invariant i <= |head|
      invariant BookedCount(head[i..], month, day, roomType) == BookedCount(head, month, day, roomType)
    {
      if head[i].monthNumber == month {
        var days := head[i].dayList;
        var j := 0;
        while j < |days|
          invariant j <= |days|
          invariant DayLookup(days[j..], day, roomType) == BookedCount(head, month, day, roomType)
        {
          if days[j].dayNumber == day {
            var bookings := days[j].bookings;
            for k := 0 to |bookings|
              invariant forall p :: 0 <= p < k ==> bookings[p].roomType != roomType
              invariant QtyOf(bookings[k..], roomType) == QtyOf(bookings, roomType)
            {
              if bookings[k].roomType == roomType {
                assert HasType(bookings, roomType);
                return bookings[k].qty;
              }
              assert bookings[k..][1..] == bookings[k + 1..];
            }
            assert !HasType(bookings, roomType);
          }
          assert days[j..][1..] == days[j + 1..];
          j := j + 1;
        }
        return 0;
      }
      assert head[i..][1..] == head[i + 1..];
      i := i + 1;
    }
    return 0;
  }
}
