// backend/manager_report.py: read-only reports over the occupancy ledger
// and the stored reservations. The module-level names the source imports
// (the reservation dictionary, the ledger head and a room catalogue) are
// explicit parameters here.

module ManagerReport {
  import opened Text
  import opened Dates
  import opened Calendar
  import opened Reservations

  /** One entry of the room catalogue the report reads: a type name, the
      number of rooms of the type and the nightly price. */
  datatype CatalogEntry = CatalogEntry(name: string, quantity: int, price: int)

  /** One day of the occupancy report (the floating-point rate is not
      modelled). */
  datatype DailyOccupancy = DailyOccupancy(day: int, bookedRooms: int)

  const ReportDays: int := 30

  /** generate_occupancy_report, the booked-count part: for every catalogue
      type, 30 entries for days 1..30 in order, each with the ledger's count
      for that day of the month. The rate divides by the type's quantity on
      every day, so a catalogue entry with quantity 0 raises
      ZeroDivisionError and no report is returned (None). */
  method GenerateOccupancyReport(month: int, catalog: seq<CatalogEntry>, head: seq<MonthNode>)
    returns (report: Option<map<string, seq<DailyOccupancy>>>)
    ensures report.None? <==> exists k :: 0 <= k < |catalog| && catalog[k].quantity == 0
    ensures report.Some? ==>
      forall name :: name in report.value <==> exists k :: 0 <= k < |catalog| && catalog[k].name == name
    ensures report.Some? ==>
      forall name :: name in report.value ==>
        |report.value[name]| == ReportDays &&
        forall k :: 0 <= k < ReportDays ==>
          report.value[name][k] == DailyOccupancy(k + 1, BookedCount(head, month, k + 1, name))
  {
    var result: map<string, seq<DailyOccupancy>> := map[];
    for i := 0 to |catalog|
      invariant forall k :: 0 <= k < i ==> catalog[k].quantity != 0
      invariant forall name :: name in result <==> exists k :: 0 <= k < i && catalog[k].name == name
      invariant forall name :: name in result ==>
        |result[name]| == ReportDays &&
        forall k :: 0 <= k < ReportDays ==>
          result[name][k] == DailyOccupancy(k + 1, BookedCount(head, month, k + 1, name))
    {
      var roomType := catalog[i].name;
      var dailyData: seq<DailyOccupancy> := [];
      for day := 1 to ReportDays + 1
        invariant |dailyData| == day - 1
        invariant day > 1 ==> catalog[i].quantity != 0
        invariant forall k :: 0 <= k < day - 1 ==>
          dailyData[k] == DailyOccupancy(k + 1, BookedCount(head, month, k + 1, roomType))
      {
        var booked := CountBookedRooms(month, day, roomType, head);
        if catalog[i].quantity == 0 {
          return None;
        }
        dailyData := dailyData + [DailyOccupancy(day, booked)];
      }
      result := result[roomType := dailyData];
    }
    report := Some(result);
  }

  /** get_total_reservations: the number of stored reservations. */
  function GetTotalReservations(db: map<string, ReservationRecord>): (n: nat)
    ensures n == |db.Keys|
  {
    |db|
  }

  /** A reservation stored under a new ID raises the total by one. */
  lemma TotalAfterBooking(db: map<string, ReservationRecord>, rid: string, r: ReservationRecord)
    requires rid !in db
    ensures GetTotalReservations(db[rid := r]) == GetTotalReservations(db) + 1
  {
    assert db[rid := r].Keys == db.Keys + {rid};
  }

  /** The number of nights of a stay: one-day steps under the 30-day rule. */
  function Nights(checkIn: Date, checkOut: Date): int
  {
    Index(checkOut) - Index(checkIn)
  }

  /** The nights of a stay are one fewer than the dates it covers. */
  lemma NightsAreWalkSteps(checkIn: Date, checkOut: Date)
    requires ValidRange(checkIn, checkOut)
    ensures Nights(checkIn, checkOut) == |Walk(checkIn, checkOut)| - 1
    ensures Nights(checkIn, checkOut) >= 0
  {
    WalkAt(checkIn, checkOut, 0);
  }

  /** calculate_nights: counts the steps from check-in until the date equals
      check-out. */
  method CalculateNights(checkIn: Date, checkOut: Date) returns (nights: nat)
    requires ValidRange(checkIn, checkOut)
    ensures nights == Nights(checkIn, checkOut)
    ensures nights == |Walk(checkIn, checkOut)| - 1
    ensures nights == 0 <==> checkIn == checkOut
  {
    NightsAreWalkSteps(checkIn, checkOut);
    IndexInjective(checkIn, checkOut);
    var cur := checkIn;
    nights := 0;
    while cur != checkOut
      invariant ValidDay(cur) && Index(checkIn) <= Index(cur) <= Index(checkOut)
      invariant nights == Index(cur) - Index(checkIn)
      decreases Index(checkOut) - Index(cur)
    {
      IndexInjective(cur, checkOut);
      nights := nights + 1;
      cur := NextDay(cur);
    }
    IndexInjective(cur, checkOut);
  }

  /** The worked rollover example: (1,29) to (2,2) is three nights. */
  lemma RolloverNights()
    ensures Nights(Date(1, 29), Date(2, 2)) == 3
    ensures |Walk(Date(1, 29), Date(2, 2))| - 1 == 3
  {
    RolloverExample();
  }

  /** The first catalogue entry with the given name (the next(...) of line
      145), or None. */
  function FindEntry(catalog: seq<CatalogEntry>, name: string): (e: Option<CatalogEntry>)
    ensures e.None? <==> forall k :: 0 <= k < |catalog| ==> catalog[k].name != name
    ensures e.Some? ==>
      e.value.name == name &&
      exists k :: 0 <= k < |catalog| && catalog[k] == e.value && (forall j :: 0 <= j < k ==> catalog[j].name != name)
  {
    if catalog == [] then None
    else if catalog[0].name == name then Some(catalog[0])
    else
      var e := FindEntry(catalog[1..], name);
      assert forall j :: 1 <= j < |catalog| ==> catalog[1..][j - 1] == catalog[j];
      e
  }

  /** What one reservation contributes: price times nights when its type is
      in the catalogue, nothing otherwise. */
  function StayRevenue(r: ReservationRecord, catalog: seq<CatalogEntry>): int
  {
    match FindEntry(catalog, r.roomType)
    case None => 0
    case Some(e) => e.price * Nights(r.checkIn, r.checkOut)
  }

  /** The revenue of a list of reservations, accumulated in order. */
  function Revenue(rs: seq<ReservationRecord>, catalog: seq<CatalogEntry>): int
  {
    if rs == [] then 0 else Revenue(rs[..|rs| - 1], catalog) + StayRevenue(rs[|rs| - 1], catalog)
  }

  /** Revenue adds up over concatenation. */
  lemma {:induction false} RevenueAppend(a: seq<ReservationRecord>, b: seq<ReservationRecord>, catalog: seq<CatalogEntry>)
    ensures Revenue(a + b, catalog) == Revenue(a, catalog) + Revenue(b, catalog)
    decreases |b|
  {
    if b == [] {
      assert a + b == a;
    } else {
      assert (a + b)[..|a + b| - 1] == a + b[..|b| - 1];
      RevenueAppend(a, b[..|b| - 1], catalog);
    }
  }

  /** A reservation of a type missing from the catalogue adds nothing. */
  lemma UnknownTypeEarnsNothing(rs: seq<ReservationRecord>, r: ReservationRecord, catalog: seq<CatalogEntry>)
    requires forall k :: 0 <= k < |catalog| ==> catalog[k].name != r.roomType
    ensures Revenue(rs + [r], catalog) == Revenue(rs, catalog)
  {
    assert FindEntry(catalog, r.roomType) == None;
    assert (rs + [r])[..|rs|] == rs;
  }

  /** With non-negative prices and well-ordered stays, revenue is never
      negative. */
  lemma {:induction false} RevenueNonNegative(rs: seq<ReservationRecord>, catalog: seq<CatalogEntry>)
    requires forall k :: 0 <= k < |catalog| ==> catalog[k].price >= 0
    requires forall k :: 0 <= k < |rs| ==> ValidRange(rs[k].checkIn, rs[k].checkOut)
    ensures Revenue(rs, catalog) >= 0
  {
    if rs != [] {
      RevenueNonNegative(rs[..|rs| - 1], catalog);
      var r := rs[|rs| - 1];
      match FindEntry(catalog, r.roomType)
      case None =>
      case Some(e) =>
        assert e.price >= 0 && Nights(r.checkIn, r.checkOut) >= 0;
    }
  }

  /** get_total_revenue over the stored reservations (the dictionary's
      values in insertion order). */
  method GetTotalRevenue(reservations: seq<ReservationRecord>, catalog: seq<CatalogEntry>) returns (total: int)
    requires forall k :: 0 <= k < |reservations| ==> ValidRange(reservations[k].checkIn, reservations[k].checkOut)
    ensures total == Revenue(reservations, catalog)
  {
    total := 0;
    for i := 0 to |reservations|
      invariant total == Revenue(reservations[..i], catalog)
    {
      var details := reservations[i];
      var roomType := FindEntry(catalog, details.roomType);
      if roomType.Some? {
        var nights := CalculateNights(details.checkIn, details.checkOut);
        total := total + roomType.value.price * nights;
      }
      assert reservations[..i + 1][..i] == reservations[..i];
    }
    assert reservations[..|reservations|] == reservations;
  }
}
