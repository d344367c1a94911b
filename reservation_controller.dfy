// backend/reservation_controller.py: the in-memory reservation list kept
// beside the reservation system, with booking, cancelling and the "MM-DD"
// date text of the stored records.

module ReservationControl {
  import opened Text
  import opened Dates
  import opened Calendar
  import opened Database
  import opened Customers
  import opened CustomerControl
  import opened Reservations
  import opened ReservationModel

  /** The dictionary make_reservation returns. */
  datatype BookingOutcome = Booked(reservationId: string) | BookingFailed(reason: string)

  /** The dictionary cancel_reservation returns. */
  datatype CancelOutcome = Cancelled | CancelFailed(reason: string)

  const InvalidCustomer: string := "Invalid customer"
  const NoAvailability: string := "No availability or invalid room type"
  const NotFound: string := "Reservation ID not found"

  // ---------------------------------------------------------------------
  // "MM-DD" text
  // ---------------------------------------------------------------------

  /** f"{month:02d}-{day:02d}". */
  function FormatMmDd(d: Date): string
  {
    FormatSignedInt(d.month, 2) + "-" + FormatSignedInt(d.day, 2)
  }

  /** mmdd_to_tuple: split on "-" and read the first two parts with
      int(); None where the source raises (fewer than two parts, or a part
      int() refuses). Parts after the second are ignored, as in the
      source. No part holds a "-", so neither number is negative. */
  function MmDdToTuple(s: string): (d: Option<Date>)
    ensures d.Some? ==> d.value.month >= 0 && d.value.day >= 0
    ensures d.Some? <==> |Split(s, '-')| >= 2 && PyInt(Split(s, '-')[0]).Some? && PyInt(Split(s, '-')[1]).Some?
  {
    var parts := Split(s, '-');
    if |parts| < 2 then None
    else
      match (PyInt(parts[0]), PyInt(parts[1]))
      case (Some(month), Some(day)) => Some(Date(month, day))
      case _ => None
  }

  /** Text "m-d" with no further "-" reads as the pair of what int()
      makes of each side. */
  lemma MmDdOfParts(m: string, d: string)
    requires '-' !in m && '-' !in d
    requires PyInt(m).Some? && PyInt(d).Some?
    ensures MmDdToTuple(m + ['-'] + d) == Some(Date(PyInt(m).value, PyInt(d).value))
  {
    SplitAtFirst(m, '-', d);
    SplitWithoutSeparator(d, '-');
  }

  /** A side int() refuses makes the whole text unreadable. */
  lemma MmDdRefusedPart(m: string, d: string)
    requires '-' !in m && '-' !in d
    requires PyInt(m).None? || PyInt(d).None?
    ensures MmDdToTuple(m + ['-'] + d).None?
  {
    SplitAtFirst(m, '-', d);
    SplitWithoutSeparator(d, '-');
  }

  /** Reading back a formatted date gives the date, for every month and
      day that are not negative (every valid stay qualifies for its days). */
  lemma MmDdRoundTrip(d: Date)
    requires d.month >= 0 && d.day >= 0
    ensures MmDdToTuple(FormatMmDd(d)) == Some(d)
  {
    var m := FormatInt(d.month, 2);
    var n := FormatInt(d.day, 2);
    assert '-' !in m && '-' !in n by {
      assert forall i :: 0 <= i < |m| ==> IsDigit(m[i]);
      assert forall i :: 0 <= i < |n| ==> IsDigit(n[i]);
    }
    assert FormatMmDd(d) == m + ['-'] + n;
    SplitAtFirst(m, '-', n);
    SplitWithoutSeparator(n, '-');
    ParseFormatInt(d.month, 2);
    ParseFormatInt(d.day, 2);
    assert IsDigits(m) && IsDigits(n);
  }

  // ---------------------------------------------------------------------
  // Cancelling: the list comprehension over the stored records
  // ---------------------------------------------------------------------

  /** [r for r in reservations if r.reservation_id != id]. */
  function WithoutId(rs: seq<Reservation>, id: string): (kept: seq<Reservation>)
    ensures |kept| <= |rs|
    ensures forall r :: r in kept <==> r in rs && r.reservationId != id
  {
    if rs == [] then []
    else
      var init := rs[..|rs| - 1];
      var last := rs[|rs| - 1];
      assert forall r :: r in rs <==> r in init || r == last;
      WithoutId(init, id) + (if last.reservationId != id then [last] else [])
  }

  /** Filtering distributes over concatenation, so the kept records stay
      in their original order. */
  lemma {:induction false} WithoutIdAppend(a: seq<Reservation>, b: seq<Reservation>, id: string)
    ensures WithoutId(a + b, id) == WithoutId(a, id) + WithoutId(b, id)
    decreases |b|
  {
    if b == [] {
      assert a + b == a;
    } else {
      assert (a + b)[..|a + b| - 1] == a + b[..|b| - 1];
      WithoutIdAppend(a, b[..|b| - 1], id);
    }
  }

  /** The list shrinks exactly when some record has the ID. */
  lemma {:induction false} WithoutIdShrinks(rs: seq<Reservation>, id: string)
    ensures |WithoutId(rs, id)| < |rs| <==> exists k :: 0 <= k < |rs| && rs[k].reservationId == id
  {
    if rs != [] {
      var init := rs[..|rs| - 1];
      WithoutIdShrinks(init, id);
      if rs[|rs| - 1].reservationId == id {
        assert rs[|rs| - 1].reservationId == id;
      } else if exists k :: 0 <= k < |rs| && rs[k].reservationId == id {
        var k :| 0 <= k < |rs| && rs[k].reservationId == id;
        assert init[k] == rs[k];
      } else {
        assert forall k :: 0 <= k < |init| ==> init[k] == rs[k];
      }
    }
  }

  /** With no record carrying the ID the list is left exactly as it was. */
  lemma {:induction false} WithoutIdNoMatch(rs: seq<Reservation>, id: string)
    requires forall k :: 0 <= k < |rs| ==> rs[k].reservationId != id
    ensures WithoutId(rs, id) == rs
  {
    if rs != [] {
      var init := rs[..|rs| - 1];
      var last := rs[|rs| - 1];
      assert forall k :: 0 <= k < |init| ==> init[k] == rs[k];
      WithoutIdNoMatch(init, id);
      assert WithoutId(rs, id) == WithoutId(init, id) + [last];
      InitLast(rs);
    }
  }

  /** A non-empty list is its front followed by its last record. */
  lemma InitLast(rs: seq<Reservation>)
    requires rs != []
    ensures rs[..|rs| - 1] + [rs[|rs| - 1]] == rs
  {
  }

  /** Cancelling the same ID twice removes nothing more. */
  lemma WithoutIdIdempotent(rs: seq<Reservation>, id: string)
    ensures WithoutId(WithoutId(rs, id), id) == WithoutId(rs, id)
  {
    var kept := WithoutId(rs, id);
    forall k | 0 <= k < |kept| ensures kept[k].reservationId != id {
      assert kept[k] in kept;
    }
    WithoutIdNoMatch(kept, id);
  }

  // ---------------------------------------------------------------------
  // The controller
  // ---------------------------------------------------------------------

  class ReservationController {
    const customerController: CustomerController
    const reservationSystem: ReservationSystem
    /** The in-memory list of Reservation objects. */
    var reservations: seq<Reservation>

    /** A controller over the given customer registry and reservation
        system, with no reservations loaded. */
    constructor (customerController: CustomerController, reservationSystem: ReservationSystem)
      ensures this.customerController == customerController && this.reservationSystem == reservationSystem
      ensures reservations == []
    {
      this.customerController := customerController;
      this.reservationSystem := reservationSystem;
      reservations := [];
    }

    /** make_reservation: refuse a missing customer; register the customer
        when the e-mail is new; ask the reservation system for a booking;
        on success append one record with "MM-DD" dates and return its ID. */
    method MakeReservation(customer: Option<Customer>, roomType: string, checkIn: Date, checkOut: Date)
      returns (outcome: BookingOutcome)
      requires reservationSystem.Valid() && ValidRange(checkIn, checkOut)
      modifies this, customerController, customerController.count, reservationSystem
      ensures reservationSystem.Valid()
      ensures customer.None? ==>
        outcome == BookingFailed(InvalidCustomer) && reservations == old(reservations) &&
        customerController.customers == old(customerController.customers) &&
        reservationSystem.reservationsDb == old(reservationSystem.reservationsDb) &&
        reservationSystem.reservationCounter == old(reservationSystem.reservationCounter) &&
        reservationSystem.calendarHead == old(reservationSystem.calendarHead)
      ensures customer.None? ==> customerController.count.numberOfCustomers == old(customerController.count.numberOfCustomers)
      ensures customer.Some? && old(EmailIndex(customerController.customers, customer.value.email)) < old(|customerController.customers|) ==>
        customerController.customers == old(customerController.customers) &&
        customerController.count.numberOfCustomers == old(customerController.count.numberOfCustomers)
      ensures customer.Some? && old(EmailIndex(customerController.customers, customer.value.email)) == old(|customerController.customers|) ==> (
        var cs := customerController.customers;
        customerController.count.numberOfCustomers == old(customerController.count.numberOfCustomers) + 1 &&
        |cs| == old(|customerController.customers|) + 1 && cs[..|cs| - 1] == old(customerController.customers) &&
        cs[|cs| - 1].email == customer.value.email && cs[|cs| - 1].firstName == customer.value.firstName &&
        cs[|cs| - 1].lastName == customer.value.lastName && cs[|cs| - 1].phone == customer.value.phone &&
        cs[|cs| - 1].address == customer.value.address)
      ensures customer.Some? ==>
        (outcome.Booked? <==>
          old(Available(reservationSystem.calendarHead, reservationSystem.hotel.rooms, roomType, checkIn, checkOut)))
      ensures customer.Some? && outcome.BookingFailed? ==>
        outcome.reason == NoAvailability && reservations == old(reservations) &&
        reservationSystem.reservationsDb == old(reservationSystem.reservationsDb) &&
        reservationSystem.reservationCounter == old(reservationSystem.reservationCounter) &&
        reservationSystem.calendarHead == old(reservationSystem.calendarHead)
      ensures outcome.Booked? ==> (
        customer.Some? &&
        outcome.reservationId == ReservationId(old(reservationSystem.reservationCounter)) &&
        reservationSystem.reservationCounter == old(reservationSystem.reservationCounter) + 1 &&
        outcome.reservationId !in old(reservationSystem.reservationsDb) &&
        reservationSystem.reservationsDb == old(reservationSystem.reservationsDb)[outcome.reservationId :=
          ReservationRecord(customer.value, roomType, checkIn, checkOut)] &&
        reservations == old(reservations) +
          [Reservation(outcome.reservationId, customer.value.email, roomType, FormatMmDd(checkIn), FormatMmDd(checkOut))])
    {
      if customer.None? {
        return BookingFailed(InvalidCustomer);
      }
      var c := customer.value;
      Register(c);
      outcome := Book(c, roomType, checkIn, checkOut);
    }

    /** The first step of make_reservation: a customer whose e-mail is not
        on file is added to the registry; a known one changes nothing. */
    method Register(c: Customer)
      modifies customerController, customerController.count
      ensures EmailIndex(old(customerController.customers), c.email) < old(|customerController.customers|) ==>
        customerController.customers == old(customerController.customers) &&
        customerController.count.numberOfCustomers == old(customerController.count.numberOfCustomers)
      ensures EmailIndex(old(customerController.customers), c.email) == old(|customerController.customers|) ==> (
        var cs := customerController.customers;
        customerController.count.numberOfCustomers == old(customerController.count.numberOfCustomers) + 1 &&
        |cs| == old(|customerController.customers|) + 1 && cs[..|cs| - 1] == old(customerController.customers) &&
        cs[|cs| - 1].email == c.email && cs[|cs| - 1].firstName == c.firstName &&
        cs[|cs| - 1].lastName == c.lastName && cs[|cs| - 1].phone == c.phone &&
        cs[|cs| - 1].address == c.address)
    {
      var known := customerController.FindCustomerByEmail(c.email);
      if known.None? {
        var _ := customerController.AddCustomer(c.firstName, c.lastName, c.email, c.phone, c.address);
      }
    }

    /** The second step of make_reservation: ask the reservation system
        for the stay and, when it is booked, append the record with
        "MM-DD" dates. */
    method Book(c: Customer, roomType: string, checkIn: Date, checkOut: Date) returns (outcome: BookingOutcome)
      requires reservationSystem.Valid() && ValidRange(checkIn, checkOut)
      modifies this, reservationSystem
      ensures reservationSystem.Valid()
      ensures outcome.Booked? <==>
        old(Available(reservationSystem.calendarHead, reservationSystem.hotel.rooms, roomType, checkIn, checkOut))
      ensures outcome.BookingFailed? ==>
        outcome.reason == NoAvailability && reservations == old(reservations) &&
        reservationSystem.reservationsDb == old(reservationSystem.reservationsDb) &&
        reservationSystem.reservationCounter == old(reservationSystem.reservationCounter) &&
        reservationSystem.calendarHead == old(reservationSystem.calendarHead)
      ensures outcome.Booked? ==> (
        outcome.reservationId == ReservationId(old(reservationSystem.reservationCounter)) &&
        reservationSystem.reservationCounter == old(reservationSystem.reservationCounter) + 1 &&
        outcome.reservationId !in old(reservationSystem.reservationsDb) &&
        reservationSystem.reservationsDb == old(reservationSystem.reservationsDb)[outcome.reservationId :=
          ReservationRecord(c, roomType, checkIn, checkOut)] &&
        reservations == old(reservations) +
          [Reservation(outcome.reservationId, c.email, roomType, FormatMmDd(checkIn), FormatMmDd(checkOut))])
    {
      var reservationId := reservationSystem.MakeReservation(c, roomType, checkIn, checkOut);
      if reservationId.None? {
        return BookingFailed(NoAvailability);
      }
      var checkInText := FormatMmDd(checkIn);
      var checkOutText := FormatMmDd(checkOut);
      var newReservation := Reservation(reservationId.value, c.email, roomType, checkInText, checkOutText);
      reservations := reservations + [newReservation];
      return Booked(reservationId.value);
    }

    /** cancel_reservation: drop every record with the ID, keeping the
        others in order; success exactly when the list shrank. The
        reservation system defines no cancel_reservation, so the source's
        probe for one always comes back false and its ledger is untouched. */
    method CancelReservation(reservationId: string) returns (outcome: CancelOutcome)
      modifies this
      ensures reservations == WithoutId(old(reservations), reservationId)
      ensures outcome == Cancelled <==> exists k :: 0 <= k < |old(reservations)| && old(reservations)[k].reservationId == reservationId
      ensures outcome != Cancelled ==> outcome == CancelFailed(NotFound) && reservations == old(reservations)
    {
      var cancelledBySystem := false;
      var originalLength := |reservations|;
      WithoutIdShrinks(reservations, reservationId);
      if forall k :: 0 <= k < |reservations| ==> reservations[k].reservationId != reservationId {
        WithoutIdNoMatch(reservations, reservationId);
      }
      reservations := WithoutId(reservations, reservationId);
      if |reservations| < originalLength || cancelledBySystem {
        outcome := Cancelled;
      } else {
        outcome := CancelFailed(NotFound);
      }
    }

    /** get_available_room_types: the reservation system's answer. */
    method GetAvailableRoomTypes(checkIn: Date, checkOut: Date, numGuests: int) returns (offers: seq<RoomTypeOffer>)
      requires ValidRange(checkIn, checkOut)
      ensures forall t :: HasRoomType(reservationSystem.hotel.rooms, t) ==>
        ((exists o :: o in offers && o.name == t) <==>
          FirstOfType(reservationSystem.hotel.rooms, t).maxGuests >= numGuests &&
          Available(reservationSystem.calendarHead, reservationSystem.hotel.rooms, t, checkIn, checkOut))
      ensures forall o :: o in offers ==> HasRoomType(reservationSystem.hotel.rooms, o.name)
      ensures forall o :: o in offers ==>
        o.maxGuests == FirstOfType(reservationSystem.hotel.rooms, o.name).maxGuests &&
        o.price == FirstOfType(reservationSystem.hotel.rooms, o.name).price
      ensures forall i, j :: 0 <= i < j < |offers| ==> offers[i].name != offers[j].name
    {
      offers := reservationSystem.GetAvailableRoomTypes(checkIn, checkOut, numGuests);
    }

    /** is_room_type_available: the reservation system's check_availability. */
    method IsRoomTypeAvailable(roomType: string, checkIn: Date, checkOut: Date) returns (ok: bool)
      requires ValidRange(checkIn, checkOut)
      ensures ok <==> Available(reservationSystem.calendarHead, reservationSystem.hotel.rooms, roomType, checkIn, checkOut)
    {
      ok := reservationSystem.CheckAvailability(roomType, checkIn, checkOut);
    }
  }
}
