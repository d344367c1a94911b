// backend/reservation_system.py: availability checks against the occupancy
// ledger, reservation-ID allocation and the booking itself. The module
// globals reservation_counter and calendar_head become fields of the
// ReservationSystem object.

module Reservations {
  import opened Text
  import opened Dates
  import opened Calendar
  import opened Database
  import opened Customers

  /** The dictionary stored per reservation: customer object, room type and
      the two (month, day) dates. */
  datatype ReservationRecord = ReservationRecord(customer: Customer, roomType: string, checkIn: Date, checkOut: Date)

  /** One entry of get_available_room_types: name, max_guests, price. */
  datatype RoomTypeOffer = RoomTypeOffer(name: string, maxGuests: int, price: int)

  // ---------------------------------------------------------------------
  // Reservation IDs
  // ---------------------------------------------------------------------

  /** f"R{n:04d}". */
  function ReservationId(n: nat): (rid: string)
    ensures |rid| >= 5 && rid[0] == 'R' && IsDigits(rid[1..])
  {
    "R" + FormatInt(n, 4)
  }

  /** Reads the counter value back out of an ID. */
  function ParseReservationId(rid: string): (n: Option<nat>)
    ensures n.Some? ==> |rid| >= 2 && rid[0] == 'R'
  {
    if |rid| >= 1 && rid[0] == 'R' then ParseInt(rid[1..]) else None
  }

  lemma ReservationIdRoundTrip(n: nat)
    ensures ParseReservationId(ReservationId(n)) == Some(n)
  {
    assert ReservationId(n)[1..] == FormatInt(n, 4);
    ParseFormatInt(n, 4);
  }

  /** Distinct counter values give distinct IDs, so an ID is never reissued. */
  lemma ReservationIdInjective(a: nat, b: nat)
    requires ReservationId(a) == ReservationId(b)
    ensures a == b
  {
    ReservationIdRoundTrip(a);
    ReservationIdRoundTrip(b);
  }

  /** The first reservation ID is "R0001". */
  lemma FirstReservationId()
    ensures ReservationId(1) == "R0001"
  {
    assert Decimal(1) == "1";
    assert Zeros(3) == "000";
  }

  // ---------------------------------------------------------------------
  // Specification functions
  // ---------------------------------------------------------------------

  /** check_availability's verdict: every date of the stay has fewer units
      booked than the hotel has rooms of the type. */
  ghost predicate Available(head: seq<MonthNode>, rooms: seq<Room>, roomType: string, checkIn: Date, checkOut: Date)
  {
    forall x :: InRange(checkIn, checkOut, x) ==>
      BookedCount(head, x.month, x.day, roomType) < CountOfType(rooms, roomType)
  }

  /** The reservations of the given type whose stay covers (month, day). */
  ghost function Covering(db: map<string, ReservationRecord>, month: int, day: int, roomType: string): set<string>
  {
    set rid | rid in db && db[rid].roomType == roomType && InRange(db[rid].checkIn, db[rid].checkOut, Date(month, day))
  }

  /** The number of reservations of the type that cover (month, day). */
  ghost function Demand(db: map<string, ReservationRecord>, month: int, day: int, roomType: string): nat
  {
    |Covering(db, month, day, roomType)|
  }

  /** A reservation stored under a fresh ID raises the demand by one on
      exactly the dates and the type it covers. */
  lemma {:induction false} DemandAdd(db: map<string, ReservationRecord>, rid: string, r: ReservationRecord,
                                     month: int, day: int, roomType: string)
    requires rid !in db
    ensures Demand(db[rid := r], month, day, roomType) ==
      Demand(db, month, day, roomType) +
      (if r.roomType == roomType && InRange(r.checkIn, r.checkOut, Date(month, day)) then 1 else 0)
  {
    var before := Covering(db, month, day, roomType);
    var after := Covering(db[rid := r], month, day, roomType);
    if r.roomType == roomType && InRange(r.checkIn, r.checkOut, Date(month, day)) {
      assert after == before + {rid};
    } else {
      assert after == before;
    }
  }

  /** An unknown room type has no rooms, so no stay is ever available. */
  lemma UnknownTypeNeverAvailable(head: seq<MonthNode>, rooms: seq<Room>, roomType: string, checkIn: Date, checkOut: Date)
    requires WellFormed(head) && ValidRange(checkIn, checkOut)
    requires forall k :: 0 <= k < |rooms| ==> rooms[k].roomType != roomType
    ensures !Available(head, rooms, roomType, checkIn, checkOut)
  {
    CountOfAbsentType(rooms, roomType);
    BookedCountNonNegative(head, checkIn.month, checkIn.day, roomType);
    assert InRange(checkIn, checkOut, checkIn);
  }

  /** Availability over the walk the source performs is availability over
      the inclusive date range. */
  lemma AvailableOverWalk(head: seq<MonthNode>, rooms: seq<Room>, roomType: string, checkIn: Date, checkOut: Date)
    requires ValidRange(checkIn, checkOut)
    ensures Available(head, rooms, roomType, checkIn, checkOut) <==>
      forall x :: x in Walk(checkIn, checkOut) ==> BookedCount(head, x.month, x.day, roomType) < CountOfType(rooms, roomType)
  {
    forall x {
      WalkIsRange(checkIn, checkOut, x);
    }
  }

  /** Every stored ID reads back as a counter value below the given one. */
  ghost predicate IdsIssuedBelow(db: map<string, ReservationRecord>, counter: nat)
  {
    forall rid :: rid in db ==> ParseReservationId(rid).Some? && ParseReservationId(rid).value < counter
  }

  /** Every stored stay is one the walking loops terminate on. */
  ghost predicate StaysValid(db: map<string, ReservationRecord>)
  {
    forall rid :: rid in db ==> ValidRange(db[rid].checkIn, db[rid].checkOut)
  }

  /** The ledger counts exactly the stored reservations on every date. */
  ghost predicate LedgerMatches(head: seq<MonthNode>, db: map<string, ReservationRecord>)
  {
    forall m, d, t :: BookedCount(head, m, d, t) == Demand(db, m, d, t)
  }

  /** No date is booked beyond the rooms of its type. */
  ghost predicate WithinCapacity(head: seq<MonthNode>, rooms: seq<Room>)
  {
    forall m, d, t :: BookedCount(head, m, d, t) <= CountOfType(rooms, t)
  }

  /** Booking an available stay under a fresh ID keeps the ledger in step
      with the stored reservations and within capacity. */
  lemma BookingKeepsInvariants(head: seq<MonthNode>, newHead: seq<MonthNode>, db: map<string, ReservationRecord>,
                               rooms: seq<Room>, rid: string, r: ReservationRecord)
    requires LedgerMatches(head, db) && WithinCapacity(head, rooms) && rid !in db
    requires Available(head, rooms, r.roomType, r.checkIn, r.checkOut)
    requires forall m, d, t ::
      BookedCount(newHead, m, d, t) ==
      BookedCount(head, m, d, t) + (if t == r.roomType && InRange(r.checkIn, r.checkOut, Date(m, d)) then 1 else 0)
    ensures LedgerMatches(newHead, db[rid := r]) && WithinCapacity(newHead, rooms)
  {
    forall m, d, t ensures BookedCount(newHead, m, d, t) == Demand(db[rid := r], m, d, t) {
      DemandAdd(db, rid, r, m, d, t);
    }
    forall m, d, t ensures BookedCount(newHead, m, d, t) <= CountOfType(rooms, t) {
      if t == r.roomType && InRange(r.checkIn, r.checkOut, Date(m, d)) {
        assert BookedCount(head, m, d, t) < CountOfType(rooms, t);
      }
    }
  }

  /** A fresh counter value gives an ID that is not yet stored, and the
      counter bound moves on with it. */
  lemma FreshIdNotStored(db: map<string, ReservationRecord>, counter: nat, r: ReservationRecord)
    requires IdsIssuedBelow(db, counter)
    ensures ReservationId(counter) !in db
    ensures IdsIssuedBelow(db[ReservationId(counter) := r], counter + 1)
  {
    ReservationIdRoundTrip(counter);
  }

  /** The offer get_available_room_types makes for a type: the name, and
      the capacity and price of the first room of the type. */
  function OfferFor(rooms: seq<Room>, roomType: string): (o: RoomTypeOffer)
    requires HasRoomType(rooms, roomType)
    ensures o.name == roomType
  {
    RoomTypeOffer(roomType, FirstOfType(rooms, roomType).maxGuests, FirstOfType(rooms, roomType).price)
  }

  /** A type is offered when its first room takes the guests and the stay
      is available. */
  ghost predicate Qualifies(head: seq<MonthNode>, rooms: seq<Room>, roomType: string, numGuests: int,
                            checkIn: Date, checkOut: Date)
    requires HasRoomType(rooms, roomType)
  {
    FirstOfType(rooms, roomType).maxGuests >= numGuests && Available(head, rooms, roomType, checkIn, checkOut)
  }

  /** The qualifying types, in the order given. */
  ghost function Qualifying(types: seq<string>, head: seq<MonthNode>, rooms: seq<Room>, numGuests: int,
                            checkIn: Date, checkOut: Date): seq<string>
    requires forall k :: 0 <= k < |types| ==> HasRoomType(rooms, types[k])
  {
    if types == [] then []
    else
      var init := types[..|types| - 1];
      var last := types[|types| - 1];
      assert forall k :: 0 <= k < |init| ==> init[k] == types[k];
      var rest := Qualifying(init, head, rooms, numGuests, checkIn, checkOut);
      if Qualifies(head, rooms, last, numGuests, checkIn, checkOut) then rest + [last] else rest
  }

  /** The qualifying types are exactly the given types that qualify, and
      they are distinct when the given types are. */
  lemma {:induction false} QualifyingMembers(types: seq<string>, head: seq<MonthNode>, rooms: seq<Room>, numGuests: int,
                                             checkIn: Date, checkOut: Date)
    requires forall k :: 0 <= k < |types| ==> HasRoomType(rooms, types[k])
    ensures var q := Qualifying(types, head, rooms, numGuests, checkIn, checkOut);
      && (forall k :: 0 <= k < |q| ==>
            q[k] in types && HasRoomType(rooms, q[k]) && Qualifies(head, rooms, q[k], numGuests, checkIn, checkOut))
      && (forall k :: 0 <= k < |types| ==>
            (types[k] in q <==> Qualifies(head, rooms, types[k], numGuests, checkIn, checkOut)))
      && ((forall a, b :: 0 <= a < b < |types| ==> types[a] != types[b]) ==>
            forall a, b :: 0 <= a < b < |q| ==> q[a] != q[b])
  {
    if types != [] {
      var init := types[..|types| - 1];
      var last := types[|types| - 1];
      assert forall k :: 0 <= k < |init| ==> init[k] == types[k];
      assert forall t :: t in types <==> t in init || t == last;
      QualifyingMembers(init, head, rooms, numGuests, checkIn, checkOut);
    }
  }

  /** One more type considered: it is appended exactly when it qualifies. */
  lemma QualifyingStep(types: seq<string>, i: nat, head: seq<MonthNode>, rooms: seq<Room>, numGuests: int,
                       checkIn: Date, checkOut: Date)
    requires i < |types| && forall k :: 0 <= k < |types| ==> HasRoomType(rooms, types[k])
    ensures Qualifying(types[..i + 1], head, rooms, numGuests, checkIn, checkOut) ==
      Qualifying(types[..i], head, rooms, numGuests, checkIn, checkOut) +
      if Qualifies(head, rooms, types[i], numGuests, checkIn, checkOut) then [types[i]] else []
  {
    assert types[..i + 1][..i] == types[..i];
  }

  /** The loop's offers, one per qualifying type, give the promises of
      get_available_room_types. */
  lemma OffersMatchNames(offers: seq<RoomTypeOffer>, names: seq<string>, types: seq<string>,
                         head: seq<MonthNode>, rooms: seq<Room>, numGuests: int, checkIn: Date, checkOut: Date)
    requires forall t :: t in types <==> HasRoomType(rooms, t)
    requires forall a, b :: 0 <= a < b < |types| ==> types[a] != types[b]
    requires forall k :: 0 <= k < |types| ==> HasRoomType(rooms, types[k])
    requires names == Qualifying(types, head, rooms, numGuests, checkIn, checkOut)
    requires |offers| == |names|
    requires forall k :: 0 <= k < |offers| ==> HasRoomType(rooms, names[k]) && offers[k] == OfferFor(rooms, names[k])
    ensures forall o :: o in offers ==>
      HasRoomType(rooms, o.name) &&
      o.maxGuests == FirstOfType(rooms, o.name).maxGuests &&
      o.price == FirstOfType(rooms, o.name).price
    ensures forall t :: HasRoomType(rooms, t) ==>
      ((exists o :: o in offers && o.name == t) <==>
        FirstOfType(rooms, t).maxGuests >= numGuests &&
        Available(head, rooms, t, checkIn, checkOut))
    ensures forall i, j :: 0 <= i < j < |offers| ==> offers[i].name != offers[j].name
  {
    QualifyingMembers(types, head, rooms, numGuests, checkIn, checkOut);
    forall t | HasRoomType(rooms, t)
      ensures (exists o :: o in offers && o.name == t) <==> Qualifies(head, rooms, t, numGuests, checkIn, checkOut)
    {
      assert t in types;
      var j :| 0 <= j < |types| && types[j] == t;
      if exists o :: o in offers && o.name == t {
        var o :| o in offers && o.name == t;
        var k :| 0 <= k < |offers| && offers[k] == o;
        assert names[k] == t;
      }
      if Qualifies(head, rooms, t, numGuests, checkIn, checkOut) {
        var k :| 0 <= k < |names| && names[k] == t;
        assert offers[k] in offers && offers[k].name == t;
      }
    }
  }

  // ---------------------------------------------------------------------
  // The reservation system
  // ---------------------------------------------------------------------

  class ReservationSystem {
    const hotel: Hotel
    var reservationsDb: map<string, ReservationRecord>
    /** The module global reservation_counter. */
    var reservationCounter: nat
    /** The module global calendar_head (the empty sequence is None). */
    var calendarHead: seq<MonthNode>

    /** What every operation keeps: a well-formed ledger; every stored ID
        was issued from a counter value below the current one; every stored
        stay is one the walking loops terminate on; the ledger counts exactly
        the stored reservations on every date; and no date is booked beyond
        the rooms of its type. */
    ghost predicate Valid()
      reads this
    {
      WellFormed(calendarHead) &&
      reservationCounter >= 1 &&
      IdsIssuedBelow(reservationsDb, reservationCounter) &&
      StaysValid(reservationsDb) &&
      LedgerMatches(calendarHead, reservationsDb) &&
      WithinCapacity(calendarHead, hotel.rooms)
    }

    /** A new system: the standard hotel, no reservations, the counter at 1
        and an empty ledger. */
    constructor ()
      ensures Valid() && hotel.Standard()
      ensures reservationsDb == map[] && reservationCounter == 1 && calendarHead == []
    {
      hotel := new Hotel();
      reservationsDb := map[];
      reservationCounter := 1;
      calendarHead := [];
      new;
      forall m, d, t ensures BookedCount(calendarHead, m, d, t) == Demand(reservationsDb, m, d, t) {
        EmptyLedger(m, d, t);
        assert Covering(reservationsDb, m, d, t) == {};
      }
      forall m, d, t ensures BookedCount(calendarHead, m, d, t) <= CountOfType(hotel.rooms, t) {
        EmptyLedger(m, d, t);
      }
    }

    /** check_availability: walks the stay from check-in to check-out and
        answers false at the first date whose booked count reaches the
        number of rooms of the type. */
    method CheckAvailability(roomType: string, checkIn: Date, checkOut: Date) returns (ok: bool)
      requires ValidRange(checkIn, checkOut)
      ensures ok <==> Available(calendarHead, hotel.rooms, roomType, checkIn, checkOut)
    {
      var total := CountOfType(hotel.rooms, roomType);
      var cur := checkIn;
      while true
        invariant ValidDay(cur) && Index(checkIn) <= Index(cur) <= Index(checkOut)
        invariant forall x :: ValidDay(x) && Index(checkIn) <= Index(x) < Index(cur) ==>
          BookedCount(calendarHead, x.month, x.day, roomType) < total
        decreases Index(checkOut) - Index(cur)
      {
        var booked := CountBookedRooms(cur.month, cur.day, roomType, calendarHead);
        if booked >= total {
          assert InRange(checkIn, checkOut, cur);
          return false;
        }
        if cur == checkOut {
          break;
        }
        IndexInjective(cur, checkOut);
        cur := NextDay(cur);
      }
      forall x | InRange(checkIn, checkOut, x)
        ensures BookedCount(calendarHead, x.month, x.day, roomType) < total
      {
        IndexInjective(x, cur);
      }
      return true;
    }

    /** get_available_room_types: one offer per room type whose sample room
        takes the guests and whose stay is available, carrying the sample
        room's name, capacity and price. */
    method GetAvailableRoomTypes(checkIn: Date, checkOut: Date, numGuests: int) returns (offers: seq<RoomTypeOffer>)
      requires ValidRange(checkIn, checkOut)
      ensures forall o :: o in offers ==>
        HasRoomType(hotel.rooms, o.name) &&
        o.maxGuests == FirstOfType(hotel.rooms, o.name).maxGuests &&
        o.price == FirstOfType(hotel.rooms, o.name).price
      ensures forall t :: HasRoomType(hotel.rooms, t) ==>
        ((exists o :: o in offers && o.name == t) <==>
          FirstOfType(hotel.rooms, t).maxGuests >= numGuests &&
          Available(calendarHead, hotel.rooms, t, checkIn, checkOut))
      ensures forall i, j :: 0 <= i < j < |offers| ==> offers[i].name != offers[j].name
    {
      var types := DistinctTypes(hotel.rooms);
      assert forall k :: 0 <= k < |types| ==> HasRoomType(hotel.rooms, types[k]) by {
        assert forall k :: 0 <= k < |types| ==> types[k] in types;
      }
      ghost var names;
      offers, names := CollectOffers(types, checkIn, checkOut, numGuests);
      OffersMatchNames(offers, names, types, calendarHead, hotel.rooms, numGuests, checkIn, checkOut);
    }

    /** The loop of get_available_room_types over the given types: an offer
        for each type whose first room takes the guests and whose stay is
        available, in order. */
    method CollectOffers(types: seq<string>, checkIn: Date, checkOut: Date, numGuests: int)
      returns (offers: seq<RoomTypeOffer>, ghost names: seq<string>)
      requires ValidRange(checkIn, checkOut)
      requires forall k :: 0 <= k < |types| ==> HasRoomType(hotel.rooms, types[k])
      ensures names == Qualifying(types, calendarHead, hotel.rooms, numGuests, checkIn, checkOut)
      ensures |offers| == |names|
      ensures forall k :: 0 <= k < |offers| ==>
        HasRoomType(hotel.rooms, names[k]) && offers[k] == OfferFor(hotel.rooms, names[k])
      ensures forall k :: 0 <= k < |offers| ==>
        offers[k].name in types && HasRoomType(hotel.rooms, offers[k].name) &&
        Qualifies(calendarHead, hotel.rooms, offers[k].name, numGuests, checkIn, checkOut) &&
        offers[k] == OfferFor(hotel.rooms, offers[k].name)
    {
      names := [];
      offers := [];
      for i := 0 to |types|
        invariant names == Qualifying(types[..i], calendarHead, hotel.rooms, numGuests, checkIn, checkOut)
        invariant |offers| == |names|
        invariant forall k :: 0 <= k < |offers| ==>
          HasRoomType(hotel.rooms, names[k]) && offers[k] == OfferFor(hotel.rooms, names[k])
      {
        QualifyingStep(types, i, calendarHead, hotel.rooms, numGuests, checkIn, checkOut);
        var rtype := types[i];
        var sample := FirstOfType(hotel.rooms, rtype);
        if sample.maxGuests >= numGuests {
          var ok := CheckAvailability(rtype, checkIn, checkOut);
          if ok {
            offers := offers + [RoomTypeOffer(rtype, sample.maxGuests, sample.price)];
            names := names + [rtype];
          }
        }
      }
      assert types[..|types|] == types;
      QualifyingMembers(types, calendarHead, hotel.rooms, numGuests, checkIn, checkOut);
    }

    /** generate_reservation_id: the ID of the current counter value; the
        counter moves on by one. */
    method GenerateReservationId() returns (rid: string)
      requires Valid()
      modifies this
      ensures Valid()
      ensures rid == ReservationId(old(reservationCounter))
      ensures reservationCounter == old(reservationCounter) + 1
      ensures reservationsDb == old(reservationsDb) && calendarHead == old(calendarHead)
    {
      rid := ReservationId(reservationCounter);
      reservationCounter := reservationCounter + 1;
    }

    /** make_reservation: when the stay is not available, None and nothing
        changes; otherwise a fresh ID, exactly one stored record under it
        and one more unit booked on every date of the stay. */
    method MakeReservation(customer: Customer, roomType: string, checkIn: Date, checkOut: Date)
      returns (rid: Option<string>)
      requires Valid() && ValidRange(checkIn, checkOut)
      modifies this
      ensures Valid()
      ensures rid.Some? <==> old(Available(calendarHead, hotel.rooms, roomType, checkIn, checkOut))
      ensures rid.None? ==>
        reservationCounter == old(reservationCounter) && reservationsDb == old(reservationsDb) &&
        calendarHead == old(calendarHead)
      ensures rid.Some? ==>
        rid.value == ReservationId(old(reservationCounter)) && rid.value !in old(reservationsDb) &&
        reservationCounter == old(reservationCounter) + 1 &&
        reservationsDb == old(reservationsDb)[rid.value := ReservationRecord(customer, roomType, checkIn, checkOut)]
      ensures rid.Some? ==>
        forall m, d, t ::
          BookedCount(calendarHead, m, d, t) ==
          old(BookedCount(calendarHead, m, d, t)) + (if t == roomType && InRange(checkIn, checkOut, Date(m, d)) then 1 else 0)
    {
      var ok := CheckAvailability(roomType, checkIn, checkOut);
      if !ok {
        return None;
      }
      ghost var oldHead := calendarHead;
      ghost var oldDb := reservationsDb;
      var record := ReservationRecord(customer, roomType, checkIn, checkOut);
      FreshIdNotStored(reservationsDb, reservationCounter, record);
      var id := GenerateReservationId();
      reservationsDb := reservationsDb[id := record];
      calendarHead := StoreBookingRange(checkIn, checkOut, roomType, calendarHead);
      BookingKeepsInvariants(oldHead, calendarHead, oldDb, hotel.rooms, id, record);
      return Some(id);
    }
  }

  /** No overbooking: in a valid system, the reservations covering any date
      never outnumber the rooms of their type. */
  lemma NoOverbooking(s: ReservationSystem, month: int, day: int, roomType: string)
    requires s.Valid()
    ensures Demand(s.reservationsDb, month, day, roomType) <= CountOfType(s.hotel.rooms, roomType)
  {
    assert BookedCount(s.calendarHead, month, day, roomType) == Demand(s.reservationsDb, month, day, roomType);
  }
}
