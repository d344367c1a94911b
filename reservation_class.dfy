// backend/reservation_class.py: the reservation record the controller keeps
// in memory, and its conversion to and from a row of named string fields.

module ReservationModel {
  import opened Text

  /** A reservation as the controller stores it: dates are "MM-DD" text. */
  datatype Reservation = Reservation(
    reservationId: string,
    customerEmail: string,
    roomType: string,
    checkIn: string,
    checkOut: string)

  const ReservationIdKey: string := "reservation_id"
  const CustomerEmailKey: string := "customer_email"
  const RoomTypeKey: string := "room_type"
  const CheckInKey: string := "check_in"
  const CheckOutKey: string := "check_out"

  /** The five keys of a reservation row. */
  const FieldNames: set<string> := {ReservationIdKey, CustomerEmailKey, RoomTypeKey, CheckInKey, CheckOutKey}

  predicate HasAllFields(data: map<string, string>)
  {
    ReservationIdKey in data && CustomerEmailKey in data && RoomTypeKey in data &&
    CheckInKey in data && CheckOutKey in data
  }

  /** to_dict: exactly the five keys, each holding its field. */
  function ToDict(r: Reservation): (data: map<string, string>)
    ensures data.Keys == FieldNames
    ensures HasAllFields(data)
    ensures data[ReservationIdKey] == r.reservationId && data[CustomerEmailKey] == r.customerEmail
    ensures data[RoomTypeKey] == r.roomType && data[CheckInKey] == r.checkIn && data[CheckOutKey] == r.checkOut
  {
    map[ReservationIdKey := r.reservationId,
        CustomerEmailKey := r.customerEmail,
        RoomTypeKey := r.roomType,
        CheckInKey := r.checkIn,
        CheckOutKey := r.checkOut]
  }

  /** from_dict: a reservation from the five keys; a row missing any of
      them raises KeyError in the source, None here. Other keys are
      ignored. */
  function FromDict(data: map<string, string>): (r: Option<Reservation>)
    ensures r.Some? <==> HasAllFields(data)
    ensures r.Some? ==>
      r.value.reservationId == data[ReservationIdKey] && r.value.customerEmail == data[CustomerEmailKey] &&
      r.value.roomType == data[RoomTypeKey] && r.value.checkIn == data[CheckInKey] &&
      r.value.checkOut == data[CheckOutKey]
  {
    if HasAllFields(data) then
      Some(Reservation(data[ReservationIdKey], data[CustomerEmailKey], data[RoomTypeKey],
                       data[CheckInKey], data[CheckOutKey]))
    else None
  }

  /** from_dict(to_dict(r)) reproduces r. */
  lemma FromToDict(r: Reservation)
    ensures FromDict(ToDict(r)) == Some(r)
  {
  }

  /** to_dict(from_dict(d)) is d restricted to the five keys. */
  lemma ToFromDict(data: map<string, string>)
    requires HasAllFields(data)
    ensures FromDict(data).Some?
    ensures ToDict(FromDict(data).value) == map k | k in data && k in FieldNames :: data[k]
  {
    var restricted := map k | k in data && k in FieldNames :: data[k];
    assert restricted.Keys == FieldNames;
  }

  /** Rows that hold the five keys with the same values give the same
      reservation, whatever else they hold. */
  lemma FromDictIgnoresExtraKeys(data: map<string, string>, extra: string, value: string)
    requires extra !in FieldNames
    ensures FromDict(data[extra := value]) == FromDict(data)
  {
  }
}
