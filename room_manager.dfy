// backend/room_manager.py: per-room availability and housekeeping state on
// top of the fixed inventory, the filter queries over it, per-type
// summaries and the date-based availability check.

module RoomManagement {
  import opened Text
  import opened Dates
  import opened Calendar
  import opened Database
  import opened Reservations

  const Clean: string := "clean"
  const Dirty: string := "dirty"
  const Unknown: string := "unknown"

  // ---------------------------------------------------------------------
  // Filters: every list comprehension of the source is one KeepWhere
  // ---------------------------------------------------------------------

  /** One condition of a list comprehension over the rooms. */
  datatype Criterion =
    | OfType(roomType: string)
    | IsAvailable
    | IsBooked
    | HasStatus(status: string)
    | LacksStatus(status: string)
    | MinPrice(minPrice: int)
    | MaxPrice(maxPrice: int)
    | MinGuests(minGuests: int)

  /** room_cleanliness.get(room_id) == status. */
  predicate StatusIs(cleanliness: map<int, string>, roomId: int, status: string)
  {
    roomId in cleanliness && cleanliness[roomId] == status
  }

  predicate Satisfies(r: Room, c: Criterion, cleanliness: map<int, string>)
    reads r
  {
    match c
    case OfType(t) => r.roomType == t
    case IsAvailable => r.isAvailable
    case IsBooked => !r.isAvailable
    case HasStatus(s) => StatusIs(cleanliness, r.roomId, s)
    case LacksStatus(s) => !StatusIs(cleanliness, r.roomId, s)
    case MinPrice(p) => r.price >= p
    case MaxPrice(p) => r.price <= p
    case MinGuests(g) => r.maxGuests >= g
  }

  predicate SatisfiesAll(r: Room, cs: seq<Criterion>, cleanliness: map<int, string>)
    reads r
  {
    forall i :: 0 <= i < |cs| ==> Satisfies(r, cs[i], cleanliness)
  }

  /** [room for room in rooms if <every criterion>]: the rooms meeting all
      criteria, in their original order. */
  function KeepWhere(rooms: seq<Room>, cs: seq<Criterion>, cleanliness: map<int, string>): (result: seq<Room>)
    reads rooms
    ensures |result| <= |rooms|
    ensures forall k :: 0 <= k < |result| ==> result[k] in rooms && SatisfiesAll(result[k], cs, cleanliness)
    ensures forall k :: 0 <= k < |rooms| ==> (rooms[k] in result <==> SatisfiesAll(rooms[k], cs, cleanliness))
  {
    if rooms == [] then []
    else
      var init := rooms[..|rooms| - 1];
      var last := rooms[|rooms| - 1];
      assert forall k :: 0 <= k < |init| ==> init[k] == rooms[k];
      KeepWhere(init, cs, cleanliness) + (if SatisfiesAll(last, cs, cleanliness) then [last] else [])
  }

  /** What one or two criteria mean for a room. */
  lemma CriteriaMeaning(c: Criterion, d: Criterion, cleanliness: map<int, string>)
    ensures forall r: Room :: SatisfiesAll(r, [c], cleanliness) <==> Satisfies(r, c, cleanliness)
    ensures forall r: Room ::
      (SatisfiesAll(r, [c, d], cleanliness) <==> Satisfies(r, c, cleanliness) && Satisfies(r, d, cleanliness))
  {
    var one := [c];
    var two := [c, d];
    assert one[0] == c && two[0] == c && two[1] == d;
  }

  /** Filtering distributes over concatenation. */
  lemma {:induction false} KeepWhereAppend(a: seq<Room>, b: seq<Room>, cs: seq<Criterion>, cleanliness: map<int, string>)
    ensures KeepWhere(a + b, cs, cleanliness) == KeepWhere(a, cs, cleanliness) + KeepWhere(b, cs, cleanliness)
    decreases |b|
  {
    if b == [] {
      assert a + b == a;
    } else {
      var init := b[..|b| - 1];
      var last := b[|b| - 1];
      var tail := if SatisfiesAll(last, cs, cleanliness) then [last] else [];
      assert (a + b)[..|a + b| - 1] == a + init;
      assert (a + b)[|a + b| - 1] == last;
      assert KeepWhere(a + b, cs, cleanliness) == KeepWhere(a + init, cs, cleanliness) + tail;
      assert KeepWhere(b, cs, cleanliness) == KeepWhere(init, cs, cleanliness) + tail;
      KeepWhereAppend(a, init, cs, cleanliness);
    }
  }

  /** No criteria keep every room. */
  lemma {:induction false} KeepWhereNothing(rooms: seq<Room>, cleanliness: map<int, string>)
    ensures KeepWhere(rooms, [], cleanliness) == rooms
  {
    if rooms != [] {
      KeepWhereNothing(rooms[..|rooms| - 1], cleanliness);
    }
  }

  /** Filtering the result of a filter by one more criterion is filtering
      once by all of them: successive comprehensions give the
      order-preserving subsequence meeting every condition. */
  lemma {:induction false} FilterThenFilter(rooms: seq<Room>, cs: seq<Criterion>, c: Criterion, cleanliness: map<int, string>)
    ensures KeepWhere(KeepWhere(rooms, cs, cleanliness), [c], cleanliness) == KeepWhere(rooms, cs + [c], cleanliness)
  {
    if rooms != [] {
      var init := rooms[..|rooms| - 1];
      var last := rooms[|rooms| - 1];
      FilterThenFilter(init, cs, c, cleanliness);
      var tail := if SatisfiesAll(last, cs, cleanliness) then [last] else [];
      assert KeepWhere(rooms, cs, cleanliness) == KeepWhere(init, cs, cleanliness) + tail;
      KeepWhereAppend(KeepWhere(init, cs, cleanliness), tail, [c], cleanliness);
      SatisfiesAllAppend(last, cs, [c], cleanliness);
      if SatisfiesAll(last, cs, cleanliness) {
        KeepSingle(last, [c], cleanliness);
      } else {
        assert KeepWhere(tail, [c], cleanliness) == [];
      }
    }
  }

  /** The rooms of a type, then those with a status: one filter by both. */
  lemma TypeThenStatus(rooms: seq<Room>, roomType: string, status: string, cleanliness: map<int, string>)
    ensures KeepWhere(KeepWhere(rooms, [OfType(roomType)], cleanliness), [HasStatus(status)], cleanliness) ==
      KeepWhere(rooms, [OfType(roomType), HasStatus(status)], cleanliness)
    ensures forall k :: 0 <= k < |rooms| ==>
      (rooms[k] in KeepWhere(rooms, [OfType(roomType), HasStatus(status)], cleanliness) <==>
       rooms[k].roomType == roomType && StatusIs(cleanliness, rooms[k].roomId, status))
  {
    FilterThenFilter(rooms, [OfType(roomType)], HasStatus(status), cleanliness);
    assert [OfType(roomType)] + [HasStatus(status)] == [OfType(roomType), HasStatus(status)];
    CriteriaMeaning(OfType(roomType), HasStatus(status), cleanliness);
  }

  /** A single room is kept exactly when it meets the criteria. */
  lemma KeepSingle(r: Room, cs: seq<Criterion>, cleanliness: map<int, string>)
    ensures KeepWhere([r], cs, cleanliness) == if SatisfiesAll(r, cs, cleanliness) then [r] else []
  {
    assert [r][..0] == [];
  }

  /** The first room a filter keeps comes after only rooms it drops. */
  lemma {:induction false} KeepWhereFirst(rooms: seq<Room>, cs: seq<Criterion>, cleanliness: map<int, string>)
    requires KeepWhere(rooms, cs, cleanliness) != []
    ensures exists k :: (0 <= k < |rooms| && rooms[k] == KeepWhere(rooms, cs, cleanliness)[0] &&
      forall j :: 0 <= j < k ==> !SatisfiesAll(rooms[j], cs, cleanliness))
  {
    var init := rooms[..|rooms| - 1];
    var last := rooms[|rooms| - 1];
    var kept := KeepWhere(init, cs, cleanliness);
    var tail := if SatisfiesAll(last, cs, cleanliness) then [last] else [];
    assert KeepWhere(rooms, cs, cleanliness) == kept + tail;
    if kept != [] {
      KeepWhereFirst(init, cs, cleanliness);
      var k :| 0 <= k < |init| && init[k] == kept[0] &&
        forall j :: 0 <= j < k ==> !SatisfiesAll(init[j], cs, cleanliness);
      assert KeepWhere(rooms, cs, cleanliness)[0] == kept[0];
      assert forall j :: 0 <= j <= k ==> rooms[j] == init[j];
      assert 0 <= k < |rooms| && rooms[k] == KeepWhere(rooms, cs, cleanliness)[0] &&
        forall j :: 0 <= j < k ==> !SatisfiesAll(rooms[j], cs, cleanliness);
    } else {
      forall j | 0 <= j < |init| ensures !SatisfiesAll(rooms[j], cs, cleanliness) {
        assert init[j] == rooms[j];
      }
      var k := |rooms| - 1;
      assert KeepWhere(rooms, cs, cleanliness)[0] == last;
      assert 0 <= k < |rooms| && rooms[k] == KeepWhere(rooms, cs, cleanliness)[0] &&
        forall j :: 0 <= j < k ==> !SatisfiesAll(rooms[j], cs, cleanliness);
    }
  }

  /** Every kept room comes from some position of the rooms, and the filter
      of the rooms before that position is exactly what was kept before it. */
  lemma {:induction false} KeepWherePosition(rooms: seq<Room>, cs: seq<Criterion>, cleanliness: map<int, string>, i: nat)
      returns (k: nat)
    requires i < |KeepWhere(rooms, cs, cleanliness)|
    ensures k < |rooms| && rooms[k] == KeepWhere(rooms, cs, cleanliness)[i]
    ensures KeepWhere(rooms[..k], cs, cleanliness) == KeepWhere(rooms, cs, cleanliness)[..i]
  {
    var init := rooms[..|rooms| - 1];
    var last := rooms[|rooms| - 1];
    var kept := KeepWhere(init, cs, cleanliness);
    var all := KeepWhere(rooms, cs, cleanliness);
    assert all == kept + (if SatisfiesAll(last, cs, cleanliness) then [last] else []);
    if i < |kept| {
      k := KeepWherePosition(init, cs, cleanliness, i);
      assert init[..k] == rooms[..k];
      assert all[..i] == kept[..i];
    } else {
      k := |rooms| - 1;
      assert rooms[..k] == init;
      assert all[..i] == kept;
    }
  }

  /** r loses to m: dearer when the lowest price wins, cheaper otherwise. */
  predicate Outranked(r: Room, m: Room, lowest: bool)
  {
    if lowest then r.price > m.price else r.price < m.price
  }

  /** A room that every earlier available room loses to, in the list of
      available rooms, is the first of its kind among all the rooms. */
  lemma FirstAmongAvailable(rooms: seq<Room>, cleanliness: map<int, string>, m: Room, lowest: bool)
    requires exists i :: (0 <= i < |KeepWhere(rooms, [IsAvailable], cleanliness)| &&
      KeepWhere(rooms, [IsAvailable], cleanliness)[i] == m &&
      forall j :: 0 <= j < i ==> Outranked(KeepWhere(rooms, [IsAvailable], cleanliness)[j], m, lowest))
    ensures exists k :: (0 <= k < |rooms| && rooms[k] == m &&
      forall j :: 0 <= j < k && rooms[j].isAvailable ==> Outranked(rooms[j], m, lowest))
  {
    var all := KeepWhere(rooms, [IsAvailable], cleanliness);
    var i :| 0 <= i < |all| && all[i] == m && forall j :: 0 <= j < i ==> Outranked(all[j], m, lowest);
    var k := KeepWherePosition(rooms, [IsAvailable], cleanliness, i);
    CriteriaMeaning(IsAvailable, IsAvailable, cleanliness);
    forall j | 0 <= j < k && rooms[j].isAvailable ensures Outranked(rooms[j], m, lowest) {
      assert rooms[..k][j] == rooms[j];
      assert rooms[j] in all[..i];
      var n :| 0 <= n < i && all[..i][n] == rooms[j];
      assert all[n] == rooms[j];
    }
  }

  /** The rooms of a type are as many as Database counts. */
  lemma {:induction false} KeepTypeCount(rooms: seq<Room>, roomType: string, cleanliness: map<int, string>)
    ensures |KeepWhere(rooms, [OfType(roomType)], cleanliness)| == CountOfType(rooms, roomType)
  {
    if rooms != [] {
      var init := rooms[..|rooms| - 1];
      var last := rooms[|rooms| - 1];
      KeepTypeCount(init, roomType, cleanliness);
      assert rooms == init + [last];
      CountOfTypeAppend(init, [last], roomType);
      assert CountOfType([last], roomType) == if last.roomType == roomType then 1 else 0;
      CriteriaMeaning(OfType(roomType), OfType(roomType), cleanliness);
    }
  }

  /** With every room's status either clean or dirty, the clean and the
      dirty rooms together are all the rooms. */
  lemma {:induction false} CleanDirtyPartition(rooms: seq<Room>, cleanliness: map<int, string>)
    requires forall k :: 0 <= k < |rooms| ==>
      StatusIs(cleanliness, rooms[k].roomId, Clean) || StatusIs(cleanliness, rooms[k].roomId, Dirty)
    ensures |KeepWhere(rooms, [HasStatus(Clean)], cleanliness)| + |KeepWhere(rooms, [HasStatus(Dirty)], cleanliness)| == |rooms|
  {
    if rooms != [] {
      var last := rooms[|rooms| - 1];
      CleanDirtyPartition(rooms[..|rooms| - 1], cleanliness);
      CriteriaMeaning(HasStatus(Clean), HasStatus(Dirty), cleanliness);
      CriteriaMeaning(HasStatus(Dirty), HasStatus(Dirty), cleanliness);
    }
  }

  /** The available rooms of a type. */
  function AvailableOfType(rooms: seq<Room>, roomType: string, cleanliness: map<int, string>): (n: nat)
    reads rooms
    ensures n == |KeepWhere(rooms, [OfType(roomType), IsAvailable], cleanliness)|
  {
    |KeepWhere(rooms, [OfType(roomType), IsAvailable], cleanliness)|
  }

  /** The clean rooms of a type. */
  function CleanOfType(rooms: seq<Room>, roomType: string, cleanliness: map<int, string>): (n: nat)
    reads rooms
    ensures n == |KeepWhere(rooms, [OfType(roomType), HasStatus(Clean)], cleanliness)|
  {
    |KeepWhere(rooms, [OfType(roomType), HasStatus(Clean)], cleanliness)|
  }

  /** summary is what get_room_types_summary reports for rooms: an entry
      per type present, with its counts and the first room's attributes. */
  ghost predicate SummaryOf(summary: map<string, TypeSummary>, rooms: seq<Room>, cleanliness: map<int, string>)
    reads rooms
  {
    (forall t :: t in summary <==> HasRoomType(rooms, t)) &&
    forall t :: t in summary ==> EntryOf(summary[t], rooms, t, cleanliness)
  }

  /** e is the summary entry of a type present among the rooms. */
  ghost predicate EntryOf(e: TypeSummary, rooms: seq<Room>, roomType: string, cleanliness: map<int, string>)
    reads rooms
    requires HasRoomType(rooms, roomType)
  {
    e.total == CountOfType(rooms, roomType) &&
    e.total == e.available + e.booked &&
    e.total == e.clean + e.dirty &&
    e.available == AvailableOfType(rooms, roomType, cleanliness) &&
    e.clean == CleanOfType(rooms, roomType, cleanliness) &&
    e.price == FirstOfType(rooms, roomType).price &&
    e.maxGuests == FirstOfType(rooms, roomType).maxGuests &&
    e.beds == FirstOfType(rooms, roomType).beds
  }

  /** before with room tallied: a fresh entry from the room's attributes
      when its type is new, then one more in total, in available or
      booked, and in clean or dirty. */
  function Tally(before: map<string, TypeSummary>, room: Room, isClean: bool): (after: map<string, TypeSummary>)
    reads room
    ensures after.Keys == before.Keys + {room.roomType}
    ensures forall t :: t in before && t != room.roomType ==> after[t] == before[t]
    ensures after[room.roomType].total >= 1
  {
    var t := room.roomType;
    var b := if t in before then before[t] else TypeSummary(0, 0, 0, 0, 0, room.price, room.maxGuests, room.beds);
    before[t := TypeSummary(
      b.total + 1,
      b.available + (if room.isAvailable then 1 else 0),
      b.booked + (if room.isAvailable then 0 else 1),
      b.clean + (if isClean then 1 else 0),
      b.dirty + (if isClean then 0 else 1),
      b.price, b.maxGuests, b.beds)]
  }

  /** What get_room_types_summary computes: the rooms tallied in order. */
  function Summary(rooms: seq<Room>, cleanliness: map<int, string>): (summary: map<string, TypeSummary>)
    reads rooms
  {
    if rooms == [] then map[]
    else
      var last := rooms[|rooms| - 1];
      Tally(Summary(rooms[..|rooms| - 1], cleanliness), last, StatusIs(cleanliness, last.roomId, Clean))
  }

  /** The summary of one more room is the previous summary tallied with it. */
  lemma SummaryPrefix(rooms: seq<Room>, i: nat, cleanliness: map<int, string>)
    requires i < |rooms|
    ensures Summary(rooms[..i + 1], cleanliness) ==
      Tally(Summary(rooms[..i], cleanliness), rooms[i], StatusIs(cleanliness, rooms[i].roomId, Clean))
  {
    assert rooms[..i + 1][..i] == rooms[..i];
  }

  /** Every entry of the computed summary is exact. */
  lemma {:induction false} SummaryExact(rooms: seq<Room>, cleanliness: map<int, string>)
    ensures SummaryOf(Summary(rooms, cleanliness), rooms, cleanliness)
  {
    if rooms != [] {
      var i := |rooms| - 1;
      assert rooms[..i + 1] == rooms;
      SummaryExact(rooms[..i], cleanliness);
      KeysTally(Summary(rooms[..i], cleanliness), Summary(rooms, cleanliness), rooms, i, cleanliness);
      EntriesTally(Summary(rooms[..i], cleanliness), Summary(rooms, cleanliness), rooms, i, cleanliness);
    }
  }

  /** The loop body of get_room_types_summary tallies its room. */
  lemma TalliedIntro(before: map<string, TypeSummary>, start: TypeSummary, entry: TypeSummary, room: Room, isClean: bool)
    requires start == if room.roomType in before then before[room.roomType]
                      else TypeSummary(0, 0, 0, 0, 0, room.price, room.maxGuests, room.beds)
    requires entry == TypeSummary(
      start.total + 1,
      start.available + (if room.isAvailable then 1 else 0),
      start.booked + (if room.isAvailable then 0 else 1),
      start.clean + (if isClean then 1 else 0),
      start.dirty + (if isClean then 0 else 1),
      start.price, start.maxGuests, start.beds)
    ensures before[room.roomType := entry] == Tally(before, room, isClean)
  {
  }

  /** Tallying one more room adds exactly its type to the keys. */
  lemma KeysTally(before: map<string, TypeSummary>, after: map<string, TypeSummary>,
                  rooms: seq<Room>, i: nat, cleanliness: map<int, string>)
    requires i < |rooms|
    requires forall t :: t in before <==> HasRoomType(rooms[..i], t)
    requires after == Tally(before, rooms[i], StatusIs(cleanliness, rooms[i].roomId, Clean))
    ensures forall t :: t in after <==> HasRoomType(rooms[..i + 1], t)
  {
    forall t ensures t in after <==> HasRoomType(rooms[..i + 1], t) {
      SummaryStep(rooms, i, t, cleanliness);
    }
  }

  /** Tallying one more room keeps every entry exact. */
  lemma EntriesTally(before: map<string, TypeSummary>, after: map<string, TypeSummary>,
                     rooms: seq<Room>, i: nat, cleanliness: map<int, string>)
    requires i < |rooms|
    requires SummaryOf(before, rooms[..i], cleanliness)
    requires after == Tally(before, rooms[i], StatusIs(cleanliness, rooms[i].roomId, Clean))
    ensures forall t :: t in after ==> HasRoomType(rooms[..i + 1], t) && EntryOf(after[t], rooms[..i + 1], t, cleanliness)
  {
    forall t | t in after ensures HasRoomType(rooms[..i + 1], t) && EntryOf(after[t], rooms[..i + 1], t, cleanliness) {
      EntryTally(before, after, rooms, i, t, cleanliness);
    }
  }

  /** Tallying one more room keeps the entry of one type exact. */
  lemma EntryTally(before: map<string, TypeSummary>, after: map<string, TypeSummary>,
                   rooms: seq<Room>, i: nat, roomType: string, cleanliness: map<int, string>)
    requires i < |rooms| && roomType in after
    requires roomType in before <==> HasRoomType(rooms[..i], roomType)
    requires roomType in before ==> EntryOf(before[roomType], rooms[..i], roomType, cleanliness)
    requires after == Tally(before, rooms[i], StatusIs(cleanliness, rooms[i].roomId, Clean))
    ensures HasRoomType(rooms[..i + 1], roomType)
    ensures EntryOf(after[roomType], rooms[..i + 1], roomType, cleanliness)
  {
    SummaryStep(rooms, i, roomType, cleanliness);
    if roomType != rooms[i].roomType {
      assert after[roomType] == before[roomType];
    } else if roomType !in before {
      AbsentTypeTallies(rooms[..i], roomType, cleanliness);
    }
  }

  /** The increments get_room_types_summary makes for one room: one more
      in total, in available or booked, and in clean or dirty. */
  method Count(entry: TypeSummary, available: bool, clean: bool) returns (counted: TypeSummary)
    ensures counted == TypeSummary(
      entry.total + 1,
      entry.available + (if available then 1 else 0),
      entry.booked + (if available then 0 else 1),
      entry.clean + (if clean then 1 else 0),
      entry.dirty + (if clean then 0 else 1),
      entry.price, entry.maxGuests, entry.beds)
  {
    counted := entry.(total := entry.total + 1);
    if available {
      counted := counted.(available := counted.available + 1);
    } else {
      counted := counted.(booked := counted.booked + 1);
    }
    if clean {
      counted := counted.(clean := counted.clean + 1);
    } else {
      counted := counted.(dirty := counted.dirty + 1);
    }
  }

  /** The loop of get_room_types_summary: one tally per room, in order. */
  method Summarize(rooms: seq<Room>, cleanliness: map<int, string>) returns (summary: map<string, TypeSummary>)
    ensures summary == Summary(rooms, cleanliness)
  {
    summary := map[];
    for i := 0 to |rooms|
      invariant summary == Summary(rooms[..i], cleanliness)
    {
      var room := rooms[i];
      var isClean := StatusIs(cleanliness, room.roomId, Clean);
      var entry := if room.roomType in summary then summary[room.roomType]
                   else TypeSummary(0, 0, 0, 0, 0, room.price, room.maxGuests, room.beds);
      var counted := Count(entry, room.isAvailable, isClean);
      TalliedIntro(summary, entry, counted, room, isClean);
      SummaryPrefix(rooms, i, cleanliness);
      summary := summary[room.roomType := counted];
    }
    assert rooms[..|rooms|] == rooms;
  }

  /** A type with no room yet has nothing to tally. */
  lemma AbsentTypeTallies(rooms: seq<Room>, roomType: string, cleanliness: map<int, string>)
    requires !HasRoomType(rooms, roomType)
    ensures CountOfType(rooms, roomType) == 0
    ensures AvailableOfType(rooms, roomType, cleanliness) == 0
    ensures CleanOfType(rooms, roomType, cleanliness) == 0
  {
    CountOfAbsentType(rooms, roomType);
    CriteriaMeaning(OfType(roomType), IsAvailable, cleanliness);
    CriteriaMeaning(OfType(roomType), HasStatus(Clean), cleanliness);
    KeepWhereNone(rooms, [OfType(roomType), IsAvailable], cleanliness);
    KeepWhereNone(rooms, [OfType(roomType), HasStatus(Clean)], cleanliness);
  }

  /** A filter no room meets keeps nothing. */
  lemma {:induction false} KeepWhereNone(rooms: seq<Room>, cs: seq<Criterion>, cleanliness: map<int, string>)
    requires forall k :: 0 <= k < |rooms| ==> !SatisfiesAll(rooms[k], cs, cleanliness)
    ensures KeepWhere(rooms, cs, cleanliness) == []
  {
    if rooms != [] {
      var init := rooms[..|rooms| - 1];
      assert forall k :: 0 <= k < |init| ==> init[k] == rooms[k];
      KeepWhereNone(init, cs, cleanliness);
    }
  }

  /** How the tallies of one type change when the loop of
      get_room_types_summary takes one more room. */
  lemma SummaryStep(rooms: seq<Room>, i: nat, roomType: string, cleanliness: map<int, string>)
    requires i < |rooms|
    ensures HasRoomType(rooms[..i + 1], roomType) <==> HasRoomType(rooms[..i], roomType) || rooms[i].roomType == roomType
    ensures HasRoomType(rooms[..i], roomType) ==> FirstOfType(rooms[..i + 1], roomType) == FirstOfType(rooms[..i], roomType)
    ensures !HasRoomType(rooms[..i], roomType) && rooms[i].roomType == roomType ==>
      FirstOfType(rooms[..i + 1], roomType) == rooms[i]
    ensures CountOfType(rooms[..i + 1], roomType) ==
      CountOfType(rooms[..i], roomType) + (if rooms[i].roomType == roomType then 1 else 0)
    ensures AvailableOfType(rooms[..i + 1], roomType, cleanliness) ==
      AvailableOfType(rooms[..i], roomType, cleanliness) +
      (if rooms[i].roomType == roomType && rooms[i].isAvailable then 1 else 0)
    ensures CleanOfType(rooms[..i + 1], roomType, cleanliness) ==
      CleanOfType(rooms[..i], roomType, cleanliness) +
      (if rooms[i].roomType == roomType && StatusIs(cleanliness, rooms[i].roomId, Clean) then 1 else 0)
  {
    var room := rooms[i];
    assert rooms[..i + 1] == rooms[..i] + [room];
    assert rooms[..i + 1][..i] == rooms[..i];
    FirstOfTypeExtend(rooms[..i], room, roomType);
    CountOfTypeAppend(rooms[..i], [room], roomType);
    assert CountOfType([room], roomType) == (if room.roomType == roomType then 1 else 0) + CountOfType([], roomType);
    CriteriaMeaning(OfType(roomType), IsAvailable, cleanliness);
    CriteriaMeaning(OfType(roomType), HasStatus(Clean), cleanliness);
  }

  /** A condition of search_rooms that is applied only when supplied. */
  function WhenSupplied(supplied: bool, c: Criterion): (cs: seq<Criterion>)
    ensures cs == [] || cs == [c]
    ensures supplied <==> |cs| == 1
  {
    if supplied then [c] else []
  }

  function ValueOr(o: Option<int>): int
  {
    if o.Some? then o.value else 0
  }

  /** The filters search_rooms applies, in the order it applies them. */
  function SearchCriteria(minPrice: Option<int>, maxPrice: Option<int>, minGuests: Option<int>,
                          availableOnly: bool, cleanOnly: bool): (cs: seq<Criterion>)
    ensures |cs| <= 5
  {
    [] + WhenSupplied(availableOnly, IsAvailable)
       + WhenSupplied(cleanOnly, HasStatus(Clean))
       + WhenSupplied(minPrice.Some?, MinPrice(ValueOr(minPrice)))
       + WhenSupplied(maxPrice.Some?, MaxPrice(ValueOr(maxPrice)))
       + WhenSupplied(minGuests.Some?, MinGuests(ValueOr(minGuests)))
  }

  lemma SatisfiesAllAppend(r: Room, a: seq<Criterion>, b: seq<Criterion>, cleanliness: map<int, string>)
    ensures SatisfiesAll(r, a + b, cleanliness) <==> SatisfiesAll(r, a, cleanliness) && SatisfiesAll(r, b, cleanliness)
  {
    assert forall i :: 0 <= i < |a| ==> (a + b)[i] == a[i];
    assert forall i :: 0 <= i < |b| ==> (a + b)[|a| + i] == b[i];
    if SatisfiesAll(r, a, cleanliness) && SatisfiesAll(r, b, cleanliness) {
      forall i | 0 <= i < |a + b| ensures Satisfies(r, (a + b)[i], cleanliness) {
        if i >= |a| {
          assert (a + b)[i] == b[i - |a|];
        }
      }
    }
  }

  lemma WhenSuppliedMeaning(r: Room, supplied: bool, c: Criterion, cleanliness: map<int, string>)
    ensures SatisfiesAll(r, WhenSupplied(supplied, c), cleanliness) <==> (supplied ==> Satisfies(r, c, cleanliness))
  {
    CriteriaMeaning(c, c, cleanliness);
  }

  /** A room meets every filter search_rooms was given. */
  predicate SearchMatch(r: Room, minPrice: Option<int>, maxPrice: Option<int>, minGuests: Option<int>,
                        availableOnly: bool, cleanOnly: bool, cleanliness: map<int, string>)
    reads r
  {
    (availableOnly ==> r.isAvailable) &&
    (cleanOnly ==> StatusIs(cleanliness, r.roomId, Clean)) &&
    (minPrice.Some? ==> r.price >= minPrice.value) &&
    (maxPrice.Some? ==> r.price <= maxPrice.value) &&
    (minGuests.Some? ==> r.maxGuests >= minGuests.value)
  }

  /** What meeting every filter of search_rooms means for one room. */
  lemma SearchCriteriaMeaning(minPrice: Option<int>, maxPrice: Option<int>, minGuests: Option<int>,
                              availableOnly: bool, cleanOnly: bool, cleanliness: map<int, string>)
    ensures forall r: Room ::
      (SatisfiesAll(r, SearchCriteria(minPrice, maxPrice, minGuests, availableOnly, cleanOnly), cleanliness) <==>
       SearchMatch(r, minPrice, maxPrice, minGuests, availableOnly, cleanOnly, cleanliness))
  {
    var c1 := WhenSupplied(availableOnly, IsAvailable);
    var c2 := WhenSupplied(cleanOnly, HasStatus(Clean));
    var c3 := WhenSupplied(minPrice.Some?, MinPrice(ValueOr(minPrice)));
    var c4 := WhenSupplied(maxPrice.Some?, MaxPrice(ValueOr(maxPrice)));
    var c5 := WhenSupplied(minGuests.Some?, MinGuests(ValueOr(minGuests)));
    assert SearchCriteria(minPrice, maxPrice, minGuests, availableOnly, cleanOnly) == [] + c1 + c2 + c3 + c4 + c5;
    forall r: Room
      ensures SatisfiesAll(r, [] + c1 + c2 + c3 + c4 + c5, cleanliness) <==>
        SearchMatch(r, minPrice, maxPrice, minGuests, availableOnly, cleanOnly, cleanliness)
    {
      SatisfiesAllAppend(r, [] + c1 + c2 + c3 + c4, c5, cleanliness);
      SatisfiesAllAppend(r, [] + c1 + c2 + c3, c4, cleanliness);
      SatisfiesAllAppend(r, [] + c1 + c2, c3, cleanliness);
      SatisfiesAllAppend(r, [] + c1, c2, cleanliness);
      SatisfiesAllAppend(r, [], c1, cleanliness);
      WhenSuppliedMeaning(r, availableOnly, IsAvailable, cleanliness);
      WhenSuppliedMeaning(r, cleanOnly, HasStatus(Clean), cleanliness);
      WhenSuppliedMeaning(r, minPrice.Some?, MinPrice(ValueOr(minPrice)), cleanliness);
      WhenSuppliedMeaning(r, maxPrice.Some?, MaxPrice(ValueOr(maxPrice)), cleanliness);
      WhenSuppliedMeaning(r, minGuests.Some?, MinGuests(ValueOr(minGuests)), cleanliness);
    }
  }

  // ---------------------------------------------------------------------
  // Sums and extremes over prices
  // ---------------------------------------------------------------------

  /** sum(room.price for room in rooms). */
  function SumPrices(rooms: seq<Room>): int
  {
    if rooms == [] then 0 else SumPrices(rooms[..|rooms| - 1]) + rooms[|rooms| - 1].price
  }

  lemma {:induction false} SumPricesAppend(a: seq<Room>, b: seq<Room>)
    ensures SumPrices(a + b) == SumPrices(a) + SumPrices(b)
    decreases |b|
  {
    if b == [] {
      assert a + b == a;
    } else {
      assert (a + b)[..|a + b| - 1] == a + b[..|b| - 1];
      SumPricesAppend(a, b[..|b| - 1]);
    }
  }

  /** Any filter keeps at most the total price, when no price is negative. */
  lemma {:induction false} SumPricesKept(rooms: seq<Room>, cs: seq<Criterion>, cleanliness: map<int, string>)
    requires forall k :: 0 <= k < |rooms| ==> rooms[k].price >= 0
    ensures 0 <= SumPrices(KeepWhere(rooms, cs, cleanliness)) <= SumPrices(rooms)
  {
    if rooms != [] {
      var init := rooms[..|rooms| - 1];
      var last := rooms[|rooms| - 1];
      SumPricesKept(init, cs, cleanliness);
      var tail := if SatisfiesAll(last, cs, cleanliness) then [last] else [];
      SumPricesAppend(KeepWhere(init, cs, cleanliness), tail);
      assert SumPrices([last]) == SumPrices([]) + last.price;
    }
  }

  lemma {:induction false} SumPricesUniform(rooms: seq<Room>, price: int)
    requires forall k :: 0 <= k < |rooms| ==> rooms[k].price == price
    ensures SumPrices(rooms) == price * |rooms|
  {
    if rooms != [] {
      SumPricesUniform(rooms[..|rooms| - 1], price);
    }
  }

  /** The standard inventory is worth 5*100 + 10*150 + 6*200 + 3*300 = 4100
      a night when every room is booked. */
  lemma StandardRevenuePotential(h: Hotel)
    requires h.Standard()
    ensures SumPrices(h.rooms) == 4100
  {
    var r := h.rooms;
    assert r == r[..5] + r[5..15] + r[15..21] + r[21..];
    SumPricesAppend(r[..5] + r[5..15] + r[15..21], r[21..]);
    SumPricesAppend(r[..5] + r[5..15], r[15..21]);
    SumPricesAppend(r[..5], r[5..15]);
    SumPricesUniform(r[..5], 100);
    SumPricesUniform(r[5..15], 150);
    SumPricesUniform(r[15..21], 200);
    SumPricesUniform(r[21..], 300);
  }

  /** min(rooms, key=price): the first room of lowest price, or None. */
  function Cheapest(rooms: seq<Room>): (m: Option<Room>)
    ensures m.None? <==> rooms == []
    ensures m.Some? ==> m.value in rooms && forall k :: 0 <= k < |rooms| ==> m.value.price <= rooms[k].price
    ensures m.Some? ==> exists k :: (0 <= k < |rooms| && rooms[k] == m.value &&
      forall j :: 0 <= j < k ==> rooms[j].price > m.value.price)
  {
    if rooms == [] then None
    else
      var init := rooms[..|rooms| - 1];
      var last := rooms[|rooms| - 1];
      var best := Cheapest(init);
      assert forall k :: 0 <= k < |init| ==> init[k] == rooms[k];
      if best.None? || last.price < best.value.price then Some(last) else best
  }

  /** max(rooms, key=price): the first room of highest price, or None. */
  function Dearest(rooms: seq<Room>): (m: Option<Room>)
    ensures m.None? <==> rooms == []
    ensures m.Some? ==> m.value in rooms && forall k :: 0 <= k < |rooms| ==> m.value.price >= rooms[k].price
    ensures m.Some? ==> exists k :: (0 <= k < |rooms| && rooms[k] == m.value &&
      forall j :: 0 <= j < k ==> rooms[j].price < m.value.price)
  {
    if rooms == [] then None
    else
      var init := rooms[..|rooms| - 1];
      var last := rooms[|rooms| - 1];
      var best := Dearest(init);
      assert forall k :: 0 <= k < |init| ==> init[k] == rooms[k];
      if best.None? || last.price > best.value.price then Some(last) else best
  }

  // ---------------------------------------------------------------------
  // Lookup by ID
  // ---------------------------------------------------------------------

  /** The position of the first room with the given ID, or |rooms|. */
  function IdIndex(rooms: seq<Room>, roomId: int): (i: nat)
    ensures i <= |rooms|
    ensures forall k :: 0 <= k < i ==> rooms[k].roomId != roomId
    ensures i < |rooms| ==> rooms[i].roomId == roomId
  {
    if rooms == [] then 0
    else if rooms[0].roomId == roomId then 0
    else 1 + IdIndex(rooms[1..], roomId)
  }

  /** In the standard inventory room ID n sits at position n - 101. */
  lemma StandardIdIndex(h: Hotel, roomId: int)
    requires h.Standard()
    ensures IdIndex(h.rooms, roomId) ==
      if FirstRoomId <= roomId < FirstRoomId + HotelSize then roomId - FirstRoomId else HotelSize
  {
    if FirstRoomId <= roomId < FirstRoomId + HotelSize {
      assert h.rooms[roomId - FirstRoomId].roomId == roomId;
    }
  }

  /** The IDs of the rooms. */
  function RoomIds(rooms: seq<Room>): set<int>
  {
    set k | 0 <= k < |rooms| :: rooms[k].roomId
  }

  /** The description of one room that get_room_info returns. */
  datatype RoomInfo = RoomInfo(
    roomId: int, roomType: string, beds: int, maxGuests: int, price: int,
    isAvailable: bool, cleanliness: string, status: string, readyForBooking: bool)

  /** One entry of get_room_types_summary. */
  datatype TypeSummary = TypeSummary(
    total: nat, available: nat, booked: nat, clean: nat, dirty: nat,
    price: int, maxGuests: int, beds: int)

  // ---------------------------------------------------------------------
  // The room manager
  // ---------------------------------------------------------------------

  class RoomManager {
    const hotel: Hotel
    var roomCleanliness: map<int, string>

    /** What the mutators keep: the standard inventory, one cleanliness
        entry per room ID and no other, each "clean" or "dirty". */
    ghost predicate Valid()
      reads this
    {
      hotel.Standard() &&
      roomCleanliness.Keys == RoomIds(hotel.rooms) &&
      forall id :: id in roomCleanliness ==> roomCleanliness[id] == Clean || roomCleanliness[id] == Dirty
    }

    /** A new manager over a new hotel: every room available and clean. */
    constructor ()
      ensures Valid()
      ensures forall id :: id in roomCleanliness ==> roomCleanliness[id] == Clean
      ensures forall k :: 0 <= k < |hotel.rooms| ==> fresh(hotel.rooms[k]) && hotel.rooms[k].isAvailable
    {
      hotel := new Hotel();
      roomCleanliness := map[];
      new;
      var rooms := hotel.rooms;
      for i := 0 to |rooms|
        invariant roomCleanliness.Keys == RoomIds(rooms[..i])
        invariant forall id :: id in roomCleanliness ==> roomCleanliness[id] == Clean
        invariant forall k :: 0 <= k < |rooms| ==> rooms[k].isAvailable
      {
        assert RoomIds(rooms[..i + 1]) == RoomIds(rooms[..i]) + {rooms[i].roomId} by {
          assert forall k :: 0 <= k < i ==> rooms[..i + 1][k] == rooms[..i][k];
          assert rooms[..i + 1][i] == rooms[i];
        }
        roomCleanliness := roomCleanliness[rooms[i].roomId := Clean];
      }
      assert rooms[..|rooms|] == rooms;
    }

    /** get_all_rooms. */
    function GetAllRooms(): (rooms: seq<Room>)
      ensures rooms == hotel.rooms
      ensures hotel.Standard() ==> |rooms| == HotelSize
    {
      hotel.rooms
    }

    /** get_rooms_by_type: the rooms of the type, as many as the hotel has. */
    function GetRoomsByType(roomType: string): (rooms: seq<Room>)
      reads this, hotel.rooms
      ensures forall k :: 0 <= k < |rooms| ==> rooms[k] in hotel.rooms && rooms[k].roomType == roomType
      ensures forall k :: 0 <= k < |hotel.rooms| ==> (hotel.rooms[k] in rooms <==> hotel.rooms[k].roomType == roomType)
      ensures |rooms| == CountOfType(hotel.rooms, roomType)
    {
      KeepTypeCount(hotel.rooms, roomType, roomCleanliness);
      CriteriaMeaning(OfType(roomType), OfType(roomType), roomCleanliness);
      KeepWhere(hotel.rooms, [OfType(roomType)], roomCleanliness)
    }

    /** get_available_rooms. */
    function GetAvailableRooms(): (rooms: seq<Room>)
      reads this, hotel.rooms
      ensures forall k :: 0 <= k < |rooms| ==> rooms[k] in hotel.rooms && rooms[k].isAvailable
      ensures forall k :: 0 <= k < |hotel.rooms| ==> (hotel.rooms[k] in rooms <==> hotel.rooms[k].isAvailable)
    {
      CriteriaMeaning(IsAvailable, IsAvailable, roomCleanliness);
      KeepWhere(hotel.rooms, [IsAvailable], roomCleanliness)
    }

    /** get_available_rooms_by_type. */
    function GetAvailableRoomsByType(roomType: string): (rooms: seq<Room>)
      reads this, hotel.rooms
      ensures forall k :: 0 <= k < |rooms| ==>
        rooms[k] in hotel.rooms && rooms[k].roomType == roomType && rooms[k].isAvailable
      ensures forall k :: 0 <= k < |hotel.rooms| ==>
        (hotel.rooms[k] in rooms <==> hotel.rooms[k].roomType == roomType && hotel.rooms[k].isAvailable)
    {
      CriteriaMeaning(OfType(roomType), IsAvailable, roomCleanliness);
      KeepWhere(hotel.rooms, [OfType(roomType), IsAvailable], roomCleanliness)
    }

    /** get_room_by_id: the first room with the ID, or None. */
    method GetRoomById(roomId: int) returns (room: Option<Room>)
      ensures room.None? <==> IdIndex(hotel.rooms, roomId) == |hotel.rooms|
      ensures room.Some? ==> room.value == hotel.rooms[IdIndex(hotel.rooms, roomId)]
    {
      var rooms := hotel.rooms;
      for i := 0 to |rooms|
        invariant forall k :: 0 <= k < i ==> rooms[k].roomId != roomId
      {
        if rooms[i].roomId == roomId {
          return Some(rooms[i]);
        }
      }
      return None;
    }

    /** mark_room_unavailable: false for an unknown ID; otherwise that room
        becomes unavailable and no other room changes. */
    method MarkRoomUnavailable(roomId: int) returns (ok: bool)
      modifies hotel.rooms
      ensures ok <==> IdIndex(hotel.rooms, roomId) < |hotel.rooms|
      ensures ok ==> !hotel.rooms[IdIndex(hotel.rooms, roomId)].isAvailable
      ensures forall k :: 0 <= k < |hotel.rooms| && (!ok || hotel.rooms[k] != hotel.rooms[IdIndex(hotel.rooms, roomId)]) ==>
        hotel.rooms[k].isAvailable == old(hotel.rooms[k].isAvailable)
      ensures roomCleanliness == old(roomCleanliness)
    {
      var room := GetRoomById(roomId);
      if room.Some? {
        room.value.isAvailable := false;
        return true;
      }
      return false;
    }

    /** mark_room_available: false for an unknown ID; otherwise that room
        becomes available and no other room changes. */
    method MarkRoomAvailable(roomId: int) returns (ok: bool)
      modifies hotel.rooms
      ensures ok <==> IdIndex(hotel.rooms, roomId) < |hotel.rooms|
      ensures ok ==> hotel.rooms[IdIndex(hotel.rooms, roomId)].isAvailable
      ensures forall k :: 0 <= k < |hotel.rooms| && (!ok || hotel.rooms[k] != hotel.rooms[IdIndex(hotel.rooms, roomId)]) ==>
        hotel.rooms[k].isAvailable == old(hotel.rooms[k].isAvailable)
      ensures roomCleanliness == old(roomCleanliness)
    {
      var room := GetRoomById(roomId);
      if room.Some? {
        room.value.isAvailable := true;
        return true;
      }
      return false;
    }

    /** mark_room_dirty: (false, "Room <id> not found") and no change for an
        unknown ID; otherwise only that ID's entry becomes "dirty". */
    method MarkRoomDirty(roomId: int) returns (ok: bool, message: string)
      modifies this
      ensures ok <==> IdIndex(hotel.rooms, roomId) < |hotel.rooms|
      ensures ok ==> (roomCleanliness == old(roomCleanliness)[roomId := Dirty] &&
        message == "Room " + IntText(roomId) + " marked as dirty")
      ensures !ok ==> roomCleanliness == old(roomCleanliness) && message == "Room " + IntText(roomId) + " not found"
      ensures old(Valid()) ==> Valid()
    {
      var room := GetRoomById(roomId);
      if room.Some? {
        roomCleanliness := roomCleanliness[roomId := Dirty];
        return true, "Room " + IntText(roomId) + " marked as dirty";
      }
      return false, "Room " + IntText(roomId) + " not found";
    }

    /** mark_room_clean: as mark_room_dirty, with "clean". */
    method MarkRoomClean(roomId: int) returns (ok: bool, message: string)
      modifies this
      ensures ok <==> IdIndex(hotel.rooms, roomId) < |hotel.rooms|
      ensures ok ==> (roomCleanliness == old(roomCleanliness)[roomId := Clean] &&
        message == "Room " + IntText(roomId) + " marked as clean")
      ensures !ok ==> roomCleanliness == old(roomCleanliness) && message == "Room " + IntText(roomId) + " not found"
      ensures old(Valid()) ==> Valid()
    {
      var room := GetRoomById(roomId);
      if room.Some? {
        roomCleanliness := roomCleanliness[roomId := Clean];
        return true, "Room " + IntText(roomId) + " marked as clean";
      }
      return false, "Room " + IntText(roomId) + " not found";
    }

    /** get_room_cleanliness: the recorded status, "unknown" when the ID has
        no entry; in a valid manager exactly the IDs of no room. */
    function GetRoomCleanliness(roomId: int): (status: string)
      reads this
      ensures roomId in roomCleanliness ==> status == roomCleanliness[roomId]
      ensures roomId !in roomCleanliness ==> status == Unknown
      ensures Valid() ==> (status == Unknown <==> roomId !in RoomIds(hotel.rooms))
    {
      if roomId in roomCleanliness then roomCleanliness[roomId] else Unknown
    }

    /** get_dirty_rooms: the rooms whose status is "dirty", in order. */
    method GetDirtyRooms() returns (dirty: seq<Room>)
      ensures dirty == KeepWhere(hotel.rooms, [HasStatus(Dirty)], roomCleanliness)
      ensures forall k :: 0 <= k < |hotel.rooms| ==>
        (hotel.rooms[k] in dirty <==> StatusIs(roomCleanliness, hotel.rooms[k].roomId, Dirty))
    {
      dirty := CollectByStatus(Dirty);
    }

    /** get_clean_rooms: the rooms whose status is "clean", in order. */
    method GetCleanRooms() returns (clean: seq<Room>)
      ensures clean == KeepWhere(hotel.rooms, [HasStatus(Clean)], roomCleanliness)
      ensures forall k :: 0 <= k < |hotel.rooms| ==>
        (hotel.rooms[k] in clean <==> StatusIs(roomCleanliness, hotel.rooms[k].roomId, Clean))
    {
      clean := CollectByStatus(Clean);
    }

    /** The appending loop shared by get_dirty_rooms and get_clean_rooms. */
    method CollectByStatus(status: string) returns (found: seq<Room>)
      ensures found == KeepWhere(hotel.rooms, [HasStatus(status)], roomCleanliness)
      ensures forall k :: 0 <= k < |hotel.rooms| ==>
        (hotel.rooms[k] in found <==> StatusIs(roomCleanliness, hotel.rooms[k].roomId, status))
    {
      var rooms := hotel.rooms;
      CriteriaMeaning(HasStatus(status), HasStatus(status), roomCleanliness);
      found := [];
      for i := 0 to |rooms|
        invariant found == KeepWhere(rooms[..i], [HasStatus(status)], roomCleanliness)
      {
        assert rooms[..i + 1][..i] == rooms[..i];
        if StatusIs(roomCleanliness, rooms[i].roomId, status) {
          found := found + [rooms[i]];
        }
      }
      assert rooms[..|rooms|] == rooms;
    }

    /** get_clean_available_rooms: the rooms ready for booking. */
    function GetCleanAvailableRooms(): (rooms: seq<Room>)
      reads this, hotel.rooms
      ensures forall k :: 0 <= k < |rooms| ==>
        rooms[k] in hotel.rooms && rooms[k].isAvailable && StatusIs(roomCleanliness, rooms[k].roomId, Clean)
      ensures forall k :: 0 <= k < |hotel.rooms| ==>
        (hotel.rooms[k] in rooms <==> hotel.rooms[k].isAvailable && StatusIs(roomCleanliness, hotel.rooms[k].roomId, Clean))
    {
      CriteriaMeaning(IsAvailable, HasStatus(Clean), roomCleanliness);
      KeepWhere(hotel.rooms, [IsAvailable, HasStatus(Clean)], roomCleanliness)
    }

    /** get_dirty_rooms_count. */
    method GetDirtyRoomsCount() returns (n: nat)
      ensures n == |KeepWhere(hotel.rooms, [HasStatus(Dirty)], roomCleanliness)|
      ensures n <= |hotel.rooms|
    {
      var dirty := GetDirtyRooms();
      n := |dirty|;
    }

    /** get_clean_rooms_count. */
    method GetCleanRoomsCount() returns (n: nat)
      ensures n == |KeepWhere(hotel.rooms, [HasStatus(Clean)], roomCleanliness)|
      ensures n <= |hotel.rooms|
    {
      var clean := GetCleanRooms();
      n := |clean|;
    }

    /** get_housekeeping_status without the percentages: total, clean and
        dirty counts; in a valid manager clean and dirty make up the total. */
    method GetHousekeepingStatus() returns (total: nat, clean: nat, dirty: nat)
      ensures total == |hotel.rooms|
      ensures clean == |KeepWhere(hotel.rooms, [HasStatus(Clean)], roomCleanliness)|
      ensures dirty == |KeepWhere(hotel.rooms, [HasStatus(Dirty)], roomCleanliness)|
      ensures Valid() ==> clean + dirty == total
    {
      total := |hotel.rooms|;
      dirty := GetDirtyRoomsCount();
      clean := GetCleanRoomsCount();
      if Valid() {
        forall k | 0 <= k < |hotel.rooms|
          ensures StatusIs(roomCleanliness, hotel.rooms[k].roomId, Clean) ||
                  StatusIs(roomCleanliness, hotel.rooms[k].roomId, Dirty)
        {
          assert hotel.rooms[k].roomId in RoomIds(hotel.rooms);
        }
        CleanDirtyPartition(hotel.rooms, roomCleanliness);
      }
    }

    /** checkout_and_mark_dirty: for a known ID the room becomes available
        and its status "dirty"; an unknown ID changes nothing. */
    method CheckoutAndMarkDirty(roomId: int) returns (ok: bool, message: string)
      modifies this, hotel.rooms
      ensures ok <==> IdIndex(hotel.rooms, roomId) < |hotel.rooms|
      ensures ok ==> (
        hotel.rooms[IdIndex(hotel.rooms, roomId)].isAvailable &&
        roomCleanliness == old(roomCleanliness)[roomId := Dirty] &&
        message == "Room " + IntText(roomId) + " checked out and marked for cleaning")
      ensures !ok ==> roomCleanliness == old(roomCleanliness) && message == "Room " + IntText(roomId) + " not found"
      ensures forall k :: 0 <= k < |hotel.rooms| && (!ok || hotel.rooms[k] != hotel.rooms[IdIndex(hotel.rooms, roomId)]) ==>
        hotel.rooms[k].isAvailable == old(hotel.rooms[k].isAvailable)
      ensures old(Valid()) ==> Valid()
    {
      var room := GetRoomById(roomId);
      if room.Some? {
        room.value.isAvailable := true;
        roomCleanliness := roomCleanliness[roomId := Dirty];
        return true, "Room " + IntText(roomId) + " checked out and marked for cleaning";
      }
      return false, "Room " + IntText(roomId) + " not found";
    }

    /** get_rooms_by_cleanliness_type: the rooms of a type, then those of
        them with the status; the same as one filter by both. */
    function GetRoomsByCleanlinessType(roomType: string, status: string): (rooms: seq<Room>)
      reads this, hotel.rooms
      ensures rooms == KeepWhere(hotel.rooms, [OfType(roomType), HasStatus(status)], roomCleanliness)
      ensures forall k :: 0 <= k < |hotel.rooms| ==>
        (hotel.rooms[k] in rooms <==>
         hotel.rooms[k].roomType == roomType && StatusIs(roomCleanliness, hotel.rooms[k].roomId, status))
    {
      TypeThenStatus(hotel.rooms, roomType, status, roomCleanliness);
      KeepWhere(GetRoomsByType(roomType), [HasStatus(status)], roomCleanliness)
    }

    /** get_room_types_summary: per type, how many rooms there are, how
        many are available or booked and how many are clean or not, with
        the price, guest limit and beds of the type's first room. */
    method GetRoomTypesSummary() returns (summary: map<string, TypeSummary>)
      ensures forall t :: t in summary <==> HasRoomType(hotel.rooms, t)
      ensures forall t :: t in summary ==> EntryOf(summary[t], hotel.rooms, t, roomCleanliness)
    {
      summary := Summarize(hotel.rooms, roomCleanliness);
      SummaryExact(hotel.rooms, roomCleanliness);
    }

    /** check_availability_for_dates: walks the stay and, at the first
        date whose booked count reaches the rooms of the type, answers
        (false, "No <type> available on <m>/<d>"); otherwise (true,
        "<rooms - booked on the last date> <type>(s) available"). The
        verdict is the reservation system's. */
    method CheckAvailabilityForDates(roomType: string, checkIn: Date, checkOut: Date, head: seq<MonthNode>)
      returns (ok: bool, message: string)
      requires ValidRange(checkIn, checkOut)
      ensures ok <==> Available(head, hotel.rooms, roomType, checkIn, checkOut)
      ensures ok ==> (message ==
        IntText(CountOfType(hotel.rooms, roomType) - BookedCount(head, checkOut.month, checkOut.day, roomType)) +
        " " + roomType + "(s) available")
      ensures !ok ==> exists x :: (
        InRange(checkIn, checkOut, x) &&
        BookedCount(head, x.month, x.day, roomType) >= CountOfType(hotel.rooms, roomType) &&
        (forall y :: InRange(checkIn, checkOut, y) && Index(y) < Index(x) ==>
          BookedCount(head, y.month, y.day, roomType) < CountOfType(hotel.rooms, roomType)) &&
        message == "No " + roomType + " available on " + IntText(x.month) + "/" + IntText(x.day))
    {
      var roomsOfType := GetRoomsByType(roomType);
      var totalRooms := |roomsOfType|;
      var cur := checkIn;
      var booked := 0;
      while true
        invariant ValidDay(cur) && Index(checkIn) <= Index(cur) <= Index(checkOut)
        invariant forall x :: ValidDay(x) && Index(checkIn) <= Index(x) < Index(cur) ==>
          BookedCount(head, x.month, x.day, roomType) < totalRooms
        decreases Index(checkOut) - Index(cur)
      {
        booked := CountBookedRooms(cur.month, cur.day, roomType, head);
        if booked >= totalRooms {
          assert InRange(checkIn, checkOut, cur);
          return false, "No " + roomType + " available on " + IntText(cur.month) + "/" + IntText(cur.day);
        }
        if cur == checkOut {
          break;
        }
        IndexInjective(cur, checkOut);
        cur := NextDay(cur);
      }
      forall x | InRange(checkIn, checkOut, x)
        ensures BookedCount(head, x.month, x.day, roomType) < totalRooms
      {
        IndexInjective(x, cur);
      }
      return true, IntText(totalRooms - booked) + " " + roomType + "(s) available";
    }

    /** get_available_room_for_booking: the first room of the type that is
        available and clean, or None. */
    function GetAvailableRoomForBooking(roomType: string): (room: Option<Room>)
      reads this, hotel.rooms
      ensures room.None? <==> forall k :: 0 <= k < |hotel.rooms| ==>
        !SatisfiesAll(hotel.rooms[k], [OfType(roomType), IsAvailable, HasStatus(Clean)], roomCleanliness)
      ensures room.Some? ==>
        room.value.roomType == roomType && room.value.isAvailable && StatusIs(roomCleanliness, room.value.roomId, Clean)
      ensures room.Some? ==> exists k :: (0 <= k < |hotel.rooms| && hotel.rooms[k] == room.value &&
        forall j :: 0 <= j < k ==>
          !SatisfiesAll(hotel.rooms[j], [OfType(roomType), IsAvailable, HasStatus(Clean)], roomCleanliness))
    {
      var cs := [OfType(roomType), IsAvailable, HasStatus(Clean)];
      var ready := KeepWhere(hotel.rooms, cs, roomCleanliness);
      assert cs[0] == OfType(roomType) && cs[1] == IsAvailable && cs[2] == HasStatus(Clean);
      if ready != [] then
        KeepWhereFirst(hotel.rooms, cs, roomCleanliness);
        Some(ready[0])
      else
        None
    }

    /** get_room_info: None for an unknown ID; otherwise the room's
        attributes, its status ("unknown" when missing), "Available" or
        "Booked", and whether it is ready for booking. */
    function GetRoomInfo(roomId: int): (info: Option<RoomInfo>)
      reads this, hotel.rooms
      ensures info.None? <==> IdIndex(hotel.rooms, roomId) == |hotel.rooms|
      ensures info.Some? ==> (
        var r := hotel.rooms[IdIndex(hotel.rooms, roomId)];
        info.value.roomId == roomId && info.value.roomType == r.roomType && info.value.beds == r.beds &&
        info.value.maxGuests == r.maxGuests && info.value.price == r.price &&
        info.value.isAvailable == r.isAvailable &&
        info.value.cleanliness == GetRoomCleanliness(roomId) &&
        (r.isAvailable ==> info.value.status == "Available") &&
        (!r.isAvailable ==> info.value.status == "Booked") &&
        (info.value.readyForBooking <==> SatisfiesAll(r, [IsAvailable, HasStatus(Clean)], roomCleanliness)))
    {
      var i := IdIndex(hotel.rooms, roomId);
      if i == |hotel.rooms| then None
      else
        var r := hotel.rooms[i];
        CriteriaMeaning(IsAvailable, HasStatus(Clean), roomCleanliness);
        Some(RoomInfo(r.roomId, r.roomType, r.beds, r.maxGuests, r.price, r.isAvailable,
                      GetRoomCleanliness(r.roomId),
                      if r.isAvailable then "Available" else "Booked",
                      r.isAvailable && StatusIs(roomCleanliness, r.roomId, Clean)))
    }

    /** search_rooms: starting from all rooms, each supplied filter narrows
        the previous result; the outcome is the order-preserving
        subsequence of the rooms that meets every supplied filter. */
    function SearchRooms(minPrice: Option<int>, maxPrice: Option<int>, minGuests: Option<int>,
                         availableOnly: bool, cleanOnly: bool): (results: seq<Room>)
      reads this, hotel.rooms
      ensures results ==
        KeepWhere(hotel.rooms, SearchCriteria(minPrice, maxPrice, minGuests, availableOnly, cleanOnly), roomCleanliness)
      ensures forall k :: 0 <= k < |results| ==> (results[k] in hotel.rooms &&
        SearchMatch(results[k], minPrice, maxPrice, minGuests, availableOnly, cleanOnly, roomCleanliness))
      ensures forall k :: 0 <= k < |hotel.rooms| ==> (hotel.rooms[k] in results <==>
        SearchMatch(hotel.rooms[k], minPrice, maxPrice, minGuests, availableOnly, cleanOnly, roomCleanliness))
    {
      var results := Search(hotel.rooms, minPrice, maxPrice, minGuests, availableOnly, cleanOnly, roomCleanliness);
      SearchResultMeaning(hotel.rooms, results, minPrice, maxPrice, minGuests, availableOnly, cleanOnly, roomCleanliness);
      results
    }

    /** get_rooms_by_price_range: the rooms with min <= price <= max. */
    function GetRoomsByPriceRange(minPrice: int, maxPrice: int): (rooms: seq<Room>)
      reads this, hotel.rooms
      ensures forall k :: 0 <= k < |rooms| ==> rooms[k] in hotel.rooms && minPrice <= rooms[k].price <= maxPrice
      ensures forall k :: 0 <= k < |hotel.rooms| ==>
        (hotel.rooms[k] in rooms <==> minPrice <= hotel.rooms[k].price <= maxPrice)
    {
      CriteriaMeaning(MinPrice(minPrice), MaxPrice(maxPrice), roomCleanliness);
      KeepWhere(hotel.rooms, [MinPrice(minPrice), MaxPrice(maxPrice)], roomCleanliness)
    }

    /** get_total_rooms_count. */
    function GetTotalRoomsCount(): (n: nat)
      ensures n == |hotel.rooms|
      ensures hotel.Standard() ==> n == HotelSize
    {
      |hotel.rooms|
    }

    /** get_revenue_potential: the sum of all prices. */
    function GetRevenuePotential(): (total: int)
      ensures total == SumPrices(hotel.rooms)
      ensures hotel.Standard() ==> total == 4100
    {
      if hotel.Standard() then StandardRevenuePotential(hotel); SumPrices(hotel.rooms)
      else SumPrices(hotel.rooms)
    }

    /** get_current_revenue: the sum of the prices of the booked rooms,
        never more than the potential when prices are not negative. */
    function GetCurrentRevenue(): (total: int)
      reads this, hotel.rooms
      ensures total == SumPrices(KeepWhere(hotel.rooms, [IsBooked], roomCleanliness))
      ensures (forall k :: 0 <= k < |hotel.rooms| ==> hotel.rooms[k].price >= 0) ==>
        0 <= total <= SumPrices(hotel.rooms)
    {
      if forall k :: 0 <= k < |hotel.rooms| ==> hotel.rooms[k].price >= 0 then
        SumPricesKept(hotel.rooms, [IsBooked], roomCleanliness);
        SumPrices(KeepWhere(hotel.rooms, [IsBooked], roomCleanliness))
      else
        SumPrices(KeepWhere(hotel.rooms, [IsBooked], roomCleanliness))
    }

    /** get_cheapest_available_room: the first available room of lowest
        price, or None when no room is available. */
    function GetCheapestAvailableRoom(): (room: Option<Room>)
      reads this, hotel.rooms
      ensures room.None? <==> forall k :: 0 <= k < |hotel.rooms| ==> !hotel.rooms[k].isAvailable
      ensures room.Some? ==> (room.value in hotel.rooms && room.value.isAvailable &&
        forall k :: 0 <= k < |hotel.rooms| && hotel.rooms[k].isAvailable ==> room.value.price <= hotel.rooms[k].price)
      ensures room.Some? ==> exists k :: (0 <= k < |hotel.rooms| && hotel.rooms[k] == room.value &&
        forall j :: 0 <= j < k && hotel.rooms[j].isAvailable ==> hotel.rooms[j].price > room.value.price)
    {
      var available := GetAvailableRooms();
      if available == [] then None
      else
        assert available[0] in hotel.rooms;
        var m := Cheapest(available);
        FirstAmongAvailable(hotel.rooms, roomCleanliness, m.value, true);
        m
    }

    /** get_most_expensive_available_room: the first available room of
        highest price, or None when no room is available. */
    function GetMostExpensiveAvailableRoom(): (room: Option<Room>)
      reads this, hotel.rooms
      ensures room.None? <==> forall k :: 0 <= k < |hotel.rooms| ==> !hotel.rooms[k].isAvailable
      ensures room.Some? ==> (room.value in hotel.rooms && room.value.isAvailable &&
        forall k :: 0 <= k < |hotel.rooms| && hotel.rooms[k].isAvailable ==> room.value.price >= hotel.rooms[k].price)
      ensures room.Some? ==> exists k :: (0 <= k < |hotel.rooms| && hotel.rooms[k] == room.value &&
        forall j :: 0 <= j < k && hotel.rooms[j].isAvailable ==> hotel.rooms[j].price < room.value.price)
    {
      var available := GetAvailableRooms();
      if available == [] then None
      else
        assert available[0] in hotel.rooms;
        var m := Dearest(available);
        FirstAmongAvailable(hotel.rooms, roomCleanliness, m.value, false);
        m
    }

    /** reset_all_rooms: every room becomes available; always true. */
    method ResetAllRooms() returns (ok: bool)
      modifies hotel.rooms
      ensures ok
      ensures forall k :: 0 <= k < |hotel.rooms| ==> hotel.rooms[k].isAvailable
      ensures roomCleanliness == old(roomCleanliness)
    {
      var rooms := hotel.rooms;
      for i := 0 to |rooms|
        invariant forall k :: 0 <= k < i ==> rooms[k].isAvailable
      {
        rooms[i].isAvailable := true;
      }
      return true;
    }
  }

  /** The rooms every filter of search_rooms keeps are the rooms that
      match the search. */
  lemma SearchResultMeaning(rooms: seq<Room>, results: seq<Room>,
                            minPrice: Option<int>, maxPrice: Option<int>, minGuests: Option<int>,
                            availableOnly: bool, cleanOnly: bool, cleanliness: map<int, string>)
    requires results == KeepWhere(rooms, SearchCriteria(minPrice, maxPrice, minGuests, availableOnly, cleanOnly), cleanliness)
    ensures forall k :: 0 <= k < |results| ==> (results[k] in rooms &&
      SearchMatch(results[k], minPrice, maxPrice, minGuests, availableOnly, cleanOnly, cleanliness))
    ensures forall k :: 0 <= k < |rooms| ==> (rooms[k] in results <==>
      SearchMatch(rooms[k], minPrice, maxPrice, minGuests, availableOnly, cleanOnly, cleanliness))
  {
    SearchCriteriaMeaning(minPrice, maxPrice, minGuests, availableOnly, cleanOnly, cleanliness);
  }

  /** The successive comprehensions of search_rooms over rooms. */
  function Search(rooms: seq<Room>, minPrice: Option<int>, maxPrice: Option<int>, minGuests: Option<int>,
                  availableOnly: bool, cleanOnly: bool, m: map<int, string>): (results: seq<Room>)
    reads rooms
    ensures results == KeepWhere(rooms, SearchCriteria(minPrice, maxPrice, minGuests, availableOnly, cleanOnly), m)
  {
    var c0: seq<Criterion> := [];
    var c1 := c0 + WhenSupplied(availableOnly, IsAvailable);
    var c2 := c1 + WhenSupplied(cleanOnly, HasStatus(Clean));
    var c3 := c2 + WhenSupplied(minPrice.Some?, MinPrice(ValueOr(minPrice)));
    var c4 := c3 + WhenSupplied(maxPrice.Some?, MaxPrice(ValueOr(maxPrice)));
    KeepWhereNothing(rooms, m);
    var r1 := Narrow(rooms, c0, availableOnly, IsAvailable, m, rooms);
    var r2 := Narrow(r1, c1, cleanOnly, HasStatus(Clean), m, rooms);
    var r3 := Narrow(r2, c2, minPrice.Some?, MinPrice(ValueOr(minPrice)), m, rooms);
    var r4 := Narrow(r3, c3, maxPrice.Some?, MaxPrice(ValueOr(maxPrice)), m, rooms);
    var r5 := Narrow(r4, c4, minGuests.Some?, MinGuests(ValueOr(minGuests)), m, rooms);
    assert c4 + WhenSupplied(minGuests.Some?, MinGuests(ValueOr(minGuests))) ==
      SearchCriteria(minPrice, maxPrice, minGuests, availableOnly, cleanOnly);
    r5
  }

  /** One more comprehension of search_rooms: when the filter is supplied,
      narrow the current result by it, else keep it. */
  function Narrow(current: seq<Room>, sofar: seq<Criterion>, supplied: bool, c: Criterion,
                  cleanliness: map<int, string>, ghost rooms: seq<Room>): (next: seq<Room>)
    reads rooms
    requires current == KeepWhere(rooms, sofar, cleanliness)
    ensures next == KeepWhere(rooms, sofar + WhenSupplied(supplied, c), cleanliness)
  {
    if supplied then
      FilterThenFilter(rooms, sofar, c, cleanliness);
      KeepWhere(current, [c], cleanliness)
    else
      assert sofar + [] == sofar;
      current
  }
}
