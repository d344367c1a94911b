# Hotel reservation backend: a Dafny model

This project models the reservation engine of a small hotel booking backend and proves properties of it. The hotel has 24 rooms of four types. The model covers:

- the occupancy ledger: a sorted list of months, each holding a sorted list of days, each holding `(room type, quantity)` pairs. It is updated over a check-in/check-out range under a 30-day-month rule.
- the availability check and `R%04d` reservation-id allocation of the reservation system;
- the manager reports over the ledger: the point lookup, night counting, integer revenue, and the daily occupancy table;
- the room manager: per-room availability, the clean/dirty map, filter queries, per-type summaries, and date-based availability;
- the in-memory reservation and customer registries, with `MM-DD` date formatting and parsing;
- card handling in the payment system: masking, card-type detection, validation of card details, and storage of a processed payment and its transaction.

The modules follow the source files:

| module | file |
|---|---|
| `Dates` | the 30-day calendar arithmetic shared by all of them |
| `Calendar` | `calendar.py`, plus the point lookup of `manager_report.py` |
| `Database` | `database.py` |
| `Customers` | `customer.py` |
| `CustomerControl` | `customer_controller.py` |
| `Reservations` | `reservation_system.py` |
| `ReservationModel` | `reservation_class.py` |
| `ReservationControl` | `reservation_controller.py` |
| `ManagerReport` | `manager_report.py` |
| `RoomManagement` | `room_manager.py` |
| `Payments` | `payment_system.py` |
| `Text` | the Python string built-ins they rely on (`strip`, `split`, `replace`, `isdigit`, `int`, `lower`, zero-padded formatting) |

How the model is built:

- Objects whose fields the source updates in place are classes: `Room`, `Hotel`, `Customer`, `CustomerController`, `ReservationSystem`, `ReservationController`, `RoomManager`, `Payment`, `PaymentController`, and the counter objects.
- The ledger is a sequence of `MonthNode` values, each holding a sequence of `DayNode` values. The methods that update it are loops with invariants, proved against the lookup function `BookedCount`.
- The two module-level globals of the reservation system, `reservation_counter` and `calendar_head`, are fields of `ReservationSystem`. In the source every `ReservationSystem` instance shares them; in the model each instance has its own, which agrees with the source as long as one instance exists.
- The class-level counters are objects passed to the code that bumps them: `Customer.number_of_customers` and `Transaction.transaction_counter`.
- The current date, the random part of a transaction id, and the payment id are parameters.

Central results:

- `Reservations.NoOverbooking`: the capacity invariant. In every state reachable from a start without a reservations file, for every date and room type, the reservations covering that date number no more than the rooms of that type. The ledger stays equal to that count.
- `Calendar.StoreBookingRange`: a range update raises the count for exactly the dates of the range, and only for the given type.
- Round trips:
  - reservation ids (`Reservations.ReservationIdRoundTrip`);
  - `MM-DD` dates (`ReservationControl.MmDdRoundTrip`);
  - `int(str(n))` (`Text.PyIntText`);
  - reservation dictionaries (`ReservationModel.FromToDict`, `ReservationModel.ToFromDict`);
  - transaction ids (`Payments.TransactionIdNumber`).
- `CustomerControl.IsValidEmailMatchesPattern`: the hand-written email check equals the regular expression the source uses.

## Model

| member | source | states |
|---|---|---|
| Dates.NextDay | backend/calendar.py:106-108 | one step of the 30-day walk moves a valid date to the valid date whose day index is one higher; day 31 never occurs |
| Dates.IndexInjective | backend/calendar.py:103-108 | two valid dates are equal exactly when their day indices are equal, so the walk's stop test is a test on the index |
| Dates.WalkAt | backend/calendar.py:63-108 | the walk from check-in to check-out has index(out) - index(in) + 1 dates; the k-th one is valid and has index index(in) + k |
| Dates.WalkIsRange | backend/calendar.py:63-108 | a date is visited by the walk exactly when it lies in the inclusive range from check-in to check-out |
| Dates.RolloverExample | backend/calendar.py:106-108 | the walk from (1,29) to (2,2) is exactly (1,29), (1,30), (2,1), (2,2), and day 31 never occurs |
| Calendar.QtyOf | backend/manager_report.py:67-69 | the quantity of the first booking pair naming the type, 0 when none does; pinned down by `Calendar.QtyOfAbsent` and `Calendar.QtyOfPresent` |
| Calendar.DayLookup | backend/manager_report.py:64-70 | the quantity of the type on the first day node with the day number that lists the type, 0 when there is none; pinned down by `Calendar.DayLookupFound` and `Calendar.DayLookupMissing` |
| Calendar.BookedCount | backend/manager_report.py:61-73 | the day lookup in the first month node with the month number, 0 when there is none (the scan stops at that month whether or not the day is there); pinned down by `Calendar.BookedCountFound` and `Calendar.BookedCountMissing` |
| Calendar.QtyOfAbsent | backend/manager_report.py:67-73 | a day with no entry for the type reports 0 |
| Calendar.QtyOfPresent | backend/manager_report.py:67-69 | with positive quantities stored, a day that has an entry for the type reports at least 1 |
| Calendar.DayLookupFound | backend/manager_report.py:64-69 | in an ascending day list, looking up an existing day number returns that day's quantity for the type |
| Calendar.DayLookupMissing | backend/manager_report.py:64-73 | looking up a day number absent from the list returns 0 |
| Calendar.BookedCountFound | backend/manager_report.py:61-71 | in an ascending month list, the lookup of an existing month reads that month's day list |
| Calendar.BookedCountMissing | backend/manager_report.py:61-73 | a month absent from the ledger reports 0 for every day and type |
| Calendar.DayLookupNonNegative | backend/manager_report.py:64-73 | the day lookup is never negative when stored quantities are positive |
| Calendar.BookedCountNonNegative | backend/manager_report.py:40-73 | on a well-formed ledger the lookup is never negative |
| Calendar.EmptyLedger | backend/calendar.py:65-66 | the empty ledger is well formed and reports 0 everywhere |
| Calendar.BumpedLookup | backend/calendar.py:95-98 | bumping every entry of a type raises that type's quantity by one when it was present, and leaves the other types and the set of present types unchanged |
| Calendar.AddBooking | backend/calendar.py:94-100 | after recording one booking, the type's quantity is one higher; other types keep their quantity; a first booking appends `(type, 1)`; quantities stay positive |
| Calendar.AppendLookup | backend/calendar.py:99-100 | appending a new type's entry gives it that quantity and changes no other type |
| Calendar.InsertDayLookup | backend/calendar.py:84-91 | inserting an empty day node at its sorted position keeps the day list strictly ascending and changes no lookup |
| Calendar.ReplaceDayLookup | backend/calendar.py:94-100 | replacing one day's bookings keeps the list ascending and changes the lookup only for that day |
| Calendar.InsertMonthLookup | backend/calendar.py:71-78 | inserting an empty month node at its sorted position keeps the month list strictly ascending and changes no lookup |
| Calendar.ReplaceMonthLookup | backend/calendar.py:80-91 | replacing one month's day list keeps the ledger ascending and changes the lookup only for that month |
| Calendar.FindOrInsertMonth | backend/calendar.py:68-78 | the scan stops at the first month numbered at least the target; a node is inserted there only if that month is not the target; the ledger stays well formed and every count is unchanged |
| Calendar.FindOrInsertDay | backend/calendar.py:81-91 | the same for the day list inside a month: first day numbered at least the target, insertion only if absent, ascending order kept, every count unchanged |
| Calendar.IncrementDate | backend/calendar.py:64-100 | one date's count for the type rises by exactly 1 and every other (month, day, type) keeps its count; the head is the new month when it precedes the old head |
| Calendar.StoreBookingRange | backend/calendar.py:38-110 | the ledger stays well formed; the count rises by exactly 1 for the given type on each date of the inclusive range, and nothing else changes; the returned head is the start month when the ledger was empty or the start month precedes the old head |
| Calendar.CountBookedRooms | backend/manager_report.py:40-73 | the loop returns the ledger's count for (month, day, type): the first matching entry of that day, or 0 when month, day or type is absent; never negative on a well-formed ledger |
| Database.CountOfType | backend/reservation_system.py:18 | the number of rooms of the type; its value on concatenations, uniform blocks, absent types and the standard catalog is given by `Database.CountOfTypeAppend`, `Database.CountOfTypeUniform`, `Database.CountOfAbsentType` and `Database.StandardTypeCounts` |
| Database.Room.constructor | backend/database.py:28-44 | a room stores its id, type, beds, guest limit and price, and starts available |
| Database.CountOfTypeAppend | backend/database.py:68-88 | the number of rooms of a type in a concatenation is the sum over the parts |
| Database.CountOfTypeUniform | backend/database.py:70-88 | a block of rooms of one type contributes its length to that type and nothing to others |
| Database.CountOfAbsentType | backend/database.py:68-88 | a type no room carries has count 0 |
| Database.DistinctTypes | backend/reservation_system.py:38-39 | the room types of the catalog, each exactly once, and exactly the types some room carries |
| Database.FirstOfType | backend/reservation_system.py:40-47 | the catalog entry of a type is a room of that type (the first one) |
| Database.FirstOfTypeExtend | backend/database.py:70-88 | appending a room keeps the first room of every type already present; it becomes the first room of its own type if that type was new |
| Database.AppendRooms | backend/database.py:70-88 | the construction loop appends exactly `count` fresh available rooms of one kind with consecutive ids, keeping the rooms already there |
| Database.Hotel.constructor | backend/database.py:59-88 | the hotel is the standard catalog: 24 fresh, available rooms with ids 101..124: 5 Single, 10 Double, 6 Family and 3 VIP Suite rooms, in that order, with their fixed beds, guest limits and prices |
| Database.StandardIdsUnique | backend/database.py:68-88 | in the standard catalog, distinct positions hold distinct rooms with distinct ids |
| Database.StandardTypeCounts | backend/database.py:70-88 | the standard catalog has 5, 10, 6 and 3 rooms of the four types and none of any other |
| Customers.CustomerCount.constructor | backend/customer.py:10 | the class counter starts at 0 |
| Customers.CustomerCount.GetCustomerCount | backend/customer.py:28-31 | returns the current class counter |
| Customers.CustomerCount.AddToCustomerCount | backend/customer.py:33-37 | raises the class counter by exactly 1 |
| Customers.Customer.constructor | backend/customer.py:11-26 | stores first name, last name, email, phone and address unchanged and raises the class counter by exactly 1 |
| Customers.Customer.GetCustInfo | backend/customer.py:40-42 | the info dictionary has exactly the five keys, each mapped to its field |
| Customers.CountIncreasesByOne | backend/customer.py:26 | constructing one customer moves the counter reading from n to n + 1 |
| CustomerControl.EmailIndex | backend/customer_controller.py:42-45 | the position of the first customer with the email, or the list length when none has it |
| CustomerControl.OrKeep | backend/customer_controller.py:54-60 | a field is overwritten when the update supplies it and kept otherwise |
| CustomerControl.CustomerController.constructor | backend/customer_controller.py:13-15 | the registry starts empty |
| CustomerControl.CustomerController.FindCustomerByEmail | backend/customer_controller.py:36-45 | returns the first customer with that email, or None exactly when no customer has it |
| CustomerControl.CustomerController.AddCustomer | backend/customer_controller.py:17-34 | a known email is refused and nothing changes; otherwise exactly one fresh customer with the given fields is appended and the counter rises by 1; existing emails are untouched and email uniqueness is preserved |
| CustomerControl.CustomerController.UpdateCustomer | backend/customer_controller.py:47-62 | false and no change when the email is unknown; otherwise only the first matching customer changes, and each of its fields is overwritten only when the update supplies it |
| CustomerControl.CustomerController.RemoveCustomer | backend/customer_controller.py:64-74 | false and no change when the email is unknown; otherwise exactly the first matching customer is removed and the order of the rest is kept; email uniqueness is preserved |
| CustomerControl.RemovedEmailGone | backend/customer_controller.py:70-74 | with unique emails, after removal no remaining customer has that email |
| CustomerControl.IndexOf | backend/customer_controller.py:83-84 | the first position of a character, or the length when it does not occur |
| CustomerControl.LastIndexOf | backend/customer_controller.py:83-84 | the last position of a character, or -1 when it does not occur |
| CustomerControl.FirstAt | backend/customer_controller.py:83-84 | in a string whose prefix is all local-part characters, the `@` after it is the first `@` |
| CustomerControl.LastDot | backend/customer_controller.py:83-84 | a dot followed only by letters is the last dot |
| CustomerControl.ValidEmailTextMatchesPattern | backend/customer_controller.py:83-84 | the split-based check accepts a string exactly when it matches local part, `@`, domain, `.`, and two or more letters |
| CustomerControl.IsValidEmailMatchesPattern | backend/customer_controller.py:76-84 | `is_valid_email` accepts an email exactly when its stripped form matches the pattern |
| CustomerControl.ValidEmailExample | tests/test_customer_controller.py:55-57 | `JoeApple@gmail.com` is a valid email |
| CustomerControl.InvalidEmailExample | tests/test_customer_controller.py:55-57 | `notvalid` is not a valid email, although `add_customer` accepts it without checking |
| Reservations.ReservationId | backend/reservation_system.py:50-54 | an id is `R` followed by digits, at least five characters long |
| Reservations.ParseReservationId | backend/reservation_system.py:50-54 | parses only strings starting with `R` |
| Reservations.ReservationIdRoundTrip | backend/reservation_system.py:50-54 | parsing the id issued for counter n gives back n |
| Reservations.ReservationIdInjective | backend/reservation_system.py:50-54 | distinct counter values give distinct ids, so an id is never reused |
| Reservations.FirstReservationId | backend/reservation_system.py:7 | the first id issued is `R0001` |
| Reservations.DemandAdd | backend/reservation_system.py:61-70 | storing a new record raises the number of reservations covering a (date, type) by 1 exactly when the record's type and range cover it |
| Reservations.Available | backend/reservation_system.py:16-34 | every date of the inclusive range has fewer booked rooms of the type than rooms of the type; `Reservations.AvailableOverWalk` proves it is exactly what the source's walk tests |
| Reservations.UnknownTypeNeverAvailable | backend/reservation_system.py:18-25 | a type no room carries is never available on any valid range |
| Reservations.AvailableOverWalk | backend/reservation_system.py:22-33 | availability holds exactly when every date of the walk has booked < number of rooms of the type |
| Reservations.BookingKeepsInvariants | backend/reservation_system.py:58-70 | a booking that passed the check and increments exactly its range keeps the ledger equal to the stored reservations and within capacity |
| Reservations.FreshIdNotStored | backend/reservation_system.py:50-54 | the next id is not yet stored, and storing it keeps every stored id below the counter |
| Reservations.OfferFor | backend/reservation_system.py:42-47 | an offer carries the type's name |
| Reservations.QualifyingMembers | backend/reservation_system.py:36-48 | the qualifying types are exactly the listed types with enough guest capacity that pass the availability check, and they are distinct when the list is |
| Reservations.QualifyingStep | backend/reservation_system.py:38-47 | examining one more type extends the qualifying list by that type exactly when it qualifies |
| Reservations.OffersMatchNames | backend/reservation_system.py:36-48 | the offers built from the qualifying types carry each type's name, guest limit and price, are distinct, and exist exactly for the qualifying types |
| Reservations.ReservationSystem.constructor | backend/reservation_system.py:7-14 | starts with the standard hotel, an empty database, counter 1 and an empty ledger, satisfying the invariant |
| Reservations.ReservationSystem.CheckAvailability | backend/reservation_system.py:16-34 | true exactly when every date of the inclusive range has booked < rooms of the type |
| Reservations.ReservationSystem.GetAvailableRoomTypes | backend/reservation_system.py:36-48 | offers exactly the types whose guest limit is at least the party size and which are available on the range; each carries its name, guest limit and price; no type twice |
| Reservations.ReservationSystem.CollectOffers | backend/reservation_system.py:38-47 | the loop's offers are those of the qualifying types, in catalog order: each names a listed type with enough guest capacity that passes the availability check, and carries that type's attributes |
| Reservations.ReservationSystem.GenerateReservationId | backend/reservation_system.py:50-54 | returns the id of the current counter and raises the counter by 1, changing nothing else and keeping the system invariant |
| Reservations.ReservationSystem.MakeReservation | backend/reservation_system.py:56-71 | succeeds exactly when the range is available; on failure nothing changes; on success one record is stored under the fresh id, the counter rises by 1 and the ledger rises by 1 over exactly that range; the invariant holds |
| Reservations.NoOverbooking | backend/reservation_system.py:22-33 | in every valid state, the reservations covering any date and type never exceed the rooms of that type |
| ManagerReport.GenerateOccupancyReport | backend/manager_report.py:25-37 | no report (the ZeroDivisionError of line 31) exactly when some catalog entry has quantity 0; otherwise one entry per catalog type, each holding 30 rows for days 1..30 in order, each with that day's booked count |
| ManagerReport.GetTotalReservations | backend/manager_report.py:95-99 | the number of stored reservations |
| ManagerReport.TotalAfterBooking | backend/manager_report.py:95-99 | storing a new reservation raises the total by 1 |
| ManagerReport.Nights | backend/manager_report.py:108-132 | the nights of a stay as the difference of the day indices; `ManagerReport.NightsAreWalkSteps` and `ManagerReport.CalculateNights` tie it to the counting loop |
| ManagerReport.NightsAreWalkSteps | backend/manager_report.py:124-132 | the number of nights is the number of one-day steps of the walk, never negative |
| ManagerReport.CalculateNights | backend/manager_report.py:108-132 | the loop counts the one-day steps from check-in to check-out; it is 0 exactly when the dates are equal |
| ManagerReport.RolloverNights | backend/manager_report.py:124-132 | from (1,29) to (2,2) there are 3 nights |
| ManagerReport.FindEntry | backend/manager_report.py:145 | the first catalog entry with the name, or None exactly when there is none |
| ManagerReport.StayRevenue | backend/manager_report.py:145-148 | one reservation earns its type's catalog price times its nights, and nothing when the type is not in the catalog (`ManagerReport.UnknownTypeEarnsNothing`) |
| ManagerReport.Revenue | backend/manager_report.py:143-149 | the sum of the stay revenues of the reservations; additive (`ManagerReport.RevenueAppend`), never negative for non-negative prices (`ManagerReport.RevenueNonNegative`), and what the loop of `ManagerReport.GetTotalRevenue` computes |
| ManagerReport.RevenueAppend | backend/manager_report.py:143-149 | revenue over a concatenation is the sum of revenues |
| ManagerReport.UnknownTypeEarnsNothing | backend/manager_report.py:145-148 | a reservation whose type is not in the catalog adds nothing |
| ManagerReport.RevenueNonNegative | backend/manager_report.py:143-149 | with non-negative prices and valid ranges, revenue is never negative |
| ManagerReport.GetTotalRevenue | backend/manager_report.py:134-149 | the loop's total is the sum over reservations of price times nights |
| RoomManagement.KeepWhere | backend/room_manager.py:334-351 | an order-preserving selection of the rooms: a room is kept exactly when it satisfies every criterion |
| RoomManagement.CriteriaMeaning | backend/room_manager.py:334-351 | one criterion in a list means that criterion; two mean both |
| RoomManagement.KeepWhereAppend | backend/room_manager.py:334-351 | filtering a concatenation is concatenating the filtered parts |
| RoomManagement.KeepWhereNothing | backend/room_manager.py:334 | filtering with no criteria keeps every room, in order |
| RoomManagement.FilterThenFilter | backend/room_manager.py:336-351 | filtering by criteria and then by one more equals filtering once by all of them |
| RoomManagement.TypeThenStatus | backend/room_manager.py:201-212 | filtering by type and then by status equals filtering by both, and keeps exactly the rooms of that type with that status |
| RoomManagement.KeepSingle | backend/room_manager.py:334-351 | a single room is kept exactly when it satisfies the criteria |
| RoomManagement.KeepWhereFirst | backend/room_manager.py:291-296 | the first kept room is the first room that satisfies the criteria |
| RoomManagement.KeepTypeCount | backend/room_manager.py:258-259 | the rooms kept by a type filter number exactly the rooms of that type |
| RoomManagement.CleanDirtyPartition | backend/room_manager.py:160-184 | when every room is marked clean or dirty, the clean and dirty rooms together number all rooms |
| RoomManagement.AvailableOfType | backend/room_manager.py:235-238 | the number of available rooms of the type |
| RoomManagement.CleanOfType | backend/room_manager.py:240-243 | the number of clean rooms of the type |
| RoomManagement.Tally | backend/room_manager.py:222-243 | counting one room adds its type to the summary, leaves every other type's entry unchanged, and gives its type a total of at least 1 |
| RoomManagement.Summary | backend/room_manager.py:221-245 | the per-type summary built room by room; `RoomManagement.SummaryExact` states its keys and every count, and `RoomManagement.Summarize` proves the loop computes it |
| RoomManagement.SummaryExact | backend/room_manager.py:214-245 | the summary has exactly the types present; each entry has the total, available, booked, clean and dirty counts of its type; total = available + booked = clean + dirty; price, guests and beds come from the first room of the type |
| RoomManagement.Count | backend/room_manager.py:234-243 | adds one to total, to available or booked, and to clean or dirty, according to the room |
| RoomManagement.Summarize | backend/room_manager.py:221-245 | the loop computes the summary of the rooms |
| RoomManagement.AbsentTypeTallies | backend/room_manager.py:214-245 | a type absent from the rooms has zero rooms, zero available and zero clean |
| RoomManagement.KeepWhereNone | backend/room_manager.py:295-297 | when no room satisfies the criteria nothing is kept |
| RoomManagement.SummaryStep | backend/room_manager.py:222-243 | counting one more room changes the type's presence, first room and counts exactly as the loop does |
| RoomManagement.WhenSupplied | backend/room_manager.py:336-349 | a filter is applied exactly when its argument is supplied |
| RoomManagement.SearchCriteria | backend/room_manager.py:336-349 | the search applies at most the five filters |
| RoomManagement.SatisfiesAllAppend | backend/room_manager.py:336-351 | satisfying a concatenation of criteria means satisfying both parts |
| RoomManagement.WhenSuppliedMeaning | backend/room_manager.py:336-349 | an optional filter holds when not supplied and otherwise means its test |
| RoomManagement.SearchCriteriaMeaning | backend/room_manager.py:336-351 | a room satisfies the search criteria exactly when it passes every supplied filter |
| RoomManagement.SumPricesAppend | backend/room_manager.py:365-379 | the price total of a concatenation is the sum of the totals |
| RoomManagement.SumPricesKept | backend/room_manager.py:373-379 | with non-negative prices, the total over any selection lies between 0 and the total over all rooms |
| RoomManagement.SumPricesUniform | backend/database.py:70-88 | n rooms of one price total n times that price |
| RoomManagement.StandardRevenuePotential | backend/room_manager.py:365-371 | the standard hotel's prices total 4100 |
| RoomManagement.Cheapest | backend/room_manager.py:393-398 | None exactly for no rooms; otherwise a room of minimum price, the first such |
| RoomManagement.Dearest | backend/room_manager.py:400-405 | None exactly for no rooms; otherwise a room of maximum price, the first such |
| RoomManagement.IdIndex | backend/room_manager.py:54-65 | the position of the first room with the id, or the number of rooms when none has it |
| RoomManagement.StandardIdIndex | backend/room_manager.py:54-65 | in the standard hotel, room id r is at position r - 101 when 101 <= r <= 124 and absent otherwise |
| RoomManagement.RoomManager.constructor | backend/room_manager.py:15-24 | the standard hotel, with every room available and marked clean |
| RoomManagement.RoomManager.GetAllRooms | backend/room_manager.py:26-28 | all rooms of the hotel, 24 of them |
| RoomManagement.RoomManager.GetRoomsByType | backend/room_manager.py:30-38 | exactly the rooms of the type, as many as the type has |
| RoomManagement.RoomManager.GetAvailableRooms | backend/room_manager.py:40-42 | exactly the available rooms |
| RoomManagement.RoomManager.GetAvailableRoomsByType | backend/room_manager.py:44-52 | exactly the available rooms of the type |
| RoomManagement.RoomManager.GetRoomById | backend/room_manager.py:54-65 | the first room with that id, or None exactly when no room has it |
| RoomManagement.RoomManager.MarkRoomUnavailable | backend/room_manager.py:67-79 | false for an unknown id; otherwise that room becomes unavailable; no other room's availability changes and the cleanliness map is untouched |
| RoomManagement.RoomManager.MarkRoomAvailable | backend/room_manager.py:81-93 | false for an unknown id; otherwise that room becomes available; no other room changes and the cleanliness map is untouched |
| RoomManagement.RoomManager.MarkRoomDirty | backend/room_manager.py:95-107 | for a known id sets only that room's entry to dirty, with the source's message; for an unknown one changes nothing and says not found |
| RoomManagement.RoomManager.MarkRoomClean | backend/room_manager.py:109-121 | for a known id sets only that room's entry to clean, with the source's message; for an unknown one changes nothing and says not found |
| RoomManagement.RoomManager.GetRoomCleanliness | backend/room_manager.py:123-133 | the stored status, or `unknown` exactly for an id not in the map, which in a valid manager means exactly an id of no room |
| RoomManagement.RoomManager.GetDirtyRooms | backend/room_manager.py:135-141 | exactly the rooms marked dirty, in order |
| RoomManagement.RoomManager.GetCleanRooms | backend/room_manager.py:143-149 | exactly the rooms marked clean, in order |
| RoomManagement.RoomManager.CollectByStatus | backend/room_manager.py:135-149 | the loop collects exactly the rooms with the status, in order |
| RoomManagement.RoomManager.GetCleanAvailableRooms | backend/room_manager.py:151-158 | exactly the rooms that are available and clean |
| RoomManagement.RoomManager.GetDirtyRoomsCount | backend/room_manager.py:160-162 | the number of dirty rooms, at most the number of rooms |
| RoomManagement.RoomManager.GetCleanRoomsCount | backend/room_manager.py:164-166 | the number of clean rooms, at most the number of rooms |
| RoomManagement.RoomManager.GetHousekeepingStatus | backend/room_manager.py:168-184 | total, clean and dirty counts; in a valid manager clean + dirty = total |
| RoomManagement.RoomManager.CheckoutAndMarkDirty | backend/room_manager.py:186-199 | for a known id the room becomes available and dirty and nothing else changes; for an unknown id nothing changes and the message says not found |
| RoomManagement.RoomManager.GetRoomsByCleanlinessType | backend/room_manager.py:201-212 | exactly the rooms of the type with the status, in order |
| RoomManagement.RoomManager.GetRoomTypesSummary | backend/room_manager.py:214-245 | a summary keyed by exactly the types present, each entry holding that type's exact counts and first-room attributes |
| RoomManagement.RoomManager.CheckAvailabilityForDates | backend/room_manager.py:247-281 | true exactly when the range is available, with the number left on the check-out date in the message; otherwise the message names the first date where booked >= rooms of the type |
| RoomManagement.RoomManager.GetAvailableRoomForBooking | backend/room_manager.py:283-297 | the first room of the type that is available and clean, or None exactly when there is none |
| RoomManagement.RoomManager.GetRoomInfo | backend/room_manager.py:299-320 | None exactly for an unknown id; otherwise the first room with that id: its attributes, its cleanliness (`unknown` when missing), the status `Available` for an available room and `Booked` for a booked one, and whether it is available and clean |
| RoomManagement.RoomManager.SearchRooms | backend/room_manager.py:322-351 | the order-preserving subsequence of all rooms that pass every supplied filter |
| RoomManagement.RoomManager.GetRoomsByPriceRange | backend/room_manager.py:381-391 | exactly the rooms priced within the bounds |
| RoomManagement.RoomManager.GetTotalRoomsCount | backend/room_manager.py:353-355 | the number of rooms, 24 for the standard hotel |
| RoomManagement.RoomManager.GetRevenuePotential | backend/room_manager.py:365-371 | the sum of all room prices, 4100 for the standard hotel |
| RoomManagement.RoomManager.GetCurrentRevenue | backend/room_manager.py:373-379 | the sum of prices of the booked rooms, between 0 and the potential when prices are non-negative |
| RoomManagement.RoomManager.GetCheapestAvailableRoom | backend/room_manager.py:393-398 | None exactly when no room is available; otherwise an available room no dearer than any available room, and every available room before it in the room list is dearer (the first of equally cheap rooms, as `min` picks) |
| RoomManagement.RoomManager.GetMostExpensiveAvailableRoom | backend/room_manager.py:400-405 | None exactly when no room is available; otherwise an available room no cheaper than any available room, and every available room before it in the room list is cheaper (the first of equally dear rooms, as `max` picks) |
| RoomManagement.KeepWherePosition | backend/room_manager.py:40-42 | each kept room sits at a position of the room list before which the filter keeps exactly the rooms kept before it |
| RoomManagement.FirstAmongAvailable | backend/room_manager.py:393-405 | a room that beats every earlier room of the available list beats every earlier available room of the whole room list |
| RoomManagement.RoomManager.ResetAllRooms | backend/room_manager.py:407-415 | every room becomes available; the cleanliness map is untouched |
| RoomManagement.SearchResultMeaning | backend/room_manager.py:334-351 | the filtered rooms are hotel rooms that pass every supplied filter, and every room passing them is in the result |
| RoomManagement.Search | backend/room_manager.py:334-351 | applying the supplied filters one after another equals filtering once by all of them |
| RoomManagement.Narrow | backend/room_manager.py:336-349 | applying one optional filter to the current result extends the criteria list by that filter |
| ReservationModel.ToDict | backend/reservation_class.py:19-26 | exactly the five keys, each holding its field |
| ReservationModel.FromDict | backend/reservation_class.py:28-36 | a reservation exactly when all five keys are present, holding their values |
| ReservationModel.FromToDict | backend/reservation_class.py:19-36 | `from_dict(to_dict(r))` reproduces r |
| ReservationModel.ToFromDict | backend/reservation_class.py:19-36 | `to_dict(from_dict(d))` is d restricted to the five keys |
| ReservationModel.FromDictIgnoresExtraKeys | backend/reservation_class.py:28-36 | extra keys do not affect `from_dict` |
| ReservationControl.FormatMmDd | backend/reservation_controller.py:73-74 | `{month:02d}-{day:02d}`; `ReservationControl.MmDdRoundTrip` reads every date with non-negative parts back from it |
| ReservationControl.MmDdToTuple | backend/reservation_controller.py:184-186 | defined exactly when there are at least two `-`-separated parts and Python's `int()` accepts the first two; neither number is ever negative |
| ReservationControl.MmDdOfParts | backend/reservation_controller.py:184-186 | `m-d` with no further `-` reads as the pair of what `int()` makes of `m` and `d` |
| ReservationControl.MmDdRefusedPart | backend/reservation_controller.py:184-186 | when `int()` refuses either side, the text does not read as a date |
| ReservationControl.MmDdRoundTrip | backend/reservation_controller.py:73-74 | parsing the `MM-DD` text of a date gives the date back |
| ReservationControl.WithoutId | backend/reservation_controller.py:105 | the kept reservations are exactly those with a different id, never more than before |
| ReservationControl.WithoutIdAppend | backend/reservation_controller.py:105 | removal over a concatenation is the concatenation of removals, so order is kept |
| ReservationControl.WithoutIdShrinks | backend/reservation_controller.py:104-107 | the list shrinks exactly when some reservation has the id |
| ReservationControl.WithoutIdNoMatch | backend/reservation_controller.py:105-115 | with no reservation of that id the list is unchanged |
| ReservationControl.WithoutIdIdempotent | backend/reservation_controller.py:105 | removing the same id twice is removing it once |
| ReservationControl.ReservationController.constructor | backend/reservation_controller.py:25-35 | holds the given controllers and an empty reservation list, the state the source reaches when no reservations file exists |
| ReservationControl.ReservationController.MakeReservation | backend/reservation_controller.py:38-88 | a missing customer fails and changes nothing; an unknown email is added once and a known one not duplicated; booking succeeds exactly when the range is available; a failure leaves the list and the system unchanged; a success returns the fresh id, raises the reservation counter by 1, stores the record, and appends exactly one reservation with `MM-DD` dates; the customer count rises by 1 exactly when a new customer is added and is otherwise unchanged |
| ReservationControl.ReservationController.Register | backend/reservation_controller.py:54-65 | a known email leaves the customers and the customer count unchanged; an unknown one appends exactly one customer with the given fields and raises the count by 1 |
| ReservationControl.ReservationController.Book | backend/reservation_controller.py:67-88 | succeeds exactly when the range is available; a failure changes nothing; a success stores the record under the fresh id, raises the reservation counter by 1 and appends exactly one reservation |
| ReservationControl.ReservationController.CancelReservation | backend/reservation_controller.py:90-115 | removes every reservation with the id, keeping the others in order; succeeds exactly when one existed, and otherwise fails with not found and changes nothing |
| ReservationControl.ReservationController.GetAvailableRoomTypes | backend/reservation_controller.py:117-122 | exactly the types with enough guest capacity that are available on the range, each once, each carrying its first room's guest limit and price |
| ReservationControl.ReservationController.IsRoomTypeAvailable | backend/reservation_controller.py:124-129 | true exactly when the type is available on the range |
| Payments.Get | backend/payment_system.py:138-141 | a missing key reads as the empty string |
| Payments.MaskCardNumber | backend/payment_system.py:111-125 | `****` when the cleaned number has fewer than 4 characters; otherwise 19 characters ending in its last four; only stars and spaces before the last four |
| Payments.MaskDependsOnlyOnLastFour | backend/payment_system.py:121-125 | two numbers with the same last four cleaned digits mask identically |
| Payments.MaskIdempotent | backend/payment_system.py:121-125 | masking a masked number changes nothing |
| Payments.DetectCardType | backend/payment_system.py:144-165 | always one of Visa, Mastercard, American Express, Discover or Unknown |
| Payments.CardTypeByPrefix | backend/payment_system.py:154-165 | Visa exactly for prefix 4, Mastercard for 51..55, American Express for 34/37, Discover for 6011 or 65, with earlier tests taking precedence |
| Payments.MaskCardDetails | backend/payment_system.py:127-142 | exactly the masked number, holder, expiry and detected type; never the CVV |
| Payments.FirstMissing | backend/payment_system.py:213-218 | the first required field that is absent or empty, in order, or None exactly when all are present |
| Payments.CardNumberWellFormed | backend/payment_system.py:220-223 | the number without spaces and dashes is 13 to 19 ASCII digits; `Payments.ValidateCardDetails` and `Payments.ValidationOrder` show where it decides the verdict |
| Payments.CvvWellFormed | backend/payment_system.py:225-228 | the CVV is 3 or 4 ASCII digits; its place in the verdict is stated by `Payments.ValidateCardDetails` and `Payments.ValidationOrder` |
| Payments.JudgeExpiry | backend/payment_system.py:239-256 | valid exactly when both parts are digits, the month is 1..12 and (year, with +2000 for two digits, month) is not before the current (year, month) |
| Payments.CheckExpiry | backend/payment_system.py:230-256 | no `/` and not exactly two parts are each rejected with their message; a valid result says Valid |
| Payments.CheckExpiryParts | backend/payment_system.py:231-256 | for any texts `m` and `y` without `/`, checking `m/y` gives exactly the verdict on the stripped `m` and `y` |
| Payments.CheckExpiryDigits | backend/payment_system.py:231-256 | for digit strings, checking `m/y` is judging `m` and `y` as they are |
| Payments.ExpiryOfValues | backend/payment_system.py:239-256 | for digit strings with given values, the expiry is accepted exactly when the month is 1..12 and the card is not expired |
| Payments.ExpiryFourDigitYear | backend/payment_system.py:243-256 | `MM/YYYY` is accepted exactly when (year, month) is not before today |
| Payments.ExpiryTwoDigitYear | backend/payment_system.py:249-256 | `MM/YY` is read as 2000 + YY |
| Payments.ExpiryMonthOutOfRange | backend/payment_system.py:243-245 | month 0 or above 12 is rejected as an invalid month |
| Payments.ValidateCardDetails | backend/payment_system.py:203-256 | valid exactly when all fields are present, the number is 13..19 digits once cleaned, the CVV is 3..4 digits and the expiry passes; a missing field is reported first |
| Payments.ValidationOrder | backend/payment_system.py:220-256 | the number is checked before the CVV, and the CVV before the expiry |
| Payments.DateStamp | backend/payment_system.py:45 | the date part is all digits |
| Payments.TransactionId | backend/payment_system.py:36-48 | ids start with `TXN-` |
| Payments.TransactionNumber | backend/payment_system.py:46-48 | reads the counter part of an id |
| Payments.TransactionIdNumber | backend/payment_system.py:36-48 | the counter part of an issued id is the counter value it was issued with |
| Payments.TransactionIdsDistinct | backend/payment_system.py:34-48 | ids issued with different counter values differ, whatever the date and random part |
| Payments.TransactionCounter.constructor | backend/payment_system.py:17 | the counter starts at 1000 |
| Payments.NewTransaction | backend/payment_system.py:19-48 | a completed transaction whose id embeds the counter before the increment; the counter rises by 1 |
| Payments.KeptCardDetails | backend/payment_system.py:91-95 | card details are kept exactly for card payments that supply them, and only masked, without the CVV |
| Payments.Payment.constructor | backend/payment_system.py:70-95 | stores the ids, customer and amount; the method is lower-cased; the status is pending with no transaction; card details are kept only masked |
| Payments.Payment.CreateTransaction | backend/payment_system.py:101-109 | attaches a new transaction for this payment and returns it; the counter rises by 1 |
| Payments.Present | backend/payment_system.py:288 | Python truthiness of the card details: supplied and not empty; `Payments.Rejection` and `Payments.KeptCardDetails` state what it decides |
| Payments.Rejection | backend/payment_system.py:272-299 | no rejection exactly when the method is card or cash, the amount is positive, and a card payment has details that validate; an unknown method is rejected first |
| Payments.StoreInsert | backend/payment_system.py:305-312 | a transaction issued with the current counter is not yet stored, and storing it keeps every stored id below the next counter |
| Payments.PaymentController.constructor | backend/payment_system.py:198-201 | empty payment and transaction stores |
| Payments.PaymentController.ProcessPayment | backend/payment_system.py:258-319 | fails exactly when the payment is rejected, with the rejection message and nothing stored; otherwise stores, under its own id, exactly one completed payment with the lower-cased method and masked card details, and exactly one transaction under a fresh id, and raises the counter by 1 |
| Payments.PaymentController.Record | backend/payment_system.py:301-319 | stores a completed payment under its own id, with the lower-cased method, and its transaction under a fresh id, and raises the counter by 1 |
| Text.Strip | backend/customer_controller.py:84 | the result is a slice of the input with only white space before and after it, and it neither starts nor ends with white space |
| Text.StripSpan | backend/customer_controller.py:84 | any such slice (or the empty result for an all-white-space text) is the one `strip()` returns |
| Text.StripPadded | backend/payment_system.py:239 | white space added around a text does not change what `strip()` returns |
| Text.PyInt | backend/reservation_controller.py:186 | Python's `int()` on text: it agrees with the digit value on every digit string and never gives a negative number for text without `-` |
| Text.PyIntText | backend/reservation_controller.py:186 | `int(str(n)) == n` for every integer |
| Text.PyIntPadded | backend/reservation_controller.py:186 | white space around the number is ignored |
| Text.PyIntPlus | backend/reservation_controller.py:186 | a leading `+` is accepted |
| Text.PyIntUnderscore | backend/reservation_controller.py:186 | one underscore between two digit strings is accepted and ignored |
| Text.PyIntDoubleUnderscore | backend/reservation_controller.py:186 | two underscores in a row are refused |
| Text.Split | backend/payment_system.py:235 | at least one part, and no part contains the separator |
| Text.JoinSplit | backend/payment_system.py:235 | joining the parts with the separator gives the string back |
| Text.FormatInt | backend/reservation_system.py:52 | `{n:0Nd}` for n >= 0: digits only, at least N long; `Text.ParseFormatInt` reads it back |
| Text.FormatSignedInt | backend/reservation_controller.py:73-74 | `{n:0Nd}` for any integer: the unsigned form for n >= 0, and for n < 0 a `-` before the digits of -n padded to N - 1 |
| Text.IntText | backend/room_manager.py:106 | `str(n)` in an f-string: the digits of n, with a `-` before the digits of -n when n < 0; `Text.PyIntText` reads it back |
| Text.ParseFormatInt | backend/reservation_controller.py:184-186 | parsing a zero-padded number gives the number back |
| Text.Remove | backend/payment_system.py:122 | removing a character keeps every other character, in order, and leaves none of it |
| Text.AsciiLower | backend/payment_system.py:86 | ASCII upper-case letters become lower case and every other character is kept |

## Left out

- CSV and file I/O are not modelled:
  - the CSV methods of `reservation_controller.py`;
  - all of `login.py`.
  `mmdd_to_tuple` is modelled on its own, apart from the CSV loader that encloses it.
- ReservationControl.ReservationController.constructor: the model starts with an empty reservation list, as the source does when no reservations file exists. With a non-empty file the source's constructor loads each row into its list and into `reservations_db` (reservation_controller.py:178-197), but it neither books the loaded stays in the ledger nor advances `reservation_counter`, which restarts at 1. Such a start is not modelled, and the model's invariants do not hold after it:
  - the loaded stays are missing from the ledger, so `make_reservation` can book more rooms than exist, and `Reservations.NoOverbooking` fails for the stored reservations;
  - `generate_reservation_id` issues `R0001` again, so a new booking overwrites a loaded record with the same id, and `Reservations.FreshIdNotStored` fails.
- The user interfaces (`frontend/`, `interface_new/`, `temp_backup/`) are not modelled; they are Qt widgets and page logic.
- `account.py` is not modelled; it relies on foreign hashing and uuid libraries.
- `search.py`, `search_controller.py` and `address.py` are plain data holders and a thin wrapper; they are not modelled.
- Clock and randomness are parameters:
  - `datetime.now()` is a `Today` value (year, month, day) passed in;
  - the random hex part of a transaction id is a number passed in;
  - the uuid-based payment id is a string passed in.
- Floating-point values are not modelled:
  - the occupancy rate of `generate_occupancy_report` (only the booked counts are modelled);
  - the percentages of `get_housekeeping_status`;
  - `get_occupancy_rate`;
  - `get_room_statistics`;
  - the payment system's `get_total_revenue` and `get_payment_statistics`.
- Amounts and prices are integers (for example cents), not floats.
- The payment lookups are not modelled: `get_transaction_by_id`, `get_transactions_by_payment`, `get_payment_by_id`, `get_payments_by_reservation` and `get_payments_by_customer`. They are plain dictionary reads and list filters.
- The payment summary and receipt layout are not modelled: `get_payment_summary`, `get_transaction_info` and `generate_receipt`. The modelled success result carries the payment and transaction ids the summary reports.
- `get_reservation_summary`, `get_total_customers` and `generate_full_report` in `manager_report.py` are not modelled:
  - the first reads a `customer_name` key that no code stores;
  - the second counts a freshly built, empty controller;
  - the third only assembles the others.
  As written, `manager_report.py` cannot be imported. It imports `reservations_db` from `reservation_system.py`, where it is an attribute of each `ReservationSystem` instance, not a module name. It imports `room_database` from `database.py`, which defines no such name. The modelled report functions therefore take the reservation database, the ledger and the catalog as parameters. The catalog is taken to be a list of room-type entries carrying the `name`, `quantity` and `price` keys the report reads (`ManagerReport.CatalogEntry`).
- The ledger's linked lists are sequences of values, so pointer splicing, aliasing between nodes and the in-place update of a day's booking list are not modelled. The lookup `get_booked_quantity`, imported but never defined, is modelled with the semantics of `count_booked_rooms`.
- The date walks in `store_booking_range`, `check_availability`, `check_availability_for_dates` and `calculate_nights` are modelled for days in 1..30 with check-in no later than check-out in (month, day) order; other inputs are not modelled.
  - Some of those inputs still end in the source. The two availability checks return False at the first date for a type no room carries, and at any fully booked date on the way. A check-in day of 0 steps to day 1, and a check-in day above 30 rolls over to day 1 of the next month.
  - The source hangs, a defect, when the walk never reaches the check-out: a check-out day of 0 or above 30 that differs from the check-in, or a check-out before the check-in. The availability checks escape only by meeting a fully booked date first; `store_booking_range` and `calculate_nights` never escape.
- Reservations.ReservationSystem.GetAvailableRoomTypes: Python's set iteration order is unspecified, so only which types are offered, with their attributes and without repetition, is promised, not their order.
- ReservationControl.ReservationController.CancelReservation: the system has no `cancel_reservation`, so the source's `hasattr` probe is always false. The model has no system-side cancellation and no ledger decrement.
- ReservationControl.FormatMmDd has no contract of its own. Its shape is stated through `ReservationControl.MmDdRoundTrip`.
- ReservationModel.FromDict: a `KeyError` for a missing key is modelled as `None`.
- Payments.DateStamp: `%Y` is assumed to give four digits; only the digit shape of the stamp is stated.
- Payments.TransactionId: only the `TXN-` prefix and the recoverable counter part are stated, not the exact hex layout of the random part.
- Python's `isdigit`, `int` and `lower` are modelled for ASCII digits and ASCII letters only; their behaviour on other Unicode digits and letters is not modelled. `int()` on text is modelled with surrounding white space, an optional sign and single underscores between digits (`Text.PyInt`). `strip` removes exactly the characters for which Python's `isspace` holds.
- Concurrency is not modelled: the source is single-threaded.
