# Hotel booking core in Dafny

A model of the booking core of a small Java hotel application: the
insertion-ordered map `MyMap` (with the `Map` interface it implements), the
value types `ReservationPeriod`, `Reservation` and `Guest`, the `Room` entity
with its no-overlap booking check, the `Hotel` room directory, and the state
changes that the `checkin` and `checkout` console commands make once their
input has been read.

Modules, one per file:

- `Wrappers` — `Option` (Java `null`) and `Result` (a thrown exception).
- `Lists` — `List.remove(int)` on sequences.
- `MapContract` — the `Map` interface as functions on Dafny maps: every key has exactly one value, `put`, `get` (`None` for a missing key), `remove`.
- `OrderedMap` — `MyMap` as a class over two parallel sequence fields, `keys` and `values`. `IndexOf` is the linear `List.indexOf` scan, proved equal to the function `FirstIndex`. Every operation is proved against `MapContract` through the abstraction `AsMap`, and it also states the exact new key and value lists.
- `Periods` — dates are integer day numbers. `ReservationPeriod` is the subset type of periods whose check-in is strictly before the check-out, and the validating constructor `MakePeriod` returns either such a period or the error.
- `Reservations` — `Reservation` as an immutable datatype. A sequence value is already a copy, which is what `List.copyOf` achieves.
- `Guests` — `Guest` as a class whose setters each change one field, with `equals` and `hashCode` (`Objects.hash`, including Java's 32-bit wrap-around).
- `Rooms` — `Room` as a class. `AddReservation` scans the reservations and appends only when none overlaps, and it keeps a list without overlaps free of overlaps. The class also has `AddGuest`, the occupancy setters, `level` (Java's truncating division) and `equals`/`hashCode` by number.
- `Hotels` — `Hotel`. In `AddRoom` the first registration of a number wins. The room counter follows the map size, and the floor count is a high-water mark.
- `CheckInCommand` — the guest-list loop, the booking and the occupancy update. The console replies are a sequence of `Answer`s, and today's date is a parameter.
- `CheckOutCommand` — selects and removes the first reservation containing today (both ends included), computes the days and the cost, and clears the occupancy state. Today's date is a parameter.

Prices and costs are integers in the smallest currency unit, so `BigDecimal`
arithmetic stays exact.

Two details of the code are worth knowing:

- Check-out sets a day count below 1 to zero (`CheckOutCommand.java:75-77`). That clamp never changes the result. The selected reservation contains today, so today is never before its check-in, and `CheckOutCommand.ChargedDaysOfCurrent` proves that the days charged are exactly today minus check-in.
- No constructor of `Room` checks that the capacity is at least 1. The model accepts any capacity. With capacity 1 or less, check-in books the main guest alone.

## Model

| member | source | states |
|---|---|---|
| OrderedMap.FirstIndex | utils/src/main/java/pl/edu/agh/kis/pz1/MyMap.java:36 | `indexOf`: -1 exactly when the key is absent; otherwise the key sits at the result and nowhere before it |
| OrderedMap.IndexOf | utils/src/main/java/pl/edu/agh/kis/pz1/MyMap.java:36 | the front-to-back scan returns the first index of the key, or -1 |
| OrderedMap.FirstIndexOfDistinct | utils/src/main/java/pl/edu/agh/kis/pz1/Map.java:6-8 | with distinct keys, each position is the first (only) index of its key |
| OrderedMap.AsMap | utils/src/main/java/pl/edu/agh/kis/pz1/Map.java:6-8 | the lists denote a map whose keys are exactly the listed keys, each with one value |
| OrderedMap.AsMapAt | utils/src/main/java/pl/edu/agh/kis/pz1/MyMap.java:52-58 | with distinct keys, the value at index i is the map's value of the key at index i |
| OrderedMap.AsMapUpdate | utils/src/main/java/pl/edu/agh/kis/pz1/MyMap.java:40-41 | overwriting the value at an existing key's index is `put` on the map |
| OrderedMap.FirstIndexAppend | utils/src/main/java/pl/edu/agh/kis/pz1/MyMap.java:37-39 | appending keeps the first index of every key already present; a new key lands at the old length |
| OrderedMap.AsMapAppend | utils/src/main/java/pl/edu/agh/kis/pz1/MyMap.java:37-39 | appending a new key and its value is `put` on the map |
| OrderedMap.DistinctRemoveAt | utils/src/main/java/pl/edu/agh/kis/pz1/MyMap.java:86-92 | deleting one index keeps keys distinct and removes exactly that key |
| OrderedMap.AsMapRemoveAtKeys | utils/src/main/java/pl/edu/agh/kis/pz1/MyMap.java:86-92 | deleting an index removes exactly that key from the map's keys |
| OrderedMap.AsMapRemoveAtValue | utils/src/main/java/pl/edu/agh/kis/pz1/MyMap.java:86-92 | every key left after deleting an index keeps its value |
| OrderedMap.AsMapRemoveAt | utils/src/main/java/pl/edu/agh/kis/pz1/MyMap.java:86-92 | deleting the same index from both lists is `remove` of that key on the map |
| OrderedMap.MyMap.constructor | utils/src/main/java/pl/edu/agh/kis/pz1/MyMap.java:23-26 | both lists empty, the map is empty, the invariant holds |
| OrderedMap.MyMap.Put | utils/src/main/java/pl/edu/agh/kis/pz1/MyMap.java:35-43 | keeps the lists parallel and keys distinct; the map becomes `Map.put`; an existing key keeps the key list and overwrites only its own index; a new key appends key and value |
| OrderedMap.MyMap.Get | utils/src/main/java/pl/edu/agh/kis/pz1/MyMap.java:52-58 | equals `Map.get`: the key's value, `None` when absent |
| OrderedMap.MyMap.Keys | utils/src/main/java/pl/edu/agh/kis/pz1/MyMap.java:66-68 | the key list in insertion order, listing exactly the keys of the map |
| OrderedMap.MyMap.GetValues | utils/src/main/java/pl/edu/agh/kis/pz1/MyMap.java:76-78 | the value list, position by position the values of the keys in order |
| OrderedMap.MyMap.Remove | utils/src/main/java/pl/edu/agh/kis/pz1/MyMap.java:86-92 | the map becomes `Map.remove`; a present key loses exactly its pair, the rest keep their order; an absent key changes nothing |
| OrderedMap.MyMap.IsEmpty | utils/src/main/java/pl/edu/agh/kis/pz1/MyMap.java:100-102 | true iff there are no keys, iff the map is empty |
| Lists.RemoveAt | utils/src/main/java/pl/edu/agh/kis/pz1/MyMap.java:89-90 | one element shorter; elements before the index stay, elements after move down by one |
| MapContract.Put | utils/src/main/java/pl/edu/agh/kis/pz1/Map.java:14-20 | the key gains the value, other keys keep theirs |
| MapContract.Get | utils/src/main/java/pl/edu/agh/kis/pz1/Map.java:22-28 | `None` iff the key has no mapping, otherwise its value |
| MapContract.Remove | utils/src/main/java/pl/edu/agh/kis/pz1/Map.java:37-42 | the key loses its mapping if present; other mappings stay; absent key changes nothing |
| MapContract.GetAfterPut | utils/src/main/java/pl/edu/agh/kis/pz1/Map.java:14-28 | `get(k)` after `put(k, v)` is `v`; other keys unaffected |
| MapContract.GetAfterRemove | utils/src/main/java/pl/edu/agh/kis/pz1/Map.java:22-42 | `get(k)` after `remove(k)` is `None`; other keys unaffected |
| Periods.MakePeriod | main/src/main/java/pl/edu/agh/kis/pz1/model/ReservationPeriod.java:19-28 | fails with `NullDate` iff a date is missing, with `NotBefore` iff check-in is not before check-out; otherwise the getters return the given dates |
| Periods.MakePeriodOrdered | main/src/main/java/pl/edu/agh/kis/pz1/model/ReservationPeriod.java:23-25 | construction succeeds iff check-in < check-out; equal dates fail |
| Periods.Period.OverlapsWith | main/src/main/java/pl/edu/agh/kis/pz1/model/ReservationPeriod.java:56-58 | true iff each period starts before the other ends; when both are valid and they overlap, the later check-in is a night of both |
| Periods.OverlapSymmetric | main/src/main/java/pl/edu/agh/kis/pz1/model/ReservationPeriod.java:56-58 | overlap is symmetric |
| Periods.TouchingDoNotOverlap | main/src/main/java/pl/edu/agh/kis/pz1/model/ReservationPeriod.java:56-58 | periods where one checks out the day the other checks in do not overlap, either way |
| Periods.OverlapsItself | main/src/main/java/pl/edu/agh/kis/pz1/model/ReservationPeriod.java:56-58 | a valid period overlaps an identical one |
| Periods.PeriodEquality | main/src/main/java/pl/edu/agh/kis/pz1/model/ReservationPeriod.java:68-77 | two periods are equal iff both dates are equal |
| Periods.OverlapIffSharedNight | main/src/main/java/pl/edu/agh/kis/pz1/model/ReservationPeriod.java:56-58 | two valid periods overlap iff some night belongs to both (half-open intervals) |
| Reservations.MakeReservation | main/src/main/java/pl/edu/agh/kis/pz1/model/Reservation.java:13-27 | fails iff guests or period is missing; otherwise the getters return the same guests in order (empty allowed) and the period |
| Guests.Wrap32 | main/src/main/java/pl/edu/agh/kis/pz1/model/Guest.java:105-107 | Java `int` result: in the signed 32-bit range and congruent to the exact value modulo 2^32 |
| Guests.StringHash | main/src/main/java/pl/edu/agh/kis/pz1/model/Guest.java:105-107 | `String.hashCode` lies in the signed 32-bit range |
| Guests.Guest.constructor | main/src/main/java/pl/edu/agh/kis/pz1/model/Guest.java:21-25 | the three fields are stored as given |
| Guests.Guest.SetFirstName | main/src/main/java/pl/edu/agh/kis/pz1/model/Guest.java:41-43 | sets the first name and may change no other field |
| Guests.Guest.SetLastName | main/src/main/java/pl/edu/agh/kis/pz1/model/Guest.java:59-61 | sets the last name and may change no other field |
| Guests.Guest.SetMainGuest | main/src/main/java/pl/edu/agh/kis/pz1/model/Guest.java:77-79 | sets the main-guest flag and may change no other field |
| Guests.Guest.HashCode | main/src/main/java/pl/edu/agh/kis/pz1/model/Guest.java:105-107 | `Objects.hash` of the three fields, in the signed 32-bit range |
| Guests.Guest.Equals | main/src/main/java/pl/edu/agh/kis/pz1/model/Guest.java:89-96 | a guest equals itself; a guest equal to another is not `null` and has the same hash code |
| Guests.GuestEqualsIsEquivalence | main/src/main/java/pl/edu/agh/kis/pz1/model/Guest.java:89-96 | equality on the three fields is reflexive, symmetric and transitive; never equal to `null` |
| Guests.EqualGuestsHashEqual | main/src/main/java/pl/edu/agh/kis/pz1/model/Guest.java:89-107 | equal guests have equal hash codes |
| Rooms.ConflictsWith | main/src/main/java/pl/edu/agh/kis/pz1/model/Room.java:196-200 | true iff some reservation in the list overlaps the period; never true for an empty list |
| Rooms.NoOverlapAnyPair | main/src/main/java/pl/edu/agh/kis/pz1/model/Room.java:196-200 | in a list without overlaps, no two distinct positions overlap in either order |
| Rooms.AppendPreservesNoOverlap | main/src/main/java/pl/edu/agh/kis/pz1/model/Room.java:193-204 | appending a reservation that conflicts with none keeps the list free of overlaps |
| Rooms.FloorOf | main/src/main/java/pl/edu/agh/kis/pz1/model/Room.java:211-213 | Java's `number / 100`: the floor brackets the number from below for non-negative numbers and from above for negative ones (truncation toward zero) |
| Rooms.Room.Level | main/src/main/java/pl/edu/agh/kis/pz1/model/Room.java:211-213 | the room number divided by 100, truncated toward zero |
| Rooms.Room.Equals | main/src/main/java/pl/edu/agh/kis/pz1/model/Room.java:216-223 | a room equals itself; a room equal to another is not `null` and has the same hash code |
| Rooms.Room.HashCode | main/src/main/java/pl/edu/agh/kis/pz1/model/Room.java:227-230 | a Java `int` congruent to `31 + number` modulo 2^32, and equal to it when the sum does not overflow |
| Rooms.FloorExamples | main/src/main/java/pl/edu/agh/kis/pz1/model/Room.java:211-213 | 101 → 1, 202 → 2, 305 → 3, 99 → 0, -150 → -1 |
| Rooms.Room.Full | main/src/main/java/pl/edu/agh/kis/pz1/model/Room.java:36-47 | every attribute stored as given; no reservations |
| Rooms.Room.constructor | main/src/main/java/pl/edu/agh/kis/pz1/model/Room.java:57-67 | vacant, empty guest list, no dates, no reservations |
| Rooms.Room.SetOccupied | main/src/main/java/pl/edu/agh/kis/pz1/model/Room.java:137-139 | sets the flag, nothing else |
| Rooms.Room.SetGuests | main/src/main/java/pl/edu/agh/kis/pz1/model/Room.java:146-148 | sets the current guest list, nothing else |
| Rooms.Room.SetCheckInDate | main/src/main/java/pl/edu/agh/kis/pz1/model/Room.java:155-157 | sets the check-in date, nothing else |
| Rooms.Room.SetPlannedCheckOutDate | main/src/main/java/pl/edu/agh/kis/pz1/model/Room.java:164-166 | sets the planned check-out date, nothing else |
| Rooms.Room.AddGuest | main/src/main/java/pl/edu/agh/kis/pz1/model/Room.java:174-183 | error on a `null` list; true and appended iff below capacity; otherwise false and unchanged |
| Rooms.Room.AddReservation | main/src/main/java/pl/edu/agh/kis/pz1/model/Room.java:193-204 | error when check-in is not before check-out; false iff an existing reservation overlaps; true iff none does, with exactly the new reservation appended; unchanged unless true; no-overlap preserved |
| Rooms.RoomEqualsByNumber | main/src/main/java/pl/edu/agh/kis/pz1/model/Room.java:216-230 | rooms are equal iff their numbers are, whatever else differs; an equivalence; equal rooms hash alike |
| Hotels.Hotel.constructor | main/src/main/java/pl/edu/agh/kis/pz1/model/Hotel.java:24-28 | zero floors, zero rooms, empty room map; the invariant holds (counter = map size, floors ≥ every level, rooms indexed by their own number) |
| Hotels.Hotel.GetRoomByNumber | main/src/main/java/pl/edu/agh/kis/pz1/model/Hotel.java:107-109 | the room under the number, or `None` |
| Hotels.Hotel.GetAllRooms | main/src/main/java/pl/edu/agh/kis/pz1/model/Hotel.java:69-71 | the rooms in insertion order, each the one registered under the corresponding number |
| Hotels.Hotel.AddRoom | main/src/main/java/pl/edu/agh/kis/pz1/model/Hotel.java:136-147 | a known number changes nothing; a new one is appended, the counter rises by one, floors become max(old, level); floor count never decreases; keeps the invariant: counter = map size, floors ≥ every level, every room stored under its own number |
| CheckInCommand.AdditionalGuests | main/src/main/java/pl/edu/agh/kis/pz1/commands/CheckinCommand.java:77-102 | never more additional guests than free slots; with no replies left, succeeds only when no slot is free |
| CheckInCommand.CollectGuests | main/src/main/java/pl/edu/agh/kis/pz1/commands/CheckinCommand.java:70-102 | main guest first with the flag set, then the guests the replies add, each with the flag clear; at most max(1, capacity) guests; `None` iff the replies run out |
| CheckInCommand.CheckInRoom | main/src/main/java/pl/edu/agh/kis/pz1/commands/CheckinCommand.java:68-121 | invalid input iff the replies run out or duration ≤ 0; already booked iff the period overlaps an existing reservation; on either failure the room is unchanged; on success exactly one reservation is appended after the old ones, holding the period and the collected guests (main guest first), and the room's guests and dates are set, occupied set only when check-in ≤ today and otherwise kept; no-overlap preserved |
| CheckInCommand.CheckIn | main/src/main/java/pl/edu/agh/kis/pz1/commands/CheckinCommand.java:46-121 | unknown room iff the number is not in the map; on any failure no room changes; blank check-in input means today; the room found is checked in as above and no other room changes; the hotel's invariant is kept |
| CheckOutCommand.FirstContaining | main/src/main/java/pl/edu/agh/kis/pz1/commands/CheckOutCommand.java:56-66 | the first reservation in list order containing today (both ends included), -1 iff none does |
| CheckOutCommand.FindCurrent | main/src/main/java/pl/edu/agh/kis/pz1/commands/CheckOutCommand.java:56-66 | the scan returns the first reservation containing today, or -1 |
| CheckOutCommand.ContainsDay | main/src/main/java/pl/edu/agh/kis/pz1/commands/CheckOutCommand.java:61 | today is in the period iff it is one of its nights or its check-out day |
| CheckOutCommand.ChargedDays | main/src/main/java/pl/edu/agh/kis/pz1/commands/CheckOutCommand.java:73-77 | never negative; the day difference when it is at least one, zero otherwise |
| CheckOutCommand.ChargedDaysOfCurrent | main/src/main/java/pl/edu/agh/kis/pz1/commands/CheckOutCommand.java:61-77 | for a reservation containing today the days charged are exactly today minus check-in |
| CheckOutCommand.CostNonNegative | main/src/main/java/pl/edu/agh/kis/pz1/commands/CheckOutCommand.java:79-80 | the cost charged, price × days, is never negative for a non-negative price; check-out uses it for the cost it reports |
| CheckOutCommand.RemovePreservesNoOverlap | main/src/main/java/pl/edu/agh/kis/pz1/commands/CheckOutCommand.java:63 | removing a reservation keeps the list free of overlaps |
| CheckOutCommand.TwoCurrentMeansHandover | main/src/main/java/pl/edu/agh/kis/pz1/commands/CheckOutCommand.java:56-66 | in a list without overlaps, two reservations both contain today only when one checks out and the other checks in today |
| CheckOutCommand.HandoverPicksEarlier | main/src/main/java/pl/edu/agh/kis/pz1/commands/CheckOutCommand.java:56-66 | such a handover pair is free of overlaps in either order, and check-out selects whichever comes first in the list |
| CheckOutCommand.CheckOutRoom | main/src/main/java/pl/edu/agh/kis/pz1/commands/CheckOutCommand.java:51-88 | no current reservation iff none contains today, then nothing changes; otherwise exactly the first containing reservation is removed, the rest keep their order, days = today − check-in, cost = price × days (never negative for a non-negative price), the room is vacated with no guests and no dates; no-overlap preserved |
| CheckOutCommand.CheckOut | main/src/main/java/pl/edu/agh/kis/pz1/commands/CheckOutCommand.java:45-88 | unknown room iff not in the map, then nothing changes; otherwise the room found is checked out as above (the cost is never negative for a non-negative price) and no other room changes; the hotel's invariant is kept |

## Left out

- CSV import and export are not part of this model. The CSV reader appends reservations without the overlap check, so no-overlap is stated as preserved by each operation (`NoOverlap(before) ==> NoOverlap(after)`), not as a class invariant of `Room`.
- The console loop and the display, save, prices and exit commands only print or delegate to I/O.
- In the two commands, console parsing, prompts and messages are left out. The parsed values become parameters: the room number, the names, the check-in input (`None` for a blank line), the duration, and the yes/no replies as a sequence of `Answer`s.
- Date-parse errors and non-numeric durations are not modelled. They end in the same catch-all outcome as running out of replies.
- `LocalDate.now()` becomes one `today` parameter. The check-in command reads the clock for a blank date (`CheckinCommand.java:63`) and twice more in the occupancy test (`CheckinCommand.java:114`). The model assumes all three calls return the same date, so a run across midnight is not modelled.
- `LocalDate.plusDays` overflow and the `long` day difference in check-out are not modelled, since dates are unbounded integers.
- `ReservationPeriod.hashCode` and the `toString` methods are formatting details with no state.
- `MyMap.entrySet`, `MyEntry` and the size helper are left out. They build a `HashSet` of entries with identity equality.
- The `Hotel` copy constructor, the three-argument constructor, `getRooms` and the setters `setRooms`, `setRoomsCount` and `setFloorsCount` are left out. They share the map between hotels or overwrite the counters, so the room counter could stop matching the map.
- OrderedMap.MyMap.GetValues: returns the value list as a value. The Java method returns the live list, and changes made through that list are not modelled.
- Rooms.Room.SetGuests: stores the list as a value. Later changes made through the caller's list are not modelled.
- Rooms.Room.AddReservation: takes non-null dates and guests. Its only caller never passes `null`, so the `NullDate` branch of `MakePeriod` is reached only through `MakePeriod` itself.
- Reservations.MakeReservation: takes a `seq<Guest>`, which cannot hold `null`. `List.copyOf` also throws on a `null` element of the list, and that failure is not modelled.
- Rooms.Room.Full: the price is an integer and cannot be `null`. Java accepts a `null` `pricePerNight`. Check-out would then remove the reservation (`CheckOutCommand.java:63`) and throw at the multiplication (`CheckOutCommand.java:80`), leaving the occupancy fields set. That partial update is not modelled.
- Guests.Guest.Equals: `null` names are not modelled. Strings are never `null` here, so `Objects.equals` on names is plain equality.
- Guests.StringHash: hashes Dafny characters, not UTF-16 code units. It agrees with Java only for characters inside the Basic Multilingual Plane.
- Guests.Guest.HashCode: only its range and its agreement with `Equals` are proved, not its numeric value.
- Hotels.Hotel.AddRoom: `roomsCount` is an unbounded integer, so Java `int` overflow of the counter is not modelled.
- A `Guest` object is shared between a reservation's guest list and the room's current guest list, as in Java. No property about those aliased objects is stated.
