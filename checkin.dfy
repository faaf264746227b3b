/**
 * The state change of the `checkin` command once its inputs are read: build the
 * guest list under the room's capacity, book the stay through `AddReservation`,
 * then record the guests and dates on the room. The lines the command reads
 * arrive as parameters, and so does today's date.
 */
module CheckInCommand {
  import opened Wrappers
  import opened Periods
  import opened Guests
  import opened Reservations
  import opened Rooms
  import opened Hotels

  /** One reply to "add an additional guest?": `no`, `yes` followed by two name lines, or anything else. */
  datatype Answer = No | Yes(firstName: string, lastName: string) | Other

  /**
   * How the command ends: unknown room; the input ran out or the dates are
   * invalid (the command's catch-all); the room is booked; success.
   */
  datatype CheckInOutcome = RoomNotFound | InvalidDateOrDuration | AlreadyBooked | CheckedIn

  /** How many additional guests the command offers to add: one fewer than the capacity, or none. */
  function Slots(capacity: int): nat {
    if capacity > 1 then capacity - 1 else 0
  }

  /**
   * The names of the additional guests the replies register while `slots` more
   * fit: `yes` adds one, `no` stops, anything else asks again. `None` when the
   * replies run out before the questions stop.
   */
  function AdditionalGuests(answers: seq<Answer>, slots: nat): (r: Option<seq<(string, string)>>)
    ensures r.Some? ==> |r.value| <= slots
    ensures answers == [] ==> (r.Some? <==> slots == 0)
  {
    if slots == 0 then Some([])
    else if answers == [] then None
    else
      match answers[0]
      case No => Some([])
      case Other => AdditionalGuests(answers[1..], slots)
      case Yes(first, last) =>
        var rest := AdditionalGuests(answers[1..], slots - 1);
        if rest.None? then None else Some([(first, last)] + rest.value)
  }

  /** `prefix` put in front of a possible result. */
  function Prepend<T>(prefix: seq<T>, r: Option<seq<T>>): Option<seq<T>> {
    if r.None? then None else Some(prefix + r.value)
  }

  /** Putting nothing in front changes nothing. */
  lemma PrependNothing<T>(r: Option<seq<T>>)
    ensures Prepend([], r) == r
  {
    if r.Some? {
      assert [] + r.value == r.value;
    }
  }

  /** Putting `b` and then `a` in front is putting `a + b` in front. */
  lemma PrependTwice<T>(a: seq<T>, b: seq<T>, r: Option<seq<T>>)
    ensures Prepend(a, Prepend(b, r)) == Prepend(a + b, r)
  {
    if r.Some? {
      assert a + (b + r.value) == (a + b) + r.value;
    }
  }

  /**
   * The guest-list loop of the command: the main guest first, then one
   * additional guest per `yes` while the room has space. `None` when the
   * replies run out, which the command reports as invalid input.
   */
  method CollectGuests(firstName: string, lastName: string, capacity: int, answers: seq<Answer>)
    returns (guests: Option<seq<Guest>>)
    ensures guests.None? <==> AdditionalGuests(answers, Slots(capacity)).None?
    ensures guests.Some? ==>
              var gs, extra := guests.value, AdditionalGuests(answers, Slots(capacity)).value;
              && |gs| == 1 + |extra|
              && gs[0].firstName == firstName && gs[0].lastName == lastName && gs[0].isMainGuest
              && forall i :: 1 <= i < |gs| ==>
                   gs[i].firstName == extra[i - 1].0 && gs[i].lastName == extra[i - 1].1 && !gs[i].isMainGuest
    ensures guests.Some? ==> |guests.value| <= (if capacity > 1 then capacity else 1)
  {
    var mainGuest := new Guest(firstName, lastName, true);
    var list := [mainGuest];
    if capacity > 1 {
      var currentGuests := 1;
      var k := 0;
      ghost var added: seq<(string, string)> := [];
      assert answers[0..] == answers;
      PrependNothing(AdditionalGuests(answers, Slots(capacity)));
      while currentGuests < capacity
        invariant 0 <= k <= |answers|
        invariant 1 <= currentGuests <= capacity
        invariant |list| == currentGuests == 1 + |added|
        invariant list[0].firstName == firstName && list[0].lastName == lastName && list[0].isMainGuest
        invariant forall i :: 1 <= i < |list| ==>
                    list[i].firstName == added[i - 1].0 && list[i].lastName == added[i - 1].1 && !list[i].isMainGuest
        invariant Prepend(added, AdditionalGuests(answers[k..], capacity - currentGuests))
                  == AdditionalGuests(answers, Slots(capacity))
        decreases |answers| - k
      {
        if k == |answers| {
          return None;
        }
        assert answers[k..][1..] == answers[k + 1..];
        match answers[k] {
          case No =>
            break;
          case Yes(first, last) =>
            var additionalGuest := new Guest(first, last, false);
            list := list + [additionalGuest];
            currentGuests := currentGuests + 1;
            PrependTwice(added, [(first, last)], AdditionalGuests(answers[k + 1..], capacity - currentGuests));
            added := added + [(first, last)];
          case Other =>
        }
        k := k + 1;
      }
    }
    return Some(list);
  }

  /** The guest objects of the room's last reservation, the one a check-in appends. */
  ghost function LastBookingGuests(room: Room): seq<Guest>
    reads room
  {
    if room.reservations == [] then [] else room.reservations[|room.reservations| - 1].guests
  }

  /**
   * What a check-in leaves behind, given the room's reservations and occupied
   * flag before it: invalid input when the replies run out or the stay is not
   * at least one day long; already booked when the stay overlaps a reservation;
   * otherwise the stay is appended as the last reservation, with the main guest
   * and the additional guests, and the room records the guests and the dates.
   */
  ghost predicate CheckedInTo(room: Room, before: seq<Reservation>, wasOccupied: bool,
                              firstName: string, lastName: string, checkIn: Date, durationOfStay: int,
                              answers: seq<Answer>, today: Date, outcome: CheckInOutcome)
    reads room, LastBookingGuests(room)
  {
    var checkOut := checkIn + durationOfStay;
    var extra := AdditionalGuests(answers, Slots(room.capacity));
    && outcome != RoomNotFound
    && (outcome == InvalidDateOrDuration <==> extra.None? || durationOfStay <= 0)
    && (outcome == AlreadyBooked <==>
          extra.Some? && durationOfStay > 0 && ConflictsWith(before, Period(checkIn, checkOut)))
    && (outcome == CheckedIn ==>
          && |room.reservations| == |before| + 1
          && room.reservations[..|before|] == before
          && var booked := room.reservations[|before|];
          && booked.period == Period(checkIn, checkOut)
          && |booked.guests| == 1 + |extra.value|
          && |booked.guests| <= (if room.capacity > 1 then room.capacity else 1)
          && booked.guests[0].firstName == firstName && booked.guests[0].lastName == lastName
          && booked.guests[0].isMainGuest
          && (forall i :: 1 <= i < |booked.guests| ==>
                booked.guests[i].firstName == extra.value[i - 1].0
                && booked.guests[i].lastName == extra.value[i - 1].1
                && !booked.guests[i].isMainGuest)
          && room.guests == Some(booked.guests)
          && room.checkInDate == Some(checkIn)
          && room.plannedCheckOutDate == Some(checkOut)
          && room.isOccupied == (if checkIn <= today then true else wasOccupied))
    && (NoOverlap(before) ==> NoOverlap(room.reservations))
  }

  /**
   * The check-in steps on the room found: collect the guests, book the stay,
   * then record guests, dates and occupancy on the room.
   */
  method CheckInRoom(room: Room, firstName: string, lastName: string, checkInDate: Date,
                     durationOfStay: int, answers: seq<Answer>, today: Date)
    returns (outcome: CheckInOutcome)
    modifies room
    ensures CheckedInTo(room, old(room.reservations), old(room.isOccupied), firstName, lastName,
                        checkInDate, durationOfStay, answers, today, outcome)
    ensures outcome != CheckedIn ==> unchanged(room)
  {
    var plannedCheckOutDate := checkInDate + durationOfStay;

    var collected := CollectGuests(firstName, lastName, room.capacity, answers);
    if collected.None? {
      return InvalidDateOrDuration;
    }
    var guests := collected.value;

    var reservationAdded := room.AddReservation(guests, checkInDate, plannedCheckOutDate);
    if reservationAdded.Failure? {
      return InvalidDateOrDuration;
    }
    if !reservationAdded.value {
      return AlreadyBooked;
    }

    room.SetGuests(Some(guests));
    room.SetCheckInDate(Some(checkInDate));
    room.SetPlannedCheckOutDate(Some(plannedCheckOutDate));
    if checkInDate <= today {
      room.SetOccupied(true);
    }
    return CheckedIn;
  }

  /**
   * The check-in transition: look the room up by number, then check in. Blank
   * check-in input (`None`) means today; the planned check-out is check-in plus
   * the stay's length in days.
   */
  method CheckIn(hotel: Hotel, roomNr: int, firstName: string, lastName: string,
                 checkInInput: Option<Date>, durationOfStay: int, answers: seq<Answer>, today: Date)
    returns (outcome: CheckInOutcome)
    requires hotel.Valid()
    modifies hotel.rooms.values
    ensures hotel.Valid()
    ensures roomNr !in old(hotel.rooms.Model()) <==> outcome == RoomNotFound
    ensures outcome != CheckedIn ==> unchanged(hotel.rooms.values)
    ensures roomNr in old(hotel.rooms.Model()) ==>
              var room := old(hotel.rooms.Model())[roomNr];
              var checkIn := if checkInInput.Some? then checkInInput.value else today;
              && (forall r :: r in hotel.rooms.values && r != room ==> unchanged(r))
              && CheckedInTo(room, old(room.reservations), old(room.isOccupied), firstName, lastName,
                             checkIn, durationOfStay, answers, today, outcome)
  {
    ghost var model := hotel.rooms.Model();
    var found := hotel.rooms.Get(roomNr);
    if found.None? {
      ValidWhileRoomsChange(hotel);
      return RoomNotFound;
    }
    var room := found.value;
    assert room == model[roomNr];
    var checkInDate := if checkInInput.Some? then checkInInput.value else today;
    label before:
    outcome := CheckInRoom(room, firstName, lastName, checkInDate, durationOfStay, answers, today);
    assert CheckedInTo(room, old@before(room.reservations), old@before(room.isOccupied), firstName, lastName,
                       checkInDate, durationOfStay, answers, today, outcome);
    forall r | r in hotel.rooms.values && r != room
      ensures unchanged(r)
    {
    }
    ValidWhileRoomsChange(hotel);
  }
}
