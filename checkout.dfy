/**
 * The state change of the `checkout` command once the room number is read:
 * remove the first reservation that contains today (both ends included),
 * charge the nights since its check-in, and clear the room's occupancy state.
 */
module CheckOutCommand {
  import opened Wrappers
  import opened Lists
  import opened Periods
  import opened Reservations
  import opened Rooms
  import opened Hotels

  /** How the command ends; on success, the days charged and the total cost. */
  datatype CheckOutOutcome = RoomNotFound | NoCurrentReservation | CheckedOut(days: int, cost: int)

  /**
   * Check-out's test: today lies in the period, check-in and check-out days both
   * included, that is, today is a night of the stay or its check-out day.
   */
  predicate ContainsDay(p: Period, today: Date): (b: bool)
    ensures b <==> p.HasNight(today) || (p.checkIn <= today && today == p.checkOut)
  {
    p.checkIn <= today <= p.checkOut
  }

  /** The first reservation in list order that contains today, or -1. */
  function FirstContaining(rs: seq<Reservation>, today: Date): (i: int)
    ensures -1 <= i < |rs|
    ensures i == -1 <==> forall j :: 0 <= j < |rs| ==> !ContainsDay(rs[j].period, today)
    ensures 0 <= i ==> ContainsDay(rs[i].period, today)
    ensures 0 <= i ==> forall j :: 0 <= j < i ==> !ContainsDay(rs[j].period, today)
  {
    if |rs| == 0 then -1
    else if ContainsDay(rs[0].period, today) then 0
    else
      var j := FirstContaining(rs[1..], today);
      if j == -1 then -1 else j + 1
  }

  /** The days charged: from check-in to today, anything under one day counting as none. */
  function ChargedDays(checkIn: Date, today: Date): (days: int)
    ensures days >= 0
    ensures today - checkIn >= 1 ==> days == today - checkIn
    ensures today - checkIn < 1 ==> days == 0
  {
    var daysBetween := today - checkIn;
    if daysBetween < 1 then 0 else daysBetween
  }

  /** For a reservation that contains today the floor at zero never applies: the days are exactly today minus check-in. */
  lemma ChargedDaysOfCurrent(p: Period, today: Date)
    requires ContainsDay(p, today)
    ensures ChargedDays(p.checkIn, today) == today - p.checkIn
  {
  }

  /** A non-negative price times a non-negative number of days is a non-negative cost. */
  lemma CostNonNegative(price: int, days: int)
    requires price >= 0 && days >= 0
    ensures price * days >= 0
  {
  }

  /** Removing a reservation keeps the list free of overlaps. */
  lemma RemovePreservesNoOverlap(rs: seq<Reservation>, k: nat)
    requires NoOverlap(rs) && k < |rs|
    ensures NoOverlap(RemoveAt(rs, k))
  {
    var rs' := RemoveAt(rs, k);
    forall i, j | 0 <= i < j < |rs'|
      ensures !rs'[i].period.OverlapsWith(rs'[j].period)
    {
      var i0, j0 := if i < k then i else i + 1, if j < k then j else j + 1;
      assert rs'[i] == rs[i0] && rs'[j] == rs[j0];
    }
  }

  /**
   * Because check-out includes both ends while overlap excludes them, two
   * reservations of a list without overlaps can both contain today, but only
   * when one of them checks out today and the other checks in today.
   */
  lemma {:induction false} TwoCurrentMeansHandover(rs: seq<Reservation>, i: nat, j: nat, today: Date)
    requires NoOverlap(rs) && i < |rs| && j < |rs| && i != j
    requires ContainsDay(rs[i].period, today) && ContainsDay(rs[j].period, today)
    ensures (rs[i].period.checkOut == today && rs[j].period.checkIn == today)
         || (rs[i].period.checkIn == today && rs[j].period.checkOut == today)
  {
    NoOverlapAnyPair(rs, i, j);
  }

  /** Such a handover is possible, and the reservation earlier in the list is the one checked out. */
  lemma HandoverPicksEarlier(leaving: Reservation, arriving: Reservation, today: Date)
    requires leaving.period.checkOut == today && arriving.period.checkIn == today
    ensures NoOverlap([leaving, arriving]) && NoOverlap([arriving, leaving])
    ensures FirstContaining([leaving, arriving], today) == 0
    ensures FirstContaining([arriving, leaving], today) == 0
  {
  }

  /**
   * What a check-out leaves behind, given the room's reservations `before` it:
   * the first reservation containing today is gone, the others keep their
   * order, the stay is charged, and the occupancy state is cleared. With no
   * such reservation the outcome says so.
   */
  ghost predicate CheckedOutFrom(room: Room, before: seq<Reservation>, today: Date, outcome: CheckOutOutcome)
    reads room
  {
    var i := FirstContaining(before, today);
    && (outcome == NoCurrentReservation <==> i == -1)
    && (0 <= i ==>
          var current := before[i].period;
          && outcome == CheckedOut(ChargedDays(current.checkIn, today),
                                   room.pricePerNight * ChargedDays(current.checkIn, today))
          && outcome.days == today - current.checkIn
          && (room.pricePerNight >= 0 ==> outcome.cost >= 0)
          && room.reservations == RemoveAt(before, i)
          && !room.isOccupied && room.guests == Some([])
          && room.checkInDate == None && room.plannedCheckOutDate == None)
    && (NoOverlap(before) ==> NoOverlap(room.reservations))
  }

  /** The scan over the room's reservations for the first one containing today. */
  method FindCurrent(rs: seq<Reservation>, today: Date) returns (index: int)
    ensures index == FirstContaining(rs, today)
  {
    index := 0;
    while index < |rs|
      invariant 0 <= index <= |rs|
      invariant forall j :: 0 <= j < index ==> !ContainsDay(rs[j].period, today)
    {
      if ContainsDay(rs[index].period, today) {
        return;
      }
      index := index + 1;
    }
    index := -1;
  }

  /**
   * The check-out steps on the room found: select the current reservation,
   * remove it from the room's live list, compute days and cost, and reset the
   * occupancy state.
   */
  method CheckOutRoom(room: Room, today: Date) returns (outcome: CheckOutOutcome)
    modifies room
    ensures outcome != RoomNotFound
    ensures CheckedOutFrom(room, old(room.reservations), today, outcome)
    ensures outcome == NoCurrentReservation ==> unchanged(room)
    ensures outcome.CheckedOut? ==> outcome.days >= 0
    ensures outcome.CheckedOut? && room.pricePerNight >= 0 ==> outcome.cost >= 0
  {
    var index := FindCurrent(room.reservations, today);
    if index == -1 {
      return NoCurrentReservation;
    }
    var currentReservation := room.reservations[index];
    if NoOverlap(room.reservations) {
      RemovePreservesNoOverlap(room.reservations, index);
    }
    room.reservations := RemoveAt(room.reservations, index);

    var checkInDate := currentReservation.period.checkIn;
    var daysBetween := today - checkInDate;
    if daysBetween < 1 {
      daysBetween := 0;
    }
    var totalCost := room.pricePerNight * daysBetween;
    if room.pricePerNight >= 0 {
      CostNonNegative(room.pricePerNight, daysBetween);
    }

    room.SetOccupied(false);
    room.SetCheckInDate(None);
    room.SetPlannedCheckOutDate(None);
    room.SetGuests(Some([]));
    return CheckedOut(daysBetween, totalCost);
  }

  /** The check-out transition: look the room up by number, then check it out. */
  method CheckOut(hotel: Hotel, roomNr: int, today: Date) returns (outcome: CheckOutOutcome)
    requires hotel.Valid()
    modifies hotel.rooms.values
    ensures hotel.Valid()
    ensures roomNr !in old(hotel.rooms.Model()) <==> outcome == RoomNotFound
    ensures !outcome.CheckedOut? ==> unchanged(hotel.rooms.values)
    ensures roomNr in old(hotel.rooms.Model()) ==>
              var room := old(hotel.rooms.Model())[roomNr];
              && (forall r :: r in hotel.rooms.values && r != room ==> unchanged(r))
              && CheckedOutFrom(room, old(room.reservations), today, outcome)
              && (outcome.CheckedOut? && room.pricePerNight >= 0 ==> outcome.cost >= 0)
    ensures outcome.CheckedOut? ==> outcome.days >= 0
  {
    ghost var model := hotel.rooms.Model();
    var found := hotel.rooms.Get(roomNr);
    if found.None? {
      ValidWhileRoomsChange(hotel);
      return RoomNotFound;
    }
    var room := found.value;
    assert room == model[roomNr];
    label before:
    outcome := CheckOutRoom(room, today);
    assert CheckedOutFrom(room, old@before(room.reservations), today, outcome);
    forall r | r in hotel.rooms.values && r != room
      ensures unchanged(r)
    {
    }
    ValidWhileRoomsChange(hotel);
  }
}
