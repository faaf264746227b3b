/**
 * `Room`: a bookable room. Its reservation list is guarded by the no-overlap
 * check of `AddReservation`; beside it the room keeps transient occupancy state
 * (occupied flag, current guests, current check-in and planned check-out dates)
 * that the check-in and check-out commands set and clear.
 */
module Rooms {
  import opened Wrappers
  import opened Periods
  import opened Guests
  import opened Reservations

  /** `addGuest` on a room whose current guest list is `null`. */
  datatype GuestListError = NullGuestList

  /** No two reservations of the list overlap. */
  predicate NoOverlap(rs: seq<Reservation>) {
    forall i, j :: 0 <= i < j < |rs| ==> !rs[i].period.OverlapsWith(rs[j].period)
  }

  /** Some reservation of the list overlaps period `p`, whichever side the test is asked from. */
  predicate ConflictsWith(rs: seq<Reservation>, p: Period): (b: bool)
    ensures b <==> exists i :: 0 <= i < |rs| && p.OverlapsWith(rs[i].period)
    ensures b ==> rs != []
  {
    exists i :: 0 <= i < |rs| && rs[i].period.OverlapsWith(p)
  }

  /** In a list without overlaps, no two distinct positions overlap, in either order. */
  lemma NoOverlapAnyPair(rs: seq<Reservation>, i: nat, j: nat)
    requires NoOverlap(rs) && i < |rs| && j < |rs| && i != j
    ensures !rs[i].period.OverlapsWith(rs[j].period)
  {
    if j < i {
      OverlapSymmetric(rs[i].period, rs[j].period);
    }
  }

  /** Appending a reservation that conflicts with none keeps the list free of overlaps. */
  lemma AppendPreservesNoOverlap(rs: seq<Reservation>, r: Reservation)
    requires NoOverlap(rs) && !ConflictsWith(rs, r.period)
    ensures NoOverlap(rs + [r])
  {
    var rs' := rs + [r];
    forall i, j | 0 <= i < j < |rs'|
      ensures !rs'[i].period.OverlapsWith(rs'[j].period)
    {
      if j == |rs| {
        assert rs'[i] == rs[i];
      }
    }
  }

  /** `level()`: Java's `number / 100`, which truncates toward zero. */
  function FloorOf(number: int): (l: int)
    ensures 0 <= number ==> 0 <= l && 100 * l <= number < 100 * l + 100
    ensures number < 0 ==> l <= 0 && 100 * l - 100 < number <= 100 * l
  {
    if number >= 0 then number / 100 else -((-number) / 100)
  }

  lemma FloorExamples()
    ensures FloorOf(101) == 1 && FloorOf(202) == 2 && FloorOf(305) == 3
    ensures FloorOf(99) == 0 && FloorOf(-150) == -1
  {
  }

  class Room {
    const number: int
    /** Price per night in the smallest currency unit, so that costs stay exact. */
    const pricePerNight: int
    const capacity: int
    const description: string
    var isOccupied: bool
    var guests: Option<seq<Guest>>
    var checkInDate: Option<Date>
    var plannedCheckOutDate: Option<Date>
    var reservations: seq<Reservation>

    /** The constructor taking every attribute; the reservation list starts empty. */
    constructor Full(number: int, pricePerNight: int, capacity: int, checkInDate: Option<Date>,
                     isOccupied: bool, guests: Option<seq<Guest>>, plannedCheckOutDate: Option<Date>,
                     description: string)
      ensures this.number == number && this.pricePerNight == pricePerNight
      ensures this.capacity == capacity && this.description == description
      ensures this.checkInDate == checkInDate && this.isOccupied == isOccupied
      ensures this.guests == guests && this.plannedCheckOutDate == plannedCheckOutDate
      ensures reservations == []
    {
      this.number := number;
      this.pricePerNight := pricePerNight;
      this.capacity := capacity;
      this.checkInDate := checkInDate;
      this.isOccupied := isOccupied;
      this.guests := guests;
      this.plannedCheckOutDate := plannedCheckOutDate;
      this.description := description;
      this.reservations := [];
    }

    /** The constructor used when loading rooms: vacant, no guests, no dates, no reservations. */
    constructor (number: int, pricePerNight: int, capacity: int, description: string)
      ensures this.number == number && this.pricePerNight == pricePerNight
      ensures this.capacity == capacity && this.description == description
      ensures !isOccupied && guests == Some([])
      ensures checkInDate == None && plannedCheckOutDate == None
      ensures reservations == []
    {
      this.number := number;
      this.pricePerNight := pricePerNight;
      this.capacity := capacity;
      this.description := description;
      this.isOccupied := false;
      this.guests := Some([]);
      this.checkInDate := None;
      this.plannedCheckOutDate := None;
      this.reservations := [];
    }

    method SetOccupied(occupied: bool)
      modifies this`isOccupied
      ensures isOccupied == occupied
    {
      isOccupied := occupied;
    }

    method SetGuests(guests: Option<seq<Guest>>)
      modifies this`guests
      ensures this.guests == guests
    {
      this.guests := guests;
    }

    method SetCheckInDate(checkInDate: Option<Date>)
      modifies this`checkInDate
      ensures this.checkInDate == checkInDate
    {
      this.checkInDate := checkInDate;
    }

    method SetPlannedCheckOutDate(plannedCheckOutDate: Option<Date>)
      modifies this`plannedCheckOutDate
      ensures this.plannedCheckOutDate == plannedCheckOutDate
    {
      this.plannedCheckOutDate := plannedCheckOutDate;
    }

    /**
     * `addGuest`: append to the current guest list while it is below capacity.
     * A `null` list is an error; a full list is refused without change.
     */
    method AddGuest(guest: Guest) returns (r: Result<bool, GuestListError>)
      modifies this`guests
      ensures old(guests).None? ==> r == Failure(NullGuestList)
      ensures old(guests).Some? ==> r == Success(|old(guests).value| < capacity)
      ensures r == Success(true) ==> guests == Some(old(guests).value + [guest])
      ensures r != Success(true) ==> guests == old(guests)
    {
      if guests.None? {
        return Failure(NullGuestList);
      }
      if |guests.value| >= capacity {
        return Success(false);
      }
      guests := Some(guests.value + [guest]);
      return Success(true);
    }

    /**
     * `addReservation`: build the period (an invalid one is an error), refuse it
     * when an existing reservation overlaps it, and append it otherwise.
     */
    method AddReservation(guests: seq<Guest>, checkIn: Date, checkOut: Date) returns (r: Result<bool, PeriodError>)
      modifies this`reservations
      ensures checkIn >= checkOut ==> r == Failure(NotBefore)
      ensures r == Success(false) <==> checkIn < checkOut && ConflictsWith(old(reservations), Period(checkIn, checkOut))
      ensures r == Success(true) <==> checkIn < checkOut && !ConflictsWith(old(reservations), Period(checkIn, checkOut))
      ensures r == Success(true) ==>
                reservations == old(reservations) + [Reservation(guests, Period(checkIn, checkOut))]
      ensures r != Success(true) ==> reservations == old(reservations)
      ensures NoOverlap(old(reservations)) ==> NoOverlap(reservations)
    {
      var made := MakePeriod(Some(checkIn), Some(checkOut));
      if made.Failure? {
        return Failure(made.error);
      }
      var newPeriod := made.value;
      var i := 0;
      while i < |reservations|
        invariant 0 <= i <= |reservations|
        invariant forall j :: 0 <= j < i ==> !reservations[j].period.OverlapsWith(newPeriod)
      {
        if reservations[i].period.OverlapsWith(newPeriod) {
          return Success(false);
        }
        i := i + 1;
      }
      var reservation := MakeReservation(Some(guests), Some(newPeriod)).value;
      if NoOverlap(reservations) {
        AppendPreservesNoOverlap(reservations, reservation);
      }
      reservations := reservations + [reservation];
      return Success(true);
    }

    /** `level()`: the floor the room is on, the room number's hundreds truncated toward zero. */
    function Level(): (l: int)
      ensures 0 <= number ==> 0 <= l && 100 * l <= number < 100 * l + 100
      ensures number < 0 ==> l <= 0 && 100 * l - 100 < number <= 100 * l
    {
      FloorOf(number)
    }

    /** `equals`: rooms are the same room exactly when their numbers agree. */
    predicate Equals(other: Room?): (b: bool)
      ensures other == this ==> b
      ensures b ==> other != null && HashCode() == other.HashCode()
    {
      other != null && number == other.number
    }

    /** `hashCode`: `Objects.hash(number)`, which is `31 + number` while that fits in an `int`. */
    function HashCode(): (h: int)
      ensures -0x8000_0000 <= h < 0x8000_0000
      ensures -0x8000_0000 - 31 <= number < 0x8000_0000 - 31 ==> h == 31 + number
      ensures (31 + number - h) % 0x1_0000_0000 == 0
    {
      Wrap32(31 + number)
    }
  }

  /**
   * Room equality is an equivalence that looks at the number only, whatever the
   * other fields hold, and equal rooms hash alike.
   */
  lemma RoomEqualsByNumber(a: Room, b: Room, c: Room)
    ensures a.Equals(a) && !a.Equals(null)
    ensures a.Equals(b) <==> a.number == b.number
    ensures a.Equals(b) <==> b.Equals(a)
    ensures a.Equals(b) && b.Equals(c) ==> a.Equals(c)
    ensures a.Equals(b) ==> a.HashCode() == b.HashCode()
  {
  }
}
