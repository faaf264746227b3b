/**
 * `Reservation`: an immutable pair of a guest list and a reservation period.
 * The guest list is a sequence value, so the copy the constructor takes cannot
 * be changed later through the caller's list.
 */
module Reservations {
  import opened Wrappers
  import opened Periods
  import opened Guests

  /** The constructor refuses a missing guest list or period. */
  datatype ReservationError = NullGuestsOrPeriod

  datatype Reservation = Reservation(guests: seq<Guest>, period: ReservationPeriod)

  /** The constructor; the getters are the datatype's fields. Any guest list, also the empty one, is accepted. */
  function MakeReservation(guests: Option<seq<Guest>>, period: Option<ReservationPeriod>): (r: Result<Reservation, ReservationError>)
    ensures r.Failure? <==> guests.None? || period.None?
    ensures r.Success? ==> r.value.guests == guests.value && r.value.period == period.value
  {
    if guests.None? || period.None? then Failure(NullGuestsOrPeriod)
    else Success(Reservation(guests.value, period.value))
  }
}
