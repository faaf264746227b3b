/**
 * `ReservationPeriod`: a stay from a check-in date to a check-out date.
 * Only periods whose check-in comes strictly before their check-out can be built.
 */
module Periods {
  import opened Wrappers

  /** A calendar date as a day number; only order, day offsets and differences are used. */
  type Date = int

  /** Why building a period failed: a missing date, or check-in not before check-out. */
  datatype PeriodError = NullDate | NotBefore

  datatype Period = Period(checkIn: Date, checkOut: Date) {

    /**
     * `overlapsWith`: the stays share time, ends excluded. Seen from the other
     * period the test reads the same, and two valid overlapping stays share the
     * night of the later check-in.
     */
    predicate OverlapsWith(other: Period): (b: bool)
      ensures b <==> other.checkIn < checkOut && other.checkOut > checkIn
      ensures b && checkIn < checkOut && other.checkIn < other.checkOut ==>
                var later := if checkIn < other.checkIn then other.checkIn else checkIn;
                HasNight(later) && other.HasNight(later)
    {
      checkIn < other.checkOut && checkOut > other.checkIn
    }

    /** The night starting on day `d` belongs to the stay (check-in included, check-out excluded). */
    predicate HasNight(d: Date) {
      checkIn <= d < checkOut
    }
  }

  /** A period the validating constructor accepts. */
  type ReservationPeriod = p: Period | p.checkIn < p.checkOut witness Period(0, 1)

  /** The validating constructor; the getters are the datatype's fields. */
  function MakePeriod(checkIn: Option<Date>, checkOut: Option<Date>): (r: Result<ReservationPeriod, PeriodError>)
    ensures r == Failure(NullDate) <==> checkIn.None? || checkOut.None?
    ensures r == Failure(NotBefore) <==> checkIn.Some? && checkOut.Some? && checkIn.value >= checkOut.value
    ensures r.Success? ==> r.value.checkIn == checkIn.value && r.value.checkOut == checkOut.value
  {
    if checkIn.None? || checkOut.None? then Failure(NullDate)
    else if !(checkIn.value < checkOut.value) then Failure(NotBefore)
    else Success(Period(checkIn.value, checkOut.value))
  }

  /** Every period built has its check-in strictly before its check-out; equal dates are refused. */
  lemma MakePeriodOrdered(checkIn: Date, checkOut: Date)
    ensures MakePeriod(Some(checkIn), Some(checkOut)).Success? <==> checkIn < checkOut
    ensures MakePeriod(Some(checkIn), Some(checkIn)) == Failure(NotBefore)
  {
  }

  /** Overlap is symmetric. */
  lemma OverlapSymmetric(a: Period, b: Period)
    ensures a.OverlapsWith(b) <==> b.OverlapsWith(a)
  {
  }

  /** Touching periods (one checks out the day the other checks in) do not overlap, either way round. */
  lemma TouchingDoNotOverlap(a: Period, b: Period)
    requires a.checkOut == b.checkIn
    ensures !a.OverlapsWith(b) && !b.OverlapsWith(a)
  {
  }

  /** A valid period overlaps an identical one. */
  lemma OverlapsItself(a: ReservationPeriod)
    ensures a.OverlapsWith(a)
  {
  }

  /** Period equality is equality of both dates. */
  lemma PeriodEquality(a: Period, b: Period)
    ensures a == b <==> a.checkIn == b.checkIn && a.checkOut == b.checkOut
  {
  }

  /**
   * The overlap test is exactly "some night is in both stays": periods are
   * half-open, so a check-out day is free for the next check-in.
   */
  lemma {:induction false} OverlapIffSharedNight(a: ReservationPeriod, b: ReservationPeriod)
    ensures a.OverlapsWith(b) <==> exists d :: a.HasNight(d) && b.HasNight(d)
  {
    if a.OverlapsWith(b) {
      var d := if a.checkIn < b.checkIn then b.checkIn else a.checkIn;
      assert a.HasNight(d) && b.HasNight(d);
    }
  }
}
