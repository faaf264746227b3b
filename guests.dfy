/**
 * `Guest`: a hotel guest with a first name, a last name and a main-guest flag.
 * The fields are mutable through setters; equality and hashing look at the three fields only.
 */
module Guests {

  /** Java `int` arithmetic: the value modulo 2^32, read as a signed 32-bit number. */
  function Wrap32(x: int): (r: int)
    ensures -0x8000_0000 <= r < 0x8000_0000
    ensures (x - r) % 0x1_0000_0000 == 0
  {
    var m := x % 0x1_0000_0000;
    if m < 0x8000_0000 then m else m - 0x1_0000_0000
  }

  /** `String.hashCode`: h = 31 * h + c over the characters, with 32-bit wrap-around. */
  function StringHash(s: string): (h: int)
    ensures -0x8000_0000 <= h < 0x8000_0000
  {
    if s == [] then 0 else Wrap32(31 * StringHash(s[..|s| - 1]) + s[|s| - 1] as int)
  }

  /** `Boolean.hashCode`. */
  function BoolHash(b: bool): int {
    if b then 1231 else 1237
  }

  class Guest {
    var firstName: string
    var lastName: string
    var isMainGuest: bool

    constructor (firstName: string, lastName: string, isMainGuest: bool)
      ensures this.firstName == firstName
      ensures this.lastName == lastName
      ensures this.isMainGuest == isMainGuest
    {
      this.firstName := firstName;
      this.lastName := lastName;
      this.isMainGuest := isMainGuest;
    }

    method SetFirstName(firstName: string)
      modifies this`firstName
      ensures this.firstName == firstName
    {
      this.firstName := firstName;
    }

    method SetLastName(lastName: string)
      modifies this`lastName
      ensures this.lastName == lastName
    {
      this.lastName := lastName;
    }

    method SetMainGuest(mainGuest: bool)
      modifies this`isMainGuest
      ensures isMainGuest == mainGuest
    {
      isMainGuest := mainGuest;
    }

    /** `equals`: `null` is never equal; otherwise the three fields are compared. */
    predicate Equals(other: Guest?): (b: bool)
      reads this, other
      ensures other == this ==> b
      ensures b ==> other != null && HashCode() == other.HashCode()
    {
      other != null && isMainGuest == other.isMainGuest
      && firstName == other.firstName && lastName == other.lastName
    }

    /** `hashCode`: `Objects.hash(firstName, lastName, isMainGuest)`. */
    function HashCode(): (h: int)
      reads this
      ensures -0x8000_0000 <= h < 0x8000_0000
    {
      var h1 := Wrap32(31 * 1 + StringHash(firstName));
      var h2 := Wrap32(31 * h1 + StringHash(lastName));
      Wrap32(31 * h2 + BoolHash(isMainGuest))
    }
  }

  /** Guest equality is an equivalence on the three fields, and every guest equals itself. */
  lemma GuestEqualsIsEquivalence(a: Guest, b: Guest, c: Guest)
    ensures a.Equals(a)
    ensures a.Equals(b) <==> b.Equals(a)
    ensures a.Equals(b) && b.Equals(c) ==> a.Equals(c)
    ensures !a.Equals(null)
  {
  }

  /** Equal guests have equal hash codes. */
  lemma EqualGuestsHashEqual(a: Guest, b: Guest)
    requires a.Equals(b)
    ensures a.HashCode() == b.HashCode()
  {
  }
}
