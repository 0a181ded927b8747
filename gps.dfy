/** Conversion of an EXIF degrees/minutes/seconds triple and its hemisphere
    reference into signed decimal degrees (`dms_coordinates_to_dd_coordinates`,
    present in both HumanCount.py and HumanCountFunctions.py with the same body).
    Python's true division is modelled exactly over `real`. */
module Gps {

  /** One element of the coordinate tuple handed to the conversion. Anything
      that Python cannot add to a number (a string, None, ...) is `NotANumber`. */
  datatype Part = Number(value: real) | NotANumber

  /** The coordinate value: either something that cannot be indexed at all
      (None), or an indexable tuple of parts of any length. */
  datatype Dms = NotIndexable | Parts(parts: seq<Part>)

  /** True when `c[0] + c[1] / 60 + c[2] / 3600` evaluates without raising. */
  predicate Summable(c: Dms)
  {
    && c.Parts?
    && |c.parts| >= 3
    && c.parts[0].Number? && c.parts[1].Number? && c.parts[2].Number?
  }

  /** The unsigned value `degrees + minutes / 60 + seconds / 3600`. */
  function Magnitude(c: Dms): real
    requires Summable(c)
  {
    c.parts[0].value + c.parts[1].value / 60.0 + c.parts[2].value / 3600.0
  }

  /** The references for which the code negates the value. */
  predicate IsSouthOrWest(ref: string)
  {
    ref == "S" || ref == "W"
  }

  /** `dms_coordinates_to_dd_coordinates(coordinates, coordinates_ref)`:
      a malformed tuple is logged and gives 0 instead of raising. */
  function DecimalDegrees(coordinates: Dms, ref: string): (dd: real)
    ensures !Summable(coordinates) ==> dd == 0.0
    ensures Summable(coordinates) ==> dd == Magnitude(coordinates) || dd == -Magnitude(coordinates)
  {
    if !Summable(coordinates) then 0.0
    else
      var decimalDegrees := Magnitude(coordinates);
      if IsSouthOrWest(ref) then -decimalDegrees else decimalDegrees
  }

  /** The tuple `(d, m, s)` of three numbers. */
  function Triple(d: real, m: real, s: real): Dms
  {
    Parts([Number(d), Number(m), Number(s)])
  }

  /** A well-formed reading: non-negative degrees, whole minutes in [0, 59]
      and seconds in [0, 60). */
  predicate WellFormedReading(c: Dms)
  {
    && Summable(c)
    && 0.0 <= c.parts[0].value
    && 0.0 <= c.parts[1].value <= 59.0 && c.parts[1].value == c.parts[1].value.Floor as real
    && 0.0 <= c.parts[2].value < 60.0
  }

  /** Sign rule, for every tuple: "S" and "W" negate the "N" result, and
      "N", "E" and any other string keep it. */
  lemma SignFollowsRef(c: Dms, ref: string)
    ensures DecimalDegrees(c, ref) == (if IsSouthOrWest(ref) then -1.0 else 1.0) * DecimalDegrees(c, "N")
  {
  }

  /** For a positive magnitude the result is negative exactly when the
      reference is "S" or "W". */
  lemma NegatedExactlyForSouthOrWest(c: Dms, ref: string)
    requires Summable(c)
    requires Magnitude(c) > 0.0
    ensures DecimalDegrees(c, ref) < 0.0 <==> IsSouthOrWest(ref)
  {
  }

  /** Malformed coordinates (absent, fewer than three parts, or a part that is
      not a number) convert to 0 whatever the reference. */
  lemma MalformedCoordinatesGiveZero(c: Dms, ref: string)
    requires c.NotIndexable? || |c.parts| < 3 || exists i :: 0 <= i < 3 && c.parts[i].NotANumber?
    ensures DecimalDegrees(c, ref) == 0.0
  {
    if c.Parts? && |c.parts| >= 3 {
      var i :| 0 <= i < 3 && c.parts[i].NotANumber?;
      assert !Summable(c);
    }
  }

  /** For a well-formed reading the whole degrees are kept and minutes and
      seconds only add a fraction of a degree. */
  lemma WellFormedReadingStaysWithinItsDegree(c: Dms, ref: string)
    requires WellFormedReading(c)
    ensures var dd := DecimalDegrees(c, ref);
      c.parts[0].value <= (if dd < 0.0 then -dd else dd) < c.parts[0].value + 1.0
  {
    var m, s := c.parts[1].value, c.parts[2].value;
    assert m / 60.0 + s / 3600.0 < 1.0 by {
      assert m / 60.0 <= 59.0 / 60.0;
      assert s / 3600.0 < 1.0 / 60.0;
    }
  }

  /** The reading `(d, m, s)` that the camera would store for the decimal
      value `x`: whole degrees, whole minutes, and the remaining seconds. */
  function ToReading(x: real): (c: Dms)
    requires x >= 0.0
    ensures WellFormedReading(c)
  {
    var d := x.Floor as real;
    var m := ((x - d) * 60.0).Floor as real;
    var s := ((x - d) * 60.0 - m) * 60.0;
    Triple(d, m, s)
  }

  /** The hemisphere reference the camera would store for a signed value. */
  function RefFor(x: real, isLatitude: bool): string
  {
    if x < 0.0 then (if isLatitude then "S" else "W")
    else (if isLatitude then "N" else "E")
  }

  /** Round trip: converting the stored reading of any signed decimal value
      back with its reference gives exactly that value. */
  lemma DecimalDegreesRoundTrip(x: real, isLatitude: bool)
    ensures DecimalDegrees(ToReading(if x < 0.0 then -x else x), RefFor(x, isLatitude)) == x
  {
  }

  /** The worked examples: (10, 30, 0) is 10.5 degrees, negated for "S". */
  lemma TenDegreesThirtyMinutes()
    ensures DecimalDegrees(Triple(10.0, 30.0, 0.0), "S") == -10.5
    ensures DecimalDegrees(Triple(10.0, 30.0, 0.0), "N") == 10.5
    ensures DecimalDegrees(Triple(10.0, 30.0, 0.0), "E") == 10.5
  {
  }
}
