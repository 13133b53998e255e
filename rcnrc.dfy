/**
 * rcnrc.py: the earlier script. It asks for a centre and a maximum
 * distance only, filters the centre text as the later script does but
 * splits it at every comma, and draws the distance uniformly in
 * [0, max) rather than uniformly by area. Every error ends in the same
 * message, so failure is a plain `None`.
 */
module Rcnrc {
  import opened Wrappers
  import opened PyText
  import opened FloatText
  import opened CoordinateText
  import opened Projection
  import opened PyRandom
  import NearCoordinateV3

  /**
   * Line 35: filter the text, split it at every comma and unpack exactly
   * two fields through float().
   */
  function ParseCoordinate(text: string, parse: string -> Option<real>): (r: Option<(real, real)>)
    ensures r.Some? ==> Occurrences(Clean(text), ',') == 1
  {
    var fields := SplitAll(Clean(text), ',');
    if |fields| == 2 && parse(fields[0]).Some? && parse(fields[1]).Some? then
      Some((parse(fields[0]).value, parse(fields[1]).value))
    else None
  }

  /**
   * `random_coordinate` up to the projection: the bearing is
   * `random.uniform(0, 360)` from the draw `v` and the distance
   * `random.uniform(0, max)` from the draw `u`, that is `u * max`, with no
   * check on the sign of `max`.
   */
  function RandomCoordinate(lat: real, lon: real, maxKm: real, v: real, u: real): (d: Draw)
    ensures d.latitude == lat && d.longitude == lon
    ensures d.distanceKm == Scale(maxKm, u)
    ensures 0.0 <= v < 1.0 ==> 0.0 <= d.bearing < 360.0
    ensures 0.0 <= u < 1.0 && 0.0 <= maxKm ==> 0.0 <= d.distanceKm <= maxKm
    ensures 0.0 <= u < 1.0 && 0.0 < maxKm ==> d.distanceKm < maxKm
    ensures 0.0 <= u < 1.0 && maxKm < 0.0 ==> maxKm < d.distanceKm <= 0.0
  {
    Draw(lat, lon, Uniform(0.0, 360.0, v), Uniform(0.0, maxKm, u))
  }

  /** For a positive maximum the distance grows strictly with the draw: it spreads [0, 1) evenly over [0, max). */
  lemma DistanceIncreasingInDraw(lat: real, lon: real, maxKm: real, v: real, u1: real, u2: real)
    requires 0.0 < maxKm
    requires u1 < u2
    ensures RandomCoordinate(lat, lon, maxKm, v, u1).distanceKm < RandomCoordinate(lat, lon, maxKm, v, u2).distanceKm
  {
    UniformIncreasing(0.0, maxKm, u1, u2);
  }

  /**
   * `main` up to the projection: the centre text first, then the maximum
   * through float(); any failure is the one "Invalid input" message.
   */
  function RandomDraw(coordText: string, maxText: string, v: real, u: real,
                      parse: string -> Option<real>): (r: Option<Draw>)
    ensures r.Some? <==> ParseCoordinate(coordText, parse).Some? && parse(maxText).Some?
    ensures r.Some? ==> (r.value.latitude, r.value.longitude) == ParseCoordinate(coordText, parse).value
    ensures r.Some? ==> r.value.distanceKm == Scale(parse(maxText).value, u)
  {
    match ParseCoordinate(coordText, parse)
    case None => None
    case Some((lat, lon)) =>
      match parse(maxText)
      case None => None
      case Some(maxKm) => Some(RandomCoordinate(lat, lon, maxKm, v, u))
  }

  /** A negative maximum is not refused: the draw goes ahead and lands in (max, 0]. */
  lemma NegativeMaximumAccepted(coordText: string, maxText: string, v: real, u: real,
                                parse: string -> Option<real>)
    requires ParseCoordinate(coordText, parse).Some?
    requires parse(maxText).Some? && parse(maxText).value < 0.0
    requires 0.0 <= u < 1.0
    ensures RandomDraw(coordText, maxText, v, u, parse).Some?
    ensures parse(maxText).value < RandomDraw(coordText, maxText, v, u, parse).value.distanceKm <= 0.0
  {
  }

  /**
   * The two scripts accept the same centre texts and read the same
   * values from them: splitting at every comma and asking for two fields
   * is the same as splitting at the first comma, because float() refuses
   * a field that still holds a comma.
   */
  lemma CoordinateParsersAgree(text: string, parse: string -> Option<real>)
    requires FloatLike(parse)
    ensures ParseCoordinate(text, parse).Some? <==> NearCoordinateV3.ParseCoordinate(text, parse).Success?
    ensures ParseCoordinate(text, parse).Some? ==>
      ParseCoordinate(text, parse).value == NearCoordinateV3.ParseCoordinate(text, parse).value
  {
    var cleaned := Clean(text);
    SplitOnceMatchesSplitAll(cleaned, ',');
    if Occurrences(cleaned, ',') >= 2 {
      NearCoordinateV3.SecondCommaRejected(text, parse);
    }
  }
}
