/**
 * random_coordinate_near_reference_coordinate_v3.py: the distance sampler
 * that is uniform over the area of a spherical annulus, the parser of the
 * "N" / "N-M" distance text, the parser of the "lat,lon" text, and the
 * order in which `main` and `random_coordinate` combine them. The random
 * numbers are parameters: `v` for the bearing draw and `u` for the distance
 * draw, both from [0, 1).
 */
module NearCoordinateV3 {
  import opened Wrappers
  import opened PyText
  import opened FloatText
  import opened CoordinateText
  import opened Projection
  import opened Trigonometry
  import opened PyRandom

  /** The mean Earth radius, in kilometres. */
  const EarthRadiusKm: real := 6371.0088

  /** The `ValueError`s raised on the way to a coordinate, by cause. */
  datatype Error =
    | NegativeDistance       // "Distances must be non-negative."
    | MinAboveMax            // "Minimum distance cannot be greater than maximum distance."
    | InvalidDistanceFormat  // "Invalid distance format. Please provide a number or a range ..."
    | NotAFloat              // float() refused a piece of text
    | MissingField           // unpacking found one coordinate field where two were expected

  // ---------------------------------------------------------------------
  // The distance sampler
  // ---------------------------------------------------------------------

  /** The distance between two reals. */
  function Gap(x: real, y: real): real {
    if x < y then y - x else x - y
  }

  /** `max(-1.0, min(1.0, x))`: the point of [-1, 1] nearest to `x`. */
  function Clamp(x: real): (r: real)
    ensures -1.0 <= r <= 1.0
    ensures forall y :: -1.0 <= y <= 1.0 ==> Gap(x, r) <= Gap(x, y)
  {
    var upper := if x < 1.0 then x else 1.0;
    if upper > -1.0 then upper else -1.0
  }

  /** The angle, in radians, that a great-circle distance subtends at the Earth's centre. */
  function Angle(km: real): real {
    km / EarthRadiusKm
  }

  /**
   * `cos(a_inner) - cos(a_outer)`: the area of the spherical annulus
   * between the two distances, in units of 2 pi R^2 (a cap of angular
   * radius a has area 2 pi R^2 (1 - cos a)).
   */
  function AnnulusArea(innerKm: real, outerKm: real, trig: Trig): real {
    trig.cos(Angle(innerKm)) - trig.cos(Angle(outerKm))
  }

  /** `cos(a_min) - u * (cos(a_min) - cos(a_max))`: the cosine the draw picks, before clamping. */
  function InterpolatedCos(minKm: real, maxKm: real, u: real, trig: Trig): real {
    trig.cos(Angle(minKm)) - Scale(AnnulusArea(minKm, maxKm, trig), u)
  }

  /**
   * `_uniform_distance_by_area_spherical(min, max)` with the draw `u`:
   * negative bounds are refused first, then a minimum above the maximum;
   * equal bounds are returned as they are, without using the draw;
   * otherwise the distance is read off the clamped interpolated cosine,
   * which keeps it within half a circumference.
   */
  function UniformDistanceByArea(minKm: real, maxKm: real, u: real, trig: Trig): (r: Result<real, Error>)
    ensures r.Failure? <==> minKm < 0.0 || maxKm < 0.0 || maxKm < minKm
    ensures minKm < 0.0 || maxKm < 0.0 ==> r == Failure(NegativeDistance)
    ensures 0.0 <= maxKm < minKm ==> r == Failure(MinAboveMax)
    ensures 0.0 <= minKm == maxKm ==> r == Success(minKm)
    ensures trig.Valid() && 0.0 <= minKm < maxKm ==> r.Success? && 0.0 <= r.value <= trig.pi * EarthRadiusKm
  {
    if minKm < 0.0 || maxKm < 0.0 then Failure(NegativeDistance)
    else if minKm > maxKm then Failure(MinAboveMax)
    else if minKm == maxKm then Success(minKm)
    else
      var angle := trig.acos(Clamp(InterpolatedCos(minKm, maxKm, u, trig)));
      Success(EarthRadiusKm * angle)
  }

  /**
   * Within half a circumference the annulus grows strictly with its outer
   * distance, from nothing at the inner one; measured from the centre it
   * is the cap area 1 - cos(d/R).
   */
  lemma AnnulusAreaGrows(minKm: real, d1: real, d2: real, trig: Trig)
    requires trig.Valid()
    requires 0.0 <= minKm <= d1 < d2 <= trig.pi * EarthRadiusKm
    ensures AnnulusArea(minKm, minKm, trig) == 0.0
    ensures 0.0 <= AnnulusArea(minKm, d1, trig) < AnnulusArea(minKm, d2, trig)
    ensures minKm == 0.0 ==> AnnulusArea(minKm, d1, trig) == 1.0 - trig.cos(Angle(d1))
  {
    assert 0.0 <= Angle(minKm) <= Angle(d1) < Angle(d2) <= trig.pi;
    if Angle(minKm) < Angle(d1) {
      assert trig.cos(Angle(d1)) < trig.cos(Angle(minKm));
    }
    assert trig.cos(Angle(d2)) < trig.cos(Angle(d1));
    assert Angle(0.0) == 0.0;
  }

  /** The angle behind a sample on the acos path: between the bounds' angles, and its cosine the drawn one. */
  lemma DrawnAngle(minKm: real, maxKm: real, u: real, trig: Trig) returns (angle: real)
    requires trig.Valid()
    requires 0.0 <= minKm < maxKm <= trig.pi * EarthRadiusKm
    requires 0.0 <= u < 1.0
    ensures angle == trig.acos(Clamp(InterpolatedCos(minKm, maxKm, u, trig)))
    ensures trig.cos(angle) == InterpolatedCos(minKm, maxKm, u, trig)
    ensures Angle(minKm) <= angle < Angle(maxKm)
    ensures u == 0.0 ==> angle == Angle(minKm)
  {
    var aMin, aMax := Angle(minKm), Angle(maxKm);
    assert 0.0 <= aMin < aMax <= trig.pi;
    var cosMin, cosMax := trig.cos(aMin), trig.cos(aMax);
    assert cosMax < cosMin;
    var c := InterpolatedCos(minKm, maxKm, u, trig);
    assert cosMax < c <= cosMin;
    CosInUnitRange(trig, aMin);
    CosInUnitRange(trig, aMax);
    assert Clamp(c) == c;
    AcosBetween(trig, aMin, aMax, c);
    angle := trig.acos(c);
    if u == 0.0 {
      AcosOfCos(trig, aMin);
    }
  }

  /**
   * For bounds within half a circumference and a draw in [0, 1), the
   * sample lies in [min, max], below max unless the bounds are equal, and
   * a zero draw yields exactly min.
   */
  lemma SampleWithinRange(minKm: real, maxKm: real, u: real, trig: Trig)
    requires trig.Valid()
    requires 0.0 <= minKm <= maxKm <= trig.pi * EarthRadiusKm
    requires 0.0 <= u < 1.0
    ensures UniformDistanceByArea(minKm, maxKm, u, trig).Success?
    ensures minKm <= UniformDistanceByArea(minKm, maxKm, u, trig).value <= maxKm
    ensures minKm < maxKm ==> UniformDistanceByArea(minKm, maxKm, u, trig).value < maxKm
    ensures u == 0.0 ==> UniformDistanceByArea(minKm, maxKm, u, trig).value == minKm
  {
    if minKm < maxKm {
      var angle := DrawnAngle(minKm, maxKm, u, trig);
      assert UniformDistanceByArea(minKm, maxKm, u, trig).value == EarthRadiusKm * angle;
      assert EarthRadiusKm * Angle(minKm) == minKm;
      assert EarthRadiusKm * Angle(maxKm) == maxKm;
    }
  }

  /**
   * The sample inverts the area of the annulus at the draw: the part of
   * the annulus within the sampled distance is exactly the fraction `u` of
   * the whole. With `u` uniform on [0, 1) the point is uniform by area.
   */
  lemma SampleInvertsAnnulusArea(minKm: real, maxKm: real, u: real, trig: Trig)
    requires trig.Valid()
    requires 0.0 <= minKm < maxKm <= trig.pi * EarthRadiusKm
    requires 0.0 <= u < 1.0
    ensures UniformDistanceByArea(minKm, maxKm, u, trig).Success?
    ensures AnnulusArea(minKm, UniformDistanceByArea(minKm, maxKm, u, trig).value, trig)
      == Scale(AnnulusArea(minKm, maxKm, trig), u)
  {
    var angle := DrawnAngle(minKm, maxKm, u, trig);
    var d := UniformDistanceByArea(minKm, maxKm, u, trig).value;
    assert d == EarthRadiusKm * angle;
    assert Angle(d) == angle;
  }

  /** A larger draw gives a strictly larger distance: the sampler is strictly increasing in `u`. */
  lemma SampleIncreasingInDraw(minKm: real, maxKm: real, u1: real, u2: real, trig: Trig)
    requires trig.Valid()
    requires 0.0 <= minKm < maxKm <= trig.pi * EarthRadiusKm
    requires 0.0 <= u1 < u2 < 1.0
    ensures UniformDistanceByArea(minKm, maxKm, u1, trig).Success?
    ensures UniformDistanceByArea(minKm, maxKm, u2, trig).Success?
    ensures UniformDistanceByArea(minKm, maxKm, u1, trig).value < UniformDistanceByArea(minKm, maxKm, u2, trig).value
  {
    var angle1 := DrawnAngle(minKm, maxKm, u1, trig);
    var angle2 := DrawnAngle(minKm, maxKm, u2, trig);
    AnnulusAreaGrows(minKm, minKm, maxKm, trig);
    ScaleIncreasing(AnnulusArea(minKm, maxKm, trig), u1, u2);
    var c1, c2 := InterpolatedCos(minKm, maxKm, u1, trig), InterpolatedCos(minKm, maxKm, u2, trig);
    assert c2 < c1;
    CosInUnitRange(trig, Angle(minKm));
    CosInUnitRange(trig, Angle(maxKm));
    AcosDecreasing(trig, c2, c1);
  }

  /**
   * Past half a circumference the cosine turns back up, so the clamp no
   * longer keeps the sample in range: for the range 15000-30000 km every
   * nonzero draw lands strictly between 2 pi R - 30000 and 15000, short of
   * the minimum.
   */
  lemma RangeBeyondHalfCircumferenceFallsShort(u: real, trig: Trig)
    requires trig.Valid() && trig.SymmetricAboutPi()
    requires 0.0 < u < 1.0
    ensures UniformDistanceByArea(15000.0, 30000.0, u, trig).Success?
    ensures 2.0 * trig.pi * EarthRadiusKm - 30000.0 < UniformDistanceByArea(15000.0, 30000.0, u, trig).value < 15000.0
  {
    var aMin, aMax := Angle(15000.0), Angle(30000.0);
    var back := 2.0 * trig.pi - aMax;
    assert trig.pi <= aMax <= 2.0 * trig.pi;
    assert 0.0 <= back < aMin <= trig.pi;
    assert trig.cos(aMax) == trig.cos(back);
    assert trig.cos(aMin) < trig.cos(back);
    var c := InterpolatedCos(15000.0, 30000.0, u, trig);
    assert trig.cos(aMin) < c < trig.cos(back);
    CosInUnitRange(trig, aMin);
    CosInUnitRange(trig, back);
    assert Clamp(c) == c;
    AcosBetween(trig, back, aMin, c);
    assert EarthRadiusKm * aMin == 15000.0;
    assert EarthRadiusKm * back == 2.0 * trig.pi * EarthRadiusKm - 30000.0;
  }

  // ---------------------------------------------------------------------
  // The distance text
  // ---------------------------------------------------------------------

  /**
   * The body of the `try` in `parse_distance_input`: with a hyphen, the
   * text is split at the first one and both sides go through float(), and
   * a minimum above the maximum raises the range error; without one, the
   * whole text is the maximum and the minimum is 0.
   */
  function ParseDistanceBody(text: string, parse: string -> Option<real>): (r: Result<(real, real), Error>)
    ensures r.Failure? ==> r.error == NotAFloat || r.error == MinAboveMax
    ensures '-' in text && r.Success? ==> r.value.0 <= r.value.1
    ensures '-' !in text && r.Success? ==> r.value.0 == 0.0
  {
    if '-' in text then
      var fields := SplitOnce(text, '-');
      match (parse(fields[0]), parse(fields[1]))
      case (Some(lo), Some(hi)) => if lo > hi then Failure(MinAboveMax) else Success((lo, hi))
      case _ => Failure(NotAFloat)
    else
      match parse(text)
      case Some(hi) => Success((0.0, hi))
      case None => Failure(NotAFloat)
  }

  /**
   * `parse_distance_input`: the `except ValueError` catches every error of
   * the body, the range error included, and raises the one format error.
   */
  function ParseDistanceInput(text: string, parse: string -> Option<real>): (r: Result<(real, real), Error>)
    ensures r.Failure? ==> r.error == InvalidDistanceFormat
    ensures r.Success? <==> ParseDistanceBody(text, parse).Success?
  {
    match ParseDistanceBody(text, parse)
    case Success(range) => Success(range)
    case Failure(_) => Failure(InvalidDistanceFormat)
  }

  /** Text without a hyphen is a maximum alone: it parses to (0.0, float(text)) exactly when float() accepts it. */
  lemma PlainNumberIsMaximum(text: string, parse: string -> Option<real>, hi: real)
    requires '-' !in text
    ensures ParseDistanceInput(text, parse) == Success((0.0, hi)) <==> parse(text) == Some(hi)
  {
  }

  /**
   * Text with a hyphen is split at the FIRST hyphen: it parses exactly
   * when both sides do and the left is at most the right; any later
   * hyphen stays in the right-hand side.
   */
  lemma HyphenSplitsAtFirst(left: string, right: string, parse: string -> Option<real>)
    requires '-' !in left
    ensures var r := ParseDistanceInput(left + "-" + right, parse);
      && (r.Success? <==> parse(left).Some? && parse(right).Some? && parse(left).value <= parse(right).value)
      && (r.Success? ==> r.value == (parse(left).value, parse(right).value))
  {
    SplitOnceAt(left, '-', right);
    assert left + "-" + right == left + ['-'] + right;
  }

  /** Under the laws of float(), every accepted range has 0 <= min <= max. */
  lemma ParsedRangeIsValid(text: string, parse: string -> Option<real>)
    requires FloatLike(parse)
    ensures ParseDistanceInput(text, parse).Success? ==>
      0.0 <= ParseDistanceInput(text, parse).value.0 <= ParseDistanceInput(text, parse).value.1
  {
    if '-' in text {
      var fields := SplitOnce(text, '-');
      assert '-' !in fields[0];
    }
  }

  /** A leading minus sign is refused: the text before the hyphen is empty, and float("") fails. */
  lemma LeadingMinusRejected(rest: string, parse: string -> Option<real>)
    requires FloatLike(parse)
    ensures ParseDistanceInput("-" + rest, parse) == Failure(InvalidDistanceFormat)
  {
    HyphenSplitsAtFirst("", rest, parse);
    assert "" + "-" + rest == "-" + rest;
  }

  /** A range the parser accepts never makes the sampler raise: its two checks cannot fire in `main`. */
  lemma ParsedRangeAlwaysSamples(text: string, parse: string -> Option<real>, u: real, trig: Trig)
    requires FloatLike(parse)
    requires ParseDistanceInput(text, parse).Success?
    ensures UniformDistanceByArea(ParseDistanceInput(text, parse).value.0, ParseDistanceInput(text, parse).value.1, u, trig).Success?
  {
    ParsedRangeIsValid(text, parse);
  }

  // ---------------------------------------------------------------------
  // The coordinate text
  // ---------------------------------------------------------------------

  /**
   * Lines 52-53 (and 55-56): filter the text, split it at the first comma
   * and unpack the fields through float(), left before right; one field
   * alone fails the unpacking. Neither value is range-checked.
   */
  function ParseCoordinate(text: string, parse: string -> Option<real>): (r: Result<(real, real), Error>)
    ensures r.Failure? ==> r.error == NotAFloat || r.error == MissingField
    ensures r.Success? ==> ',' in Clean(text)
  {
    var fields := SplitOnce(Clean(text), ',');
    match parse(fields[0])
    case None => Failure(NotAFloat)
    case Some(lat) =>
      if |fields| == 1 then Failure(MissingField)
      else
        match parse(fields[1])
        case None => Failure(NotAFloat)
        case Some(lon) => Success((lat, lon))
  }

  /**
   * When the filtered text is `left,right` with the first comma in the
   * middle, the coordinate is (float(left), float(right)) whenever both
   * parse, whatever their values: there is no latitude or longitude check.
   */
  lemma CoordinateSplitsAtFirstComma(text: string, left: string, right: string, parse: string -> Option<real>)
    requires Clean(text) == left + [','] + right
    requires ',' !in left
    ensures var r := ParseCoordinate(text, parse);
      && (r.Success? <==> parse(left).Some? && parse(right).Some?)
      && (r.Success? ==> r.value == (parse(left).value, parse(right).value))
  {
    SplitOnceAt(left, ',', right);
  }

  /** Filtered text without a comma is refused. */
  lemma CoordinateNeedsComma(text: string, parse: string -> Option<real>)
    requires ',' !in Clean(text)
    ensures ParseCoordinate(text, parse).Failure?
  {
  }

  /**
   * Filtered text with a second comma is refused as well: the second comma
   * stays in the right-hand field, and float() refuses it.
   */
  lemma SecondCommaRejected(text: string, parse: string -> Option<real>)
    requires FloatLike(parse)
    requires Occurrences(Clean(text), ',') >= 2
    ensures ParseCoordinate(text, parse) == Failure(NotAFloat)
  {
    var cleaned := Clean(text);
    assert ',' in cleaned;
    var fields := SplitOnce(cleaned, ',');
    assert cleaned == fields[0] + [','] + fields[1];
    assert multiset(cleaned) == multiset(fields[0]) + multiset([',']) + multiset(fields[1]);
    assert multiset(fields[0])[','] == 0;
    assert ',' in fields[1];
  }

  // ---------------------------------------------------------------------
  // main and random_coordinate, without the console and the projection
  // ---------------------------------------------------------------------

  /**
   * `main` up to the projection: the coordinate is parsed first, then the
   * distance text; `random_coordinate` then draws the bearing from `v` and
   * the distance from `u`.
   */
  function RandomDraw(coordText: string, rangeText: string, v: real, u: real,
                      parse: string -> Option<real>, trig: Trig): (r: Result<Draw, Error>)
    ensures r.Success? ==> ParseCoordinate(coordText, parse) == Success((r.value.latitude, r.value.longitude))
    ensures ParseCoordinate(coordText, parse).Failure? ==> r == Failure(ParseCoordinate(coordText, parse).error)
    ensures ParseCoordinate(coordText, parse).Success? && ParseDistanceInput(rangeText, parse).Failure? ==>
      r == Failure(InvalidDistanceFormat)
    ensures r.Success? ==>
      && ParseDistanceInput(rangeText, parse).Success?
      && r.value.bearing == Uniform(0.0, 360.0, v)
      && UniformDistanceByArea(ParseDistanceInput(rangeText, parse).value.0,
                               ParseDistanceInput(rangeText, parse).value.1, u, trig) == Success(r.value.distanceKm)
  {
    match ParseCoordinate(coordText, parse)
    case Failure(e) => Failure(e)
    case Success((lat, lon)) =>
      match ParseDistanceInput(rangeText, parse)
      case Failure(e) => Failure(e)
      case Success((lo, hi)) =>
        var bearing := Uniform(0.0, 360.0, v);
        match UniformDistanceByArea(lo, hi, u, trig)
        case Failure(e) => Failure(e)
        case Success(d) => Success(Draw(lat, lon, bearing, d))
  }

  /**
   * Up to the projection, the only errors `main` can report are input
   * errors: under the laws of float() the sampler's own checks never fire.
   */
  lemma RandomDrawFailsOnlyOnInput(coordText: string, rangeText: string, v: real, u: real,
                                   parse: string -> Option<real>, trig: Trig)
    requires FloatLike(parse)
    ensures var r := RandomDraw(coordText, rangeText, v, u, parse, trig);
      r.Failure? ==> r.error in {NotAFloat, MissingField, InvalidDistanceFormat}
    ensures var r := RandomDraw(coordText, rangeText, v, u, parse, trig);
      r.Failure? <==> ParseCoordinate(coordText, parse).Failure? || ParseDistanceInput(rangeText, parse).Failure?
  {
    if ParseDistanceInput(rangeText, parse).Success? {
      ParsedRangeIsValid(rangeText, parse);
    }
  }

  /**
   * With both texts accepted and a maximum within half a circumference,
   * the draw keeps the parsed centre, has a bearing in [0, 360) and a
   * distance in the parsed range.
   */
  lemma RandomDrawWithinRange(coordText: string, rangeText: string, v: real, u: real,
                              parse: string -> Option<real>, trig: Trig)
    requires FloatLike(parse) && trig.Valid()
    requires 0.0 <= v < 1.0 && 0.0 <= u < 1.0
    requires ParseCoordinate(coordText, parse).Success?
    requires ParseDistanceInput(rangeText, parse).Success?
    requires ParseDistanceInput(rangeText, parse).value.1 <= trig.pi * EarthRadiusKm
    ensures var r := RandomDraw(coordText, rangeText, v, u, parse, trig);
      && r.Success?
      && (r.value.latitude, r.value.longitude) == ParseCoordinate(coordText, parse).value
      && 0.0 <= r.value.bearing < 360.0
      && ParseDistanceInput(rangeText, parse).value.0 <= r.value.distanceKm <= ParseDistanceInput(rangeText, parse).value.1
  {
    ParsedRangeIsValid(rangeText, parse);
    var (lo, hi) := ParseDistanceInput(rangeText, parse).value;
    SampleWithinRange(lo, hi, u, trig);
  }
}
