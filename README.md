# Random coordinate near a reference point: a Dafny model

The repository holds two scripts. Each picks a random point within a given
distance of a reference coordinate.

- `rcnrc.py`, the earlier one, asks for a centre and a maximum distance. It
  draws the distance uniformly on `[0, max)` with `random.uniform`.
- `random_coordinate_near_reference_coordinate_v3.py`, the later one, takes
  a distance `"N"` or a range `"N-M"`. It draws the distance uniformly by
  *area* on the sphere, which is the spherical-cap inverse-CDF method. It
  reports every error through one `ValueError` handler.

This project models the deterministic core of both scripts:

- the area-uniform distance sampler `_uniform_distance_by_area_spherical`;
- the distance text parser `parse_distance_input`;
- the coordinate text filter `re.sub(r"[^\d.,-]", "", …)` followed by the
  split into two floats;
- the linear distance draw of the earlier script;
- each script's orchestration, from the two input texts to the values
  handed to the geodesic projection.

The random draws are parameters. `u` and `v` in `[0, 1)` stand for
`random()`. `Uniform(a, b, u)` is `a + (b - a) * u`, which is how Python's
`random.uniform` computes its result.

Python's `float()`, `math.cos`, `math.acos` and `math.pi` are parameters as
well, and each carries the laws the proofs rely on:

- `FloatText.FloatLike(parse)`: `float("")` fails, a text holding a comma
  fails, and a text without `-` never reads as a negative number.
- `Trigonometry.Trig.Valid()`: `pi` lies between 3.14159 and 3.14160,
  `cos 0 = 1`, `cos pi = -1`, `cos` is strictly decreasing on `[0, pi]`, and
  `acos` maps `[-1, 1]` into `[0, pi]` as a right inverse of `cos`.
- `Trigonometry.Trig.SymmetricAboutPi()`: `cos x = cos(2 pi - x)` on
  `[pi, 2 pi]`. Only the finding below uses it.

Two concrete witnesses show these laws can be met:

- `DecimalFloat` reads plain decimal literals with an optional sign. The
  worked examples in `Scenarios` run through it.
- `LinearTrig` is a piecewise-linear cosine, mirrored about pi.

Modules:

- `Wrappers`: `Option` and `Result`.
- `PyText`: `str.split(c, 1)` and `str.split(c)`.
- `FloatText`: the `float()` laws and the decimal witness.
- `CoordinateText`: the character filter.
- `Projection`: the values handed to the geodesic projection.
- `Trigonometry`: the cosine laws.
- `PyRandom`: `random.uniform`.
- `NearCoordinateV3`: the later script.
- `Rcnrc`: the earlier script.
- `Scenarios`: worked inputs.

Reversed bounds such as `"15-5"` raise the range error at line 37 of
`random_coordinate_near_reference_coordinate_v3.py`. The handler at lines
42-43 turns it into the format error, so the caller never sees the range
error. `ParseDistanceInput` only ever fails with `InvalidDistanceFormat`, and
`Scenarios.ReversedRangeText` shows the replacement.

## Model

| member | source | states |
|---|---|---|
| NearCoordinateV3.UniformDistanceByArea | random_coordinate_near_reference_coordinate_v3.py:11-24 | The sampler fails exactly when a bound is negative or min > max. A negative bound is `NegativeDistance`; min > max is `MinAboveMax`. Equal bounds return min unchanged. Otherwise, with valid trigonometry, the result lies in [0, pi·R]. |
| NearCoordinateV3.Clamp | random_coordinate_near_reference_coordinate_v3.py:22 | `max(-1, min(1, x))` lies in [-1, 1] and is the point of [-1, 1] nearest to x. |
| NearCoordinateV3.AnnulusAreaGrows | random_coordinate_near_reference_coordinate_v3.py:18-21 | The cap-area difference `cos(min/R) - cos(d/R)` is zero at d = min and grows strictly with d up to pi·R. |
| NearCoordinateV3.DrawnAngle | random_coordinate_near_reference_coordinate_v3.py:18-23 | The clamp never changes the interpolated cosine. The drawn angle has that cosine, lies in [min/R, max/R), and equals min/R when u = 0. |
| NearCoordinateV3.SampleWithinRange | random_coordinate_near_reference_coordinate_v3.py:11-24 | For 0 ≤ min ≤ max ≤ pi·R and u in [0, 1), the sample lies in [min, max], lies strictly below max when min < max, and equals min when u = 0. |
| NearCoordinateV3.SampleInvertsAnnulusArea | random_coordinate_near_reference_coordinate_v3.py:18-24 | The annulus between min and the sample has exactly fraction u of the area between min and max, so the sample is the inverse CDF of the area-uniform distribution. |
| NearCoordinateV3.RangeBeyondHalfCircumferenceFallsShort | random_coordinate_near_reference_coordinate_v3.py:18-24 | With a cosine symmetric about pi, the accepted range 15000-30000 km samples strictly between 2·pi·R − 30000 and 15000 for every draw u in (0, 1), so the sample is always below the minimum. |
| NearCoordinateV3.SampleIncreasingInDraw | random_coordinate_near_reference_coordinate_v3.py:18-24 | A larger draw u gives a strictly larger distance, so the map from draws to distances is one-to-one. |
| NearCoordinateV3.ParseDistanceBody | random_coordinate_near_reference_coordinate_v3.py:34-41 | Inside the `try`, a failure is a float() failure or min > max. A text with a hyphen yields min ≤ max. A text without one yields min = 0. |
| NearCoordinateV3.ParseDistanceInput | random_coordinate_near_reference_coordinate_v3.py:32-43 | Every failure becomes the one format error, and the parse succeeds exactly when the body does. |
| NearCoordinateV3.PlainNumberIsMaximum | random_coordinate_near_reference_coordinate_v3.py:38-40 | Text without a hyphen parses to (0, hi) if and only if float() reads it as hi. |
| NearCoordinateV3.HyphenSplitsAtFirst | random_coordinate_near_reference_coordinate_v3.py:34-37 | `left-right`, with no hyphen in left, parses to (lo, hi) if and only if float() reads left as lo and right as hi and lo ≤ hi. |
| NearCoordinateV3.ParsedRangeIsValid | random_coordinate_near_reference_coordinate_v3.py:32-43 | Under the float() laws, every accepted range has 0 ≤ min ≤ max. |
| NearCoordinateV3.LeadingMinusRejected | random_coordinate_near_reference_coordinate_v3.py:34-35 | A text that starts with `-` splits into an empty left field, so it is always the format error. |
| NearCoordinateV3.ParsedRangeAlwaysSamples | random_coordinate_near_reference_coordinate_v3.py:58-59 | Any range the parser accepts passes the sampler's own checks. |
| NearCoordinateV3.ParseCoordinate | random_coordinate_near_reference_coordinate_v3.py:52-53 | The failures are a float() failure or a missing second field, and success needs a comma in the filtered text. |
| NearCoordinateV3.CoordinateSplitsAtFirstComma | random_coordinate_near_reference_coordinate_v3.py:52-53 | A filtered text `left,right`, with no comma in left, parses to (lat, lon) if and only if float() reads both fields. |
| NearCoordinateV3.CoordinateNeedsComma | random_coordinate_near_reference_coordinate_v3.py:55-56 | A filtered text without a comma is always rejected. |
| NearCoordinateV3.SecondCommaRejected | random_coordinate_near_reference_coordinate_v3.py:53 | With two or more commas, the second field still holds a comma, so float() rejects it. |
| NearCoordinateV3.RandomDraw | random_coordinate_near_reference_coordinate_v3.py:50-59 | A coordinate error is reported as it is, before the range text is looked at. A range error after a good centre is the format error. A successful draw keeps the parsed centre, takes its bearing as `random.uniform(0, 360)` at v, and takes its distance from the area-uniform sampler at u over the parsed range, so the sampler's lemmas apply to the distance handed to the projection. |
| NearCoordinateV3.RandomDrawFailsOnlyOnInput | random_coordinate_near_reference_coordinate_v3.py:50-59 | Under the float() laws and up to the projection call, the run fails if and only if one of the two texts fails to parse. It never fails in the sampler. |
| NearCoordinateV3.RandomDrawWithinRange | random_coordinate_near_reference_coordinate_v3.py:26-28 | The bearing lies in [0, 360), and the distance lies in the parsed range. |
| PyText.SplitOnce | random_coordinate_near_reference_coordinate_v3.py:35 | `split(c, 1)` gives two parts if and only if c occurs. The first part has no c, and the parts rejoin to the text. |
| PyText.SplitAll | rcnrc.py:35 | `split(c)` gives one more part than there are c. No part holds c, and the parts rejoin to the text. |
| PyText.SplitAllUnique | rcnrc.py:35 | Any c-free parts that join to the text are exactly the result of `split(c)`. |
| PyText.SplitOnceMatchesSplitAll | rcnrc.py:35 | `split(c)` has two parts if and only if `split(c, 1)` does and its second part holds no c; the two splits then agree. |
| CoordinateText.Clean | rcnrc.py:34 | The filter never lengthens the text and keeps only digits, `.`, `,` and `-`. |
| CoordinateText.CleanConcat | rcnrc.py:34 | The filter works character by character: filtering a concatenation concatenates the filtered parts. |
| CoordinateText.CleanFixesExactlyKept | random_coordinate_near_reference_coordinate_v3.py:52 | The filter leaves a text unchanged if and only if every character of it is kept. |
| CoordinateText.CleanIdempotent | random_coordinate_near_reference_coordinate_v3.py:52 | Filtering twice is the same as filtering once. |
| CoordinateText.CleanCounts | rcnrc.py:34 | Every kept character keeps its count, and every other character disappears. |
| CoordinateText.DroppedCharacterIsInvisible | rcnrc.py:34 | Inserting a degree sign, a space or a letter anywhere does not change the filtered text. |
| FloatText.DecimalFloatIsFloatLike | random_coordinate_near_reference_coordinate_v3.py:40 | A plain decimal reader meets every float() law the proofs assume. |
| Trigonometry.TrigLawsSatisfiable | random_coordinate_near_reference_coordinate_v3.py:21-23 | A concrete cosine and arccosine meet every trigonometric law the proofs assume, the symmetry about pi included. |
| PyRandom.Uniform | rcnrc.py:16-19 | `a + (b - a)·u` lies in [a, b) when a < b, in (b, a] when b < a, and equals a when u = 0. |
| PyRandom.UniformIncreasing | rcnrc.py:19 | On a < b, `random.uniform` is strictly increasing in the draw. |
| Rcnrc.ParseCoordinate | rcnrc.py:34-35 | A centre is accepted only when the filtered text has exactly one comma, with both fields read by float(). |
| Rcnrc.CoordinateParsersAgree | rcnrc.py:34-35 | Under the float() laws, the earlier script accepts exactly the centre texts the later one accepts, and reads the same values from them. |
| Rcnrc.RandomCoordinate | rcnrc.py:6-19 | The bearing lies in [0, 360). The distance is max·u: it lies in [0, max) for a positive max and in (max, 0] for a negative one. |
| Rcnrc.DistanceIncreasingInDraw | rcnrc.py:19 | For a positive max, a larger draw gives a strictly larger distance. |
| Rcnrc.RandomDraw | rcnrc.py:27-40 | Up to the projection call, the run succeeds if and only if the centre and the maximum both parse. It then keeps the parsed centre and draws the distance as max·u. |
| Rcnrc.NegativeMaximumAccepted | rcnrc.py:37-40 | A negative maximum is not refused: the draw goes ahead and lands in (max, 0]. |
| Scenarios.RangeText | random_coordinate_near_reference_coordinate_v3.py:34-37 | `"5-15"` is the range (5, 15). |
| Scenarios.PlainText | random_coordinate_near_reference_coordinate_v3.py:38-40 | `"10"` is the range (0, 10). |
| Scenarios.ReversedRangeText | random_coordinate_near_reference_coordinate_v3.py:36-43 | `"15-5"` raises the range error inside the `try`, and the caller sees the format error. |
| Scenarios.WordText | random_coordinate_near_reference_coordinate_v3.py:40-43 | `"abc"` is the format error. |
| Scenarios.DegreeText | random_coordinate_near_reference_coordinate_v3.py:52 | `"4°, -7°"` filters to `"4,-7"`. |
| Scenarios.DegreeCoordinate | random_coordinate_near_reference_coordinate_v3.py:52-53 | Both scripts read `"4°, -7°"` as latitude 4 and longitude -7. |
| Scenarios.HemisphereCoordinate | random_coordinate_near_reference_coordinate_v3.py:52-53 | `"4 N, 7 W"` is latitude 4 and longitude +7: hemisphere letters are dropped, not turned into signs. |

## Left out

- The geodesic projection (`geodesic(...).destination`) and the rounding to six decimals are geopy calls and floating-point output. The model stops at the bearing and distance handed to the projection.
- Random number generation: `RNG.random()`, `RNG.uniform` and `random.uniform` are modelled by their draw in [0, 1), passed as a parameter. No distribution over draws is modelled; uniformity is stated as the inverse-CDF property of the map from draws to distances.
- Floating-point arithmetic: every computation is on exact reals, so rounding, NaN and infinities are not modelled. Python would compare a NaN bound as neither negative nor greater.
- `math.cos`, `math.acos` and `math.pi` are parameters constrained by the laws above. The true functions are not defined here.
- `float()` is a parameter constrained by the laws above. Its full grammar (exponents, `inf`, `nan`, surrounding whitespace, underscores) is not modelled. `DecimalFloat` reads plain decimals only. Because of the split at the first hyphen, a range like `"1e-3"` is cut at its exponent sign by the program as well.
- The character class `\d` in the filter matches every Unicode decimal digit. The model keeps ASCII digits only.
- Console and argument I/O (`input`, `argparse`, `print`) and the text of the error messages are not modelled. The error kinds are datatype constructors.
- NearCoordinateV3.UniformDistanceByArea: the [0, pi·R] bound is stated only for the acos path. The equal-bounds shortcut returns min as given, which may exceed pi·R.
- NearCoordinateV3.RandomDrawWithinRange: states the distance bounds only for a maximum up to half the Earth's circumference (pi·R). Beyond it the cosine turns back up and the sample can fall below the minimum; see the finding below.
- NearCoordinateV3.RandomDrawFailsOnlyOnInput: stops before the projection. geopy's `Point` refuses a latitude beyond ±90 with a `ValueError`, which `main` reports as invalid input. So the centre `"100,0"` parses but the program still fails there.
- Rcnrc.RandomDraw: stops before the projection. The same `Point` check at rcnrc.py:22 refuses a latitude beyond ±90, and the handler at lines 42-43 reports it.

## Findings

| source | as written | input that shows it | evidently intended | confidence | as-written member | corrected member |
|---|---|---|---|---|---|---|
| random_coordinate_near_reference_coordinate_v3.py:18-24 | Any maximum is accepted, and `cos(max/R)` is used even past half a circumference, where the cosine turns back up. The clamp at line 22 does not catch this. | range `"15000-30000"` with any draw u in (0, 1): the sample lies strictly between 2·pi·R − 30000 (about 10030) and 15000 km, always below the minimum | every sample lies in [min, max]; this holds when max ≤ pi·R (about 20015 km) | high (proved on the model; not executed) | NearCoordinateV3.RangeBeyondHalfCircumferenceFallsShort | NearCoordinateV3.SampleWithinRange |
