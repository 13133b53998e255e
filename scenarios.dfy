/**
 * Worked inputs of the two scripts, run through the decimal parser
 * `DecimalFloat` in place of Python's float().
 */
module Scenarios {
  import opened Wrappers
  import opened PyText
  import opened FloatText
  import opened CoordinateText
  import opened NearCoordinateV3
  import Rcnrc

  /** "5-15" is the range from 5 km to 15 km. */
  lemma RangeText()
    ensures ParseDistanceInput("5-15", DecimalFloat) == Success((5.0, 15.0))
  {
    SplitOnceAt("5", '-', "15");
    assert "5" + "-" + "15" == "5-15";
    assert DigitsValue("15") == 15 by { assert "15"[..1] == "1"; }
  }

  /** A plain "10" is the range from 0 km to 10 km. */
  lemma PlainText()
    ensures ParseDistanceInput("10", DecimalFloat) == Success((0.0, 10.0))
  {
    assert DigitsValue("10") == 10 by { assert "10"[..1] == "1"; }
  }

  /**
   * "15-5" has its bounds the wrong way round: the inner check raises the
   * range error, and the outer handler turns it into the format error.
   */
  lemma ReversedRangeText()
    ensures ParseDistanceBody("15-5", DecimalFloat) == Failure(MinAboveMax)
    ensures ParseDistanceInput("15-5", DecimalFloat) == Failure(InvalidDistanceFormat)
  {
    SplitOnceAt("15", '-', "5");
    assert "15" + "-" + "5" == "15-5";
    assert DigitsValue("15") == 15 by { assert "15"[..1] == "1"; }
  }

  /** Text that is not a number is the format error. */
  lemma WordText()
    ensures ParseDistanceInput("abc", DecimalFloat) == Failure(InvalidDistanceFormat)
  {
    assert !IsDigit("abc"[0]);
  }

  /** Degree signs and spaces are filtered out before the split. */
  lemma DegreeText()
    ensures Clean("4°, -7°") == "4,-7"
  {
    assert Clean("°") == [];
    assert Clean("-7°") == "-7" by { assert "-7°"[1..] == "7°" && "7°"[1..] == "°"; }
    assert Clean(" -7°") == "-7" by { assert " -7°"[1..] == "-7°"; }
    assert Clean("°, -7°") == ",-7" by { assert "°, -7°"[1..] == ", -7°" && ", -7°"[1..] == " -7°"; }
    assert "4°, -7°"[1..] == "°, -7°";
  }

  /** The decimal parser reads the two fields of "4,-7". */
  lemma FieldTexts()
    ensures DecimalFloat("4") == Some(4.0)
    ensures DecimalFloat("-7") == Some(-7.0)
  {
    assert "-7"[1..] == "7";
  }

  /** Both scripts read any centre that filters to "4,-7" as latitude 4 and longitude -7. */
  lemma FilteredCoordinate(text: string)
    requires Clean(text) == "4,-7"
    ensures ParseCoordinate(text, DecimalFloat) == Success((4.0, -7.0))
    ensures Rcnrc.ParseCoordinate(text, DecimalFloat) == Some((4.0, -7.0))
  {
    FieldTexts();
    SplitOnceAt("4", ',', "-7");
    assert "4" + "," + "-7" == "4,-7";
    SplitOnceMatchesSplitAll("4,-7", ',');
  }

  /** The centre "4°, -7°" is latitude 4 and longitude -7 in both scripts. */
  lemma DegreeCoordinate()
    ensures ParseCoordinate("4°, -7°", DecimalFloat) == Success((4.0, -7.0))
    ensures Rcnrc.ParseCoordinate("4°, -7°", DecimalFloat) == Some((4.0, -7.0))
  {
    DegreeText();
    FilteredCoordinate("4°, -7°");
  }

  /** Hemisphere letters are filtered out with the spaces. */
  lemma HemisphereText()
    ensures Clean("4 N, 7 W") == "4,7"
  {
    assert Clean(" W") == [] by { assert " W"[1..] == "W"; }
    assert Clean(" 7 W") == "7" by { assert " 7 W"[1..] == "7 W" && "7 W"[1..] == " W"; }
    assert Clean(" N, 7 W") == ",7" by {
      assert " N, 7 W"[1..] == "N, 7 W" && "N, 7 W"[1..] == ", 7 W" && ", 7 W"[1..] == " 7 W";
    }
    assert "4 N, 7 W"[1..] == " N, 7 W";
  }

  /** Any centre that filters to "4,7" is latitude 4 and longitude 7. */
  lemma FilteredPositiveCoordinate(text: string)
    requires Clean(text) == "4,7"
    ensures ParseCoordinate(text, DecimalFloat) == Success((4.0, 7.0))
  {
    SplitOnceAt("4", ',', "7");
    assert "4" + "," + "7" == "4,7";
  }

  /** "4 N, 7 W" keeps a positive longitude: the west is not turned into a minus sign. */
  lemma HemisphereCoordinate()
    ensures ParseCoordinate("4 N, 7 W", DecimalFloat) == Success((4.0, 7.0))
  {
    HemisphereText();
    FilteredPositiveCoordinate("4 N, 7 W");
  }
}
