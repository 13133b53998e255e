/**
 * The character filter both scripts apply to the reference-point text,
 * `re.sub(r"[^\d.,-]", "", text)`: every character other than an ASCII
 * digit, `.`, `,` or `-` is deleted (degree signs, spaces, hemisphere
 * letters), and the rest is kept in its original order.
 */
module CoordinateText {
  import opened FloatText

  /** The characters the filter keeps. */
  predicate Kept(c: char) {
    IsDigit(c) || c == '.' || c == ',' || c == '-'
  }

  /** The filtered text. */
  function Clean(s: string): (r: string)
    ensures |r| <= |s|
    ensures forall i :: 0 <= i < |r| ==> Kept(r[i])
  {
    if s == [] then []
    else if Kept(s[0]) then [s[0]] + Clean(s[1..])
    else Clean(s[1..])
  }

  /** Filtering works piece by piece, so kept characters keep their relative order. */
  lemma {:induction false} CleanConcat(a: string, b: string)
    ensures Clean(a + b) == Clean(a) + Clean(b)
  {
    if a != [] {
      assert (a + b)[1..] == a[1..] + b;
      CleanConcat(a[1..], b);
    } else {
      assert a + b == b;
    }
  }

  /** Text made only of kept characters is left unchanged, and only such text. */
  lemma {:induction false} CleanFixesExactlyKept(s: string)
    ensures Clean(s) == s <==> forall i :: 0 <= i < |s| ==> Kept(s[i])
  {
    if s != [] && Kept(s[0]) {
      CleanFixesExactlyKept(s[1..]);
      if forall i :: 0 <= i < |s| ==> Kept(s[i]) {
        assert forall i :: 0 <= i < |s[1..]| ==> Kept(s[1..][i]) by {
          forall i | 0 <= i < |s[1..]| ensures Kept(s[1..][i]) { assert s[1..][i] == s[i + 1]; }
        }
      }
    }
  }

  /** Filtering twice is the same as filtering once. */
  lemma CleanIdempotent(s: string)
    ensures Clean(Clean(s)) == Clean(s)
  {
    CleanFixesExactlyKept(Clean(s));
  }

  /** Every kept character occurs as often after filtering as before; no other character survives. */
  lemma {:induction false} CleanCounts(s: string, c: char)
    ensures multiset(Clean(s))[c] == if Kept(c) then multiset(s)[c] else 0
  {
    if s != [] {
      CleanCounts(s[1..], c);
      assert s == [s[0]] + s[1..];
      assert multiset(s) == multiset([s[0]]) + multiset(s[1..]);
      if Kept(s[0]) {
        assert multiset(Clean(s)) == multiset([s[0]]) + multiset(Clean(s[1..]));
      }
    } else {
      assert multiset(Clean(s)) == multiset{};
    }
  }

  /**
   * Inserting a dropped character anywhere (a degree sign, a space, a
   * hemisphere letter `N`/`S`/`E`/`W`) does not change the filtered text,
   * so in particular it cannot change the sign of either number.
   */
  lemma DroppedCharacterIsInvisible(a: string, c: char, b: string)
    requires !Kept(c)
    ensures Clean(a + [c] + b) == Clean(a + b)
  {
    CleanConcat(a + [c], b);
    CleanConcat(a, [c]);
    CleanConcat(a, b);
    assert Clean([c]) == [];
  }
}
