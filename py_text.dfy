/**
 * The Python `str` operations the scripts use: `c in s`, `s.split(c, 1)`
 * and `s.split(c)`, for a one-character separator.
 */
module PyText {

  /** The position of the first occurrence of `c` in `s` (`s.index(c)`). */
  function FirstIndex(s: string, c: char): (i: nat)
    requires c in s
    ensures i < |s| && s[i] == c
    ensures c !in s[..i]
  {
    if s[0] == c then 0
    else
      var j := FirstIndex(s[1..], c);
      assert s[..j + 1] == [s[0]] + s[1..][..j];
      j + 1
  }

  /**
   * `s.split(c, 1)`: the text before the first `c` and the text after it,
   * or `[s]` when `c` does not occur.
   */
  function SplitOnce(s: string, c: char): (parts: seq<string>)
    ensures |parts| == (if c in s then 2 else 1)
    ensures c !in parts[0]
    ensures |parts| == 1 ==> parts[0] == s
    ensures |parts| == 2 ==> parts[0] + [c] + parts[1] == s
  {
    if c in s then
      var i := FirstIndex(s, c);
      assert s == s[..i] + [c] + s[i + 1..];
      [s[..i], s[i + 1..]]
    else [s]
  }

  /** The pieces of a split put back together with the separator between them. */
  function Join(parts: seq<string>, c: char): string
    requires |parts| >= 1
  {
    if |parts| == 1 then parts[0] else parts[0] + [c] + Join(parts[1..], c)
  }

  /** The number of occurrences of `c` in `s`. */
  function Occurrences(s: string, c: char): nat
  {
    multiset(s)[c]
  }

  /**
   * `s.split(c)`: every piece between consecutive occurrences of `c`, in
   * order; there is always one more piece than there are separators.
   */
  function SplitAll(s: string, c: char): (parts: seq<string>)
    decreases |s|
    ensures |parts| == Occurrences(s, c) + 1
    ensures forall k :: 0 <= k < |parts| ==> c !in parts[k]
    ensures Join(parts, c) == s
  {
    if c in s then
      var i := FirstIndex(s, c);
      var rest := SplitAll(s[i + 1..], c);
      assert s == s[..i] + [c] + s[i + 1..];
      assert multiset(s) == multiset(s[..i]) + multiset([c]) + multiset(s[i + 1..]);
      assert ([s[..i]] + rest)[1..] == rest;
      [s[..i]] + rest
    else
      assert multiset(s)[c] == 0;
      [s]
  }

  /** Splitting once at an occurrence of `c` that has no `c` before it yields the two sides. */
  lemma SplitOnceAt(a: string, c: char, b: string)
    requires c !in a
    ensures SplitOnce(a + [c] + b, c) == [a, b]
  {
    var s := a + [c] + b;
    assert s[|a|] == c;
    var i := FirstIndex(s, c);
    assert s[..i] == a && s[i + 1..] == b;
  }

  /**
   * The pieces of `s.split(c)` are determined by the two facts its
   * contract states: no piece holds `c`, and joining them gives back `s`.
   */
  lemma {:induction false} SplitAllUnique(parts: seq<string>, s: string, c: char)
    requires |parts| >= 1
    requires forall k :: 0 <= k < |parts| ==> c !in parts[k]
    requires Join(parts, c) == s
    ensures parts == SplitAll(s, c)
    decreases |parts|
  {
    if |parts| == 1 {
      assert c !in s;
    } else {
      var rest := Join(parts[1..], c);
      assert s == parts[0] + [c] + rest;
      assert c in s by { assert s[|parts[0]|] == c; }
      SplitOnceAt(parts[0], c, rest);
      var i := FirstIndex(s, c);
      assert SplitOnce(s, c)[0] == s[..i];
      assert s[..i] == parts[0] && s[i + 1..] == rest;
      SplitAllUnique(parts[1..], rest, c);
      assert parts == [parts[0]] + parts[1..];
    }
  }

  /**
   * `s.split(c)` has exactly two pieces precisely when `s.split(c, 1)` has
   * two and the second holds no further `c`; the two splits then agree.
   */
  lemma SplitOnceMatchesSplitAll(s: string, c: char)
    ensures |SplitAll(s, c)| == 2 <==> |SplitOnce(s, c)| == 2 && c !in SplitOnce(s, c)[1]
    ensures |SplitAll(s, c)| == 2 ==> SplitAll(s, c) == SplitOnce(s, c)
  {
    var once := SplitOnce(s, c);
    if |once| == 2 && c !in once[1] {
      SplitAllUnique(once, s, c);
    }
    if |SplitAll(s, c)| == 2 {
      var all := SplitAll(s, c);
      assert Join(all, c) == all[0] + [c] + all[1];
      SplitOnceAt(all[0], c, all[1]);
    }
  }
}
