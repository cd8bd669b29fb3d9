/**
  The two pieces of Java library behaviour that the resize logic depends on:
  the narrowing conversion `Double.intValue()` and `String.split("/")`.
 */
module JavaLang {

  const MaxInt: int := 0x7fff_ffff
  const MinInt: int := -0x8000_0000

  /** Truncation toward zero (Dafny's `Floor` rounds toward negative infinity). */
  function TruncateTowardZero(x: real): int
  {
    if x >= 0.0 then x.Floor else -((-x).Floor)
  }

  /**
    `Double.intValue()`: the Java narrowing conversion from double to int. It
    truncates toward zero and saturates at the bounds of `int`. (NaN, which
    converts to 0, has no counterpart in `real`.)
   */
  function IntValue(x: real): (r: int)
    ensures MinInt <= r <= MaxInt
    ensures MaxInt as real <= x ==> r == MaxInt
    ensures x <= MinInt as real ==> r == MinInt
    ensures 0.0 <= x <= MaxInt as real ==> 0 <= r && r as real <= x < r as real + 1.0
    ensures MinInt as real <= x < 0.0 ==> r <= 0 && r as real - 1.0 < x <= r as real
  {
    if MaxInt as real <= x then MaxInt
    else if x <= MinInt as real then MinInt
    else TruncateTowardZero(x)
  }

  /**
    Every piece of `s` between two '/' separators, in order, empty pieces kept:
    the list that `String.split` builds before it drops trailing empty strings.
   */
  function Pieces(s: string): (parts: seq<string>)
    ensures |parts| >= 1
    decreases |s|
  {
    if |s| == 0 then [""]
    else
      var init := Pieces(s[..|s| - 1]);
      var c := s[|s| - 1];
      if c == '/' then init + [""]
      else init[..|init| - 1] + [init[|init| - 1] + [c]]
  }

  /** Joins pieces with '/' separators: the inverse of `Pieces`. */
  function Join(parts: seq<string>): string
    requires |parts| >= 1
    decreases |parts|
  {
    if |parts| == 1 then parts[0]
    else Join(parts[..|parts| - 1]) + "/" + parts[|parts| - 1]
  }

  lemma {:induction false} JoinPieces(s: string)
    ensures Join(Pieces(s)) == s
    decreases |s|
  {
    if |s| > 0 {
      var s' := s[..|s| - 1];
      var c := s[|s| - 1];
      var init := Pieces(s');
      JoinPieces(s');
      assert s == s' + [c];
      if c == '/' {
        assert (init + [""])[..|init|] == init;
      } else {
        var parts := init[..|init| - 1] + [init[|init| - 1] + [c]];
        if |init| == 1 {
          assert parts == [init[0] + [c]];
        } else {
          assert parts[..|parts| - 1] == init[..|init| - 1];
          assert Join(init) == Join(init[..|init| - 1]) + "/" + init[|init| - 1];
        }
      }
    }
  }

  lemma {:induction false} PiecesHaveNoSlash(s: string)
    ensures forall i :: 0 <= i < |Pieces(s)| ==> '/' !in Pieces(s)[i]
    decreases |s|
  {
    if |s| > 0 {
      PiecesHaveNoSlash(s[..|s| - 1]);
    }
  }

  /** Drops the empty strings at the end of a split result, as `String.split(regex)` does. */
  function DropTrailingEmpty(parts: seq<string>): (r: seq<string>)
    ensures |r| <= |parts| && r == parts[..|r|]
    ensures |r| > 0 ==> r[|r| - 1] != ""
    ensures forall i :: |r| <= i < |parts| ==> parts[i] == ""
    decreases |parts|
  {
    if |parts| > 0 && parts[|parts| - 1] == "" then DropTrailingEmpty(parts[..|parts| - 1])
    else parts
  }

  /**
    `s.split("/")`: when '/' does not occur the result is `[s]` unchanged (so
    `"".split("/")` is `[""]`); otherwise the pieces with trailing empty
    strings removed, which for a string of slashes only is the empty array.
   */
  function JavaSplit(s: string): (parts: seq<string>)
    ensures forall i :: 0 <= i < |parts| ==> '/' !in parts[i]
    ensures '/' !in s ==> parts == [s]
  {
    PiecesHaveNoSlash(s);
    if '/' !in s then [s] else DropTrailingEmpty(Pieces(s))
  }
}
