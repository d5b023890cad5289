/** Hand-written scanners for the three fixed regular expressions of the extractor:
    the count pattern `/([0-9]x)|(x[0-9])/`, the calorie pattern `/([0-9]+)/` and the
    prototype's end-anchored calorie pattern `/ [0-9]+$/`. Each returns the leftmost
    match, as `String.prototype.match` does for a pattern without the `g` flag. */
module Patterns {
  import opened Wrappers
  import opened Text

  /** A match as the extractor records it: the matched text, its offset in the
      string that was searched, and its length. */
  datatype Match = Match(value: string, index: nat, length: nat)

  /** `m` is the substring of `s` it claims to be. */
  predicate Within(s: string, m: Match) {
    m.index + m.length <= |s| && m.value == s[m.index..m.index + m.length] && |m.value| == m.length
  }

  function MatchAt(s: string, i: nat, n: nat): (m: Match)
    requires i + n <= |s|
    ensures Within(s, m) && m.index == i && m.length == n
  {
    Match(s[i..i + n], i, n)
  }

  // ---------------------------------------------------------------------------
  // Count pattern `/([0-9]x)|(x[0-9])/`

  /** The count pattern matches at offset `i`: a digit then `x`, or `x` then a digit.
      Both alternatives are two characters long and cannot both match at one offset. */
  predicate IsCountAt(s: string, i: nat) {
    i + 2 <= |s| && ((IsDigit(s[i]) && s[i + 1] == 'x') || (s[i] == 'x' && IsDigit(s[i + 1])))
  }

  function FindCountFrom(s: string, from: nat): (r: Option<nat>)
    requires from <= |s|
    ensures r.Some? ==> from <= r.value && IsCountAt(s, r.value)
    ensures r.Some? ==> forall k :: from <= k < r.value ==> !IsCountAt(s, k)
    ensures r.None? ==> forall k :: from <= k ==> !IsCountAt(s, k)
    decreases |s| - from
  {
    if from == |s| then None
    else if IsCountAt(s, from) then Some(from)
    else FindCountFrom(s, from + 1)
  }

  /** Offset of the leftmost count token in `s`, if there is one. */
  function FindCount(s: string): (r: Option<nat>)
    ensures r.Some? ==> IsCountAt(s, r.value) && forall k: nat :: k < r.value ==> !IsCountAt(s, k)
    ensures r.None? <==> forall k: nat :: !IsCountAt(s, k)
  {
    FindCountFrom(s, 0)
  }

  // ---------------------------------------------------------------------------
  // Calorie pattern `/([0-9]+)/`

  function FirstDigitFrom(s: string, from: nat): (r: Option<nat>)
    requires from <= |s|
    ensures r.Some? ==> from <= r.value < |s| && IsDigit(s[r.value])
    ensures r.Some? ==> forall k :: from <= k < r.value ==> !IsDigit(s[k])
    ensures r.None? ==> forall k :: from <= k < |s| ==> !IsDigit(s[k])
    decreases |s| - from
  {
    if from == |s| then None
    else if IsDigit(s[from]) then Some(from)
    else FirstDigitFrom(s, from + 1)
  }

  /** End of the maximal run of digits that starts at `i` (the greedy `+`). */
  function RunEnd(s: string, i: nat): (e: nat)
    requires i <= |s|
    ensures i <= e <= |s|
    ensures forall k :: i <= k < e ==> IsDigit(s[k])
    ensures e == |s| || !IsDigit(s[e])
    decreases |s| - i
  {
    if i < |s| && IsDigit(s[i]) then RunEnd(s, i + 1) else i
  }

  /** The leftmost maximal digit run of `s`, as offset and length. */
  function FindDigits(s: string): (r: Option<(nat, nat)>)
    ensures r.Some? ==> var (i, n) := r.value;
      && n >= 1 && i + n <= |s|
      && AllDigits(s[i..i + n])
      && (i + n == |s| || !IsDigit(s[i + n]))
      && forall k :: 0 <= k < i ==> !IsDigit(s[k])
    ensures r.None? <==> forall k :: 0 <= k < |s| ==> !IsDigit(s[k])
  {
    match FirstDigitFrom(s, 0)
    case None => None
    case Some(i) => Some((i, RunEnd(s, i) - i))
  }

  // ---------------------------------------------------------------------------
  // End-anchored calorie pattern `/ [0-9]+$/`

  /** The end-anchored pattern matches at offset `i`: a space there, then one or more
      digits that run to the end of the string. */
  predicate IsTrailingNumberAt(s: string, i: nat) {
    i + 1 < |s| && s[i] == ' ' && AllDigits(s[i + 1..])
  }

  /** Number of digits at the end of `s`. */
  function TrailingDigits(s: string): (k: nat)
    ensures k <= |s|
    ensures AllDigits(s[|s| - k..])
    ensures k == |s| || !IsDigit(s[|s| - k - 1])
  {
    if s != [] && IsDigit(s[|s| - 1]) then
      var k := TrailingDigits(s[..|s| - 1]) + 1;
      assert forall j :: |s| - k <= j < |s| - 1 ==> s[j] == s[..|s| - 1][j];
      k
    else 0
  }

  /** Offset of the match of `/ [0-9]+$/` in `s`: the space that precedes the
      trailing digits, when there is such a space. */
  function FindTrailingNumber(s: string): (r: Option<nat>)
    ensures r.Some? ==> IsTrailingNumberAt(s, r.value)
    ensures r.None? <==> forall i :: !IsTrailingNumberAt(s, i)
  {
    var k := TrailingDigits(s);
    if 0 < k < |s| && s[|s| - k - 1] == ' ' then
      assert s[|s| - k - 1 + 1..] == s[|s| - k..];
      assert IsTrailingNumberAt(s, |s| - k - 1);
      Some(|s| - k - 1)
    else
      assert forall i :: IsTrailingNumberAt(s, i) ==> i == |s| - k - 1 by {
        forall i | IsTrailingNumberAt(s, i) ensures i == |s| - k - 1 {
          TrailingNumberAtDigits(s, i);
        }
      }
      None
  }

  lemma TrailingNumberAtDigits(s: string, i: nat)
    requires IsTrailingNumberAt(s, i)
    ensures TrailingDigits(s) == |s| - i - 1
  {
  }

  /** There is at most one offset where the end-anchored pattern matches. */
  lemma TrailingNumberUnique(s: string, i: nat, j: nat)
    requires IsTrailingNumberAt(s, i) && IsTrailingNumberAt(s, j)
    ensures i == j
  {
    TrailingNumberAtDigits(s, i);
    TrailingNumberAtDigits(s, j);
  }
}
