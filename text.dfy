/** String primitives the extractor relies on: ASCII whitespace and digits,
    `_.str.splice` (delete a run of characters by offset and length) and
    `String.prototype.trim`. */
module Text {

  /** The whitespace removed by `trim` and skipped by `parseInt`, restricted to ASCII:
      space, tab, line feed, vertical tab, form feed and carriage return. */
  predicate IsSpace(c: char) {
    c == ' ' || '\t' <= c <= '\r'
  }

  /** A character of the regex class `[0-9]`. */
  predicate IsDigit(c: char) {
    '0' <= c <= '9'
  }

  predicate AllSpace(s: string) {
    forall k :: 0 <= k < |s| ==> IsSpace(s[k])
  }

  predicate AllDigits(s: string) {
    forall k :: 0 <= k < |s| ==> IsDigit(s[k])
  }

  /** Neither the first nor the last character is whitespace. */
  predicate NoSpaceEnds(s: string) {
    s == [] || (!IsSpace(s[0]) && !IsSpace(s[|s| - 1]))
  }

  /** `_.str.splice(s, i, n)` with no replacement text: the `n` characters starting at
      offset `i` are cut out and everything else is kept in order. */
  function Splice(s: string, i: nat, n: nat): (r: string)
    requires i + n <= |s|
    ensures |r| == |s| - n
    ensures forall k :: 0 <= k < i ==> r[k] == s[k]
    ensures forall k :: i <= k < |r| ==> r[k] == s[k + n]
  {
    s[..i] + s[i + n..]
  }

  /** The first index at or after `i` that does not hold whitespace (or `|s|`). */
  function SpaceRunEnd(s: string, i: nat): (j: nat)
    requires i <= |s|
    ensures i <= j <= |s|
    ensures j == |s| || !IsSpace(s[j])
    decreases |s| - i
  {
    if i < |s| && IsSpace(s[i]) then SpaceRunEnd(s, i + 1) else i
  }

  /** Everything `SpaceRunEnd` steps over is whitespace. */
  lemma {:induction false} SpaceRunEndSpaces(s: string, i: nat)
    requires i <= |s|
    ensures forall k :: i <= k < SpaceRunEnd(s, i) ==> IsSpace(s[k])
    decreases |s| - i
  {
    if i < |s| && IsSpace(s[i]) {
      SpaceRunEndSpaces(s, i + 1);
    }
  }

  /** The smallest index `i <= j` such that `s[i..j]` is all whitespace. */
  function SpaceRunStart(s: string, j: nat): (i: nat)
    requires j <= |s|
    ensures i <= j
    ensures forall k :: i <= k < j ==> IsSpace(s[k])
    ensures i == 0 || !IsSpace(s[i - 1])
  {
    if j > 0 && IsSpace(s[j - 1]) then SpaceRunStart(s, j - 1) else j
  }

  /** Drops leading whitespace. */
  function TrimStart(s: string): (r: string)
    ensures |r| <= |s| && r == s[|s| - |r|..]
    ensures AllSpace(s[..|s| - |r|])
    ensures r == [] || !IsSpace(r[0])
  {
    SpaceRunEndSpaces(s, 0);
    s[SpaceRunEnd(s, 0)..]
  }

  /** Drops trailing whitespace. */
  function TrimEnd(s: string): (r: string)
    ensures |r| <= |s| && r == s[..|r|]
    ensures AllSpace(s[|r|..])
    ensures r == [] || !IsSpace(r[|r| - 1])
  {
    s[..SpaceRunStart(s, |s|)]
  }

  /** A whitespace run starting at `i` that stops at `j` is the one `SpaceRunEnd` finds. */
  lemma {:induction false} SpaceRunEndIs(s: string, i: nat, j: nat)
    requires i <= j <= |s|
    requires forall k :: i <= k < j ==> IsSpace(s[k])
    requires j == |s| || !IsSpace(s[j])
    ensures SpaceRunEnd(s, i) == j
    decreases j - i
  {
    if i < j {
      SpaceRunEndIs(s, i + 1, j);
    }
  }

  /** A whitespace run ending at `j` that starts at `i` is the one `SpaceRunStart` finds. */
  lemma {:induction false} SpaceRunStartIs(s: string, i: nat, j: nat)
    requires i <= j <= |s|
    requires forall k :: i <= k < j ==> IsSpace(s[k])
    requires i == 0 || !IsSpace(s[i - 1])
    ensures SpaceRunStart(s, j) == i
    decreases j - i
  {
    if i < j {
      SpaceRunStartIs(s, i, j - 1);
    }
  }

  /** `String.prototype.trim`: whitespace is removed at both ends and only there. */
  function Trim(s: string): (r: string)
    ensures |r| <= |s|
    ensures NoSpaceEnds(r)
  {
    TrimEnd(TrimStart(s))
  }

  lemma TrimStartExact(a: string, m: string)
    requires AllSpace(a)
    requires m == [] || !IsSpace(m[0])
    ensures TrimStart(a + m) == m
  {
    var s := a + m;
    forall k | 0 <= k < |a| ensures IsSpace(s[k]) {
      assert s[k] == a[k];
    }
    if m != [] {
      assert s[|a|] == m[0];
    }
    SpaceRunEndIs(s, 0, |a|);
    assert s[|a|..] == m;
  }

  lemma TrimEndExact(m: string, b: string)
    requires AllSpace(b)
    requires m == [] || !IsSpace(m[|m| - 1])
    ensures TrimEnd(m + b) == m
  {
    var s := m + b;
    forall k | |m| <= k < |s| ensures IsSpace(s[k]) {
      assert s[k] == b[k - |m|];
    }
    if m != [] {
      assert s[|m| - 1] == m[|m| - 1];
    }
    SpaceRunStartIs(s, |m|, |s|);
    assert s[..|m|] == m;
  }

  /** `trim` removes exactly the whitespace around a core whose ends are not
      whitespace, and keeps that core -- interior whitespace included -- as it is. */
  lemma TrimExact(a: string, m: string, b: string)
    requires AllSpace(a) && AllSpace(b) && NoSpaceEnds(m)
    ensures Trim(a + m + b) == m
  {
    assert a + m + b == a + (m + b);
    if m == [] {
      assert a + m + b == a + b;
      TrimStartExact(a + b, []);
      assert a + b + [] == a + b;
      assert TrimStart(a + b) == [];
    } else {
      TrimStartExact(a, m + b);
      TrimEndExact(m, b);
    }
  }

  /** A string that already has no whitespace at its ends is left unchanged by `trim`. */
  lemma TrimNoOp(s: string)
    requires NoSpaceEnds(s)
    ensures Trim(s) == s
  {
    assert [] + s + [] == s;
    TrimExact([], s, []);
  }

  /** `trim` is idempotent. */
  lemma TrimIdempotent(s: string)
    ensures Trim(Trim(s)) == Trim(s)
  {
    TrimNoOp(Trim(s));
  }

  /** A string trims to nothing exactly when it is all whitespace. */
  lemma TrimEmptyIff(s: string)
    ensures Trim(s) == [] <==> AllSpace(s)
  {
    var t := TrimStart(s);
    if AllSpace(s) {
      assert s == s + [];
      TrimStartExact(s, []);
    } else {
      var k :| 0 <= k < |s| && !IsSpace(s[k]);
      assert k >= |s| - |t|;
      assert t[k - (|s| - |t|)] == s[k];
    }
  }
}
