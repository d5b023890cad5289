/** JavaScript's global `parseInt(string)` with no radix argument, as `sum()` applies
    it to the stored `cal` and `count` strings: skip leading whitespace, take an
    optional sign, switch to radix 16 after a `0x`/`0X` prefix, then read the longest
    run of digits of the radix. No digit at all gives `NaN`, written `None` here.
    The scan is written over offsets into the string, without slicing it. */
module JsParseInt {
  import opened Wrappers
  import opened Text

  /** Value of a digit character in radix up to 36 (`a`/`A` is 10), or 36 for a
      character that is no digit in any radix. */
  function DigitValue(c: char): (v: nat)
    ensures v <= 36
    ensures IsDigit(c) <==> v < 10
    ensures IsDigit(c) ==> v == (c as int) - ('0' as int)
  {
    if '0' <= c <= '9' then (c as int) - ('0' as int)
    else if 'a' <= c <= 'z' then (c as int) - ('a' as int) + 10
    else if 'A' <= c <= 'Z' then (c as int) - ('A' as int) + 10
    else 36
  }

  /** End of the longest run of digits of `radix` that starts at `i`. */
  function DigitsEnd(s: string, i: nat, radix: nat): (j: nat)
    requires i <= |s|
    ensures i <= j <= |s|
    decreases |s| - i
  {
    if i < |s| && DigitValue(s[i]) < radix then DigitsEnd(s, i + 1, radix) else i
  }

  /** The number that `s[i..j]` denotes in `radix`, most significant digit first. */
  function ValueOf(s: string, i: nat, j: nat, radix: nat): nat
    requires i <= j <= |s|
    decreases j - i
  {
    if j == i then 0 else ValueOf(s, i, j - 1, radix) * radix + DigitValue(s[j - 1])
  }

  /** `0x` or `0X` at offset `j`. */
  predicate HexAt(s: string, j: nat) {
    j + 1 < |s| && s[j] == '0' && (s[j + 1] == 'x' || s[j + 1] == 'X')
  }

  /** The number read at offset `j`, once whitespace and sign are behind: the digits
      of radix 16 after a `0x`/`0X` prefix, otherwise the decimal digits. */
  function Magnitude(s: string, j: nat): Option<nat>
    requires j <= |s|
  {
    var hex := HexAt(s, j);
    var start := if hex then j + 2 else j;
    var radix := if hex then 16 else 10;
    var e := DigitsEnd(s, start, radix);
    if e == start then None else Some(ValueOf(s, start, e, radix))
  }

  function ParseInt(s: string): Option<int> {
    var i := SpaceRunEnd(s, 0);
    var j := if i < |s| && (s[i] == '-' || s[i] == '+') then i + 1 else i;
    var m := Magnitude(s, j);
    if m.None? then None
    else Some((if i < |s| && s[i] == '-' then -1 else 1) * m.value)
  }

  /** The decimal number a string of digits denotes. */
  function DecimalValue(d: string): nat {
    ValueOf(d, 0, |d|, 10)
  }

  // ---------------------------------------------------------------------------
  // What the scanners compute

  /** A run of decimal digits ends at the first character that is no decimal digit. */
  lemma {:induction false} DecimalRunEnd(s: string, i: nat, n: nat)
    requires i + n <= |s| && AllDigits(s[i..i + n])
    requires i + n == |s| || !IsDigit(s[i + n])
    ensures DigitsEnd(s, i, 10) == i + n
    decreases n
  {
    if n > 0 {
      assert s[i..i + n][0] == s[i];
      assert s[i + 1..i + n] == s[i..i + n][1..];
      DecimalRunEnd(s, i + 1, n - 1);
    }
  }

  /** The value of a digit run depends only on its characters, not on where it sits. */
  lemma {:induction false} ValueOfMoved(s: string, i: nat, t: string, i': nat, n: nat, radix: nat)
    requires i + n <= |s| && i' + n <= |t| && s[i..i + n] == t[i'..i' + n]
    ensures ValueOf(s, i, i + n, radix) == ValueOf(t, i', i' + n, radix)
    decreases n
  {
    if n > 0 {
      assert s[i + n - 1] == s[i..i + n][n - 1] == t[i'..i' + n][n - 1] == t[i' + n - 1];
      assert s[i..i + n - 1] == s[i..i + n][..n - 1];
      assert t[i'..i' + n - 1] == t[i'..i' + n][..n - 1];
      ValueOfMoved(s, i, t, i', n - 1, radix);
    }
  }

  lemma {:induction false} DigitsEndSpec(s: string, i: nat, radix: nat)
    requires i <= |s|
    ensures var j := DigitsEnd(s, i, radix);
      (forall k :: i <= k < j ==> DigitValue(s[k]) < radix)
      && (j == |s| || DigitValue(s[j]) >= radix)
    decreases |s| - i
  {
    if i < |s| && DigitValue(s[i]) < radix {
      DigitsEndSpec(s, i + 1, radix);
    }
  }

  /** A run of digits of `radix` from `i` that stops at `j` is the one `DigitsEnd` finds. */
  lemma {:induction false} DigitsEndIs(s: string, i: nat, j: nat, radix: nat)
    requires i <= j <= |s|
    requires forall k :: i <= k < j ==> DigitValue(s[k]) < radix
    requires j == |s| || DigitValue(s[j]) >= radix
    ensures DigitsEnd(s, i, radix) == j
    decreases j - i
  {
    if i < j {
      DigitsEndIs(s, i + 1, j, radix);
    }
  }

  /** Text in front of a digit run does not change where the run ends. */
  lemma DigitsEndShifted(p: string, t: string, i: nat, radix: nat)
    requires i <= |t|
    ensures DigitsEnd(p + t, |p| + i, radix) == |p| + DigitsEnd(t, i, radix)
  {
    var s, e := p + t, DigitsEnd(t, i, radix);
    DigitsEndSpec(t, i, radix);
    forall k | |p| + i <= k < |p| + e ensures DigitValue(s[k]) < radix {
      assert s[k] == t[k - |p|];
    }
    if e < |t| {
      assert s[|p| + e] == t[e];
    }
    DigitsEndIs(s, |p| + i, |p| + e, radix);
  }

  // ---------------------------------------------------------------------------
  // What parseInt reads

  /** A run of decimal digits at the start of the text is read in radix 10 and stops
      at the first non-digit, unless it is the single digit `0` followed by `x` or
      `X`, which switches to radix 16. */
  lemma DecimalPrefix(d: string, rest: string)
    requires d != [] && AllDigits(d)
    requires rest == [] || !IsDigit(rest[0])
    requires !(d == "0" && rest != [] && (rest[0] == 'x' || rest[0] == 'X'))
    ensures ParseInt(d + rest) == Some(DecimalValue(d))
  {
    var s := d + rest;
    assert s[0] == d[0];
    assert d == s[0..|d|];
    assert !(1 < |s| && s[0] == '0' && (s[1] == 'x' || s[1] == 'X')) by {
      if |d| >= 2 { assert s[1] == d[1]; }
    }
    DecimalRunEnd(s, 0, |d|);
    ValueOfMoved(s, 0, d, 0, |d|, 10);
  }

  /** The same run read after a minus sign gives its negation. */
  lemma NegatedDecimal(d: string)
    requires d != [] && AllDigits(d)
    ensures ParseInt("-" + d) == Some(-(DecimalValue(d) as int))
  {
    var s := "-" + d;
    assert s[1] == d[0];
    assert d == s[1..1 + |d|];
    DecimalRunEnd(s, 1, |d|);
    ValueOfMoved(s, 1, d, 0, |d|, 10);
  }

  // ---------------------------------------------------------------------------
  // Decimal rendering, the inverse used to state what parseInt reads back

  function DigitChar(d: nat): (c: char)
    requires d < 10
    ensures IsDigit(c) && DigitValue(c) == d
  {
    ('0' as int + d) as char
  }

  /** `String(n)` for a natural number: its decimal digits with no leading zero. */
  function DecimalString(n: nat): (s: string)
    ensures s != [] && AllDigits(s)
    ensures |s| > 1 ==> s[0] != '0'
  {
    if n < 10 then [DigitChar(n)] else DecimalString(n / 10) + [DigitChar(n % 10)]
  }

  lemma {:induction false} DecimalStringValue(n: nat)
    ensures DecimalValue(DecimalString(n)) == n
  {
    var s := DecimalString(n);
    if n >= 10 {
      var p := DecimalString(n / 10);
      DecimalStringValue(n / 10);
      assert s[0..|p|] == p[0..|p|];
      ValueOfMoved(s, 0, p, 0, |p|, 10);
      assert DigitValue(s[|p|]) == n % 10;
      assert DecimalValue(s) == ValueOf(s, 0, |p|, 10) * 10 + DigitValue(s[|p|]);
      assert ValueOf(s, 0, |p|, 10) == n / 10;
      assert (n / 10) * 10 + n % 10 == n;
    } else {
      assert DecimalValue(s) == ValueOf(s, 0, 0, 10) * 10 + DigitValue(s[0]);
    }
  }

  /** Round trip: `parseInt(String(n)) == n`, and with a leading minus sign `-n`. */
  lemma ParseDecimalString(n: nat)
    ensures ParseInt(DecimalString(n)) == Some(n)
    ensures ParseInt("-" + DecimalString(n)) == Some(-(n as int))
  {
    var s := DecimalString(n);
    assert s + [] == s;
    DecimalPrefix(s, []);
    NegatedDecimal(s);
    DecimalStringValue(n);
  }

  /** A text whose first character is neither whitespace, a sign nor a decimal digit
      has no digits for `parseInt` to read: the result is `NaN`. */
  lemma NoLeadingDigit(s: string)
    requires s != [] && !IsSpace(s[0]) && !IsDigit(s[0]) && s[0] != '+' && s[0] != '-'
    ensures ParseInt(s) == None
  {
  }

  /** The empty string, and `0x` with nothing after it, are `NaN` too. */
  lemma NaNCases()
    ensures ParseInt("") == None
    ensures ParseInt("0x") == None
  {
  }

  // ---------------------------------------------------------------------------
  // parseInt on every input: whitespace, then a sign, then the digits

  predicate IsSign(c: char) {
    c == '+' || c == '-'
  }

  /** What is left once the leading whitespace and the sign are taken: a text that
      starts with neither. */
  predicate Unsigned(t: string) {
    t == [] || (!IsSpace(t[0]) && !IsSign(t[0]))
  }

  /** `0x` or `0X` at the start: the digits that follow are read in radix 16. */
  predicate HexPrefixed(t: string) {
    |t| >= 2 && t[0] == '0' && (t[1] == 'x' || t[1] == 'X')
  }

  function Negate(v: Option<int>): Option<int> {
    if v.Some? then Some(-v.value) else None
  }

  /** Every text splits into leading whitespace, an optional sign and the rest; with no
      sign, the rest does not start with whitespace or a sign. */
  lemma Decompose(s: string) returns (w: string, sg: string, t: string)
    ensures s == w + sg + t
    ensures AllSpace(w) && (sg == "" || sg == "+" || sg == "-")
    ensures sg == "" ==> Unsigned(t)
  {
    var i := SpaceRunEnd(s, 0);
    SpaceRunEndSpaces(s, 0);
    w := s[..i];
    if i < |s| && IsSign(s[i]) {
      sg, t := [s[i]], s[i + 1..];
    } else {
      sg, t := "", s[i..];
    }
    assert s == w + sg + t;
  }

  /** Whitespace in front of a text that does not start with whitespace is one run. */
  lemma LeadingSpace(w: string, r: string)
    requires AllSpace(w) && (r == [] || !IsSpace(r[0]))
    ensures SpaceRunEnd(w + r, 0) == |w|
  {
    var s := w + r;
    forall k | 0 <= k < |w| ensures IsSpace(s[k]) {
      assert s[k] == w[k];
    }
    if r != [] {
      assert s[|w|] == r[0];
    }
    SpaceRunEndIs(s, 0, |w|);
  }

  /** Text in front does not change the number read at an offset. */
  lemma MagnitudeShifted(p: string, t: string, j: nat)
    requires j <= |t|
    ensures Magnitude(p + t, |p| + j) == Magnitude(t, j)
  {
    var s := p + t;
    if j + 1 < |t| {
      assert s[|p| + j] == t[j] && s[|p| + j + 1] == t[j + 1];
    }
    assert HexAt(s, |p| + j) == HexAt(t, j);
    var start := if HexAt(t, j) then j + 2 else j;
    DigitsShifted(p, t, start, if HexAt(t, j) then 16 else 10);
  }

  /** The digit run at an offset, and its value, are the same with text in front. */
  lemma DigitsShifted(p: string, t: string, start: nat, radix: nat)
    requires start <= |t|
    ensures DigitsEnd(p + t, |p| + start, radix) == |p| + DigitsEnd(t, start, radix)
    ensures ValueOf(p + t, |p| + start, |p| + DigitsEnd(t, start, radix), radix)
              == ValueOf(t, start, DigitsEnd(t, start, radix), radix)
  {
    var s := p + t;
    DigitsEndShifted(p, t, start, radix);
    var e := DigitsEnd(t, start, radix);
    assert s[|p| + start..|p| + e] == t[start..e];
    ValueOfMoved(s, |p| + start, t, start, e - start, radix);
  }

  /** Leading whitespace and a `+` sign are skipped; a `-` sign negates what follows. */
  lemma SignAndSpaceSkipped(w: string, sg: string, t: string)
    requires AllSpace(w) && (sg == "" || sg == "+" || sg == "-") && Unsigned(t)
    ensures ParseInt(w + sg + t) == if sg == "-" then Negate(ParseInt(t)) else ParseInt(t)
  {
    var s := w + sg + t;
    assert s == w + (sg + t);
    LeadingSpace(w, sg + t);
    assert s == (w + sg) + t;
    MagnitudeShifted(w + sg, t, 0);
    assert sg != "" ==> s[|w|] == sg[0];
    assert sg == "" && t != [] ==> s[|w|] == t[0];
    assert SpaceRunEnd(t, 0) == 0;
  }

  /** After a sign, `parseInt` skips no whitespace and takes no second sign: either
      gives `NaN`. */
  lemma SignThenNoDigit(w: string, sg: string, t: string)
    requires AllSpace(w) && (sg == "+" || sg == "-") && !Unsigned(t)
    ensures ParseInt(w + sg + t) == None
  {
    var s := w + sg + t;
    assert s == w + (sg + t);
    LeadingSpace(w, sg + t);
    assert s[|w|] == sg[0];
    assert s[|w| + 1] == t[0];
  }

  /** `parseInt` gives `NaN` exactly when no digit of the radix follows: for an unsigned
      text, no decimal digit at its start, or nothing of radix 16 after `0x`. */
  lemma NaNIff(t: string)
    requires Unsigned(t)
    ensures ParseInt(t) == None <==>
      if HexPrefixed(t) then |t| == 2 || DigitValue(t[2]) >= 16 else t == [] || !IsDigit(t[0])
  {
    assert SpaceRunEnd(t, 0) == 0;
  }

  /** After `0x` or `0X` the digits are read in radix 16, letters in either case. */
  lemma HexExamples()
    ensures ParseInt("0x1f") == Some(31)
    ensures ParseInt("-0X10") == Some(-16)
  {
    var s := "0x1f";
    assert SpaceRunEnd(s, 0) == 0;
    assert HexAt(s, 0);
    assert DigitsEnd(s, 2, 16) == 4;
    assert ValueOf(s, 2, 4, 16) == 31;
    var t := "-0X10";
    assert SpaceRunEnd(t, 0) == 0;
    assert HexAt(t, 1);
    assert DigitsEnd(t, 3, 16) == 5;
    assert ValueOf(t, 3, 5, 16) == 16;
  }
}
