/** LineParser/main.js, the first prototype of the extractor. Both patterns run on
    the original line; the count token is cut out by offset with no trimming, and the
    calorie pattern is anchored at the end of the line and includes the space before
    the digits. The model returns what the script prints for one line. */
module LineParserPrototype {
  import opened Wrappers
  import opened Text
  import opened Patterns
  import opened Extraction

  /** What the prototype reports for one line: the count match, the line without the
      count token (printed only when there is one) and the calorie match. */
  datatype Report = Report(count: Option<Match>, remainder: Option<string>, cal: Option<Match>)

  /** `item.match(/ [0-9]+$/)`: a space followed by digits up to the end of the line. */
  function TrailingCal(s: string): (r: Option<Match>)
    ensures r.Some? ==> Within(s, r.value) && r.value.index + r.value.length == |s|
    ensures r.Some? ==> IsTrailingNumberAt(s, r.value.index)
    ensures r.None? <==> forall i: nat :: !IsTrailingNumberAt(s, i)
  {
    match FindTrailingNumber(s)
    case None => None
    case Some(i) => Some(MatchAt(s, i, |s| - i))
  }

  /** The body of the `forEach` callback, with the missing closing parenthesis of the
      remainder's `console.log` supplied. */
  function ChewPrototype(item: string): Report {
    var countMatch := CountToken(item);
    var calMatch := TrailingCal(item);
    var remainder := match countMatch
      case None => None
      case Some(m) => Some(item[..m.index] + item[m.index + m.length..]);
    Report(countMatch, remainder, calMatch)
  }

  /** The remainder is the line minus exactly the two characters of the leftmost
      count token, with nothing trimmed, and it exists only when a count token does. */
  lemma RemainderDropsTwo(item: string)
    ensures var r := ChewPrototype(item);
      && (r.remainder.Some? <==> r.count.Some?)
      && (r.count.Some? ==>
            && r.count == Extract(item).count
            && r.remainder.value == Splice(item, r.count.value.index, 2)
            && |r.remainder.value| == |item| - 2)
  {
  }

  /** The calorie match exists exactly when the line ends in a space followed by one
      or more digits; its text starts with that space, and its offset is into the
      original line, whatever the count match was. */
  lemma CalIsSpacedTrailingNumber(item: string)
    ensures var c := ChewPrototype(item).cal;
      && (c.Some? <==> exists i: nat :: IsTrailingNumberAt(item, i))
      && (c.Some? ==>
            && Within(item, c.value)
            && c.value.index + c.value.length == |item|
            && c.value.length >= 2
            && c.value.value[0] == ' '
            && AllDigits(c.value.value[1..]))
  {
    var c := ChewPrototype(item).cal;
    if c.Some? {
      var m := c.value;
      assert m.value[1..] == item[m.index + 1..];
    }
  }

  /** The calorie pattern runs on the original line, so the count removal cannot
      change it: in `tea 2x5` the digit `5` follows `x`, not a space, and there is no
      calorie, although the remainder `tea 5` would match. Offsets are into the line
      as typed: in `tea 2x 12` the calorie ` 12` sits at offset 6. */
  lemma CalIgnoresCountRemoval()
    ensures ChewPrototype("tea 2x5").count == Some(Match("2x", 4, 2))
    ensures ChewPrototype("tea 2x5").cal == None
    ensures ChewPrototype("tea 2x5").remainder == Some("tea 5")
    ensures TrailingCal("tea 5") == Some(Match(" 5", 3, 2))
    ensures ChewPrototype("tea 2x 12").cal == Some(Match(" 12", 6, 3))
  {
    TeaCountStep();
    var s := "tea 2x5";
    assert !IsDigit(s[|s| - 2]);
    assert TrailingDigits(s) == 1;
    var r := "tea 5";
    assert IsTrailingNumberAt(r, 3);
    TrailingCalAt(r, 3);
    assert r[3..5] == " 5";
    CalOffsetInLine();
  }

  /** In `tea 2x 12` the calorie ` 12` is reported at offset 6 of the line as typed. */
  lemma CalOffsetInLine()
    ensures ChewPrototype("tea 2x 12").cal == Some(Match(" 12", 6, 3))
  {
    var t := "tea 2x 12";
    assert IsTrailingNumberAt(t, 6);
    TrailingCalAt(t, 6);
    assert t[6..9] == " 12";
  }

  /** The count step on `tea 2x5`: the token `2x` at offset 4, and the remainder
      `tea 5` once its two characters are cut out. */
  lemma TeaCountStep()
    ensures ChewPrototype("tea 2x5").count == Some(Match("2x", 4, 2))
    ensures ChewPrototype("tea 2x5").remainder == Some("tea 5")
  {
    var s := "tea 2x5";
    assert IsCountAt(s, 4);
    assert forall k: nat :: k < 4 ==> !IsCountAt(s, k);
    CountTokenAt(s, 4);
    assert s[4..6] == "2x";
    assert s[..4] + s[6..] == "tea 5";
  }

  lemma TrailingCalAt(s: string, i: nat)
    requires IsTrailingNumberAt(s, i)
    ensures TrailingCal(s) == Some(MatchAt(s, i, |s| - i))
  {
    TrailingNumberUnique(s, i, TrailingCal(s).value.index);
  }

  // ---------------------------------------------------------------------------
  // The sample lines of the prototype

  lemma SampleCantaloupe()
    ensures ChewPrototype("cantoloupe") == Report(None, None, None)
  {
    var s := "cantoloupe";
    assert forall k :: 0 <= k < |s| ==> s[k] != 'x' && s[k] != ' ';
    assert forall i: nat :: !IsTrailingNumberAt(s, i);
  }

  lemma SampleGrapes()
    ensures ChewPrototype("grapes 100") == Report(None, None, Some(Match(" 100", 6, 4)))
  {
    var s := "grapes 100";
    assert forall k :: 0 <= k < |s| ==> s[k] != 'x';
    assert IsTrailingNumberAt(s, 6);
    TrailingCalAt(s, 6);
    assert s[6..10] == " 100";
  }

  lemma SampleGranola()
    ensures ChewPrototype("granola bars x2") == Report(Some(Match("x2", 13, 2)), Some("granola bars "), None)
  {
    var s := "granola bars x2";
    assert IsCountAt(s, 13);
    assert forall k: nat :: k < 13 ==> !IsCountAt(s, k);
    CountTokenAt(s, 13);
    assert s[13..15] == "x2";
    assert s[..13] + s[15..] == "granola bars ";
    assert !IsDigit(s[|s| - 2]);
    assert TrailingDigits(s) == 1;
  }

  lemma SampleRice()
    ensures ChewPrototype("rice 2x 400") == Report(Some(Match("2x", 5, 2)), Some("rice  400"), Some(Match(" 400", 7, 4)))
  {
    var s := "rice 2x 400";
    assert IsCountAt(s, 5);
    assert forall k: nat :: k < 5 ==> !IsCountAt(s, k);
    CountTokenAt(s, 5);
    assert s[5..7] == "2x";
    assert s[..5] + s[7..] == "rice  400";
    assert IsTrailingNumberAt(s, 7);
    TrailingCalAt(s, 7);
    assert s[7..11] == " 400";
  }
}
