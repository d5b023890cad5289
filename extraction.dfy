/** The extraction logic shared by `chewFood` in todos.js and in LineParser/main2.js:
    find the leftmost count token, splice it out by offset and length and trim; then
    find the leftmost digit run in what is left, splice it out the same way and trim
    again. What remains is the food name. */
module Extraction {
  import opened Wrappers
  import opened Text
  import opened Patterns

  /** What one pass of extraction over a line finds: the count token, the calorie
      token (its offset is into the string left after count removal) and the food. */
  datatype Extraction = Extraction(count: Option<Match>, cal: Option<Match>, food: string)

  /** `item.match(CountRegEx)`: the leftmost two-character count token. */
  function CountToken(s: string): (r: Option<Match>)
    ensures r.Some? ==> Within(s, r.value) && r.value.length == 2 && IsCountAt(s, r.value.index)
    ensures r.Some? ==> forall k: nat :: k < r.value.index ==> !IsCountAt(s, k)
    ensures r.None? <==> forall k: nat :: !IsCountAt(s, k)
  {
    match FindCount(s)
    case None => None
    case Some(i) => Some(MatchAt(s, i, 2))
  }

  /** `item.match(CalRegEx)`: the leftmost maximal run of digits. */
  function CalToken(s: string): (r: Option<Match>)
    ensures r.Some? ==> Within(s, r.value) && r.value.length >= 1 && AllDigits(r.value.value)
    ensures r.Some? ==> var e := r.value.index + r.value.length; e == |s| || !IsDigit(s[e])
    ensures r.Some? ==> forall k :: 0 <= k < r.value.index ==> !IsDigit(s[k])
    ensures r.None? <==> forall k :: 0 <= k < |s| ==> !IsDigit(s[k])
  {
    match FindDigits(s)
    case None => None
    case Some((i, n)) => Some(MatchAt(s, i, n))
  }

  /** The step taken when a match was found: `_.str.splice` at the match's own offset
      and length, then `trim`; no match leaves the string as it is. */
  function Excise(s: string, tok: Option<Match>): (r: string)
    requires tok.Some? ==> Within(s, tok.value)
    ensures tok.None? ==> r == s
    ensures tok.Some? ==> |r| <= |s| - tok.value.length && NoSpaceEnds(r)
  {
    match tok
    case None => s
    case Some(m) => Trim(Splice(s, m.index, m.length))
  }

  /** The line once the count token is gone: the string the calorie pattern runs on. */
  function AfterCount(item: string): (r: string)
    ensures CountToken(item).None? ==> r == item
    ensures CountToken(item).Some? ==> |r| <= |item| - 2 && NoSpaceEnds(r)
  {
    Excise(item, CountToken(item))
  }

  function Extract(item: string): (r: Extraction)
    ensures r.count.None? && r.cal.None? ==> r.food == item
  {
    var rest := AfterCount(item);
    var cal := CalToken(rest);
    Extraction(CountToken(item), cal, Excise(rest, cal))
  }

  /** The count token is determined by where the count pattern matches: the
      leftmost matching offset is the one reported. */
  lemma CountTokenAt(s: string, i: nat)
    requires IsCountAt(s, i)
    requires forall k: nat :: k < i ==> !IsCountAt(s, k)
    ensures CountToken(s) == Some(MatchAt(s, i, 2))
  {
    var r := FindCount(s);
    assert r.Some?;
    assert r.value == i;
  }

  /** The calorie token is determined by the leftmost digit and the maximal run of
      digits from there. */
  lemma CalTokenAt(s: string, i: nat, n: nat)
    requires 1 <= n && i + n <= |s| && AllDigits(s[i..i + n])
    requires i + n == |s| || !IsDigit(s[i + n])
    requires forall k :: 0 <= k < i ==> !IsDigit(s[k])
    ensures CalToken(s) == Some(MatchAt(s, i, n))
  {
    assert s[i..i + n][0] == s[i];
    var r := CalToken(s);
    assert r.Some?;
    var m := r.value;
    assert m.value[0] == s[m.index];
    assert m.index == i;
    assert m.length == n;
  }

  // ---------------------------------------------------------------------------
  // Properties of one extraction

  /** The count token is two characters, a digit then `x` or `x` then a digit, at the
      leftmost offset where either shape occurs; none is reported if neither occurs. */
  lemma CountIsLeftmostPair(item: string)
    ensures var c := Extract(item).count;
      && (c.None? <==> forall k: nat :: !IsCountAt(item, k))
      && (c.Some? ==>
            && c.value.length == 2
            && c.value.value == item[c.value.index..c.value.index + 2]
            && ((IsDigit(c.value.value[0]) && c.value.value[1] == 'x')
                || (c.value.value[0] == 'x' && IsDigit(c.value.value[1])))
            && forall k: nat :: k < c.value.index ==> !IsCountAt(item, k))
  {
  }

  /** Count removal cuts out the two characters at the match offset, regardless of
      whether the same text occurs again elsewhere in the line, and trims the rest. */
  lemma CountRemovalByOffset(item: string)
    ensures var c := Extract(item).count;
      && (c.None? ==> AfterCount(item) == item)
      && (c.Some? ==> AfterCount(item) == Trim(item[..c.value.index] + item[c.value.index + 2..]))
  {
  }

  /** The calorie token is the leftmost maximal digit run of the string left after
      count removal, and its offset is an offset into that string. */
  lemma CalIsLeftmostRunAfterCount(item: string)
    ensures var rest, cal := AfterCount(item), Extract(item).cal;
      && (cal.None? <==> forall k :: 0 <= k < |rest| ==> !IsDigit(rest[k]))
      && (cal.Some? ==>
            && Within(rest, cal.value)
            && cal.value.length >= 1
            && AllDigits(cal.value.value)
            && (cal.value.index + cal.value.length == |rest|
                || !IsDigit(rest[cal.value.index + cal.value.length]))
            && forall k :: 0 <= k < cal.value.index ==> !IsDigit(rest[k]))
      && (cal.Some? ==>
            Extract(item).food == Trim(rest[..cal.value.index] + rest[cal.value.index + cal.value.length..]))
      && (cal.None? ==> Extract(item).food == rest)
  {
  }

  /** A line with neither token comes back as the food exactly, not even trimmed. */
  lemma UntouchedWithoutTokens(item: string)
    requires forall k: nat :: !IsCountAt(item, k)
    requires forall k :: 0 <= k < |item| ==> !IsDigit(item[k])
    ensures Extract(item) == Extraction(None, None, item)
  {
  }

  /** As soon as either token was found, the food has no whitespace at either end. */
  lemma TrimmedWhenTokenFound(item: string)
    requires Extract(item).count.Some? || Extract(item).cal.Some?
    ensures NoSpaceEnds(Extract(item).food)
  {
  }

  /** The food is never longer than the line minus the two removed tokens. */
  lemma FoodLength(item: string)
    ensures var r := Extract(item);
      |r.food| + (if r.count.Some? then 2 else 0)
        + (if r.cal.Some? then r.cal.value.length else 0) <= |item|
  {
    assert |AfterCount(item)| <= |item| - (if Extract(item).count.Some? then 2 else 0);
  }

  // ---------------------------------------------------------------------------
  // Worked lines

  /** The count pattern matches single digits only: in `12x` the token is `2x` at
      offset 1, and the `1` left behind is then taken as the calorie run. */
  lemma TwelveX()
    ensures Extract("12x") == Extraction(Some(Match("2x", 1, 2)), Some(Match("1", 0, 1)), "")
  {
    var s := "12x";
    assert IsCountAt(s, 1) && !IsCountAt(s, 0);
    CountTokenAt(s, 1);
    assert s[1..3] == "2x";
    assert Splice(s, 1, 2) == "1";
    TrimNoOp("1");
    assert "1"[0..1] == "1";
    CalTokenAt("1", 0, 1);
    assert Splice("1", 0, 1) == "";
  }

  /** The first step on `ham 2x eggs`: the count `2x` at offset 4 is cut out and
      the two spaces around it stay. */
  lemma HamCountStep()
    ensures CountToken("ham 2x eggs") == Some(Match("2x", 4, 2))
    ensures AfterCount("ham 2x eggs") == "ham  eggs"
  {
    var s := "ham 2x eggs";
    assert IsCountAt(s, 4);
    assert forall k: nat :: k < 4 ==> !IsCountAt(s, k);
    CountTokenAt(s, 4);
    assert s[4..6] == "2x";
    assert Splice(s, 4, 2) == "ham  eggs";
    TrimNoOp("ham  eggs");
  }

  /** Removal trims only the ends: the two spaces left where `2x` stood inside
      `ham 2x eggs` stay in the food. */
  lemma InteriorSpacesKept()
    ensures Extract("ham 2x eggs") == Extraction(Some(Match("2x", 4, 2)), None, "ham  eggs")
  {
    HamCountStep();
    var t := "ham  eggs";
    assert forall k :: 0 <= k < |t| ==> !IsDigit(t[k]);
  }

  /** The calorie pattern runs only after the count is removed, so a line whose only
      digit belongs to the count token has no calorie: `eggs 2x` gives count `2x`, no
      calorie and food `eggs`. */
  lemma CountDigitIsNoCalorie()
    ensures Extract("eggs 2x") == Extraction(Some(Match("2x", 5, 2)), None, "eggs")
  {
    var s := "eggs 2x";
    assert IsCountAt(s, 5);
    assert forall k: nat :: k < 5 ==> !IsCountAt(s, k);
    CountTokenAt(s, 5);
    assert s[5..7] == "2x";
    assert Splice(s, 5, 2) == "" + "eggs" + " ";
    TrimExact("", "eggs", " ");
    var t := "eggs";
    assert forall k :: 0 <= k < |t| ==> !IsDigit(t[k]);
  }

  /** Only the leftmost digit run is removed, so extracting again from the food can
      find another calorie token: in `1 2` the first pass takes `1` and leaves `2`. */
  lemma ReExtractionFindsMore()
    ensures Extract("1 2").food == "2"
    ensures Extract("2").cal == Some(Match("2", 0, 1))
  {
    var s := "1 2";
    assert forall k: nat :: !IsCountAt(s, k);
    assert s[0..1] == "1";
    CalTokenAt(s, 0, 1);
    assert Splice(s, 0, 1) == " " + "2" + "";
    TrimExact(" ", "2", "");
    assert "2"[0..1] == "2";
    CalTokenAt("2", 0, 1);
  }
}
