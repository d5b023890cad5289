/** LineParser/main2.js: the command-line driver of the extractor. Its `chewFood`
    reports the count token, the calorie token and the food for one line (the model
    returns what the script prints); the driver parses either a fixed list of sample
    lines or every non-empty prefix of one argument. */
module LineParser {
  import opened Wrappers
  import opened Text
  import opened Patterns
  import opened Extraction

  /** chewFood: `item` is rewritten by the count removal and then by the calorie
      removal. Unlike the entry form, no default count is reported when the line has
      no count token. */
  method ChewFood(line: string) returns (r: Extraction)
    ensures r.count.None? <==> forall k: nat :: !IsCountAt(line, k)
    ensures r == Extract(line)
  {
    var item := line;
    var countMatch := CountToken(item);
    if countMatch.Some? {
      item := Trim(Splice(item, countMatch.value.index, countMatch.value.length));
    }
    var calMatch := CalToken(item);
    if calMatch.Some? {
      item := Trim(Splice(item, calMatch.value.index, calMatch.value.length));
    }
    r := Extraction(countMatch, calMatch, item);
  }

  /** The sample lines parsed when the script is given no argument. */
  const Samples: seq<string> := ["cantoloupe", "grapes 100", "granola bars x2", "rice 2x 400", "milk 100 2x"]

  /** The loop over `_.chars(arg)`: `t` grows by one character per step and each
      value of `t` is pushed, so the items are the non-empty prefixes of `arg` from
      shortest to longest. */
  method Prefixes(arg: string) returns (items: seq<string>)
    ensures |items| == |arg|
    ensures forall k :: 0 <= k < |items| ==> items[k] == arg[..k + 1]
  {
    var t := "";
    items := [];
    for i := 0 to |arg|
      invariant t == arg[..i]
      invariant |items| == i
      invariant forall k :: 0 <= k < i ==> items[k] == arg[..k + 1]
    {
      t := t + [arg[i]];
      items := items + [t];
    }
  }

  /** The items to parse: the samples when `process.argv` holds only the interpreter
      and the script, otherwise the prefixes of the first argument (`_.chars` of a
      missing argument is empty). */
  method Items(argv: seq<string>) returns (items: seq<string>)
    ensures |argv| == 2 ==> items == Samples
    ensures |argv| > 2 ==> |items| == |argv[2]| && forall k :: 0 <= k < |items| ==> items[k] == argv[2][..k + 1]
    ensures |argv| < 2 ==> items == []
  {
    if |argv| == 2 {
      items := Samples;
    } else {
      items := Prefixes(if |argv| > 2 then argv[2] else "");
    }
  }

  /** `items.forEach(chewFood)`: every item is parsed, in order. */
  method ChewAll(items: seq<string>) returns (reports: seq<Extraction>)
    ensures |reports| == |items|
    ensures forall k :: 0 <= k < |items| ==> reports[k] == Extract(items[k])
  {
    reports := [];
    for i := 0 to |items|
      invariant |reports| == i
      invariant forall k :: 0 <= k < i ==> reports[k] == Extract(items[k])
    {
      var r := ChewFood(items[i]);
      reports := reports + [r];
      assert reports[i] == Extract(items[i]);
    }
  }

  // ---------------------------------------------------------------------------
  // The sample lines

  /** `cantoloupe` has neither token and comes back unchanged. */
  lemma SampleCantaloupe()
    ensures Extract("cantoloupe") == Extraction(None, None, "cantoloupe")
  {
    var s := "cantoloupe";
    assert forall k :: 0 <= k < |s| ==> s[k] != 'x' && !IsDigit(s[k]);
    UntouchedWithoutTokens(s);
  }

  /** The first step on `grapes 100`: there is no count token, so nothing is cut. */
  lemma GrapesCountStep()
    ensures CountToken("grapes 100") == None
    ensures AfterCount("grapes 100") == "grapes 100"
  {
    var s := "grapes 100";
    assert forall k :: 0 <= k < |s| ==> s[k] != 'x';
  }

  /** `grapes 100`: no count, calorie `100`, food `grapes`. */
  lemma SampleGrapes()
    ensures Extract("grapes 100") == Extraction(None, Some(Match("100", 7, 3)), "grapes")
  {
    GrapesCountStep();
    var s := "grapes 100";
    assert s[7..10] == "100";
    CalTokenAt(s, 7, 3);
    assert Splice(s, 7, 3) == "" + "grapes" + " ";
    TrimExact("", "grapes", " ");
  }

  /** The first step on `granola bars x2`: the count `x2` at offset 13 is cut out. */
  lemma GranolaCountStep()
    ensures CountToken("granola bars x2") == Some(Match("x2", 13, 2))
    ensures AfterCount("granola bars x2") == "granola bars"
  {
    var s := "granola bars x2";
    assert IsCountAt(s, 13);
    assert forall k: nat :: k < 13 ==> !IsCountAt(s, k);
    CountTokenAt(s, 13);
    assert s[13..15] == "x2";
    assert Splice(s, 13, 2) == "" + "granola bars" + " ";
    TrimExact("", "granola bars", " ");
  }

  /** `granola bars x2`: count `x2`, no calorie, food `granola bars`. */
  lemma SampleGranola()
    ensures Extract("granola bars x2") == Extraction(Some(Match("x2", 13, 2)), None, "granola bars")
  {
    GranolaCountStep();
    var t := "granola bars";
    assert forall k :: 0 <= k < |t| ==> !IsDigit(t[k]);
  }

  /** The first step on `rice 2x 400`: the count `2x` at offset 5 is cut out. */
  lemma RiceCountStep()
    ensures CountToken("rice 2x 400") == Some(Match("2x", 5, 2))
    ensures AfterCount("rice 2x 400") == "rice  400"
  {
    var s := "rice 2x 400";
    assert IsCountAt(s, 5);
    assert forall k: nat :: k < 5 ==> !IsCountAt(s, k);
    CountTokenAt(s, 5);
    assert s[5..7] == "2x";
    assert Splice(s, 5, 2) == "rice  400";
    TrimNoOp("rice  400");
  }

  /** `rice 2x 400`: count `2x`, calorie `400`, food `rice`. */
  lemma SampleRice()
    ensures Extract("rice 2x 400") == Extraction(Some(Match("2x", 5, 2)), Some(Match("400", 6, 3)), "rice")
  {
    RiceCountStep();
    var t := "rice  400";
    assert t[6..9] == "400";
    CalTokenAt(t, 6, 3);
    assert Splice(t, 6, 3) == "" + "rice" + "  ";
    TrimExact("", "rice", "  ");
  }

  /** The first step on `milk 100 2x`: the count `2x` at offset 9 is cut out. */
  lemma MilkCountStep()
    ensures CountToken("milk 100 2x") == Some(Match("2x", 9, 2))
    ensures AfterCount("milk 100 2x") == "milk 100"
  {
    var s := "milk 100 2x";
    assert IsCountAt(s, 9);
    assert forall k: nat :: k < 9 ==> !IsCountAt(s, k);
    CountTokenAt(s, 9);
    assert s[9..11] == "2x";
    assert Splice(s, 9, 2) == "" + "milk 100" + " ";
    TrimExact("", "milk 100", " ");
  }

  /** `milk 100 2x`: the count is removed first, so the digits of `2x` are never
      taken for the calorie: count `2x`, calorie `100`, food `milk`. */
  lemma SampleMilk()
    ensures Extract("milk 100 2x") == Extraction(Some(Match("2x", 9, 2)), Some(Match("100", 5, 3)), "milk")
  {
    MilkCountStep();
    var t := "milk 100";
    assert t[5..8] == "100";
    CalTokenAt(t, 5, 3);
    assert Splice(t, 5, 3) == "" + "milk" + " ";
    TrimExact("", "milk", " ");
  }
}
