/** Concrete configurations: white to black in 40 balanced steps, and four anchors with
    weights 20, 40 and 60, with the entries and lookups the engine produces for them. */
module Scenarios {
  import opened Colors
  import opened Zones
  import opened Distribution
  import opened Engine

  /** The default anchors: white to black. */
  const WhiteBlack: seq<string> := ["#ffffff", "#000000"]

  /** Four anchors: blue, yellow, red, green. */
  const FourAnchors: seq<string> := ["#0000ff", "#ffff00", "#ff0000", "#00ff00"]

  /** The two anchors parse to pure white and pure black. */
  lemma WhiteBlackParsed()
    ensures AllColors(WhiteBlack)
    ensures ParseAll(WhiteBlack) == [Rgb(255, 255, 255), Rgb(0, 0, 0)]
  {
    var colors := WhiteBlack;
    ParseAllAt(colors, 0);
    ParseAllAt(colors, 1);
  }

  /** Steps 1, 9 and 39 of 39 from white to black, written out. */
  lemma WhiteBlackSteps()
    ensures FormatColor(Lerp(Rgb(255, 255, 255), Rgb(0, 0, 0), 1, 39)) == "#f8f8f8"
    ensures FormatColor(Lerp(Rgb(255, 255, 255), Rgb(0, 0, 0), 9, 39)) == "#c4c4c4"
    ensures FormatColor(Lerp(Rgb(255, 255, 255), Rgb(0, 0, 0), 39, 39)) == "#000000"
  {
    assert Lerp(Rgb(255, 255, 255), Rgb(0, 0, 0), 1, 39) == Rgb(248, 248, 248);
    assert Lerp(Rgb(255, 255, 255), Rgb(0, 0, 0), 9, 39) == Rgb(196, 196, 196);
    assert Lerp(Rgb(255, 255, 255), Rgb(0, 0, 0), 39, 39) == Rgb(0, 0, 0);
  }

  /** White to black in 40 balanced steps: one zone of 39 colours after the first
      anchor; entry 1 is `#f8f8f8`, entry 9 is `#c4c4c4` and entry 39, the last, is
      `#000000`. */
  lemma WhiteToBlack()
    ensures var g := Gradient(WhiteBlack, Balanced(40));
      && |g| == 40
      && g[0] == "#ffffff" && g[1] == "#f8f8f8" && g[9] == "#c4c4c4" && g[39] == "#000000"
  {
    WhiteBlackParsed();
    GradientLength(WhiteBlack, Balanced(40));
    TwoAnchorEntry(WhiteBlack, 40, 1);
    TwoAnchorEntry(WhiteBlack, 40, 9);
    TwoAnchorEntry(WhiteBlack, 40, 39);
    WhiteBlackSteps();
  }

  /** The lookups of the code as written on that gradient: steps 0 and -1 give white,
      step 1 gives `#f8f8f8`, and steps 40 and 41 read past the end; 100 and 101 percent
      still ask for step 39 and give black, while 103 percent asks for step 40. */
  lemma WhiteToBlackAsWritten()
    ensures var g := Gradient(WhiteBlack, Balanced(40));
      && Lookup(g, StepIndex(0, 40)) == Some("#ffffff")
      && Lookup(g, StepIndex(-1, 40)) == Some("#ffffff")
      && Lookup(g, StepIndex(1, 40)) == Some("#f8f8f8")
      && Lookup(g, StepIndex(40, 40)) == None
      && Lookup(g, StepIndex(41, 40)) == None
      && Lookup(g, StepIndex(PercentIndex(100, 40), 40)) == Some("#000000")
      && Lookup(g, StepIndex(PercentIndex(101, 40), 40)) == Some("#000000")
      && Lookup(g, StepIndex(PercentIndex(103, 40), 40)) == None
  {
    assert StepIndex(0, 40) == 0 && StepIndex(-1, 40) == 0 && StepIndex(1, 40) == 1;
    assert StepIndex(40, 40) == 40 && StepIndex(41, 40) == 40;
    assert PercentIndex(100, 40) == 39 && PercentIndex(101, 40) == 39 && PercentIndex(103, 40) == 40;
    assert StepIndex(39, 40) == 39;
    WhiteToBlack();
  }

  /** The clamped lookups on that gradient: steps 0 and -1 and percents 0 and -1 give
      white, step 1 gives `#f8f8f8`, 25 percent gives `#c4c4c4`, and steps 40 and 41
      and percents 100 and 101 give black. */
  lemma WhiteToBlackLookups()
    ensures var g := Gradient(WhiteBlack, Balanced(40));
      && Lookup(g, ClampedStepIndex(0, 40)) == Some("#ffffff")
      && Lookup(g, ClampedStepIndex(-1, 40)) == Some("#ffffff")
      && Lookup(g, ClampedStepIndex(1, 40)) == Some("#f8f8f8")
      && Lookup(g, ClampedStepIndex(40, 40)) == Some("#000000")
      && Lookup(g, ClampedStepIndex(41, 40)) == Some("#000000")
      && Lookup(g, ClampedStepIndex(PercentIndex(0, 40), 40)) == Some("#ffffff")
      && Lookup(g, ClampedStepIndex(PercentIndex(-1, 40), 40)) == Some("#ffffff")
      && Lookup(g, ClampedStepIndex(PercentIndex(25, 40), 40)) == Some("#c4c4c4")
      && Lookup(g, ClampedStepIndex(PercentIndex(100, 40), 40)) == Some("#000000")
      && Lookup(g, ClampedStepIndex(PercentIndex(101, 40), 40)) == Some("#000000")
  {
    assert ClampedStepIndex(0, 40) == 0 && ClampedStepIndex(-1, 40) == 0 && ClampedStepIndex(1, 40) == 1;
    assert ClampedStepIndex(40, 40) == 39 && ClampedStepIndex(41, 40) == 39;
    assert PercentIndex(0, 40) == 0 && PercentIndex(-1, 40) == -1 && PercentIndex(25, 40) == 9;
    assert PercentIndex(100, 40) == 39 && PercentIndex(101, 40) == 39;
    assert ClampedStepIndex(9, 40) == 9 && ClampedStepIndex(39, 40) == 39;
    WhiteToBlack();
  }

  /** Step 10 of 40 from yellow to red, written out. */
  lemma YellowRedStep()
    ensures FormatColor(Lerp(Rgb(255, 255, 0), Rgb(255, 0, 0), 10, 40)) == "#ffbf00"
  {
  }

  /** Four anchors weighted 20, 40 and 60: 121 entries (one plus the weights), and the
      25 percent lookup reads entry 30, step 10 of 40 from yellow to red, `#ffbf00`. */
  lemma FourAnchorsWeighted()
    ensures var colors := FourAnchors;
      var g := Gradient(colors, Weighted([20, 40, 60]));
      && |g| == NumberOfSteps(Weighted([20, 40, 60])) == 121
      && PercentIndex(25, 121) == 30
      && Lookup(g, ClampedStepIndex(PercentIndex(25, 121), 121)) == Some("#ffbf00")
  {
    var w := [20, 40, 60];
    assert Sum(w) == 120 by {
      assert w[..2] == [20, 40] && [20, 40][..1] == [20] && [20][..0] == [];
    }
    assert Sum(w[..1]) == 20 by {
      assert w[..1] == [20] && [20][..0] == [];
    }
    assert PercentIndex(25, 121) == 30 && ClampedStepIndex(30, 121) == 30;
    assert AllColors(FourAnchors);
    assert ParseColor(FourAnchors[1]) == Rgb(255, 255, 0);
    assert ParseColor(FourAnchors[2]) == Rgb(255, 0, 0);
    ParseAllAt(FourAnchors, 1);
    ParseAllAt(FourAnchors, 2);
    GradientLength(FourAnchors, Weighted(w));
    WeightedZone(FourAnchors, w, 1, 9);
    YellowRedStep();
  }

  /** Three weights for two anchors: the third zone would read an anchor that does not
      exist, so nothing can be generated. */
  lemma TooManyWeights()
    ensures !Generable(WhiteBlack, Weighted([20, 40, 60]))
    ensures Generable(WhiteBlack, Weighted([20]))
  {
  }

  /** Step bookkeeping through the object: a count of 20 is stored and counted as is, 40
      is balanced, `[10, 30]` then makes it weighted with 41 steps, a count of 0 falls
      back to 10, and weights 20, 40, 60 count 121 steps. */
  method StepsScenario() returns (stored: StepSpec, counted: int, before: bool, after: bool,
                                  weightedCount: int, fallback: StepSpec, sumCount: int)
    ensures stored == Balanced(20) && counted == 20
    ensures !before && after && weightedCount == 41
    ensures fallback == Balanced(10)
    ensures sumCount == 121
  {
    var cma := new ColorMeAwesome(WhiteBlack, Balanced(20));
    stored := cma.GetSteps();
    counted := cma.GetNumberOfSteps();
    var three := new ColorMeAwesome(["#ffffff", "#cccccc", "#000000"], Balanced(40));
    before := three.IsWeighted();
    var self := three.SetSteps(Weighted([10, 30]));
    assert [10, 30][..1] == [10] && [10, 30][..1][..0] == [];
    after := three.IsWeighted();
    weightedCount := three.GetNumberOfSteps();
    self := three.SetSteps(Balanced(0));
    fallback := three.GetSteps();
    var many := new ColorMeAwesome(WhiteBlack, Weighted([20, 40, 60]));
    assert [20, 40, 60][..2] == [20, 40] && [20, 40][..1] == [20] && [20][..0] == [];
    sumCount := many.GetNumberOfSteps();
  }

  /** Step lookups through the object on white to black in 40 steps. */
  method StepLookupScenario() returns (first: Option<string>, below: Option<string>,
                                       second: Option<string>, atEnd: Option<string>,
                                       beyond: Option<string>)
    ensures first == Some("#ffffff") && below == Some("#ffffff") && second == Some("#f8f8f8")
    ensures atEnd == Some("#000000") && beyond == Some("#000000")
  {
    assert AllColors(WhiteBlack);
    var cma := new ColorMeAwesome(WhiteBlack, Balanced(40));
    first := cma.GetColorByStep(0);
    below := cma.GetColorByStep(-1);
    second := cma.GetColorByStep(1);
    atEnd := cma.GetColorByStep(40);
    beyond := cma.GetColorByStep(41);
    WhiteToBlackLookups();
  }

  /** Percent lookups through the object on white to black in 40 steps. */
  method PercentLookupScenario() returns (none: Option<string>, below: Option<string>,
                                          quarter: Option<string>, full: Option<string>,
                                          over: Option<string>)
    ensures none == Some("#ffffff") && below == Some("#ffffff") && quarter == Some("#c4c4c4")
    ensures full == Some("#000000") && over == Some("#000000")
  {
    assert AllColors(WhiteBlack);
    var cma := new ColorMeAwesome(WhiteBlack, Balanced(40));
    none := cma.GetColorByPercent(0);
    below := cma.GetColorByPercent(-1);
    quarter := cma.GetColorByPercent(25);
    full := cma.GetColorByPercent(100);
    over := cma.GetColorByPercent(101);
    WhiteToBlackLookups();
  }

  /** Two reads of the gradient with no change between them give the same list. */
  method CacheScenario() returns (a: seq<string>, b: seq<string>)
    ensures a == b && |a| == 10 && a[0] == "#ffffff"
  {
    assert AllColors(WhiteBlack);
    var cma := new ColorMeAwesome(WhiteBlack, Balanced(10));
    a := cma.GetGeneratedColors();
    b := cma.GetGeneratedColors();
  }

  /** Changing the steps drops the cache, and the next read builds the new gradient. */
  method InvalidationScenario() returns (a: seq<string>, c: seq<string>)
    ensures |a| == 10 && |c| == 20 && c[0] == "#ffffff"
  {
    assert AllColors(WhiteBlack);
    var cma := new ColorMeAwesome(WhiteBlack, Balanced(10));
    a := cma.GetGeneratedColors();
    var self := cma.SetSteps(Balanced(20));
    c := cma.GetGeneratedColors();
  }
}
