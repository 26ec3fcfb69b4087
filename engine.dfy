/** The gradient engine object: anchors, step configuration, the derived step count
    and weighted flag, and the lazily built cache of generated colours. */
module Engine {
  import opened Colors
  import opened Zones
  import opened Distribution

  datatype Option<T> = None | Some(value: T)

  /** Reading an array slot: `undefined` outside the array. */
  function Lookup(g: seq<string>, i: int): Option<string> {
    if 0 <= i < |g| then Some(g[i]) else None
  }

  /** The index `getColorByStep` reads for an integer step: 0 for a step that is
      negative or falsy (0), `n` for a step above `n`, the step itself otherwise. */
  function StepIndex(step: int, n: int): int {
    if step <= 0 then 0 else if step > n then n else step
  }

  /** The step `getColorByPercent` asks for: `floor(percent / 100 * (n - 1))`. */
  function PercentIndex(percent: int, n: int): int {
    (percent * (n - 1)) / 100
  }

  /** What `setSteps` stores: `steps || 10`, and the only falsy integer is 0. */
  function StoredSteps(spec: StepSpec): StepSpec {
    if spec == Balanced(0) then Balanced(10) else spec
  }

  /** The index a lookup should read: as `StepIndex`, except that a step at or past
      the end is clamped to the last entry, `n - 1`. */
  function ClampedStepIndex(step: int, n: int): (i: int)
    ensures n >= 1 ==> 0 <= i < n
    ensures step <= 0 ==> i == 0
    ensures 0 < step < n ==> i == step
    ensures 0 < step && n <= step ==> i == n - 1
  {
    if step <= 0 then 0 else if step >= n then n - 1 else step
  }

  /** `StepIndex` and the clamped index agree on every step before the end. */
  lemma StepIndexAgrees(step: int, n: int)
    requires step < n
    ensures StepIndex(step, n) == ClampedStepIndex(step, n)
  {
  }

  /** The bounds of the percent index: at most 0 for a non-positive percent, within
      [0, n - 1] for a percent in [0, 100], at least `n - 1` from 100 on, and exactly
      `n - 1` at 100; past 100 it stays below `n` just when `p * (n - 1) < 100 * n`. */
  lemma PercentBounds(p: int, n: int)
    requires n >= 1
    ensures p <= 0 ==> PercentIndex(p, n) <= 0
    ensures 0 <= p <= 100 ==> 0 <= PercentIndex(p, n) <= n - 1
    ensures p >= 100 ==> PercentIndex(p, n) >= n - 1
    ensures p == 100 ==> PercentIndex(p, n) == n - 1
    ensures PercentIndex(p, n) < n <==> p * (n - 1) < 100 * n
  {
    var a := p * (n - 1);
    var q := a / 100;
    DivBounds(a, 100);
    if p <= 0 {
      MulMono(n - 1, p, 0);
      assert 100 * q <= 100 * 0;
      CancelLe(100, q, 0);
    }
    if 0 <= p <= 100 {
      MulMono(n - 1, 0, p);
      MulMono(n - 1, p, 100);
      assert 100 * 0 < 100 * (q + 1);
      CancelLt(100, 0, q + 1);
      assert 100 * q <= 100 * (n - 1);
      CancelLe(100, q, n - 1);
    }
    if p >= 100 {
      MulMono(n - 1, 100, p);
      assert 100 * (n - 1) < 100 * (q + 1);
      CancelLt(100, n - 1, q + 1);
    }
    if p == 100 {
      MulDiv(n - 1, 100);
    }
    if q < n {
      MulMono(100, q + 1, n);
    } else {
      MulMono(100, n, q);
    }
  }

  /** `getColorByStep` on the gradient of a well-sized configuration: the first anchor
      verbatim for a step of at most 0, entry `step` for a step before the end. */
  lemma StepLookup(colors: seq<string>, spec: StepSpec, step: int)
    requires Generable(colors, spec) && WellSized(colors, spec)
    ensures var g := Gradient(colors, spec);
      var n := NumberOfSteps(spec);
      && |g| == n
      && (step <= 0 ==> Lookup(g, StepIndex(step, n)) == Some(colors[0]))
      && (1 <= step < n ==> Lookup(g, StepIndex(step, n)) == Some(g[step]))
  {
    GradientLength(colors, spec);
  }

  /** As written, `getColorByStep` finds nothing for any step from `numberOfSteps` on:
      both the clamp branch and a step equal to `numberOfSteps` read one past the end. */
  lemma StepPastEnd(colors: seq<string>, spec: StepSpec, step: int)
    requires Generable(colors, spec) && WellSized(colors, spec)
    requires step >= NumberOfSteps(spec)
    ensures Lookup(Gradient(colors, spec), StepIndex(step, NumberOfSteps(spec))) == None
  {
    GradientLength(colors, spec);
  }

  /** With the clamp at the last entry every step finds a colour, and a step at or past
      the end finds the last one. */
  lemma ClampedLookup(colors: seq<string>, spec: StepSpec, step: int)
    requires Generable(colors, spec) && WellSized(colors, spec)
    ensures var g := Gradient(colors, spec);
      var n := NumberOfSteps(spec);
      && |g| == n
      && Lookup(g, ClampedStepIndex(step, n)).Some?
      && (step <= 0 ==> Lookup(g, ClampedStepIndex(step, n)) == Some(colors[0]))
      && (step >= n ==> Lookup(g, ClampedStepIndex(step, n)) == Some(g[n - 1]))
      && (step < n ==> Lookup(g, ClampedStepIndex(step, n)) == Lookup(g, StepIndex(step, n)))
  {
    GradientLength(colors, spec);
  }

  /** As written, `getColorByPercent` finds nothing once `percent * (N - 1)` reaches
      `100 * N`: the step it asks for is then at least `N`. */
  lemma PercentPastEnd(colors: seq<string>, spec: StepSpec, p: int)
    requires Generable(colors, spec) && WellSized(colors, spec)
    requires p * (NumberOfSteps(spec) - 1) >= 100 * NumberOfSteps(spec)
    ensures var n := NumberOfSteps(spec);
      Lookup(Gradient(colors, spec), StepIndex(PercentIndex(p, n), n)) == None
  {
    GradientLength(colors, spec);
    PercentBounds(p, NumberOfSteps(spec));
  }

  /** `getColorByPercent` with the clamp at the last entry, on the gradient of a
      well-sized configuration: every percent finds a colour, a percent in [0, 100]
      finds entry `floor(percent * (N - 1) / 100)`, at most 0 finds the first anchor,
      and from 100 on the last entry. */
  lemma PercentLookup(colors: seq<string>, spec: StepSpec, p: int)
    requires Generable(colors, spec) && WellSized(colors, spec)
    ensures var g := Gradient(colors, spec);
      var n := NumberOfSteps(spec);
      var i := PercentIndex(p, n);
      var c := Lookup(g, ClampedStepIndex(i, n));
      && |g| == n
      && c.Some?
      && (0 <= p <= 100 ==> 0 <= i < n && c == Some(g[i]))
      && (p <= 0 ==> c == Some(colors[0]))
      && (p >= 100 ==> c == Some(g[n - 1]))
  {
    GradientLength(colors, spec);
    PercentOn(Gradient(colors, spec), NumberOfSteps(spec), p);
  }

  /** The clamped percent lookup on any list of `n >= 1` entries. */
  lemma PercentOn(g: seq<string>, n: int, p: int)
    requires |g| == n >= 1
    ensures var i := PercentIndex(p, n);
      var c := Lookup(g, ClampedStepIndex(i, n));
      && c.Some?
      && (0 <= p <= 100 ==> 0 <= i < n && c == Some(g[i]))
      && (p <= 0 ==> c == Some(g[0]))
      && (p >= 100 ==> c == Some(g[n - 1]))
  {
    PercentBounds(p, n);
  }

  lemma AppendAssoc(a: seq<string>, b: seq<string>, c: seq<string>)
    ensures a + b + c == a + (b + c)
  {
  }

  /** The padding loop of a zone: every one-character part gets a leading '0'. */
  method PadChannels(parts: seq<string>) returns (padded: seq<string>)
    ensures |padded| == |parts|
    ensures forall j :: 0 <= j < |parts| ==> padded[j] == Pad2(parts[j])
  {
    padded := parts;
    var j := 0;
    while j < |padded|
      invariant 0 <= j <= |padded| == |parts|
      invariant forall m :: 0 <= m < j ==> padded[m] == Pad2(parts[m])
      invariant forall m :: j <= m < |parts| ==> padded[m] == parts[m]
    {
      if |padded[j]| == 1 {
        padded := padded[j := "0" + padded[j]];
      }
      j := j + 1;
    }
  }

  /** The parsing loop of `generate`: every anchor, in order. */
  method ParseAnchors(colors: seq<string>) returns (parsed: seq<Rgb>)
    requires AllColors(colors)
    ensures parsed == ParseAll(colors)
  {
    parsed := [];
    var i := 0;
    while i < |colors|
      invariant 0 <= i <= |colors| && parsed == ParseAll(colors[..i])
    {
      assert colors[..i + 1][..i] == colors[..i];
      parsed := parsed + [ParseColor(colors[i])];
      i := i + 1;
    }
    assert colors[..i] == colors;
  }

  class ColorMeAwesome {
    var colors: seq<string>
    var steps: StepSpec
    var numberOfSteps: int
    var weighted: bool
    /** The cache: `None` where the source stores `false`. */
    var generated: Option<seq<string>>

    /** The derived fields agree with the step configuration, and a present cache
        holds exactly the gradient of the current configuration. */
    ghost predicate Valid()
      reads this
    {
      && weighted == steps.Weighted?
      && numberOfSteps == NumberOfSteps(steps)
      && (generated.Some? ==> Generable(colors, steps) && generated.value == Gradient(colors, steps))
    }

    /** `new ColorMeAwesome(colors, steps)`: reset, then set the colours, then the steps.
        An omitted step argument is `Balanced(0)`, which is stored as 10. */
    constructor (colors: seq<string>, steps: StepSpec)
      ensures Valid()
      ensures this.colors == colors && this.steps == StoredSteps(steps)
      ensures numberOfSteps == NumberOfSteps(StoredSteps(steps)) && weighted == steps.Weighted?
      ensures generated == None
    {
      new;
      var self := Reset();
      self := SetColors(colors);
      self := SetSteps(steps);
    }

    /** `reset`: the defaults (white to black in 10 balanced steps), no cache. */
    method Reset() returns (self: ColorMeAwesome)
      modifies this
      ensures self == this && Valid()
      ensures colors == ["#ffffff", "#000000"] && steps == Balanced(10)
      ensures numberOfSteps == 10 && !weighted && generated == None
    {
      self := Empty();
      colors := ["#ffffff", "#000000"];
      steps := Balanced(10);
      numberOfSteps := 10;
      weighted := false;
      self := this;
    }

    /** `empty`: drop the cache and nothing else. */
    method Empty() returns (self: ColorMeAwesome)
      modifies this`generated
      ensures self == this && generated == None
      ensures old(Valid()) ==> Valid()
    {
      generated := None;
      self := this;
    }

    /** `setSteps`: store the configuration (`steps || 10` for a count), derive the
        weighted flag, and derive `numberOfSteps`: the count, or one plus the sum of
        the weights, accumulated weight by weight. */
    method SetSteps(steps: StepSpec) returns (self: ColorMeAwesome)
      modifies this
      ensures self == this && Valid()
      ensures this.steps == StoredSteps(steps) && weighted == steps.Weighted?
      ensures numberOfSteps == NumberOfSteps(StoredSteps(steps))
      ensures colors == old(colors) && generated == None
    {
      self := Empty();
      weighted := steps.Weighted?;
      if weighted {
        this.steps := steps;
        var w := steps.weights;
        numberOfSteps := 1;
        var i := 0;
        while i < |w|
          invariant 0 <= i <= |w|
          invariant numberOfSteps == 1 + Sum(w[..i])
          invariant this.steps == steps && weighted && generated == None && colors == old(colors)
        {
          assert w[..i + 1][..i] == w[..i];
          numberOfSteps := numberOfSteps + w[i];
          i := i + 1;
        }
        assert w[..i] == w;
      } else {
        this.steps := StoredSteps(steps);
        numberOfSteps := this.steps.count;
      }
      self := this;
    }

    /** `setColors`: replace the anchors, drop the cache, keep the step configuration. */
    method SetColors(colors: seq<string>) returns (self: ColorMeAwesome)
      requires Valid()
      modifies this
      ensures self == this && Valid()
      ensures this.colors == colors && generated == None
      ensures steps == old(steps) && numberOfSteps == old(numberOfSteps) && weighted == old(weighted)
    {
      self := Empty();
      this.colors := colors;
      self := this;
    }

    function GetSteps(): StepSpec
      reads this
    {
      steps
    }

    function GetColors(): seq<string>
      reads this
    {
      colors
    }

    function GetNumberOfSteps(): int
      reads this
    {
      numberOfSteps
    }

    function IsWeighted(): bool
      reads this
    {
      weighted
    }

    /** `generate.zone`: append steps 1 to `iterationSteps` from `min` to `max`, each
        channel floored, written in hex, padded and joined behind '#'. */
    method Zone(min: Rgb, max: Rgb, iterationSteps: int)
      requires InRange(min) && InRange(max) && generated.Some?
      modifies this`generated
      ensures generated == Some(old(generated).value + ZoneColors(min, max, iterationSteps))
    {
      ghost var before := generated.value;
      ghost var zone := ZoneColors(min, max, iterationSteps);
      var i := 1;
      while i <= iterationSteps
        invariant 1 <= i <= |zone| + 1
        invariant iterationSteps >= 1 ==> |zone| == iterationSteps
        invariant generated.Some? && generated.value == before + zone[..i - 1]
      {
        var c := Lerp(min, max, i, iterationSteps);
        var parts := [HexString(c.r), HexString(c.g), HexString(c.b)];
        var padded := PadChannels(parts);
        var entry := "#" + padded[0] + padded[1] + padded[2];
        assert entry == FormatColor(c) by { PaddedHex(c); }
        assert zone[i - 1] == FormatColor(c) by { ZoneEntry(min, max, iterationSteps, i - 1); }
        assert zone[..i] == zone[..i - 1] + [entry];
        generated := Some(generated.value + [entry]);
        i := i + 1;
      }
      assert zone[..i - 1] == zone;
    }

    /** `generate.balanced`: one zone per adjacent pair of parsed anchors, each with
        `floor(T / zones) + 1` colours for `T = steps - anchors`, the last one with
        JavaScript's `T % zones` more. */
    method GenerateBalanced(parsed: seq<Rgb>)
      requires generated.Some? && steps.Balanced?
      requires |parsed| >= 1 && forall k :: 0 <= k < |parsed| ==> InRange(parsed[k])
      modifies this`generated
      ensures generated == Some(old(generated).value + Concat(parsed, BalancedCounts(|parsed|, steps.count)))
    {
      ghost var before := generated.value;
      var colorsLength := |parsed|;
      var colorZones := colorsLength - 1;
      var totalSteps := steps.count - colorsLength;
      ghost var counts := BalancedCounts(colorsLength, steps.count);
      // With one anchor the source divides by zero here, and its loop then never runs.
      var stepsPerZone := if colorZones > 0 then totalSteps / colorZones + 1 else 0;
      var lastZone := if colorZones > 0 then JsRemainder(totalSteps, colorZones) else 0;
      assert |counts| == colorZones;
      assert counts[..0] == [];
      var i := 0;
      while i < colorZones
        invariant 0 <= i <= colorZones == |counts|
        invariant generated.Some? && generated.value == before + Concat(parsed, counts[..i])
      {
        var n := stepsPerZone + if i == colorZones - 1 then lastZone else 0;
        assert n == counts[i] by {
          BalancedCountAt(colorsLength, totalSteps + colorsLength, i);
        }
        ghost var done := Concat(parsed, counts[..i]);
        Zone(parsed[i], parsed[i + 1], n);
        assert Concat(parsed, counts[..i + 1]) == done + ZoneColors(parsed[i], parsed[i + 1], n) by {
          ConcatStep(parsed, counts, i);
        }
        AppendAssoc(before, done, ZoneColors(parsed[i], parsed[i + 1], n));
        i := i + 1;
      }
      assert counts[..i] == counts;
    }

    /** `generate.weighted`: zone `i` gets exactly `steps[i]` colours. */
    method GenerateWeighted(parsed: seq<Rgb>)
      requires generated.Some? && steps.Weighted? && |steps.weights| < |parsed|
      requires forall k :: 0 <= k < |parsed| ==> InRange(parsed[k])
      modifies this`generated
      ensures generated == Some(old(generated).value + Concat(parsed, steps.weights))
    {
      ghost var before := generated.value;
      var w := steps.weights;
      var colorZones := |w|;
      var i := 0;
      while i < colorZones
        invariant 0 <= i <= colorZones
        invariant generated.Some? && generated.value == before + Concat(parsed, w[..i])
      {
        Zone(parsed[i], parsed[i + 1], w[i]);
        ConcatStep(parsed, w, i);
        AppendAssoc(before, Concat(parsed, w[..i]), ZoneColors(parsed[i], parsed[i + 1], w[i]));
        i := i + 1;
      }
      assert w[..i] == w;
    }

    /** `generate`: build the cache only when it is absent, from the first anchor
        verbatim and the zones of the parsed anchors; a present cache is kept. */
    method Generate()
      requires Valid() && Generable(colors, steps)
      modifies this`generated
      ensures Valid() && generated == Some(Gradient(colors, steps))
      ensures old(generated).Some? ==> generated == old(generated)
    {
      if generated == None {
        generated := Some([colors[0]]);
        var parsed := ParseAnchors(colors);
        if weighted {
          GenerateWeighted(parsed);
        } else {
          GenerateBalanced(parsed);
        }
        assert generated.value == [colors[0]] + Concat(parsed, ZoneCounts(|colors|, steps));
      }
    }

    /** `getGeneratedColors`: the gradient of the configuration, computed at most once
        between two mutations; for a well-sized configuration it has exactly
        `numberOfSteps` entries. */
    method GetGeneratedColors() returns (g: seq<string>)
      requires Valid() && Generable(colors, steps)
      modifies this`generated
      ensures Valid() && generated == Some(g) && g == Gradient(colors, steps)
      ensures old(generated).Some? ==> g == old(generated).value
      ensures |g| >= 1 && g[0] == colors[0]
      ensures WellSized(colors, steps) ==> |g| == numberOfSteps
    {
      Generate();
      g := generated.value;
      if WellSized(colors, steps) {
        GradientLength(colors, steps);
      }
    }

    /** `getColorByStep`: generate if needed, then read index 0 for a step of at most
        0, the step itself before the end, and the last entry from `numberOfSteps` on
        (the code reads one past the end there; see `StepPastEnd`). */
    method GetColorByStep(step: int) returns (c: Option<string>)
      requires Valid() && Generable(colors, steps)
      modifies this`generated
      ensures Valid() && generated == Some(Gradient(colors, steps))
      ensures c == Lookup(Gradient(colors, steps), ClampedStepIndex(step, numberOfSteps))
      ensures WellSized(colors, steps) ==> c.Some?
    {
      var g := GetGeneratedColors();
      if step <= 0 {
        c := Lookup(g, 0);
      } else if step >= numberOfSteps {
        c := Lookup(g, numberOfSteps - 1);
      } else {
        c := Lookup(g, step);
      }
    }

    /** `getColorByPercent`: the step `floor(percent / 100 * (numberOfSteps - 1))`. */
    method GetColorByPercent(percent: int) returns (c: Option<string>)
      requires Valid() && Generable(colors, steps)
      modifies this`generated
      ensures Valid() && generated == Some(Gradient(colors, steps))
      ensures c == Lookup(Gradient(colors, steps), ClampedStepIndex(PercentIndex(percent, numberOfSteps), numberOfSteps))
      ensures WellSized(colors, steps) ==> c.Some?
    {
      c := GetColorByStep(PercentIndex(percent, numberOfSteps));
    }
  }
}
