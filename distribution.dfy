/** Distribution policy: how many colours each zone between adjacent anchors gets, in
    balanced mode (an even split, the last zone taking the remainder) and in weighted
    mode (one given count per zone), and the gradient that results. */
module Distribution {
  import opened Colors
  import opened Zones

  /** The step configuration: one total count, or one count per zone. */
  datatype StepSpec = Balanced(count: int) | Weighted(weights: seq<int>)

  function Sum(s: seq<int>): int {
    if s == [] then 0 else Sum(s[..|s| - 1]) + s[|s| - 1]
  }

  /** A sequence whose entries are all `a` sums to `|s| * a`. */
  lemma {:induction false} SumConstant(s: seq<int>, a: int)
    requires forall k :: 0 <= k < |s| ==> s[k] == a
    ensures Sum(s) == |s| * a
  {
    if s != [] {
      SumConstant(s[..|s| - 1], a);
    }
  }

  /** The sum of a sequence of non-negative numbers is non-negative. */
  lemma {:induction false} SumNonNegative(s: seq<int>)
    requires forall k :: 0 <= k < |s| ==> s[k] >= 0
    ensures Sum(s) >= 0
  {
    if s != [] {
      SumNonNegative(s[..|s| - 1]);
    }
  }

  /** A multiple of `b` leaves no remainder. */
  lemma MultipleMod(b: int, x: int)
    requires b > 0
    ensures (b * x) % b == 0
  {
    var y := b * x;
    var d := x - y / b;
    assert y == b * (y / b) + y % b;
    assert b * d == y % b;
    CancelLe(b, 0, d);
    CancelLt(b, d, 1);
  }

  /** JavaScript's `%` on integers: the remainder truncates toward zero, so it takes
      the sign of the dividend; like Euclid's, it differs from `a` by a multiple of `b`. */
  function JsRemainder(a: int, b: int): (r: int)
    requires b > 0
    ensures a >= 0 ==> r == a % b
    ensures a < 0 ==> -b < r <= 0
    ensures (a - r) % b == 0
  {
    if a >= 0 then
      assert a - a % b == b * (a / b);
      MultipleMod(b, a / b);
      a % b
    else
      var q, m := (-a) / b, (-a) % b;
      assert -a == b * q + m;
      assert b * -q == -(b * q);
      MultipleMod(b, -q);
      -m
  }

  /** Balanced mode for `k` anchors and `count` steps: `k - 1` zones; each gets
      `floor((count - k) / (k - 1)) + 1` colours and the last zone also gets
      `(count - k) % (k - 1)`. With fewer than two anchors there is no zone. */
  function BalancedCounts(k: int, count: int): seq<int> {
    if k < 2 then []
    else
      var zones := k - 1;
      var total := count - k;
      var perZone := total / zones + 1;
      var lastZone := JsRemainder(total, zones);
      seq(zones, i => perZone + if i == zones - 1 then lastZone else 0)
  }

  /** Zone `i` of balanced mode, one at a time. */
  lemma BalancedCountAt(k: int, count: int, i: int)
    requires 2 <= k && 0 <= i < k - 1
    ensures |BalancedCounts(k, count)| == k - 1
    ensures BalancedCounts(k, count)[i]
      == (count - k) / (k - 1) + 1 + if i == k - 2 then JsRemainder(count - k, k - 1) else 0
  {
  }

  /** The zone counts of a configuration with `k` anchors. */
  function ZoneCounts(k: int, spec: StepSpec): seq<int> {
    match spec
    case Balanced(count) => BalancedCounts(k, count)
    case Weighted(w) => w
  }

  /** What `generate.balanced` promises when there are at least as many steps as
      anchors: every zone but the last gets `T / (k - 1) + 1` colours for
      `T = count - k`, the last one `T % (k - 1)` more, every zone at least one, and
      all zones together `count - 1`, so the gradient has `count` entries. */
  lemma BalancedSplit(k: int, count: int)
    requires 2 <= k <= count
    ensures var c := BalancedCounts(k, count);
      var t := count - k;
      && |c| == k - 1
      && (forall i :: 0 <= i < k - 2 ==> c[i] == t / (k - 1) + 1)
      && c[k - 2] == t / (k - 1) + 1 + t % (k - 1)
      && (forall i :: 0 <= i < |c| ==> c[i] >= 1)
      && Sum(c) == count - 1
  {
    BalancedZones(k, count);
    BalancedTotal(k, count);
  }

  /** The per-zone half of `BalancedSplit`. */
  lemma BalancedZones(k: int, count: int)
    requires 2 <= k <= count
    ensures var c := BalancedCounts(k, count);
      var t := count - k;
      && |c| == k - 1
      && (forall i :: 0 <= i < k - 2 ==> c[i] == t / (k - 1) + 1)
      && c[k - 2] == t / (k - 1) + 1 + t % (k - 1)
      && (forall i :: 0 <= i < |c| ==> c[i] >= 1)
  {
    var c := BalancedCounts(k, count);
    forall i | 0 <= i < k - 1
      ensures c[i] == (count - k) / (k - 1) + 1 + if i == k - 2 then (count - k) % (k - 1) else 0
    {
      BalancedCountAt(k, count, i);
    }
  }

  /** The total half of `BalancedSplit`. */
  lemma BalancedTotal(k: int, count: int)
    requires 2 <= k <= count
    ensures Sum(BalancedCounts(k, count)) == count - 1
  {
    var c := BalancedCounts(k, count);
    var d := k - 1;
    var q := (count - k) / d;
    var r := (count - k) % d;
    BalancedZones(k, count);
    assert Sum(c) == (d - 1) * (q + 1) + (q + 1 + r) by {
      assert c[..|c| - 1] == c[..d - 1];
      SumConstant(c[..d - 1], q + 1);
    }
    SplitTotal(count - k, d);
  }

  /** `d - 1` zones of `t / d + 1` and one of `t / d + 1 + t % d` hold `t + d` in all. */
  lemma SplitTotal(t: int, d: int)
    requires d >= 1
    ensures (d - 1) * (t / d + 1) + (t / d + 1 + t % d) == t + d
  {
    var q := t / d;
    assert (d - 1) * (q + 1) + (q + 1) == d * (q + 1);
    assert d * (q + 1) == d * q + d;
    assert d * q + t % d == t;
  }

  /** Zone counts a gradient over `p` can use: at most one per adjacent pair. */
  predicate Fits(p: seq<Rgb>, counts: seq<int>) {
    |counts| < |p| && forall k :: 0 <= k < |p| ==> InRange(p[k])
  }

  /** A list of runs joined end to end. */
  function Flatten(zs: seq<seq<string>>): seq<string> {
    if zs == [] then [] else Flatten(zs[..|zs| - 1]) + zs[|zs| - 1]
  }

  /** The length of every run. */
  function Lengths(zs: seq<seq<string>>): (ls: seq<int>)
    ensures |ls| == |zs| && forall i :: 0 <= i < |zs| ==> ls[i] == |zs[i]|
  {
    seq(|zs|, i requires 0 <= i < |zs| => |zs[i]|)
  }

  /** Joining one more run appends it. */
  lemma FlattenSnoc(zs: seq<seq<string>>, x: seq<string>)
    ensures Flatten(zs + [x]) == Flatten(zs) + x
  {
    assert (zs + [x])[..|zs|] == zs;
  }

  /** A join is as long as its runs together. */
  lemma {:induction false} FlattenLength(zs: seq<seq<string>>)
    ensures |Flatten(zs)| == Sum(Lengths(zs))
  {
    if zs != [] {
      var init := zs[..|zs| - 1];
      FlattenLength(init);
      assert Lengths(zs)[..|zs| - 1] == Lengths(init);
    }
  }

  /** Run `z` of a join starts after the runs before it. */
  lemma {:induction false} FlattenAt(zs: seq<seq<string>>, z: int, j: int)
    requires 0 <= z < |zs| && 0 <= j < |zs[z]|
    ensures var i := Sum(Lengths(zs[..z])) + j;
      0 <= i < |Flatten(zs)| && Flatten(zs)[i] == zs[z][j]
  {
    var last := |zs| - 1;
    var init := zs[..last];
    var a := Flatten(init);
    assert Flatten(zs) == a + zs[last];
    assert |a| == Sum(Lengths(init)) by { FlattenLength(init); }
    assert 0 <= Sum(Lengths(zs[..z])) by { SumNonNegative(Lengths(zs[..z])); }
    if z < last {
      assert init[..z] == zs[..z];
      FlattenAt(init, z, j);
    } else {
      assert init == zs[..z];
    }
  }

  /** The zones in anchor order: zone `z` runs from `p[z]` to `p[z + 1]` with
      `counts[z]` colours. */
  function ZoneList(p: seq<Rgb>, counts: seq<int>): (zs: seq<seq<string>>)
    requires Fits(p, counts)
    ensures |zs| == |counts|
  {
    seq(|counts|, z requires 0 <= z < |counts| => ZoneColors(p[z], p[z + 1], counts[z]))
  }

  /** With non-negative counts, zone `z` has exactly `counts[z]` colours. */
  lemma ZoneLengths(p: seq<Rgb>, counts: seq<int>)
    requires Fits(p, counts) && forall k :: 0 <= k < |counts| ==> counts[k] >= 0
    ensures Lengths(ZoneList(p, counts)) == counts
  {
  }

  /** The zones appended in anchor order. */
  function Concat(p: seq<Rgb>, counts: seq<int>): seq<string>
    requires Fits(p, counts)
  {
    Flatten(ZoneList(p, counts))
  }

  /** Appending zone `i` to the first `i` zones gives the first `i + 1`. */
  lemma ConcatStep(p: seq<Rgb>, counts: seq<int>, i: int)
    requires Fits(p, counts) && 0 <= i < |counts|
    ensures Concat(p, counts[..i + 1]) == Concat(p, counts[..i]) + ZoneColors(p[i], p[i + 1], counts[i])
  {
    var x := ZoneColors(p[i], p[i + 1], counts[i]);
    assert ZoneList(p, counts[..i + 1]) == ZoneList(p, counts[..i]) + [x];
    FlattenSnoc(ZoneList(p, counts[..i]), x);
  }

  /** With non-negative counts the zones together have `Sum(counts)` entries. */
  lemma ConcatLength(p: seq<Rgb>, counts: seq<int>)
    requires Fits(p, counts) && forall k :: 0 <= k < |counts| ==> counts[k] >= 0
    ensures |Concat(p, counts)| == Sum(counts)
  {
    FlattenLength(ZoneList(p, counts));
    ZoneLengths(p, counts);
  }

  /** Zone `z` occupies the entries from `Sum(counts[..z])` on, in its own order. */
  lemma ConcatAt(p: seq<Rgb>, counts: seq<int>, z: int, j: int)
    requires Fits(p, counts) && forall k :: 0 <= k < |counts| ==> counts[k] >= 0
    requires 0 <= z < |counts| && 0 <= j < counts[z]
    ensures |ZoneColors(p[z], p[z + 1], counts[z])| == counts[z]
    ensures var i := Sum(counts[..z]) + j;
      && 0 <= i < |Concat(p, counts)|
      && Concat(p, counts)[i] == ZoneColors(p[z], p[z + 1], counts[z])[j]
  {
    var zs := ZoneList(p, counts);
    var x := ZoneColors(p[z], p[z + 1], counts[z]);
    var i := Sum(counts[..z]) + j;
    assert zs[z] == x;
    assert Sum(Lengths(zs[..z])) == Sum(counts[..z]) by {
      ZoneLengths(p, counts);
      assert Lengths(zs[..z]) == Lengths(zs)[..z];
    }
    assert 0 <= i < |Flatten(zs)| && Flatten(zs)[i] == x[j] by {
      FlattenAt(zs, z, j);
    }
  }

  /** Entry `j` of zone `z` sits at `Sum(counts[..z]) + j` and is step `j + 1` of
      `counts[z]` from `p[z]` to `p[z + 1]`. */
  lemma ConcatEntry(p: seq<Rgb>, counts: seq<int>, z: int, j: int)
    requires Fits(p, counts) && forall k :: 0 <= k < |counts| ==> counts[k] >= 0
    requires 0 <= z < |counts| && 0 <= j < counts[z]
    ensures var i := Sum(counts[..z]) + j;
      && 0 <= i < |Concat(p, counts)|
      && Concat(p, counts)[i] == FormatColor(Lerp(p[z], p[z + 1], j + 1, counts[z]))
  {
    var x := ZoneColors(p[z], p[z + 1], counts[z]);
    assert 0 <= Sum(counts[..z]) + j < |Concat(p, counts)| && Concat(p, counts)[Sum(counts[..z]) + j] == x[j] by {
      ConcatAt(p, counts, z, j);
    }
    assert x[j] == FormatColor(Lerp(p[z], p[z + 1], j + 1, counts[z])) by {
      ZoneEntry(p[z], p[z + 1], counts[z], j);
    }
  }

  /** Every anchor is a colour the parser handles. */
  predicate AllColors(colors: seq<string>) {
    forall k :: 0 <= k < |colors| ==> IsColor(colors[k])
  }

  /** The parsed anchors, in order. */
  function ParseAll(colors: seq<string>): (p: seq<Rgb>)
    requires AllColors(colors)
    ensures |p| == |colors| && forall k :: 0 <= k < |p| ==> InRange(p[k])
  {
    if colors == [] then []
    else
      var n := |colors| - 1;
      ParseAll(colors[..n]) + [ParseColor(colors[n])]
  }

  /** Anchor `k` parsed. */
  lemma {:induction false} ParseAllAt(colors: seq<string>, k: int)
    requires AllColors(colors) && 0 <= k < |colors|
    ensures ParseAll(colors)[k] == ParseColor(colors[k])
  {
    var n := |colors| - 1;
    var init := colors[..n];
    assert ParseAll(colors) == ParseAll(init) + [ParseColor(colors[n])];
    if k < n {
      assert init[k] == colors[k];
      ParseAllAt(init, k);
    }
  }

  /** What generation needs: at least one anchor, every anchor parseable, and no more
      weights than zones (an extra weight reads an anchor that does not exist). */
  predicate Generable(colors: seq<string>, spec: StepSpec) {
    && |colors| >= 1
    && AllColors(colors)
    && |ZoneCounts(|colors|, spec)| < |colors|
  }

  /** The generated cache: the first anchor verbatim, then every zone in order. */
  function Gradient(colors: seq<string>, spec: StepSpec): seq<string>
    requires Generable(colors, spec)
  {
    [colors[0]] + Concat(ParseAll(colors), ZoneCounts(|colors|, spec))
  }

  /** Past the first anchor, the gradient is the zones in order. */
  lemma GradientAt(colors: seq<string>, spec: StepSpec, i: int)
    requires Generable(colors, spec)
    requires 0 <= i < |Concat(ParseAll(colors), ZoneCounts(|colors|, spec))|
    ensures 1 + i < |Gradient(colors, spec)|
    ensures Gradient(colors, spec)[1 + i] == Concat(ParseAll(colors), ZoneCounts(|colors|, spec))[i]
  {
    var c := Concat(ParseAll(colors), ZoneCounts(|colors|, spec));
    assert Gradient(colors, spec) == [colors[0]] + c;
  }

  /** `numberOfSteps` as `setSteps` computes it. */
  function NumberOfSteps(spec: StepSpec): int {
    match spec
    case Balanced(count) => count
    case Weighted(w) => 1 + Sum(w)
  }

  /** Configurations whose gradient has exactly `NumberOfSteps` entries: balanced with
      at least two anchors and as many steps as anchors, or weighted with no
      negative weight. */
  predicate WellSized(colors: seq<string>, spec: StepSpec) {
    match spec
    case Balanced(count) => 2 <= |colors| <= count
    case Weighted(w) => forall k :: 0 <= k < |w| ==> w[k] >= 0
  }

  /** The cache has `numberOfSteps` entries (not one more), and entry 0 is the first
      anchor verbatim. */
  lemma GradientLength(colors: seq<string>, spec: StepSpec)
    requires Generable(colors, spec) && WellSized(colors, spec)
    ensures |Gradient(colors, spec)| == NumberOfSteps(spec) >= 1
    ensures Gradient(colors, spec)[0] == colors[0]
  {
    var counts := ZoneCounts(|colors|, spec);
    match spec
    case Balanced(count) =>
      BalancedSplit(|colors|, count);
      ConcatLength(ParseAll(colors), counts);
    case Weighted(w) =>
      ConcatLength(ParseAll(colors), counts);
      SumNonNegative(w);
  }

  /** A non-empty last zone makes the zones end on the anchor after it. */
  lemma ConcatLast(p: seq<Rgb>, counts: seq<int>)
    requires Fits(p, counts) && counts != [] && counts[|counts| - 1] >= 1
    ensures var c := Concat(p, counts);
      |c| >= 1 && c[|c| - 1] == FormatColor(p[|counts|])
  {
    var z := |counts| - 1;
    var zs := ZoneList(p, counts);
    var x := ZoneColors(p[z], p[z + 1], counts[z]);
    assert zs[z] == x;
    assert Concat(p, counts) == Flatten(zs[..z]) + x;
    ZoneEnd(p[z], p[z + 1], counts[z]);
  }

  /** The final entry comes from the last zone, which ends on the last anchor. */
  lemma LastEntry(colors: seq<string>, spec: StepSpec)
    requires Generable(colors, spec)
    requires |ZoneCounts(|colors|, spec)| == |colors| - 1 >= 1
    requires ZoneCounts(|colors|, spec)[|colors| - 2] >= 1
    ensures var g := Gradient(colors, spec);
      g[|g| - 1] == FormatColor(ParseAll(colors)[|colors| - 1])
  {
    ConcatLast(ParseAll(colors), ZoneCounts(|colors|, spec));
  }

  /** When every zone is present and the last one is not empty, the final entry is the
      last anchor written out; it equals the anchor verbatim when that is already in
      canonical form. */
  lemma GradientLast(colors: seq<string>, spec: StepSpec)
    requires Generable(colors, spec)
    requires |ZoneCounts(|colors|, spec)| == |colors| - 1 >= 1
    requires ZoneCounts(|colors|, spec)[|colors| - 2] >= 1
    ensures var g := Gradient(colors, spec);
      && IsColor(colors[|colors| - 1])
      && g[|g| - 1] == FormatColor(ParseColor(colors[|colors| - 1]))
      && (IsCanonical(colors[|colors| - 1]) ==> g[|g| - 1] == colors[|colors| - 1])
  {
    LastEntry(colors, spec);
    if IsCanonical(colors[|colors| - 1]) {
      ParseThenFormat(colors[|colors| - 1]);
    }
  }

  /** Balanced mode with at least as many steps as anchors ends on the last anchor. */
  lemma BalancedEnds(colors: seq<string>, count: int)
    requires Generable(colors, Balanced(count)) && 2 <= |colors| <= count
    ensures var g := Gradient(colors, Balanced(count));
      && |g| == count
      && g[0] == colors[0]
      && g[count - 1] == FormatColor(ParseColor(colors[|colors| - 1]))
  {
    BalancedSplit(|colors|, count);
    GradientLength(colors, Balanced(count));
    GradientLast(colors, Balanced(count));
  }

  /** Behind a first entry, entry `j` of zone `z` sits at `1 + Sum(counts[..z]) + j`. */
  lemma EntryAfterFirst(first: string, p: seq<Rgb>, counts: seq<int>, z: int, j: int)
    requires Fits(p, counts) && forall k :: 0 <= k < |counts| ==> counts[k] >= 0
    requires 0 <= z < |counts| && 0 <= j < counts[z]
    ensures var c := [first] + Concat(p, counts);
      && 0 <= Sum(counts[..z]) && 1 + Sum(counts[..z]) + j < |c|
      && c[1 + Sum(counts[..z]) + j] == FormatColor(Lerp(p[z], p[z + 1], j + 1, counts[z]))
  {
    assert 0 <= Sum(counts[..z]) by { SumNonNegative(counts[..z]); }
    ConcatEntry(p, counts, z, j);
  }

  /** In either mode, entry `j` of zone `z` sits after the first anchor and the zones
      before it, and is step `j + 1` of the zone's count between anchors `z` and `z + 1`. */
  lemma GradientEntry(colors: seq<string>, spec: StepSpec, z: int, j: int)
    requires Generable(colors, spec)
    requires forall k :: 0 <= k < |ZoneCounts(|colors|, spec)| ==> ZoneCounts(|colors|, spec)[k] >= 0
    requires 0 <= z < |ZoneCounts(|colors|, spec)| && 0 <= j < ZoneCounts(|colors|, spec)[z]
    ensures var g := Gradient(colors, spec);
      var p := ParseAll(colors);
      var c := ZoneCounts(|colors|, spec);
      && 0 <= Sum(c[..z]) && 1 + Sum(c[..z]) + j < |g|
      && g[1 + Sum(c[..z]) + j] == FormatColor(Lerp(p[z], p[z + 1], j + 1, c[z]))
  {
    EntryAfterFirst(colors[0], ParseAll(colors), ZoneCounts(|colors|, spec), z, j);
  }

  /** Balanced mode: zone `z` starts after `z` full zones of `T / (k - 1) + 1` colours
      each (together with `GradientEntry`, this places every balanced entry). */
  lemma BalancedStart(k: int, count: int, z: int)
    requires 2 <= k <= count && 0 <= z < k - 1
    ensures Sum(BalancedCounts(k, count)[..z]) == z * ((count - k) / (k - 1) + 1)
  {
    var c := BalancedCounts(k, count);
    BalancedZones(k, count);
    assert forall i :: 0 <= i < z ==> c[..z][i] == c[i];
    SumConstant(c[..z], (count - k) / (k - 1) + 1);
  }

  /** Two anchors in balanced mode: after the first anchor, entry `i` is step `i` of
      `count - 1` from the first anchor to the second. */
  lemma TwoAnchorEntry(colors: seq<string>, count: int, i: int)
    requires Generable(colors, Balanced(count)) && |colors| == 2 <= count
    requires 1 <= i < count
    ensures var g := Gradient(colors, Balanced(count));
      var p := ParseAll(colors);
      && |g| == count
      && g[i] == FormatColor(Lerp(p[0], p[1], i, count - 1))
  {
    var c := BalancedCounts(2, count);
    assert |c| == 1 && c[0] == count - 1 by {
      BalancedCountAt(2, count, 0);
    }
    assert c[..0] == [];
    GradientLength(colors, Balanced(count));
    GradientEntry(colors, Balanced(count), 0, i - 1);
  }

  /** Weighted mode: zone `z` contributes exactly `w[z]` entries, from index
      `1 + Sum(w[..z])` on; entry `j` of it is step `j + 1` of `w[z]` between anchors
      `z` and `z + 1`. */
  lemma WeightedZone(colors: seq<string>, w: seq<int>, z: int, j: int)
    requires Generable(colors, Weighted(w)) && WellSized(colors, Weighted(w))
    requires 0 <= z < |w| && 0 <= j < w[z]
    ensures var g := Gradient(colors, Weighted(w));
      var p := ParseAll(colors);
      && 0 <= Sum(w[..z]) && 1 + Sum(w[..z]) + j < |g|
      && g[1 + Sum(w[..z]) + j] == FormatColor(Lerp(p[z], p[z + 1], j + 1, w[z]))
  {
    GradientEntry(colors, Weighted(w), z, j);
  }
}
