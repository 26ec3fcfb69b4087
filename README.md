# ColorMeAwesome in Dafny

ColorMeAwesome builds colour gradients. It takes a list of anchor colours written as
`#rrggbb` or `#rgb` and a step configuration, which is one of two things:

- a single count, called *balanced*: the steps are shared evenly between the zones, and
  the last zone takes the remainder;
- a list of per-zone counts, called *weighted*.

A zone is the span between two adjacent anchors. The library generates the list of
colours lazily: entry 0 is the first anchor verbatim, and every zone then appends its
interpolated colours. Each channel is floored, written in hex and padded to two digits.
The library answers lookups by step index or by percentage.

The project has five modules:

- `Colors` (`colors.dfy`): the colour strings. `parseColor`, with the shorthand
  expansion and base-16 digit pairs, and the hex formatting a zone uses, which is
  `toString(16)` with a leading `0` for one digit. Both round trips between them.
- `Zones` (`zones.dfy`): the interpolation of one zone, `generate.zone`. How a channel
  and a colour are computed at step `i` of `n`, and the list of colours a zone appends.
- `Distribution` (`distribution.dfy`): the step policy of `generate.balanced` and
  `generate.weighted`, with JavaScript's truncating `%` written out. It also defines the
  specification function `Gradient` for the whole cache, and proves where every entry
  sits and what it is.
- `Engine` (`engine.dfy`): the `ColorMeAwesome` object as a class.
  - Its fields are `colors`, `steps`, `numberOfSteps`, `weighted` and `generated` (the
    cache).
  - Its methods are `reset`, `empty`, `setSteps`, `setColors`, the `generate` family,
    `getGeneratedColors`, `getColorByStep` and `getColorByPercent`.
  - Its functions are the accessors `getSteps`, `getColors`, `getNumberOfSteps` and
    `isWeighted` (`GetSteps`, `GetColors`, `GetNumberOfSteps`, `IsWeighted`). These are
    plain field reads and carry no contract of their own; what they return is stated
    through `StepsScenario` and the class methods' postconditions.
  - The class invariant `Valid` states two things. The derived fields agree with the
    step configuration. A present cache is exactly `Gradient(colors, steps)`.
  - The module also has the index arithmetic of the two lookups.
- `Scenarios` (`scenarios.dfy`): the fixtures of `tests.js` computed through the model.
  These are the white-to-black gradient in 40 steps and the four-anchor weighted
  gradient, reached both through the specification functions and through the object.

Where the code and its documentation or its tests disagree, the model follows the code:

- The cache holds exactly `numberOfSteps` entries, not `numberOfSteps + 1` (`GradientLength`).
- The final entry is the last anchor *as formatted after parsing*. It equals the anchor
  string only when that string is already in lower-case canonical form (`GradientLast`).
- `getNumberOfSteps()` for weights `[20, 40, 60]` is 121 (`colormeawesome.js:170-173`), not
  the 120 expected at `tests.js:51`.
- `getColorByStep(40)` and `getColorByStep(41)` on a 40-step gradient read index 40,
  which does not exist. `tests.js:56` and `tests.js:58` expect `#000000`. The as-written
  lookup is kept in `StepPastEnd`. The object's `GetColorByStep` clamps to the last
  entry, as intended (see Findings).
- For two anchors and three weights, `tests.js:63` reaches `colors[2]` in
  `generate.weighted`. That is `undefined`, and `generate.zone` throws on it. The model
  makes such a configuration non-`Generable` (`TooManyWeights`).
- The four-anchor weighted lookup at 25 percent is `#ffbf00` (entry 30 is step 10 of 40
  from yellow to red), not the `#ffc500` expected at `tests.js:75`.
- A percent of 100 or more maps to step `floor(p * (N - 1) / 100)`, not to step `N`. At
  100 this is the last entry. Once `p * (N - 1)` reaches `100 * N`, the as-written lookup
  runs past the end (`PercentPastEnd`). The object clamps it (`PercentLookup`).
- The documentation describes out-of-range steps as clamped to a boundary colour. The
  code's upper clamp reads past the end (see Findings).
- Balanced mode with one anchor divides by zero and appends nothing. A count below the
  number of anchors makes JavaScript's `%` negative. The model covers both
  (`JsRemainder`, `BalancedCounts`) and excludes neither. Zero anchors are excluded
  (see Left out).

## Model

| member | source | states |
|---|---|---|
| Colors.HexValue | colormeawesome.js:33-35 | a base-16 digit of either case is worth 0 to 15 |
| Colors.HexDigit | colormeawesome.js:74-76 | the digit `toString(16)` writes for a value below 16 is lower-case and `HexValue` maps it back to that value |
| Colors.DigitRoundTrip | colormeawesome.js:33-35 | on lower-case digits, value then digit is the identity |
| Colors.HexString | colormeawesome.js:74-76 | `v.toString(16)` is non-empty, lower-case hex, and one character long exactly when `v < 16` |
| Colors.PaddedByte | colormeawesome.js:78-82 | a byte written by `toString(16)` and padded to two characters is its high and its low digit |
| Colors.Expand | colormeawesome.js:29-30 | the shorthand `#rgb` becomes `#rrggbb`, character by character |
| Colors.ParseByte | colormeawesome.js:33-35 | a two-digit base-16 string parses to a value in [0, 255] |
| Colors.ParseColor | colormeawesome.js:28-37 | parsing a shorthand or long colour gives three channels in [0, 255] |
| Colors.PaddedHex | colormeawesome.js:73-83 | the zone's recipe (`toString(16)`, padding, join behind `#`) is `FormatColor` |
| Colors.FormatThenParse | colormeawesome.js:28-37 | a formatted colour is canonical `#rrggbb`, and parsing it gives the channels back |
| Colors.ParseThenFormat | colormeawesome.js:32-35 | a canonical string is exactly the formatting of its parse |
| Colors.Shorthand | colormeawesome.js:29-35 | `#abc` parses like `#aabbcc`: every channel is its digit times 17 |
| Zones.Channel | colormeawesome.js:68-74 | channel `i` of `n` lies between the two ends for `0 <= i <= n`, is `lo` at 0 and `hi` at `n` |
| Zones.ChannelFloor | colormeawesome.js:74 | the channel is the floor of `lo + (hi - lo) * i / n`: it is at most the exact value and the next integer exceeds it |
| Zones.Lerp | colormeawesome.js:67-76 | the colour at step `i` of `n` is in range, is `min` at step 0 and `max` at step `n` |
| Zones.ZoneColors | colormeawesome.js:72-84 | a zone appends `n` colours, and none when `n <= 0` |
| Zones.ZoneEnd | colormeawesome.js:72-83 | the last entry of a non-empty zone is `max` formatted |
| Zones.ZoneShape | colormeawesome.js:66-85 | every entry is canonical, parses back to its step's colour, with each channel between the anchors' channels, and the zone ends on `max` |
| Distribution.JsRemainder | colormeawesome.js:99 | JavaScript's `%` takes the dividend's sign, equals Euclid's remainder for a non-negative dividend, and differs from the dividend by a multiple of the divisor |
| Distribution.BalancedSplit | colormeawesome.js:94-103 | with at least as many steps as anchors, every zone but the last gets the same share, every zone gets at least one colour, and together they get `count - 1` |
| Distribution.BalancedZones | colormeawesome.js:98-101 | the per-zone counts of balanced mode, each at least one |
| Distribution.BalancedTotal | colormeawesome.js:97-101 | the balanced zones hold `count - 1` colours in all |
| Distribution.BalancedStart | colormeawesome.js:98-101 | balanced zone `z` starts after `z` full shares |
| Distribution.ZoneList | colormeawesome.js:100-102 | there is one zone per count |
| Distribution.ZoneLengths | colormeawesome.js:101 | zone `z` has exactly `counts[z]` colours |
| Distribution.ConcatStep | colormeawesome.js:100-102 | each loop turn appends the next zone behind the earlier ones |
| Distribution.ConcatLength | colormeawesome.js:114-116 | with non-negative counts, the zones hold the sum of the counts |
| Distribution.ConcatAt | colormeawesome.js:114-116 | zone `z` occupies the entries from `Sum(counts[..z])` on, in its own order |
| Distribution.ConcatEntry | colormeawesome.js:114-116 | entry `Sum(counts[..z]) + j` of the zones is step `j + 1` of zone `z` |
| Distribution.ParseAll | colormeawesome.js:48-52 | one parsed colour per anchor, each in range |
| Distribution.ParseAllAt | colormeawesome.js:50-52 | parsed colour `k` is anchor `k` parsed |
| Distribution.GradientLength | colormeawesome.js:47 | a well-sized configuration's cache has exactly `numberOfSteps` entries and starts with the first anchor verbatim |
| Distribution.LastEntry | colormeawesome.js:100-101 | the final entry is the last parsed anchor formatted |
| Distribution.GradientLast | colormeawesome.js:100-101 | the final entry is the last anchor parsed and formatted, and is the anchor itself when that is canonical |
| Distribution.ConcatLast | colormeawesome.js:101 | a non-empty last zone makes the zones end on the anchor after it |
| Distribution.BalancedEnds | colormeawesome.js:94-103 | a balanced gradient of `count` entries starts on the first anchor and ends on the last |
| Distribution.EntryAfterFirst | colormeawesome.js:47 | behind the first entry, entry `j` of zone `z` sits at `1 + Sum(counts[..z]) + j` |
| Distribution.GradientEntry | colormeawesome.js:45-55 | in either mode, cache entry `1 + Sum(counts[..z]) + j` is step `j + 1` of zone `z` between anchors `z` and `z + 1` |
| Distribution.TwoAnchorEntry | colormeawesome.js:94-103 | with two anchors, entry `i` of a balanced gradient is step `i` of `count - 1` from the first anchor to the second |
| Distribution.WeightedZone | colormeawesome.js:112-117 | weighted zone `z` contributes `w[z]` entries from `1 + Sum(w[..z])` on, entry `j` being step `j + 1` of `w[z]` |
| Engine.ClampedStepIndex | colormeawesome.js:229-234 | the corrected step index is always inside the cache: 0 for a step of at most 0, the step itself before the end, `n - 1` from `n` on |
| Engine.StepIndexAgrees | colormeawesome.js:229-234 | the as-written and the corrected index agree on every step before the end |
| Engine.PercentBounds | colormeawesome.js:245 | the percent index is at most 0 for a non-positive percent, in [0, N - 1] for 0 to 100, N - 1 at 100, and below N past 100 exactly when `p * (N - 1) < 100 * N` |
| Engine.PercentOn | colormeawesome.js:245 | the clamped percent lookup on any list of N entries, case by case |
| Engine.StepLookup | colormeawesome.js:227-236 | as written, a step of at most 0 gives the first anchor verbatim, and a step before the end gives that cache entry |
| Engine.StepPastEnd | colormeawesome.js:231-234 | as written, every step from `numberOfSteps` on finds nothing |
| Engine.ClampedLookup | colormeawesome.js:229-234 | with the corrected clamp every step finds a colour, a step from `numberOfSteps` on finds the last one, and earlier steps find what the code finds |
| Engine.PercentPastEnd | colormeawesome.js:245 | as written, a percent with `percent * (N - 1) >= 100 * N` finds nothing |
| Engine.PercentLookup | colormeawesome.js:244-246 | with the corrected clamp every percent finds a colour: for 0 to 100 the entry `floor(percent * (N - 1) / 100)`, at most 0 the first anchor, and from 100 on the last entry |
| Engine.PadChannels | colormeawesome.js:78-82 | the padding loop puts a `0` before every one-character part and leaves the rest |
| Engine.ParseAnchors | colormeawesome.js:48-52 | the parsing loop yields every anchor parsed, in order |
| Engine.ColorMeAwesome.constructor | colormeawesome.js:129-133 | the new object holds the given colours and the stored steps, the derived count and flag, and no cache |
| Engine.ColorMeAwesome.Reset | colormeawesome.js:140-147 | the defaults are white to black in 10 balanced steps, not weighted, with no cache |
| Engine.ColorMeAwesome.Empty | colormeawesome.js:154-157 | the cache is dropped and nothing else changes |
| Engine.ColorMeAwesome.SetSteps | colormeawesome.js:165-179 | stores `steps || 10`, flags an array as weighted, sums `1 + weights` into `numberOfSteps`, drops the cache, keeps the colours |
| Engine.ColorMeAwesome.SetColors | colormeawesome.js:196-200 | replaces the colours, drops the cache, keeps the step fields |
| Engine.ColorMeAwesome.Zone | colormeawesome.js:66-85 | the loop appends exactly the zone's colours to the cache |
| Engine.ColorMeAwesome.GenerateBalanced | colormeawesome.js:94-103 | the loop appends the zones of the balanced counts in order |
| Engine.ColorMeAwesome.GenerateWeighted | colormeawesome.js:112-117 | the loop appends one zone per weight in order |
| Engine.ColorMeAwesome.Generate | colormeawesome.js:45-55 | an absent cache becomes the gradient, and a present one is kept |
| Engine.ColorMeAwesome.GetGeneratedColors | colormeawesome.js:216-219 | returns the gradient, built once between mutations, starting with the first anchor, with `numberOfSteps` entries when well sized |
| Engine.ColorMeAwesome.GetColorByStep | colormeawesome.js:227-236 | generates if needed, then reads entry 0 for a step of at most 0, the step itself before the end and the last entry from `numberOfSteps` on (the corrected clamp), always finding a colour when well sized |
| Engine.ColorMeAwesome.GetColorByPercent | colormeawesome.js:244-246 | the clamped step lookup at `floor(percent * (N - 1) / 100)`, always finding a colour when well sized |
| Scenarios.WhiteBlackParsed | tests.js:54 | `#ffffff` and `#000000` parse to white and black |
| Scenarios.WhiteBlackSteps | tests.js:59 | steps 1, 9 and 39 of 39 from white to black are `#f8f8f8`, `#c4c4c4` and `#000000` |
| Scenarios.WhiteToBlack | tests.js:54-59 | the 40-step gradient has 40 entries: white, `#f8f8f8`, and at 9 and 39 `#c4c4c4` and black |
| Scenarios.WhiteToBlackAsWritten | tests.js:53-71 | as written, steps 0, -1 and 1 give white, white and `#f8f8f8`, steps 40 and 41 give nothing, 100 and 101 percent still give black, and 103 percent gives nothing |
| Scenarios.WhiteToBlackLookups | tests.js:65-71 | clamped, steps 0, -1, 1, 40 and 41 and percents 0, -1, 25, 100 and 101 give the colours the tests expect |
| Scenarios.YellowRedStep | tests.js:75 | step 10 of 40 from yellow to red is `#ffbf00` |
| Scenarios.FourAnchorsWeighted | tests.js:73-75 | four anchors weighted 20, 40, 60 give 121 entries, and 25 percent reads entry 30, `#ffbf00` |
| Scenarios.TooManyWeights | tests.js:62-63 | two anchors cannot take three weights but can take one |
| Scenarios.StepsScenario | tests.js:39-51 | through the object: 20 steps are stored and counted as 20, `[10, 30]` turns the weighted flag on with 41 steps, 0 falls back to 10, and `[20, 40, 60]` counts 121 |
| Scenarios.StepLookupScenario | tests.js:53-59 | through the object: steps 0 and -1 give white, 1 gives `#f8f8f8`, and 40 and 41 give black |
| Scenarios.PercentLookupScenario | tests.js:65-71 | through the object: 0 and -1 percent give white, 25 gives `#c4c4c4`, and 100 and 101 give black |
| Scenarios.CacheScenario | colormeawesome.js:216-219 | two reads with no change between them give the same 10-entry list |
| Scenarios.InvalidationScenario | colormeawesome.js:165-167 | changing the steps drops the cache, and the next read builds the 20-entry gradient |

## Left out

- The module export (`colormeawesome.js:266-278`) and the `Array.isArray` polyfill (`colormeawesome.js:17-19`) are left out. The step argument is the datatype `StepSpec`, `Balanced(count)` or `Weighted(weights)`, so telling an array from a number needs no code.
- There is no floating point. `Channel` works in exact rational arithmetic: the step `(hi - lo) / n` times `i`, floored. `PercentIndex` does the same for `percent / 100 * (N - 1)`. An IEEE rounding of those products that lands below an integer is not modelled.
- `ParseColor` requires a string whose digits are hex (`IsColor`). `parseInt`'s leniency, `NaN` channels and the strings they produce are not modelled.
- Steps and percents are integers. Fractional, `NaN`, `undefined` and non-numeric arguments to `getColorByStep`, `getColorByPercent` and `setSteps` are not modelled; an integer step of 0 is the falsy case. A constructor called without steps is `Balanced(0)`, which `setSteps` stores as 10. A constructor called without colours is not modelled, because the code then stores `undefined`.
- More weights than zones makes `generate.zone` read an `undefined` anchor and throw. The generating methods require `Generable` instead of modelling the exception.
- Reference identity is not modelled: `getColors()` and `getSteps()` returning the very array passed in (`tests.js:13-14`, `tests.js:26`, `tests.js:37`). Sequences are values. The methods that return `this` for chaining return the object itself (`self == this`).
- The accessors `GetSteps`, `GetColors`, `GetNumberOfSteps` and `IsWeighted` are plain field reads with no contract of their own. What they return follows from the class methods' postconditions and is stated in `StepsScenario`.
- `FormatColor` is defined only for channels in [0, 255]. In exact arithmetic every colour a zone computes is in that range (`Lerp`). In IEEE doubles a channel falling to 0 can come out just below it: 253 to 0 in 79 steps gives `253 + (-253 / 79) * 79`, slightly negative, which `Math.floor` makes -1. `toString(16)` then writes `-1`, which is not padded, so the entry starts `#-1`. That negative numeral is part of the floating-point behaviour this model leaves out.
- Zero anchors are not modelled: `Generable` requires at least one. With none the code does not throw. `generate` stores `[undefined]` as the cache, and neither zone loop runs, whether balanced or weighted with `[]`.

## Findings

| source | as written | input that shows it | evidently intended | confidence | as-written member | corrected member |
|---|---|---|---|---|---|---|
| colormeawesome.js:231-234 | a step above `numberOfSteps` reads `generated[numberOfSteps]`, and a step equal to it reads `generated[step]`; the cache has only `numberOfSteps` entries, so both return `undefined` | white to black in 40 steps, `getColorByStep(40)` or `getColorByStep(41)` | clamp to the last entry, index `numberOfSteps - 1`, which gives `#000000` as `tests.js:56` and `tests.js:58` expect | not executed | Engine.StepPastEnd | Engine.ClampedLookup |
| colormeawesome.js:245 | `getColorByPercent` hands `floor(percent / 100 * (N - 1))` to `getColorByStep` unclamped, so a percent large enough to reach step `N` meets the same past-the-end read | white to black in 40 steps, `getColorByPercent(103)` asks for step 40 | the last entry, as for 100 percent | not executed | Engine.PercentPastEnd | Engine.PercentLookup |
