# Brand-colour validator, modelled in Dafny

This project models the colour-comparison module of a small browser tool,
`app/utils/colorComparison.js`. The tool samples a few pixel colours from an
uploaded image. It checks each one against a fixed brand palette and reports
background/text pairs whose contrast is too low. The module has these parts:

- `hexToRgb` parses `#RRGGBB` or `RRGGBB`, case-insensitively, into integer
  channels. Any other form fails to parse.
- `getColorDifference` is the Euclidean distance in RGB space. It is
  Infinity when either colour does not parse.
- `validateColors` runs two passes. The first scans every brand colour once
  per input, category by category. An input is *matched* when some brand
  colour is strictly within `tolerance` (the default is 25). An unmatched
  input clears `colorCompliance` and appends an entry naming the first
  nearest brand colour, or "Any brand color" when none is at a finite
  distance. The second pass looks at every index pair `i < j`. A pair where
  one side is labelled `background` and the other `text`, with a contrast
  ratio below 4.5:1, appends an accessibility issue.
- `calculateContrastRatio` computes `(lighter + 0.05) / (darker + 0.05)`
  over relative luminances. This is the contrast ratio of WCAG 2.1, and 4.5:1
  is its Success Criterion 1.4.3, Contrast (Minimum), level AA.
- `getColorblindImpact` is a heuristic over channel differences.

The modules follow the source's structure:

- `Hex`: parsing, plus a formatter used to state the parse round trip.
- `Distance`: the colour difference.
- `Palette`: the brand palette and what "matched" and "closest" mean.
- `Contrast`: the contrast ratio and the rounding of `toFixed(2)`.
- `Impact`: the colour-blindness estimate.
- `Report`: the report `validateColors` returns, as functions of its inputs.
- `Validator`: the loops of `validateColors` as imperative methods. Each
  method is proved to compute the functions of `Report`.
- `Wrappers`: an `Option` type.

The model uses these representations:

- **Distance.** The distance is kept squared, as an `Option<nat>`. `None`
  stands for Infinity.
  - "difference < tolerance" becomes `d < tol * tol` for `tol >= 0`.
  - "difference < closest difference" becomes a comparison of the squares.
  - The lemmas `SqrtTolerance` and `SqrtOrder` prove that both replacements
    are exact.
- **Luminance.** The gamma-corrected relative luminance is a parameter
  `lum`, a function from channels into `[0, 1]`. It applies only to colours
  that parse. A colour that does not parse has luminance 0, as at line 156.
- **Inputs.** Each input is a record of a colour, an optional element label
  and an optional location.
- **Palette.** The operations take the palette as a parameter.
  `ValidateColors` fixes it to the brand palette of lines 9-13.

Two points need care about how the model relates to the code.

- `element` and `location` (line 24) are declared and never assigned. The
  model follows the code here: every colour error carries "Unknown element"
  and "Not specified", whatever the input's labels are. JavaScript's `||`
  defaulting is modelled exactly: an absent value and an empty string both
  give the default.
- The two passes need different inputs, and the model departs from the code
  to reconcile them.
  - The matching pass hands the whole input to `getColorDifference`
    (line 35) and records it as `actualColor` (line 57). Only plain strings
    get through it. For a record, the `color1.startsWith` call at line 103
    throws a `TypeError`, so on any non-empty list of records no report is
    produced at all.
  - The pairing pass (lines 67-70) reads `.element` and `.color`, so it can
    only fire on records.
  - The model takes records and reads their `.color` in both passes. A plain
    string `s` corresponds to `Item(s, None, None)`. For such inputs the
    model agrees with the code: the same colour errors, and, by
    `Report.UnlabelledInputsNoIssues`, no accessibility issues.

## Model

| member | source | states |
|---|---|---|
| Hex.HexToRgb | app/utils/colorComparison.js:125-132 | a parsed colour has every channel in 0..255 |
| Hex.HexToRgbSucceedsIff | app/utils/colorComparison.js:126-131 | parsing succeeds exactly when the text is an optional `#` followed by six hex digits |
| Hex.MatchesHexPattern | app/utils/colorComparison.js:126 | the strings the pattern accepts: six hex digits of either case, with an optional leading `#`; tied to parsing by `HexToRgbSucceedsIff` |
| Hex.Channel | app/utils/colorComparison.js:128-130 | `parseInt` of two hex digits in base 16 gives a value in 0..255 |
| Hex.CaseInsensitive | app/utils/colorComparison.js:126 | two texts that differ only in letter case parse to the same result |
| Hex.FormatThenParse | app/utils/colorComparison.js:125-132 | formatting any in-range colour as `#RRGGBB` and parsing it gives the colour back |
| Distance.WithHash | app/utils/colorComparison.js:103-104 | the result starts with `#`; an input already starting with `#` is returned unchanged, and any other input gets `#` prepended |
| Distance.ColorDifference | app/utils/colorComparison.js:101-118 | `getColorDifference` as a squared distance; characterised by `DifferenceDefinedIff`, `DifferenceSymmetric` and `DifferenceZeroIff` |
| Distance.SquaredDistance | app/utils/colorComparison.js:113-117 | the squared Euclidean RGB distance; `DifferenceSymmetric` and `DifferenceZeroIff` give its symmetry and its zero case |
| Distance.WithHashParsesAlike | app/utils/colorComparison.js:103-108 | prepending `#` when it is missing does not change what the colour parses to |
| Distance.DifferenceDefinedIff | app/utils/colorComparison.js:107-117 | the difference is finite exactly when both colours parse, and then it is the squared RGB distance of their channels |
| Distance.DifferenceSymmetric | app/utils/colorComparison.js:101-118 | the difference does not depend on the order of the two colours |
| Distance.DifferenceZeroIff | app/utils/colorComparison.js:113-117 | for two parsed colours, the difference is zero exactly when their channels are equal |
| Distance.Within | app/utils/colorComparison.js:37 | the tolerance test on the squared distance; `SqrtTolerance` proves it equal to `difference < tolerance` |
| Distance.Closer | app/utils/colorComparison.js:41 | the closer-than test on squared distances, with `None` as Infinity; `SqrtOrder` proves it equal to the test on distances |
| Distance.SqrtTolerance | app/utils/colorComparison.js:37 | for the distance `s` with `s*s = d`, `s < tol` holds exactly when the squared test `Within(d, tol)` holds |
| Distance.SqrtOrder | app/utils/colorComparison.js:41 | comparing two distances is the same as comparing their squares |
| Distance.WithinMonotone | app/utils/colorComparison.js:4 | a distance within tolerance `t1` is within every larger tolerance, so a lower tolerance is stricter |
| Palette.FlattenMembers | app/utils/colorComparison.js:33-34 | the scan visits a colour exactly when one of the categories lists it |
| Palette.Flatten | app/utils/colorComparison.js:33-34 | the brand colours in the order the nested `forEach` visits them; characterised by `FlattenMembers` and `BrandColorsInScanOrder` |
| Palette.BrandColorsInScanOrder | app/utils/colorComparison.js:9-13 | the brand colours are scanned as primary, then secondary, then accent, each in listed order |
| Palette.BrandPalette | app/utils/colorComparison.js:9-13 | the three categories and their colours in declaration order; `BrandColorsInScanOrder` and `BrandPaletteParses` state its scan order and that every entry parses |
| Palette.BrandPaletteParses | app/utils/colorComparison.js:9-13 | every brand colour parses |
| Palette.Diffs | app/utils/colorComparison.js:33-35 | one difference per brand colour, in scan order, each the `getColorDifference` of the input and that brand colour |
| Palette.AnyWithin | app/utils/colorComparison.js:35-38 | an input is matched when some brand colour is within tolerance; `SqrtTolerance` ties it to line 37, and `MatchColor` proves the loop computes it |
| Palette.ToleranceMonotone | app/utils/colorComparison.js:4 | a colour matched at tolerance `t1` stays matched at every larger tolerance |
| Palette.FirstMin | app/utils/colorComparison.js:41-47 | the strict-`<` fold keeps an index whose difference is finite; `FirstMinIff` characterises it |
| Palette.FirstMinNoneIff | app/utils/colorComparison.js:26-30 | no closest colour is found exactly when every difference is Infinity |
| Palette.FirstMinIff | app/utils/colorComparison.js:41-47 | the kept index is the first one of minimal finite difference, and every such index is the kept one |
| Palette.Nearest | app/utils/colorComparison.js:41-47 | the index `closestMatch` ends on; characterised by `NearestIff` |
| Palette.NearestIff | app/utils/colorComparison.js:26-49 | the closest brand colour is the first one of minimal finite difference; there is none exactly when every difference is Infinity |
| Palette.NearestColor | app/utils/colorComparison.js:26-47 | the brand colour `closestMatch.color` ends with; characterised by `NearestIff` |
| Palette.ExpectedColorIsNearest | app/utils/colorComparison.js:56 | `expectedColor` is "Any brand color" when no difference is finite, and otherwise the first nearest brand colour |
| Palette.OrDefault | app/utils/colorComparison.js:55-58 | JavaScript's "or" defaulting on an optional string, where an absent or empty value gives the default; used through `ExpectedColorIsNearest` and `ErrorFor` |
| Palette.ExpectedColor | app/utils/colorComparison.js:56 | the closest brand colour, or "Any brand color" without one; characterised by `ExpectedColorIsNearest` |
| Palette.MalformedColorUnmatched | app/utils/colorComparison.js:101-110 | a colour that does not parse matches nothing and is reported with "Any brand color" |
| Palette.MatchedNearestWithin | app/utils/colorComparison.js:37-47 | when some brand colour is within tolerance, the closest brand colour exists and is within tolerance too |
| Palette.ExactBrandColorMatches | app/utils/colorComparison.js:35-38 | a colour that parses to the same channels as a brand colour is matched whenever the tolerance is positive |
| Palette.NonPositiveToleranceMatchesNothing | app/utils/colorComparison.js:37 | with a tolerance of zero or less, nothing is matched, not even an exact brand colour |
| Contrast.RelativeLuminance | app/utils/colorComparison.js:140-156 | the luminance lies in [0, 1], and it is 0 for a colour that does not parse |
| Contrast.Max | app/utils/colorComparison.js:144 | `Math.max`: a value at least both arguments and equal to one of them |
| Contrast.Min | app/utils/colorComparison.js:145 | `Math.min`: a value at most both arguments and equal to one of them |
| Contrast.Ratio | app/utils/colorComparison.js:144-147 | the ratio is at least 1, and at most 21 when both luminances are at most 1 |
| Contrast.ContrastRatio | app/utils/colorComparison.js:140-148 | every contrast ratio lies in [1, 21] |
| Contrast.ContrastSymmetric | app/utils/colorComparison.js:144-147 | the ratio does not depend on the order of the two colours |
| Contrast.ContrastOfEqualLuminance | app/utils/colorComparison.js:144-147 | colours of equal luminance have ratio 1 |
| Contrast.ContrastWhiteOnBlack | app/utils/colorComparison.js:144-147 | luminances 1 and 0 give the maximum ratio of 21 |
| Contrast.Round2 | app/utils/colorComparison.js:83 | the result is a whole number of hundredths within half a hundredth of the input, upper end included |
| Contrast.Round2BelowAa | app/utils/colorComparison.js:80-83 | a ratio in [1, 4.5) is reported in [1, 4.5] |
| Contrast.Round2NearAa | app/utils/colorComparison.js:80-83 | a ratio of 4.497, below the AA minimum, is reported as 4.5 |
| Contrast.Round2Unique | app/utils/colorComparison.js:83 | those two properties determine the result, so it is rounding half up to two decimals |
| Impact.ImpactsCharacterised | app/utils/colorComparison.js:178-201 | the list is never empty. It is "Unknown impact" exactly when a colour fails to parse. The two red-green entries appear first, together and in order, exactly when the red-green test fires. Tritanopia appears last exactly when the blue-yellow test fires. When a test fires, the list holds only those entries: two for red-green, one for blue-yellow, three for both. Otherwise the list is "No significant impact detected". |
| Impact.Impacts | app/utils/colorComparison.js:182-200 | the impact list of a pair; characterised by `ImpactsCharacterised` |
| Impact.RedGreenRisk | app/utils/colorComparison.js:190 | the red-green test `abs(r1-g1) > 100 && abs(r2-g2) < 50`; `ImpactsCharacterised` ties it to the Deuteranopia and Protanopia entries |
| Impact.BlueYellowRisk | app/utils/colorComparison.js:196 | the blue-yellow test `abs(b1-g1) > 100 && abs(b2-g2) < 50`; `ImpactsCharacterised` ties it to the Tritanopia entry |
| Impact.ColorblindImpact | app/utils/colorComparison.js:182-200 | the list built with `push` is the impact list characterised above |
| Report.ErrorFor | app/utils/colorComparison.js:54-59 | an error entry records the input's colour as `actualColor`, and always the default element and location |
| Report.Matched | app/utils/colorComparison.js:37-52 | input `i` is matched when some brand colour is within tolerance, so line 52 adds no error for it; characterised through `AnyWithin` and `UnmatchedSound`/`UnmatchedComplete` |
| Report.MatchTest | app/utils/colorComparison.js:52 | the test of line 52 as a predicate on input indices; `Unmatched` lists the indices it rejects |
| Report.ErrorsAt | app/utils/colorComparison.js:54-59 | the `colorErrors` entries for a list of unmatched indices, one per index, in order; `ColorErrorsPerUnmatchedInput` states each entry |
| Report.RejectedSound | app/utils/colorComparison.js:23-52 | every index the pass lists fails the test |
| Report.RejectedComplete | app/utils/colorComparison.js:23-52 | every failing index is listed |
| Report.RejectedIncreasing | app/utils/colorComparison.js:23 | indices are listed in increasing order |
| Report.UnmatchedSound | app/utils/colorComparison.js:23-52 | every listed input is matched by no brand colour |
| Report.UnmatchedComplete | app/utils/colorComparison.js:23-52 | every input that no brand colour matches is listed |
| Report.UnmatchedIncreasing | app/utils/colorComparison.js:23 | unmatched inputs are listed in input order, each once |
| Report.UnmatchedEmptyIff | app/utils/colorComparison.js:17-53 | no input is unmatched exactly when every input is matched |
| Report.Unmatched | app/utils/colorComparison.js:23-59 | the inputs that get a colour error; characterised by `UnmatchedSound`, `UnmatchedComplete` and `UnmatchedIncreasing` |
| Report.UnmatchedShrinks | app/utils/colorComparison.js:4 | raising the tolerance never adds an unmatched input: every input unmatched at `t2` is unmatched at every lower `t1` |
| Report.ComplianceMonotone | app/utils/colorComparison.js:4 | a report compliant at tolerance `t1` stays compliant at every larger tolerance |
| Report.RowBySound | app/utils/colorComparison.js:65-67 | every pair the inner loop keeps is selected |
| Report.RowByIncreasing | app/utils/colorComparison.js:65 | the inner loop keeps second indices in increasing order |
| Report.RowByComplete | app/utils/colorComparison.js:65-67 | every selected pair `(i, j)` with `j > i` is kept by the inner loop |
| Report.PairsBySound | app/utils/colorComparison.js:64-65 | every pair kept is selected, and pairs are kept in strictly increasing lexicographic order |
| Report.PairsByComplete | app/utils/colorComparison.js:64-65 | every selected pair `i < j` is kept |
| Report.RowBy | app/utils/colorComparison.js:65 | the pairs the inner loop keeps for one `i`, each with `i < j`; characterised by `RowBySound`, `RowByIncreasing` and `RowByComplete` |
| Report.PairsBy | app/utils/colorComparison.js:64-65 | the pairs the double loop keeps, each with `i < j`; characterised by `PairsBySound` and `PairsByComplete` |
| Report.PairsSound | app/utils/colorComparison.js:64-80 | every pair producing an issue is a background/text pair below 4.5:1, and pairs appear in loop order with none twice |
| Report.PairsComplete | app/utils/colorComparison.js:64-80 | every background/text pair `i < j` below 4.5:1 produces an issue |
| Report.IsRolePair | app/utils/colorComparison.js:67-70 | one side labelled `background` and the other `text`, in either order; used by `PairsSound`, `PairsComplete` and `IssuesNeedRolePair` |
| Report.LowContrastPair | app/utils/colorComparison.js:67-80 | a role pair whose contrast ratio is below 4.5; characterised with `Pairs` by `PairsSound` and `PairsComplete` |
| Report.Pairs | app/utils/colorComparison.js:64-86 | the index pairs that get an accessibility issue; characterised by `PairsSound` and `PairsComplete` |
| Report.IssueFor | app/utils/colorComparison.js:81-86 | every issue carries the requirement text "WCAG AA 4.5:1", and the issue of a low-contrast pair reports a ratio in [1, 4.5] |
| Report.IssuesAt | app/utils/colorComparison.js:81-86 | the `accessibilityIssues` entries for a list of pairs, one per pair, in order; `IssuesPerLowContrastPair` states each entry |
| Report.Validate | app/utils/colorComparison.js:7-93 | `colorCompliance` holds exactly when `colorErrors` is empty; no inputs give a compliant, empty report |
| Report.ColorErrorsPerUnmatchedInput | app/utils/colorComparison.js:23-59 | there is one error per unmatched input, in input order. Each names that input's colour, its first nearest brand colour or the fallback, and the default element and location. |
| Report.ExactBrandColorsCompliant | app/utils/colorComparison.js:35-53 | inputs that are all exact brand colours are compliant, with no errors, whenever the tolerance is positive |
| Report.NonPositiveToleranceReportsAll | app/utils/colorComparison.js:37-52 | with a tolerance of zero or less, every input is reported, in input order |
| Report.IssuesNeedRolePair | app/utils/colorComparison.js:67-70 | an issue can only arise when some input is labelled `background` and another `text` |
| Report.UnlabelledInputsNoIssues | app/utils/colorComparison.js:67-70 | inputs without role labels, as plain strings are, give no accessibility issue |
| Report.IssuesPerLowContrastPair | app/utils/colorComparison.js:64-86 | there is one issue per low-contrast pair, in loop order. Each carries the requirement text, the impact list of the pair, the combination text, and the pair's contrast ratio rounded to two decimals, which lies in [1, 4.5]. |
| Report.BrandRedCompliant | app/utils/colorComparison.js:7-13 | a single exact `#FF0000` at the default tolerance gives a compliant, empty report |
| Report.EmptyPaletteFallback | app/utils/colorComparison.js:55-58 | against an empty palette, a colour is reported with "Any brand color" |
| Report.TwoItemPairs | app/utils/colorComparison.js:64-65 | two inputs forming a low-contrast pair give exactly the pair `(0, 1)` |
| Report.LowContrastPairScenario | app/utils/colorComparison.js:64-86 | a background and a text colour below 4.5:1 give exactly one issue, with the requirement text and the combination naming both colours and roles |
| Report.Combination | app/utils/colorComparison.js:82 | the `combination` template; `CombinationText` gives its text for a background/text pair |
| Report.CombinationText | app/utils/colorComparison.js:82 | the combination text reads "background (bg) and text (text)" |
| Validator.ScanOne | app/utils/colorComparison.js:35-47 | one iteration of the brand-colour loop; `ScanStep` and `ScanMeaning` give its meaning |
| Validator.Scan | app/utils/colorComparison.js:25-47 | the scan state after a sequence of brand colours; characterised by `ScanMeaning` and `ScanFromScan` |
| Validator.ScanStep | app/utils/colorComparison.js:35-47 | one brand colour takes the scan state of the colours before it to the scan state including it |
| Validator.ScanMeaning | app/utils/colorComparison.js:25-47 | the scan state after any prefix of brand colours holds whether one matched and holds the first nearest colour with its difference |
| Validator.ScanFromScan | app/utils/colorComparison.js:34-47 | continuing a scan over further colours is the scan of the concatenation |
| Validator.ScanCategory | app/utils/colorComparison.js:34-48 | the loop over one category leaves the scan state of all brand colours seen so far |
| Validator.MatchColor | app/utils/colorComparison.js:25-49 | `matched` holds exactly when some brand colour is within tolerance, and `closest` is the first nearest brand colour |
| Validator.CheckColor | app/utils/colorComparison.js:24-60 | no entry for a matched input, and otherwise exactly the entry `ErrorFor` describes |
| Validator.UnmatchedStep | app/utils/colorComparison.js:52-59 | one more input adds its entry and clears compliance exactly when it is unmatched |
| Validator.CollectColorErrors | app/utils/colorComparison.js:17-61 | compliance holds exactly when no input is unmatched, and the errors are the entries of the unmatched inputs in input order |
| Validator.RowIssuesFromRest | app/utils/colorComparison.js:65-89 | the issues recorded so far plus those the inner loop still adds are the issues of the whole row |
| Validator.CheckPair | app/utils/colorComparison.js:66-87 | an issue is produced exactly for a low-contrast background/text pair, and it is the one `IssueFor` describes |
| Validator.ScanRow | app/utils/colorComparison.js:65-89 | the inner loop appends exactly the issues of row `i`, in loop order |
| Validator.CollectAccessibilityIssues | app/utils/colorComparison.js:19-90 | the issues are those of every low-contrast pair, in loop order |
| Validator.ValidateAgainst | app/utils/colorComparison.js:16-92 | the report is the one `Validate` describes, so compliance holds exactly when there are no colour errors |
| Validator.ValidateColors | app/utils/colorComparison.js:7-13 | `validateColors` with the brand palette and a default tolerance of 25 returns the report `Validate` describes |

## Left out

- `calculateRelativeLuminance` (lines 155-170): its gamma correction uses
  `Math.pow` with exponent 2.4 on floating point, which is not modelled. It
  enters as the parameter `lum`, assumed to map every colour into [0, 1].
- Floating point in general: distances, ratios and tolerances are exact
  reals or integers. `NaN` and `Infinity` as tolerances are not modelled.
- `Math.sqrt` (line 117): the model keeps the squared distance. The lemmas
  `Distance.SqrtTolerance` and `Distance.SqrtOrder` show that its two tests
  agree with those on the square root.
- Contrast.Round2: `parseFloat(x.toFixed(2))` is modelled as rounding half up
  to two decimals over the reals. Binary representation effects of
  `toFixed` are not modelled.
- The `TypeError` that line 103 raises for a record input is not modelled,
  because the model reads the record's colour instead.
- The `category` field of `closestMatch` (lines 27, 43) is never read, so it
  is not kept.
- The `results` object (lines 16-20) is modelled as three local variables
  assembled into the report at the end.
- The example input of lines 204-209 is unused and not modelled.
- The page component `app/page.tsx`, which uploads the image and samples
  pixels through the canvas, is not part of this model.
- The helpers `lib/utils.ts` and `components/ColorCard.tsx` are
  presentation only and are not part of this model.
