# Conversion-rate chart: a Dafny model

This project models the core of the conversion-rate chart of `graphchart`, a
React single-page app. The app plots, for each variation of an A/B test, the
daily or weekly conversion rate in percent. The model covers:

- **Line-chart utilities.** Each variation gets a series key
  (`enhanceVariationsWithIds`). Daily records become chart points
  (`processData`): two lookup tiers, then the rate rounded with
  `toFixed(2)`. Daily points are rolled up into runs of seven
  (`aggregateWeeklyData`). The app lists the distinct keys that start out
  selected (`getAvailableVariationIds`). It computes the Y-axis range over
  the selected series (`getYAxisDomain`).
- **The chart component.** Its state after the data has loaded: series
  keys, selection, time range, the memoised series, and the zoom machine
  (`isZoomActive`, `zoomArea`, `zoomHistory`, `data`). It is a class with
  one method per event handler. Each handler is one atomic step that
  already includes the `useMemo`/`useEffect` work React runs after it.
- **The line-style select.** `handleChange` passes a picked value on only
  when it is one of `CURVE_OPTIONS`.
- **The tooltip.** `formatValue` prints `"N/A"` for NaN. Any other number
  prints as `toFixed(2)` with a comma for the point and a `%` after it.

The modules are:

- `Wrappers`: `Option`.
- `Decimal`: `Number.prototype.toString` of integers, with a parser beside it.
- `Rounding`: `toFixed(2)` on exact reals.
- `SharedTypes`: the records.
- `Variations`, `DailyRates`, `WeeklyRollup`, `AxisDomain`: the utilities.
- `ConversationRates`: the component.
- `LineStyleSelect`: the select.
- `TooltipFormat`: the tooltip.

Decisions that shape the model:

- **Numbers.** Counts and rates are exact reals. `x.toFixed(2)` is rounding
  to hundredths, half away from zero (`Rounding.RoundHundredths`).
  `parseFloat` of that text is that many hundredths (`Rounding.Round2`).
- **Dates.** `new Date(s).getDate()` is a parameter
  `dayOf: string -> Option<nat>`. `None` stands for an Invalid Date, whose
  day prints as `"NaN"`.
- **Generated ids.** `uuidv4()` is a parameter: a sequence of strings, one
  per variation. A variation's string is used only when its `id` is absent.
- **Data shapes.** A chart point keeps its label (`date`) apart from its
  per-key numbers (`rates`). A key that is missing from `rates` stands for
  the `undefined` that `Number`/`+` turn into NaN.

## Model

Paths below are relative to the repository root.

| member | source | states |
|---|---|---|
| `Decimal.IntToStringRoundTrip` | graph/src/features/conversation-rates/ui/components/line-chart/utils.ts:10 | the decimal text of an integer id parses back to the same integer |
| `Decimal.IntToStringInjective` | graph/src/features/conversation-rates/ui/components/line-chart/utils.ts:10 | distinct ids print as distinct keys |
| `Decimal.DecimalRoundTrip` | graph/src/features/conversation-rates/ui/components/line-chart/utils.ts:45 | the digits printed for a natural number denote that number |
| `Decimal.NatToDecimal` | graph/src/features/conversation-rates/ui/components/line-chart/utils.ts:45 | a natural number prints as at least one digit, with no leading zero, and as one digit exactly below 10 |
| `Rounding.HalfUpHundredths` | graph/src/features/conversation-rates/ui/components/line-chart/utils.ts:35 | the count of hundredths `toFixed(2)` picks for a non-negative number is within half a hundredth of it, a tie going up |
| `Rounding.Round2Close` | graph/src/features/conversation-rates/ui/components/line-chart/utils.ts:35 | `parseFloat(x.toFixed(2))` is within 0.005 of `x` |
| `Rounding.Round2IsOnGrid` | graph/src/features/conversation-rates/ui/components/line-chart/utils.ts:35 | the rounded value is a whole number of hundredths |
| `Rounding.Round2Fixes` | graph/src/features/conversation-rates/ui/components/line-chart/utils.ts:35 | rounding leaves a whole number of hundredths unchanged |
| `Rounding.Round2Monotone` | graph/src/features/conversation-rates/ui/components/line-chart/utils.ts:35 | rounding keeps the order of two numbers |
| `Rounding.Round2BelowGridPoint` | graph/src/features/conversation-rates/ui/components/line-chart/utils.ts:122-123 | a number at most a whole number of hundredths rounds to at most it |
| `Rounding.Round2AboveGridPoint` | graph/src/features/conversation-rates/ui/components/line-chart/utils.ts:122-123 | a number at least a whole number of hundredths rounds to at least it |
| `Variations.EnhanceVariationsWithIds` | graph/src/features/conversation-rates/ui/components/line-chart/utils.ts:5-12 | one entry per variation, in order, with its id and name kept; its key is the id's text when the id is present, else the generated id |
| `Variations.StableIdParsesBack` | graph/src/features/conversation-rates/ui/components/line-chart/utils.ts:10 | a present id can be read back from the key |
| `Variations.StableIdsDistinct` | graph/src/features/conversation-rates/ui/components/line-chart/utils.ts:5-12 | keys are pairwise distinct when the present ids are, the generated ids are, and no generated id spells a present id |
| `Variations.DistinctSpec` | graph/src/features/conversation-rates/ui/components/line-chart/utils.ts:91-95 | listing a `Set` built from a sequence yields exactly its values, each once, ordered by first occurrence |
| `Variations.GetAvailableVariationIds` | graph/src/features/conversation-rates/ui/components/line-chart/utils.ts:88-96 | the ids are the distinct keys in first-occurrence order: a string is listed iff some variation has it as key, and none twice |
| `DailyRates.VariationRateTiers` | graph/src/features/conversation-rates/ui/components/line-chart/utils.ts:26-35 | visits and conversions each come from the series key if truthy, else from the id's text (`"0"` without an id) if truthy, else 0; an entry holding 0 acts as a missing one; with no truthy visits the rate is 0 |
| `DailyRates.ConversionRateBounds` | graph/src/features/conversation-rates/ui/components/line-chart/utils.ts:33-35 | the rate is a whole number of hundredths; it is 0 without positive visits, and in [0, 100] when 0 <= conversions <= visits |
| `DailyRates.RateExample` | graph/src/features/conversation-rates/ui/components/line-chart/utils.ts:33-35 | 50 conversions out of 200 visits give 25 |
| `DailyRates.FormatDailyDate` | graph/src/features/conversation-rates/ui/components/line-chart/utils.ts:42-49 | the label is the day of the month, zero-padded to two digits, or `"NaN"` for an unparseable date |
| `DailyRates.RatesForKeys` | graph/src/features/conversation-rates/ui/components/line-chart/utils.ts:21-36 | a point has a number under a key exactly when some variation has that key |
| `DailyRates.RatesForLastWrite` | graph/src/features/conversation-rates/ui/components/line-chart/utils.ts:23-36 | a key holds the rate of the last variation with that key |
| `DailyRates.PointHoldsEveryRate` | graph/src/features/conversation-rates/ui/components/line-chart/utils.ts:18-38 | with distinct keys, every variation's own rate is in the point |
| `DailyRates.VariationRateIsPercentage` | graph/src/features/conversation-rates/ui/components/line-chart/utils.ts:26-35 | for consistent counts, a rate whose two lookups use the same key is in [0, 100] |
| `DailyRates.BuildPoint` | graph/src/features/conversation-rates/ui/components/line-chart/utils.ts:19-38 | the loop builds the specified point, whose keys are exactly the variations' keys |
| `DailyRates.ProcessData` | graph/src/features/conversation-rates/ui/components/line-chart/utils.ts:14-40 | one point per record, in order, labelled with the record's formatted date, holding exactly the variations' keys |
| `WeeklyRollup.WeekExtent` | graph/src/features/conversation-rates/ui/components/line-chart/utils.ts:58-61 | run k is points 7k to min(7k+7, n)-1: between 1 and 7 points, never empty |
| `WeeklyRollup.WeekCoverage` | graph/src/features/conversation-rates/ui/components/line-chart/utils.ts:58-60 | point j falls in run j/7 at position j%7, so the runs partition the series in order |
| `WeeklyRollup.TenDaysExample` | graph/src/features/conversation-rates/ui/components/line-chart/utils.ts:58-61 | ten days make two weeks, of 7 and 3 days |
| `WeeklyRollup.WeeklySeries` | graph/src/features/conversation-rates/ui/components/line-chart/utils.ts:58-83 | one weekly point per started run of seven, the ceiling of n/7 |
| `WeeklyRollup.WeekLabelSpec` | graph/src/features/conversation-rates/ui/components/line-chart/utils.ts:64-71 | weekly point k is labelled `(start-end)` from the days of the month of source records 7k and min(7k+7, n)-1, an empty date falling back to 1 and 7, and `(1-7)` when the run has no source records |
| `WeeklyRollup.WeekRatesSpec` | graph/src/features/conversation-rates/ui/components/line-chart/utils.ts:74-80 | a weekly point's keys are exactly the variations' keys, each holding that key's weekly value |
| `WeeklyRollup.NumericRatesPresent` | graph/src/features/conversation-rates/ui/components/line-chart/utils.ts:76-77 | no numbers are kept exactly when no point of the run has the key |
| `WeeklyRollup.NumericRatesComplete` | graph/src/features/conversation-rates/ui/components/line-chart/utils.ts:76 | when every point of the run has the key, the numbers are the points' values, in order |
| `WeeklyRollup.NumericRatesFrom` | graph/src/features/conversation-rates/ui/components/line-chart/utils.ts:76 | every number kept is the value of a point that has the key, so it inherits that point's bounds |
| `WeeklyRollup.SumBounds` | graph/src/features/conversation-rates/ui/components/line-chart/utils.ts:78 | the sum of n numbers in [lo, hi] is in [n*lo, n*hi] |
| `WeeklyRollup.MeanBounds` | graph/src/features/conversation-rates/ui/components/line-chart/utils.ts:78 | a mean of numbers in [lo, hi] is in [lo, hi] |
| `WeeklyRollup.RoundedMeanBounds` | graph/src/features/conversation-rates/ui/components/line-chart/utils.ts:78 | the rounded mean is within 0.005 of any bounds of its numbers, and inside them when they are whole hundredths |
| `WeeklyRollup.WeeklyValueBounds` | graph/src/features/conversation-rates/ui/components/line-chart/utils.ts:76-79 | the weekly value is 0 when no point has the key; otherwise it lies between any bounds of the run's values, within the rounding |
| `WeeklyRollup.BuildWeekPoint` | graph/src/features/conversation-rates/ui/components/line-chart/utils.ts:64-80 | the loop builds the specified weekly point: every key holds that key's weekly value, and there are no other keys |
| `WeeklyRollup.AggregateWeeklyData` | graph/src/features/conversation-rates/ui/components/line-chart/utils.ts:51-86 | the stride-7 loop yields the weekly series, one point per run, in order |
| `AxisDomain.SeqMinMaxSpec` | graph/src/features/conversation-rates/ui/components/line-chart/utils.ts:104-115 | the folded `Math.min`/`Math.max` are members of the values and bound all of them |
| `AxisDomain.ItemValuesSpec` | graph/src/features/conversation-rates/ui/components/line-chart/utils.ts:108-114 | the numbers visited at one point are exactly the values of its selected keys |
| `AxisDomain.SelectedValuesSpec` | graph/src/features/conversation-rates/ui/components/line-chart/utils.ts:107-115 | the numbers visited are exactly the values of the selected keys at all points |
| `AxisDomain.ItemValuesEmpty` | graph/src/features/conversation-rates/ui/components/line-chart/utils.ts:108-114 | no number is visited at a point with none of the selected keys |
| `AxisDomain.SelectedValuesEmpty` | graph/src/features/conversation-rates/ui/components/line-chart/utils.ts:107-117 | no number is visited when no point has a selected key |
| `AxisDomain.DomainDefault` | graph/src/features/conversation-rates/ui/components/line-chart/utils.ts:102-117 | the range is [0, 10] with no points, no selection, or no selected number |
| `AxisDomain.NumericWithinExtremes` | graph/src/features/conversation-rates/ui/components/line-chart/utils.ts:107-115 | every selected number lies between the scan's minimum and maximum |
| `AxisDomain.ExtremesAreNumeric` | graph/src/features/conversation-rates/ui/components/line-chart/utils.ts:107-115 | the minimum and the maximum are selected numbers themselves |
| `AxisDomain.SomeValueSelected` | graph/src/features/conversation-rates/ui/components/line-chart/utils.ts:102-117 | one selected number makes the scan non-empty, so the default range is not taken |
| `AxisDomain.DomainBounds` | graph/src/features/conversation-rates/ui/components/line-chart/utils.ts:119-124 | the lower bound is at least 0; every selected number is at most the upper bound and every non-negative one at least the lower bound, each up to the rounding of the bounds (0.005); a negative number is not covered, since the lower bound is floored at 0 |
| `AxisDomain.DomainBoundaryExamples` | graph/src/features/conversation-rates/ui/components/line-chart/utils.ts:119-124 | the limits of the bounds: a selected -1 gives the range (0, -1), below the floored lower bound; a selected 0.126 gives (0.13, 0.13), below the rounded lower bound |
| `AxisDomain.ExtremesOnGrid` | graph/src/features/conversation-rates/ui/components/line-chart/utils.ts:104-115 | when all selected numbers are non-negative whole hundredths, so are the minimum and the maximum |
| `AxisDomain.PaddedCovers` | graph/src/features/conversation-rates/ui/components/line-chart/utils.ts:119-124 | padding by a tenth of the span and rounding never cuts off grid-point extremes |
| `AxisDomain.DomainBoundsOnGrid` | graph/src/features/conversation-rates/ui/components/line-chart/utils.ts:119-124 | when the selected numbers are non-negative whole hundredths, as the chart's rates are, all of them lie within the range exactly |
| `AxisDomain.ItemValuesIgnoreUnselected` | graph/src/features/conversation-rates/ui/components/line-chart/utils.ts:108-114 | points agreeing on the selected keys give the same values |
| `AxisDomain.SelectedValuesIgnoreUnselected` | graph/src/features/conversation-rates/ui/components/line-chart/utils.ts:107-115 | series agreeing on the selected keys give the same values |
| `AxisDomain.DomainIgnoresUnselected` | graph/src/features/conversation-rates/ui/components/line-chart/utils.ts:98-125 | labels and unselected keys never change the range |
| `AxisDomain.ScanPoint` | graph/src/features/conversation-rates/ui/components/line-chart/utils.ts:108-114 | the inner loop extends the running minimum and maximum by one point's selected numbers |
| `AxisDomain.GetYAxisDomain` | graph/src/features/conversation-rates/ui/components/line-chart/utils.ts:98-125 | the nested loops return the specified range, whose lower bound is at least 0 |
| `LineStyleSelect.SomeValueIsSpec` | graph/src/features/conversation-rates/ui/components/line-style-select/LineStyleSelect.tsx:16-18 | `some` holds exactly when an option has the value |
| `LineStyleSelect.RenderedValuesSpec` | graph/src/features/conversation-rates/ui/components/line-style-select/LineStyleSelect.tsx:32-36 | a value is rendered exactly when it is an option's value |
| `LineStyleSelect.HandleChangeSpec` | graph/src/features/conversation-rates/ui/components/line-style-select/LineStyleSelect.tsx:14-23 | a list never reaches `onChange`; a string reaches it once and unchanged iff it is rendered, and is dropped otherwise |
| `LineStyleSelect.RenderedEqualsAccepted` | graph/src/features/conversation-rates/ui/components/line-style-select/LineStyleSelect.tsx:14-36 | the accepted strings are exactly the rendered values, and a string is passed on at most once |
| `LineStyleSelect.OptionValuesDistinct` | graph/src/features/conversation-rates/ui/components/header-controls/const.ts:5-21 | the 15 option values, the React keys of the rendered options, are pairwise distinct |
| `TooltipFormat.ToFixed2Shape` | graph/src/components/tooltip/utils.ts:19 | `toFixed(2)` is the sign, the whole hundreds of the rounded hundredths, a point, then exactly two digits |
| `TooltipFormat.PaddedDigits` | graph/src/components/tooltip/utils.ts:19 | zero-padding to three digits and splitting off two gives the digits of n/100 and the last two digits of n |
| `TooltipFormat.ReplaceFirstAt` | graph/src/components/tooltip/utils.ts:19 | `replace` swaps the first occurrence of the character and nothing else |
| `TooltipFormat.ReplaceFirstAbsent` | graph/src/components/tooltip/utils.ts:19 | `replace` leaves a string without the character unchanged |
| `TooltipFormat.FormatFinite` | graph/src/components/tooltip/utils.ts:19 | a finite number prints as its sign, whole part, a comma, two digits and `%` |
| `TooltipFormat.FormatNotANumber` | graph/src/components/tooltip/utils.ts:14-20 | the text is `"N/A"` exactly when `Number(value)` is NaN |
| `TooltipFormat.FormatFiniteShape` | graph/src/components/tooltip/utils.ts:19 | a finite number's text ends in `%`, holds no `.`, and has one comma, followed by exactly two digits |
| `TooltipFormat.ParseUnsignedParts` | graph/src/components/tooltip/utils.ts:19 | the unsigned text reads back as its whole part times 100 plus its two digits |
| `TooltipFormat.UnsignedRoundTrip` | graph/src/components/tooltip/utils.ts:19 | the printed unsigned part reads back as the rounded hundredths |
| `TooltipFormat.FormatRoundTrip` | graph/src/components/tooltip/utils.ts:14-20 | reading the text back gives the rounded number of hundredths, sign included, so nothing but the rounding is lost |
| `TooltipFormat.HundredthsRound` | graph/src/components/tooltip/utils.ts:19 | a number of whole hundredths rounds to itself |
| `TooltipFormat.FormatHundredthsRoundTrip` | graph/src/components/tooltip/utils.ts:14-20 | a value in whole hundredths, like every chart rate, prints as text that reads back unchanged |
| `TooltipFormat.FormatHundredthsInjective` | graph/src/components/tooltip/utils.ts:14-20 | distinct hundredths values print differently |
| `ConversationRates.ProcessedEmptiness` | graph/src/features/conversation-rates/ui/components/conversation-rates-component/ConversationRatesComponent.tsx:67-80 | the memoised series is empty exactly when there are no variations or no records, whatever the time range |
| `ConversationRates.ComputeProcessed` | graph/src/features/conversation-rates/ui/components/conversation-rates-component/ConversationRatesComponent.tsx:67-73 | the memo: nothing without variations, the daily series for `"day"`, else its weekly rollup |
| `ConversationRates.FindIndex` | graph/src/features/conversation-rates/ui/components/conversation-rates-component/ConversationRatesComponent.tsx:132-133 | `findIndex` finds the first point with the label, or reports that none has it |
| `ConversationRates.ZoomRange` | graph/src/features/conversation-rates/ui/components/conversation-rates-component/ConversationRatesComponent.tsx:132-138 | the range runs from the first point with one label to the first point with the other (`findIndex`), the lower index first; it is missing iff a label is missing, and spans two points or more for distinct labels |
| `ConversationRates.PushZoom` | graph/src/features/conversation-rates/ui/components/conversation-rates-component/ConversationRatesComponent.tsx:141 | pushing a zoom of the last window keeps every history entry a zoom of the one before |
| `ConversationRates.SliceOfSlice` | graph/src/features/conversation-rates/ui/components/conversation-rates-component/ConversationRatesComponent.tsx:138 | a slice of a slice is a slice |
| `ConversationRates.ChainedZoomsAreSlices` | graph/src/features/conversation-rates/ui/components/conversation-rates-component/ConversationRatesComponent.tsx:138-141 | after any number of zooms the last window is a contiguous run of the first, of at least two points once zoomed |
| `ConversationRates.ConversationRatesComponent.constructor` | graph/src/features/conversation-rates/ui/components/conversation-rates-component/ConversationRatesComponent.tsx:49-55 | after loading, the keys are assigned, all distinct keys are selected, the time range is `"day"`, and the daily series is the window and the only history entry (none if it is empty) |
| `ConversationRates.ConversationRatesComponent.HandleZoom` | graph/src/features/conversation-rates/ui/components/conversation-rates-component/ConversationRatesComponent.tsx:82-86 | zoom mode is on and nothing else changes |
| `ConversationRates.ConversationRatesComponent.HandleResetZoom` | graph/src/features/conversation-rates/ui/components/conversation-rates-component/ConversationRatesComponent.tsx:88-93 | back to the full series with a one-entry history, no drag, zoom mode off, so reset is disabled afterwards |
| `ConversationRates.ConversationRatesComponent.HandleMouseDown` | graph/src/features/conversation-rates/ui/components/conversation-rates-component/ConversationRatesComponent.tsx:95-108 | in zoom mode, a non-empty label starts a drag at that label; any other event leaves the drag as it was |
| `ConversationRates.ConversationRatesComponent.HandleMouseMove` | graph/src/features/conversation-rates/ui/components/conversation-rates-component/ConversationRatesComponent.tsx:110-120 | a non-empty label other than the drag's start moves the drag's right end; the left end never moves and no drag starts or ends |
| `ConversationRates.ConversationRatesComponent.HandleMouseUp` | graph/src/features/conversation-rates/ui/components/conversation-rates-component/ConversationRatesComponent.tsx:122-146 | a drag that never left its start is dropped and zoom mode stays on; otherwise, if both labels are found, the points between them, inclusive, become the window and are pushed on the history; found or not, the drag ends and zoom mode is left |
| `ConversationRates.ConversationRatesComponent.HandleVariationSelect` | graph/src/features/conversation-rates/ui/components/conversation-rates-component/ConversationRatesComponent.tsx:180-186 | only a non-empty list replaces the selection, so a non-empty selection never becomes empty |
| `ConversationRates.ConversationRatesComponent.HandleTimeRangeChange` | graph/src/features/conversation-rates/ui/components/conversation-rates-component/ConversationRatesComponent.tsx:188-193 | a string sets the range and resets the zoom; the window and the only history entry are then the series for the new range; a list changes nothing |
| `ConversationRates.ConversationRatesComponent.WindowWithinSeries` | graph/src/features/conversation-rates/ui/components/conversation-rates-component/ConversationRatesComponent.tsx:29-35 | in every reachable state the window is a contiguous run of the full series, and it has at least two points while reset is enabled |

The component's invariant, `Valid()`, is kept by the constructor and by
every handler. It says:

- the memoised series matches the time range;
- the history starts with the full series and ends with the window;
- each history entry is a zoom of at least two points of the entry before;
- a drag exists only in zoom mode, between non-empty labels.

## Left out

- Loading: the fetch of `/data.json`, the loading flag and the error view are not modelled (network I/O). The constructor starts from the loaded dataset (`ConversationRatesComponent.tsx:40-65`).
- The rest of the component: PNG export (DOM and `html-to-image`), the theme toggle, `handleLineStyleChange` (a plain setter) and all JSX rendering are not modelled.
- React scheduling is left out. Each handler is one atomic step, and the memo and the effect that follow it are folded into the same step.
- Generated ids: `uuidv4()` is supplied as a parameter, and its randomness is not modelled.
- Dates: `new Date(...)` parsing is a parameter, and calendar arithmetic is not modelled. The source's `try`/`catch` around it can never fire. An unparseable date therefore gets the label `"NaN"`, not the raw string. The model follows the code here.
- Rate formula: the code tests `visits > 0` and ignores entries holding 0 (the `||` chain). The model follows the code in both places.
- `"0"` fallback key: a variation without an id falls back to the record's `"0"` entry. The model keeps this quirk (`DailyRates.IdKey`).
- Numbers: IEEE doubles are exact reals in this model. Binary rounding, `toFixed`'s exponent notation at 10^21 and above, and overflow are not modelled.
- Ids: an `id` is an integer, and its text is its decimal digits.
- Coercion: `Number()` of strings and objects in the tooltip is not modelled. Only `undefined`, `null`, booleans and numbers are.
- Keys named `"date"`: in the source the label is stored under `"date"` beside the rates, so a series key `"date"` would read the label. The model keeps the label apart in every module.
- `AxisDomain.DomainBounds`: for arbitrary values it bounds the numbers only up to the rounding of the range (0.005), and it bounds negative numbers from above only. The source floors the lower bound at 0 (`utils.ts:122`), so a negative number lies below the range; an off-grid number can lie just below the rounded lower bound (`AxisDomain.DomainBoundaryExamples`). The exact containment is `AxisDomain.DomainBoundsOnGrid`, for non-negative values in whole hundredths. The rates of `processData` and `aggregateWeeklyData` are always whole hundredths, and non-negative whenever the counts are.
- `WeeklyRollup.WeeklyValueBounds`: for arbitrary bounds it holds only up to 0.005. It is exact when the bounds are whole hundredths.
- `Variations.StableIdsDistinct`: it proves keys distinct only under the stated conditions on ids and generated ids. The source does not resolve collisions between natural ids.
- `ConversationRates.ConversationRatesComponent.HandleMouseDown`: a missing event and an event without an active label are both `None`, because both leave the state as it was.
