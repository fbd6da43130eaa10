# Nicole's visual boost: a verified model of the slide logic

The repository is a slide deck for a coaching programme. A Supabase edge function asks an AI
gateway for slide data as JSON, and React components render that data. This project models the
logic around the markup, one Dafny module per source file:

- the edge function `generate-slides`: request validation, the mapping of the gateway's outcome
  to a status and a JSON body, and the removal of markdown fences from the model's reply
  (`GenerateSlides`);
- the em/en dash sanitiser `stripDashes` (`Sanitize`);
- the compact number formatting (`formatNum`, `formatTotal`, `fmtCurrency`), the income pie
  with its remainder slice, its segment counts, its double-click drill-down and the per-country
  percentages (`MarketSlide`, `CountryBreakdown`, `TargetMarketSlide`);
- the revenue roadmap series (`RevenueRoadmap`);
- the small state machines of the interactive slides: funnel steps and time frame
  (`FunnelSlide`), audience bars and overlays (`AudienceSlide`), the variables panel with its
  unsaved-changes test (`VariablesPanel`), and the 24-hour countdown (`Countdown`);
- the defaulting of partial AI data on the case-study and partner slides (`CaseStudySlide`,
  `PartnerSlide`).

Shared modules model the JavaScript built-ins the code relies on:
- `JsNumber`: `parseInt` (ECMA-262 section 19.2.5), `String` of an integer, `toFixed` on exact
  quotients (ECMA-262 section 21.1.3.3), `Math.round` and en-US `toLocaleString` grouping.
- `JsText`: white space, `trim`, single-character `replace`, and `||` on strings.
- `Json`: JSON-like values, truthiness, property access, `String(v)`, and lookups in object
  literals, which also find the names every object inherits from `Object.prototype`.
- `Selection`: the click-to-toggle rule shared by several slides.

State that the source keeps in React hooks is a class whose methods update its fields. Timers
(`Date.now`, `setInterval`) become a time parameter and a tick method. The fetch, the
environment and `JSON.parse` are inputs of the handler.

Three behaviours of the code that are easy to miss:
- Cleaning a reply removes only the fences. A reply such as "Sure! ```json {...} ```" keeps
  its prose and so does not parse (`GenerateSlides.CleanKeepsProse`).
- In the target-market slide an out-of-range selection shows an empty centre. It does not fall
  back to the whole market (`TargetMarketSlide.CentreFigure`).
- The drill-down of the market slide indexes `segmentKeys` directly, not through `idxToKey`,
  so an index past the last key looks up a property named "undefined"
  (`MarketSlide.DrillCountryData`).

## Model

| member | source | states |
|---|---|---|
| Sanitize.ReplaceDashes | src/lib/utils.ts:19 | every U+2014 and U+2013 becomes '-', every other character is kept, so the length is kept; no dash is left |
| Sanitize.StripDashes | src/lib/utils.ts:18-27 | the result holds no dash in any string, and has the input's shape: same constructors, array lengths and order, object keys and order, same scalars (an own `__proto__` key is kept; see "Left out") |
| Sanitize.CorrespondsUnique | src/lib/utils.ts:18-27 | that shape relation pins the result down: any value related to the input that way is the sanitiser's output |
| Sanitize.StripDashFree | src/lib/utils.ts:18-27 | a value with no dash left comes back unchanged |
| Sanitize.StripIdempotent | src/lib/utils.ts:18-27 | sanitising twice equals sanitising once |
| Sanitize.StripScalars | src/lib/utils.ts:21-26 | numbers, booleans, null, undefined and dash-free strings are returned unchanged |
| GenerateSlides.Handle | supabase/functions/generate-slides/index.ts:121-225 | OPTIONS gives 200, no body, CORS headers and nothing else; other requests get JSON headers; the gateway is called exactly for a well-formed request with day 1, 2 or 3, convertible answers and a configured key; the status is one of 200, 400, 402, 429, 500 |
| GenerateSlides.Respond | supabase/functions/generate-slides/index.ts:121-225 | for either day test: a preflight gets CORS headers and no body, other answers JSON headers; the gateway is called exactly for a well-formed request with a key; a missing key is a 500 naming it; a body that `req.json()` rejects is a 500 with the error's message and no call; the status is one of 200, 400, 402, 429, 500 |
| GenerateSlides.AfterFetch | supabase/functions/generate-slides/index.ts:149-223 | after the gateway call the status is 200, 402, 429 or 500, and it is 200 exactly when the body is the success envelope; a rejected `fetch`, and an ok reply that `response.json()` rejects, give 500 with the error's message (the outer catch) |
| GenerateSlides.HandleMissingFields | supabase/functions/generate-slides/index.ts:129-134 | a falsy day (0 included) or falsy answers gives 400 "Missing 'day' or 'answers' field" without calling the gateway |
| GenerateSlides.HandleInvalidDay | supabase/functions/generate-slides/index.ts:136-142 | a day other than 1, 2, 3 gives 400 "Invalid day: <day>. Must be 1, 2, or 3." without calling the gateway |
| GenerateSlides.HandleMissingApiKey | supabase/functions/generate-slides/index.ts:144-147 | a valid request without a configured key gives 500 with the key's error message and no gateway call |
| GenerateSlides.HandleUpstreamStatus | supabase/functions/generate-slides/index.ts:170-189 | a gateway status outside 200-299 maps 429 to 429 and 402 to 402 with their messages, and anything else to 500 "AI generation failed" |
| GenerateSlides.HandleNoContent | supabase/functions/generate-slides/index.ts:191-199 | an ok reply with missing or falsy content gives 500 "No content returned from AI" |
| GenerateSlides.HandleParseFailureRaw | supabase/functions/generate-slides/index.ts:207-213 | a parse failure gives 500 whose `raw` is the reply content as received, before cleaning |
| GenerateSlides.HandleSuccess | supabase/functions/generate-slides/index.ts:215-217 | a 200 echoes the request's day and carries what `JSON.parse` made of the cleaned content |
| GenerateSlides.DayAccepted | supabase/functions/generate-slides/index.ts:136-137 | the strict test accepts exactly "1", "2" and "3"; the plain lookup accepts those and exactly the `Object.prototype` names besides |
| GenerateSlides.HandleAsWritten | supabase/functions/generate-slides/index.ts:136-142 | with the day test as written, the gateway is called also for days named after `Object.prototype` members |
| GenerateSlides.AsWrittenDiffersOnlyOnPrototypeNames | supabase/functions/generate-slides/index.ts:136 | the written and corrected handlers disagree only when the day's text is an `Object.prototype` name |
| GenerateSlides.PrototypeDayReachesGateway | supabase/functions/generate-slides/index.ts:136-142 | day "constructor" reaches the gateway as written, while the corrected handler answers 400 "Invalid day" |
| GenerateSlides.RemoveToken | supabase/functions/generate-slides/index.ts:205 | one global fence removal pass never lengthens the text; text that starts with the token loses at least the token; backtick-free text passes through unchanged |
| GenerateSlides.RemoveFenceNoFence | supabase/functions/generate-slides/index.ts:205 | after the "```" pass no three backticks in a row are left |
| GenerateSlides.RemoveFenceKeepsLeadingBackticks | supabase/functions/generate-slides/index.ts:205 | leading backticks that survive the "```" pass were already leading backticks of the input |
| GenerateSlides.CleanFences | supabase/functions/generate-slides/index.ts:205 | the cleaned reply holds no fence, whatever the model sent, and has no white space at either end |
| GenerateSlides.RemoveTokenPrefix | supabase/functions/generate-slides/index.ts:205 | text without backticks passes a removal pass untouched, and so does the rest after it |
| GenerateSlides.OpeningFenceRemoved | supabase/functions/generate-slides/index.ts:205 | the opening "```json" fence goes together with the newline after it |
| GenerateSlides.CleanKeepsProse | supabase/functions/generate-slides/index.ts:205 | a reply wrapped in a json fence cleans to the surrounding prose plus the fenced text, trimmed |
| GenerateSlides.CleanPlain | supabase/functions/generate-slides/index.ts:205 | a reply without backticks is only trimmed |
| JsNumber.ParseIntOfIntToString | src/components/dynamic/DynamicSlide4.tsx:30 | `parseInt` reads back every integer that `String` prints |
| JsNumber.LeadingDigitsStop | src/components/dynamic/DynamicSlide4.tsx:30 | `parseInt` stops at the first character that is not a digit |
| JsNumber.ParseInt | src/components/dynamic/DynamicSlide4.tsx:30 | empty text, and text starting with a character that is not white space, a sign or a digit, is NaN |
| JsNumber.ParseIntOfNumeral | src/components/dynamic/DynamicSlide4.tsx:30 | a plain numeral parses as its value |
| JsNumber.RoundHalfUpNearest | src/components/dynamic/DynamicSlide4.tsx:32-33 | `toFixed(0)` on an exact quotient gives the nearest integer, the larger one on a tie |
| JsNumber.NearestUnique | src/components/dynamic/DynamicSlide4.tsx:32-33 | only one integer meets that nearest-with-ties-up rule |
| JsNumber.ToFixed | src/components/dynamic/DynamicSlide4.tsx:32-33 | the text is a numeral, with a minus sign exactly for a negative quotient; with no decimals it is the numeral of the quotient rounded half up |
| JsNumber.MathRound | src/components/dynamic/DynamicSlide4.tsx:170 | `Math.round(x)` lies within a half of x, ties upward |
| JsNumber.UngroupReadsBack | src/components/dynamic/DynamicSlide4.tsx:168-171 | an en-US grouped count with its commas stripped reads back through `parseInt` as the count |
| JsNumber.Grouped | src/components/dynamic/DynamicSlide4.tsx:171 | a count below a thousand in size prints as `String` does; a larger one has a comma before its last three characters (that it reads back is `UngroupReadsBack`) |
| JsNumber.ShareInRange | src/components/Slide3DrillDown.tsx:159 | the whole percentage of a part of a positive whole lies in 0..100 |
| JsText.Trim | supabase/functions/generate-slides/index.ts:205 | `trim` returns the slice left after white space is dropped at both ends, and the result neither starts nor ends with white space |
| JsText.TrimDropsOnlySpace | supabase/functions/generate-slides/index.ts:205 | only white space lies outside the trimmed slice |
| JsText.RemoveChar | src/components/dynamic/DynamicSlide4.tsx:30 | `replace(/,/g, "")` leaves no comma, and text without commas is unchanged |
| JsText.OrElse | src/components/dynamic/DynamicSlide6.tsx:26-32 | `s \|\| fallback` is s when s is a non-empty string, else the fallback |
| Json.Truthy | supabase/functions/generate-slides/index.ts:129 | a value is falsy exactly when it is undefined, null, false, 0 or the empty string |
| Json.Field | supabase/functions/generate-slides/index.ts:127 | an own property is found among the members, and a missing key gives undefined |
| Json.RecordGet | supabase/functions/generate-slides/index.ts:136 | an object-literal lookup finds an own entry exactly for its keys, and an inherited member exactly for other `Object.prototype` names |
| Json.StringOf | src/components/VariablesPanel.tsx:49 | `String(v)` of a string is itself, of an integer its numeral, and of an object it fails exactly when the object has its own `toString` |
| MarketSlide.FormatNum | src/components/dynamic/DynamicSlide4.tsx:29-35 | text holding no number comes back unchanged; a number follows the compact rules |
| MarketSlide.Compact | src/components/dynamic/DynamicSlide4.tsx:32-34 | below 1,000 the original text; thousands as the rounded count of thousands plus "K"; millions with 0 decimals when whole, 1 decimal otherwise, plus "M" |
| MarketSlide.ExactMillions | src/components/dynamic/DynamicSlide4.tsx:32 | a whole number of millions prints with no decimals |
| MarketSlide.ThousandsNearest | src/components/dynamic/DynamicSlide4.tsx:33 | the "K" figure is the nearest whole number of thousands, ties upward |
| MarketSlide.MillionsNearestTenth | src/components/dynamic/DynamicSlide4.tsx:32 | the one-decimal "M" figure is the nearest tenth of a million, ties upward |
| MarketSlide.ReadsAs | src/components/dynamic/DynamicSlide4.tsx:30 | a comma-grouped figure reads as its number |
| MarketSlide.FormatNumJustUnderMillion | src/components/dynamic/DynamicSlide4.tsx:33 | "999,999" shows as "1000K" |
| MarketSlide.FormatNumOfGroupedMillions | src/components/dynamic/DynamicSlide4.tsx:30-32 | a grouped figure of millions that are not whole prints with one decimal and "M" |
| MarketSlide.FormatNumKeepsZeroDecimal | src/components/dynamic/DynamicSlide4.tsx:32 | "12,000,001" shows as "12.0M" |
| MarketSlide.FormatNumNotANumber | src/components/dynamic/DynamicSlide4.tsx:30-31 | text that does not start with a sign, digit, comma or white space comes back unchanged, "n/a" among them |
| MarketSlide.FormatNumBelowThousand | src/components/dynamic/DynamicSlide4.tsx:34 | "850" comes back as written |
| MarketSlide.PieSegments | src/components/dynamic/DynamicSlide4.tsx:149 | the segments after "All", in order |
| MarketSlide.FullPieData | src/components/dynamic/DynamicSlide4.tsx:148-161 | "Under $100K" first, with max(0, 100 − the sum of the other percentages), never negative, then every segment after "All" in order |
| MarketSlide.FullPieTotal | src/components/dynamic/DynamicSlide4.tsx:156-161 | the slices add up to 100, or to the segments' own sum when that exceeds 100 |
| MarketSlide.SlicePercent | src/components/dynamic/DynamicSlide4.tsx:169 | an index with no slice has percentage 0 |
| MarketSlide.AllTotal | src/components/dynamic/DynamicSlide4.tsx:164 | the stated total when it is non-empty, otherwise "0"; never empty |
| MarketSlide.ActiveCouples | src/components/dynamic/DynamicSlide4.tsx:174 | the whole market's total when nothing is selected; for a slice, text that reads back as the slice's count (NaN exactly when that count is NaN) |
| MarketSlide.SegmentCount | src/components/dynamic/DynamicSlide4.tsx:167-170 | the count is NaN exactly when the total does not parse; otherwise it is within a half of the exact share of the total |
| MarketSlide.SegmentCountOutOfRange | src/components/dynamic/DynamicSlide4.tsx:167-172 | an index with no pie entry counts 0 |
| MarketSlide.GetSegmentCount | src/components/dynamic/DynamicSlide4.tsx:167-172 | the text shown is the count in en-US grouping, and reading it back gives the count |
| MarketSlide.NaNText | src/components/dynamic/DynamicSlide4.tsx:171 | "NaN" does not read as a number |
| MarketSlide.CentreShowsCompactCount | src/components/dynamic/DynamicSlide4.tsx:174 | the centre label of a slice is the compact form of its count |
| MarketSlide.MarketPie.constructor | src/components/dynamic/DynamicSlide4.tsx:143-145 | the whole market is selected, no drill-down is open, no click is recorded |
| MarketSlide.MarketPie.PieClick | src/components/dynamic/DynamicSlide4.tsx:176-186 | a click on the recorded slice within 400 ms sets the drill-down to that slice and clears the record, and the overlay then shows exactly when the slice is not slice 0; any other click selects the slice and records it with its time |
| MarketSlide.MarketPie.PieHover | src/components/dynamic/DynamicSlide4.tsx:232 | hovering selects the slice and changes nothing else |
| MarketSlide.MarketPie.CentreClick | src/components/dynamic/DynamicSlide4.tsx:239 | the centre goes back to the whole market |
| MarketSlide.MarketPie.LegendClick | src/components/dynamic/DynamicSlide4.tsx:254 | legend entry 0 selects the whole market, entry i the slice i |
| MarketSlide.MarketPie.LegendDoubleClick | src/components/dynamic/DynamicSlide4.tsx:254 | a legend double click opens the drill-down of every entry but "All"; afterwards the overlay shows exactly when the entry is above 0 or it showed before |
| MarketSlide.MarketPie.CloseDrillDown | src/components/dynamic/DynamicSlide4.tsx:294 | closing the drill-down changes nothing else |
| MarketSlide.DoubleClickOpensDrillDown | src/components/dynamic/DynamicSlide4.tsx:176-186 | two clicks on one slice less than 400 ms apart set the drill-down to that slice, whatever came before; the overlay then shows for every slice but slice 0 ("Under $100K"), for which nothing opens |
| MarketSlide.IdxToKey | src/components/dynamic/DynamicSlide4.tsx:189 | a slice index maps to its key, any other index to "all" |
| MarketSlide.DrillCountryData | src/components/dynamic/DynamicSlide4.tsx:293 | the countries of the slice's key, {} when that key has none, and past the last key the record of a key named "undefined" or {} |
| MarketSlide.DrillDownOverlay | src/components/dynamic/DynamicSlide4.tsx:288-295 | the overlay renders exactly when a drill-down index above 0 is set, so never for slice 0 or none; it then carries that index, a non-empty colour, the slice's label and its country record |
| MarketSlide.DrillColor | src/components/dynamic/DynamicSlide4.tsx:291 | the slice's own colour when it has one, otherwise the fallback green; never empty |
| MarketSlide.DrillLabel | src/components/dynamic/DynamicSlide4.tsx:292 | a non-empty label exactly for the four slice indexes, the slice's own label |
| MarketSlide.Entry | src/components/dynamic/DynamicSlide4.tsx:75-78 | a country's stored text when it is non-empty, otherwise "0"; never empty |
| MarketSlide.CountryPercent | src/components/dynamic/DynamicSlide4.tsx:114-115 | the percentage is "0" when the total is not positive |
| MarketSlide.CountryPercentBounds | src/components/dynamic/DynamicSlide4.tsx:114-115 | a country's share of a positive total is the nearest whole percentage, in 0..100 |
| MarketSlide.MissingCountryIsZero | src/components/dynamic/DynamicSlide4.tsx:75-78 | a missing country counts 0 and gets a 0% bar |
| CountryBreakdown.BreakdownOf | src/components/Slide3DrillDown.tsx:7-44 | there is a breakdown exactly for the segment indexes 0..3, one per segment name, so any other index renders nothing |
| CountryBreakdown.FormatTotal | src/components/Slide3DrillDown.tsx:57-62 | `formatTotal` agrees with the market slide's `formatNum` on every input, NaN included |
| CountryBreakdown.CountriesSumToTotal | src/components/Slide3DrillDown.tsx:7-44 | each segment's country counts add up exactly to its stated total, and the total is the grouped numeral of that sum |
| CountryBreakdown.CountryPercent | src/components/Slide3DrillDown.tsx:159 | an unreadable total gives "NaN", a zero total "NaN" or "Infinity", any other a numeral, and a positive total the nearest whole percentage |
| CountryBreakdown.FormatTotalOfNumeral | src/components/Slide3DrillDown.tsx:57-62 | on a plain numeral `formatTotal` applies the compact rules to the number itself |
| CountryBreakdown.ThousandsLabel | src/components/Slide3DrillDown.tsx:60 | a whole number of thousands prints as that many "K" |
| CountryBreakdown.MillionsLabel | src/components/Slide3DrillDown.tsx:59 | a whole number of hundred thousands that is not whole millions prints with its one decimal and "M" |
| CountryBreakdown.LabelsMatchCounts | src/components/Slide3DrillDown.tsx:7-44 | every stored country label equals `formatTotal` of its count |
| CountryBreakdown.PercentOfConsistentBreakdown | src/components/Slide3DrillDown.tsx:159 | when the total reads as the positive sum of the countries, every bar width is the nearest whole percentage in 0..100 |
| CountryBreakdown.PercentagesInRange | src/components/Slide3DrillDown.tsx:159 | every bar width of the table is a whole percentage in 0..100 |
| CountryBreakdown.DrillHover.constructor | src/components/Slide3DrillDown.tsx:71 | nothing is hovered at first |
| CountryBreakdown.DrillHover.Enter | src/components/Slide3DrillDown.tsx:166 | entering a country or slice highlights it |
| CountryBreakdown.DrillHover.Leave | src/components/Slide3DrillDown.tsx:167 | leaving clears the highlight |
| TargetMarketSlide.FormatNum | src/components/dynamic/DynamicSlide3.tsx:36-41 | without a NaN test, the result still equals the market slide's `formatNum`, so unparseable text comes back unchanged |
| TargetMarketSlide.PieData | src/components/dynamic/DynamicSlide3.tsx:62-68 | one entry per segment, in order, with its percentage, count and colour COLORS[i mod 4] |
| TargetMarketSlide.ColorsCycle | src/components/dynamic/DynamicSlide3.tsx:66 | colours repeat every four slices, and four neighbouring slices never share one |
| TargetMarketSlide.FirstMatch | src/components/dynamic/DynamicSlide3.tsx:72 | finds the leftmost match of the unit pattern, and there is no earlier match |
| TargetMarketSlide.StripUnit | src/components/dynamic/DynamicSlide3.tsx:72 | the first match with its leading white space is removed, or the text is kept when there is none |
| TargetMarketSlide.TotalWithoutUnit | src/components/dynamic/DynamicSlide3.tsx:72 | text that never mentions the unit is only trimmed |
| TargetMarketSlide.TotalCouples | src/components/dynamic/DynamicSlide3.tsx:72 | the total has no white space at either end and is no longer than the size text |
| TargetMarketSlide.TotalOfFigureWithUnit | src/components/dynamic/DynamicSlide3.tsx:72 | a figure, white space and "household" or "households" in any case give back the figure |
| TargetMarketSlide.TotalOfSample | src/components/dynamic/DynamicSlide3.tsx:72 | "1,200,000 Households" shows as "1,200,000" |
| TargetMarketSlide.CentreFigure | src/components/dynamic/DynamicSlide3.tsx:76-77 | "all" shows the compact total; a valid index shows that slice's compact count; an out-of-range index shows "" |
| TargetMarketSlide.CentreCaption | src/components/dynamic/DynamicSlide3.tsx:148 | "total market", the slice's name, or "" |
| TargetMarketSlide.OneSliceStandsOut | src/components/dynamic/DynamicSlide3.tsx:139 | with one slice selected, no two slices are drawn at full strength |
| TargetMarketSlide.TargetPie.constructor | src/components/dynamic/DynamicSlide3.tsx:60 | the selection starts at "all" |
| TargetMarketSlide.TargetPie.PieHover | src/components/dynamic/DynamicSlide3.tsx:133 | hovering a slice selects it |
| TargetMarketSlide.TargetPie.CentreClick | src/components/dynamic/DynamicSlide3.tsx:146 | a click on the centre resets the selection to "all" |
| TargetMarketSlide.TargetPie.LegendClick | src/components/dynamic/DynamicSlide3.tsx:164 | a legend click selects slice i |
| TargetMarketSlide.CentreClickShowsTotal | src/components/dynamic/DynamicSlide3.tsx:146-148 | after a centre click the total and "total market" are shown, whatever was selected |
| TargetMarketSlide.LegendClickShowsSlice | src/components/dynamic/DynamicSlide3.tsx:147-164 | after a legend click on an existing slice its count and name are shown |
| RevenueRoadmap.RevenuePerWeek | src/components/Slide8.tsx:19 | the weekly revenue of a plan with positive figures is positive |
| RevenueRoadmap.CeilDiv | src/components/Slide8.tsx:20 | `Math.ceil(a / b)` is the least q with a ≤ q·b |
| RevenueRoadmap.WeeksToGoal | src/components/Slide8.tsx:20 | `weeksToGoal` is the first week whose revenue reaches the goal, at least 1 |
| RevenueRoadmap.TotalPoints | src/components/Slide8.tsx:23 | at least 6 points, and at least two past the goal week |
| RevenueRoadmap.MonthlyLabels | src/components/Slide8.tsx:26 | monthly labels are used exactly when the goal is more than ten weeks away |
| RevenueRoadmap.RevenueCents | src/components/Slide8.tsx:30 | a week's revenue is the smaller of the weekly rate times the week and 115% of the goal (`Math.min`) |
| RevenueRoadmap.WeekLabel | src/components/Slide8.tsx:34-38 | in monthly mode only weeks divisible by 4 are labelled, "M" followed by week/4 as `String` prints it; otherwise "W" followed by the week |
| RevenueRoadmap.ChartData | src/components/Slide8.tsx:28-40 | one point per week, `totalPoints` of them, week i+1 at index i with its capped revenue and label |
| RevenueRoadmap.WeeksConsecutive | src/components/Slide8.tsx:28-29 | weeks run 1, 2, 3, … without a gap |
| RevenueRoadmap.RevenueNonDecreasing | src/components/Slide8.tsx:30 | the series never goes down |
| RevenueRoadmap.RevenueReachesGoal | src/components/Slide8.tsx:20-30 | a week's capped revenue reaches the goal exactly from week `weeksToGoal` on |
| RevenueRoadmap.GoalFirstReachedAtWeeksToGoal | src/components/Slide8.tsx:20-30 | a point reaches the goal exactly from week `weeksToGoal` on, and the chart runs at least two weeks past it |
| RevenueRoadmap.LabelsFollowMode | src/components/Slide8.tsx:34-38 | in monthly mode exactly every fourth week is labelled, with "M" and a number that `parseInt` reads back as week/4; otherwise every week has "W" and a number that reads back as the week |
| RevenueRoadmap.WholeDollars | src/components/Slide8.tsx:46 | an amount below $1,000 is printed as its whole dollars |
| RevenueRoadmap.FmtCurrency | src/components/Slide8.tsx:43-47 | the text starts with "$" and ends with "M" exactly from a million, with "K" exactly from a thousand below a million, and with a digit below a thousand; from a thousand below a million the figure is the amount in thousands rounded half up |
| RevenueRoadmap.ThousandsRounded | src/components/Slide8.tsx:45 | from $1,000 below a million the "K" figure is the nearest whole thousand, halves rounded up |
| RevenueRoadmap.DollarDigitsReadsAsAmount | src/components/Slide8.tsx:46 | `String(v)` of a dollar amount: the whole dollars, then a point and the cents only when there are any, with a trailing zero dropped |
| RevenueRoadmap.ThousandsCurrency | src/components/Slide8.tsx:45 | a whole number of thousands below a million prints as "$kK" |
| RevenueRoadmap.MillionsCurrency | src/components/Slide8.tsx:44 | a million dollars or more prints as the nearest tenth of a million with "M" |
| RevenueRoadmap.TooltipClients | src/components/Slide8.tsx:56 | the smaller of the clients signed so far and the clients needed for the goal |
| RevenueRoadmap.TooltipClientsPayForRevenue | src/components/Slide8.tsx:56 | the tooltip's client count pays for the week's revenue up to the goal, and never exceeds the clients the goal needs |
| RevenueRoadmap.WeeksLabel | src/components/Slide8.tsx:62-64 | "~… months" in monthly mode, otherwise a number followed by " weeks" |
| RevenueRoadmap.MonthsCaption | src/components/Slide8.tsx:62-63 | in monthly mode the caption counts months, rounded up, and there are at least three |
| RevenueRoadmap.WeeksCaption | src/components/Slide8.tsx:64 | otherwise it counts weeks, and its number reads back as `weeksToGoal` |
| RevenueRoadmap.SlidePlanFigures | src/components/Slide8.tsx:14-64 | the slide's constants give 6 weeks, 8 points, weekly labels, a $138K cap, "6 weeks" and "$120K" |
| FunnelSlide.Shown | src/components/dynamic/DynamicSlide2.tsx:93 | the figures shown are exactly those of the chosen time frame |
| FunnelSlide.Width | src/components/dynamic/DynamicSlide2.tsx:138-144 | every step's width is a percentage in 1..100 |
| FunnelSlide.Number | src/components/dynamic/DynamicSlide2.tsx:138-144 | each step shows the figure of its own name: leads, conversations, clients, revenue |
| FunnelSlide.WidthsNarrow | src/components/dynamic/DynamicSlide2.tsx:138-144 | widths strictly decrease down the funnel from 100 |
| FunnelSlide.LitSteps | src/components/dynamic/DynamicSlide2.tsx:40 | a step is lit exactly when it is the revenue step or the open one, so revenue is always lit and at most one other step is |
| FunnelSlide.Lit | src/components/dynamic/DynamicSlide2.tsx:40 | the revenue step is always lit, the open step too, and with nothing open only the revenue step is |
| FunnelSlide.Funnel.constructor | src/components/dynamic/DynamicSlide2.tsx:91-92 | the year is shown and no step is open |
| FunnelSlide.Funnel.StepClick | src/components/dynamic/DynamicSlide2.tsx:138-144 | clicking the open step closes it, clicking another opens that one; the time frame is kept |
| FunnelSlide.Funnel.SetTimeFrame | src/components/dynamic/DynamicSlide2.tsx:152 | the buttons set the time frame and keep the open step |
| FunnelSlide.ChooseTimeFrame | src/components/dynamic/DynamicSlide2.tsx:93-152 | after choosing a time frame every step shows that frame's figure |
| FunnelSlide.ClickTwice | src/components/dynamic/DynamicSlide2.tsx:138-144 | two clicks on one step restore its open state |
| Selection.Toggled | src/components/dynamic/DynamicSlide5.tsx:232 | the result is empty exactly when the clicked item was the open one, and otherwise it is the clicked item |
| AudienceSlide.Channels | src/components/dynamic/DynamicSlide5.tsx:175 | missing channels give [], present ones are kept |
| AudienceSlide.TotalAudience | src/components/dynamic/DynamicSlide5.tsx:176 | a missing or empty total audience gives "" |
| AudienceSlide.Sources | src/components/dynamic/DynamicSlide5.tsx:177 | missing sources give [] |
| AudienceSlide.Examples | src/components/dynamic/DynamicSlide5.tsx:178 | missing media examples give [] |
| AudienceSlide.Pick | src/components/dynamic/DynamicSlide5.tsx:83 | an object-literal lookup with a fallback: the entry, the fallback for an unknown key, an inherited member for an `Object.prototype` name |
| AudienceSlide.ChannelIcon | src/components/dynamic/DynamicSlide5.tsx:83 | mail, headphones and youtube map to their icons; any other key gives Mail, except `Object.prototype` names |
| AudienceSlide.ExampleIcon | src/components/dynamic/DynamicSlide5.tsx:296 | newsletter, podcast and youtube map to their icons; any other kind gives Mail, except `Object.prototype` names |
| AudienceSlide.ExampleColor | src/components/dynamic/DynamicSlide5.tsx:297 | the three kinds map to their colours; any other kind gives hsl(45,95%,52%), except `Object.prototype` names |
| AudienceSlide.UnknownKindLooksLikeNewsletter | src/components/dynamic/DynamicSlide5.tsx:296-297 | an unknown kind gets the newsletter's icon and colour |
| AudienceSlide.BarColor | src/components/dynamic/DynamicSlide5.tsx:229 | bar i has barColors[i] for i < 3 and barColors[0] otherwise |
| AudienceSlide.BarColorsDistinct | src/components/dynamic/DynamicSlide5.tsx:229 | two bars share a colour exactly when the later one is past the third and the earlier is the first or also past the third |
| AudienceSlide.Bars | src/components/dynamic/DynamicSlide5.tsx:225-235 | one bar per channel, in order, with its colour and icon; a bar is active exactly at the selected index, and only an active bar shows its statistic, the crisis and its detail |
| AudienceSlide.AtMostOneOpen | src/components/dynamic/DynamicSlide5.tsx:136 | at most one bar shows details, and none when nothing is selected |
| AudienceSlide.ExamplesOverlay | src/components/dynamic/DynamicSlide5.tsx:262-325 | the overlay exists exactly when opened, has a row per example, and shows its placeholder exactly when there are none |
| AudienceSlide.SourcesOverlay | src/components/dynamic/DynamicSlide5.tsx:330-393 | the overlay exists exactly when opened, has a row per source numbered from 1, and shows its placeholder exactly when there are none |
| AudienceSlide.MissingMediaData | src/components/dynamic/DynamicSlide5.tsx:175-178 | with no media data the slide shows no bars, an empty audience and both placeholders |
| AudienceSlide.Audience.constructor | src/components/dynamic/DynamicSlide5.tsx:171-173 | nothing selected, both overlays closed |
| AudienceSlide.Audience.BarClick | src/components/dynamic/DynamicSlide5.tsx:232 | clicking the open bar closes it, any other bar opens that one; overlays are kept |
| AudienceSlide.Audience.OpenExamples | src/components/dynamic/DynamicSlide5.tsx:243 | opens the examples overlay and changes nothing else |
| AudienceSlide.Audience.CloseExamples | src/components/dynamic/DynamicSlide5.tsx:275 | closes the examples overlay and changes nothing else |
| AudienceSlide.Audience.OpenSources | src/components/dynamic/DynamicSlide5.tsx:255 | opens the sources overlay and changes nothing else |
| AudienceSlide.Audience.CloseSources | src/components/dynamic/DynamicSlide5.tsx:343 | closes the sources overlay and changes nothing else |
| AudienceSlide.ClickBarTwice | src/components/dynamic/DynamicSlide5.tsx:232 | clicking a closed bar twice leaves no bar active |
| CaseStudySlide.CaseStudyOf | src/components/dynamic/DynamicSlide6.tsx:25 | a missing case study is the empty one; a present one is kept |
| CaseStudySlide.Shown | src/components/dynamic/DynamicSlide6.tsx:26-32 | each text is the case study's field when it is a non-empty string, and its default otherwise |
| CaseStudySlide.NothingBlank | src/components/dynamic/DynamicSlide6.tsx:26-32 | no shown text is ever empty |
| CaseStudySlide.MissingCaseStudy | src/components/dynamic/DynamicSlide6.tsx:25-32 | without a case study every default is shown, and the clients read "1 Client" |
| CaseStudySlide.CompleteCaseStudy | src/components/dynamic/DynamicSlide6.tsx:26-32 | non-empty fields are shown verbatim |
| CaseStudySlide.ShownIsStable | src/components/dynamic/DynamicSlide6.tsx:26-32 | handing the slide back what it showed shows the same again |
| CaseStudySlide.ClientsText | src/components/dynamic/DynamicSlide6.tsx:123 | the figure is followed by " Client" or " Clients" |
| CaseStudySlide.SingularOnlyForOne | src/components/dynamic/DynamicSlide6.tsx:123 | the noun is singular exactly when the figure is the text "1" |
| CaseStudySlide.Headline | src/components/dynamic/DynamicSlide6.tsx:70-71 | the shown partner name follows the fixed lead-in |
| PartnerSlide.ClientName | src/components/dynamic/DynamicSlide9.tsx:45 | only a missing name becomes "Client"; an empty name is kept |
| PartnerSlide.StripProtocol | src/components/dynamic/DynamicSlide9.tsx:99 | the website is kept, or loses exactly one leading "http://" or "https://" |
| PartnerSlide.StripsOneProtocol | src/components/dynamic/DynamicSlide9.tsx:99 | either protocol is removed once, whatever follows it |
| PartnerSlide.NoProtocolUnchanged | src/components/dynamic/DynamicSlide9.tsx:99 | a website without a protocol is shown as it is |
| PartnerSlide.FirstName | src/components/dynamic/DynamicSlide9.tsx:161 | a prefix of the name without spaces that ends the name or stops at a space |
| PartnerSlide.FirstNameUnique | src/components/dynamic/DynamicSlide9.tsx:161 | those facts determine the first name |
| PartnerSlide.FirstNameOfFullName | src/components/dynamic/DynamicSlide9.tsx:161 | "first rest" gives first, and a name with no space is its own first name |
| PartnerSlide.Render | src/components/dynamic/DynamicSlide9.tsx:44-193 | exactly a missing partner gives the fallback message; otherwise the card shows the partner's fields, the stripped website and the first name |
| PartnerSlide.FallbackIgnoresClient | src/components/dynamic/DynamicSlide9.tsx:46-54 | without a partner the slide is the same whatever the client's name |
| VariablesPanel.DayFields | src/components/VariablesPanel.tsx:11-43 | days 1, 2, 3 have 6, 5 and 3 fields starting with the client name; any other day has none |
| VariablesPanel.DayKeysDistinct | src/components/VariablesPanel.tsx:11-32 | no day lists a key twice |
| VariablesPanel.KeysOf | src/components/VariablesPanel.tsx:48 | the keys of a field list are exactly its fields' keys |
| VariablesPanel.HasChanges | src/components/VariablesPanel.tsx:58 | there are unsaved changes exactly when some key of the day's fields has an edited value other than its value in the data |
| VariablesPanel.Baseline | src/components/VariablesPanel.tsx:49 | a null or missing value gives "", a string itself |
| VariablesPanel.InitialVars | src/components/VariablesPanel.tsx:46-52 | the initial record exists exactly when every value converts; its keys are the day's field keys, and each value is that field's baseline |
| VariablesPanel.UnchangedWhenAgreeing | src/components/VariablesPanel.tsx:58 | values that all agree with the data show no unsaved changes |
| VariablesPanel.EditMakesChange | src/components/VariablesPanel.tsx:54-58 | an edit that differs from the data is an unsaved change, and restoring the only changed field leaves none |
| VariablesPanel.Panel.constructor | src/components/VariablesPanel.tsx:42-46 | the panel is closed and holds the initial values |
| VariablesPanel.Panel.HandleChange | src/components/VariablesPanel.tsx:54-56 | the key takes the new value and every other key is unchanged |
| VariablesPanel.Panel.Toggle | src/components/VariablesPanel.tsx:63 | the button flips the panel open or closed |
| VariablesPanel.Panel.Regenerate | src/components/VariablesPanel.tsx:108-109 | while regenerating nothing is sent; otherwise the edited values are sent unchanged |
| VariablesPanel.Mount | src/components/VariablesPanel.tsx:41-58 | a mounted panel is closed, has exactly the day's keys, and shows no unsaved changes |
| VariablesPanel.EditShowsChange | src/components/VariablesPanel.tsx:54-58 | editing a field to a value other than the data's shows an unsaved change |
| Countdown.Tick | src/components/Slide10.tsx:16 | a positive count goes down by one, zero stays zero, and the count never goes negative or up |
| Countdown.AfterTicksCountsDown | src/components/Slide10.tsx:15-17 | after n ticks n seconds are gone, or the clock stands at zero |
| Countdown.StopsAtZero | src/components/Slide10.tsx:12-17 | a day of ticks reaches zero and it stays there |
| Countdown.Split | src/components/Slide10.tsx:21-23 | hours·3600 + minutes·60 + seconds is the count, with minutes and seconds below 60 and hours at most 24 within a day |
| Countdown.SplitUnique | src/components/Slide10.tsx:21-23 | only one such reading adds up to the count |
| Countdown.TwoDigits | src/components/Slide10.tsx:31 | values below 10 get a leading zero, others are printed as they are |
| Countdown.TwoDigitsReadBack | src/components/Slide10.tsx:31 | every value 0..99 is printed as exactly two digits that read back as the value |
| Countdown.ExpiryText | src/components/Slide10.tsx:125 | "Expires in " then hours and minutes as two digits each, which read back as the clock's hours and minutes, then "h " and "m" |
| Countdown.Timer.constructor | src/components/Slide10.tsx:12 | the countdown starts at 86,400 seconds |
| Countdown.Timer.OnTick | src/components/Slide10.tsx:15-17 | one tick applies the tick rule and keeps the count within a day |
| Countdown.Timer.Shown | src/components/Slide10.tsx:21-24 | the shown hours are at most 24, minutes and seconds below 60, and they add up to the count |

## Left out

- Floating point: percentages are exact reals, counts and money are integers, and `toFixed` rounds the exact quotient. A binary tie such as 12,550,000 may print differently in JavaScript. Integers beyond 2^53, numbers of 1e21 or more (printed in exponent form), -0 and fractional JSON numbers are not modelled.
- `toLocaleString` is modelled as en-US grouping; other locales are not.
- Sanitize.StripDashes: an own `"__proto__"` key, which `JSON.parse` creates as an ordinary property, is kept as an ordinary member. In the source `out[k] = ...` on a fresh `{}` (src/lib/utils.ts:22-23) runs the `__proto__` setter instead, so `{"__proto__":{"a":"x"}}` comes out with no own keys. The prototype that this may set is not modelled either.
- Duplicate object keys and the exact `Object.entries` order of integer-like keys are not modelled. Objects are member lists in their given order.
- Rendering, animation, colour strings derived by slicing, recharts ticks and tooltips other than the client count: presentation only.
- The network call, `Deno.env`, `console.error` and `JSON.parse` are inputs of the handler. The prompt texts are opaque; only the day keys matter.
- GenerateSlides.HandleUpstreamStatus: assumes that `response.text()` on a failed reply (index.ts:182) succeeds. Its text is only logged, but a rejected read would be caught at lines 218-223 and answered with 500 and the error's message instead of "AI generation failed".
- The endpoint does not strip dashes. The comment in src/lib/utils.ts says it does, but the handler never calls the sanitiser, so the model does not either.
- MarketSlide.FormatNum: `formatNum(undefined)` (a crash) is not modelled; the argument is always a string here.
- MarketSlide.DrillCountryData: a reply without `countries` makes the overlay throw (DynamicSlide4.tsx:293). The model takes the record as present, possibly empty.
- MarketSlide.CountryPercent: states only the non-positive-total case; the positive case is stated by `MarketSlide.CountryPercentBounds` for counts within the total.
- The legend's percentage texts of DynamicSlide4 are not modelled.
- RevenueRoadmap.RevenueCents: money is in cents, so `GOAL * 1.15` is exact. The float product may differ for other goals.
- RevenueRoadmap.FmtCurrency: `String(v)` is modelled for whole cents only.
- `cn` in src/lib/utils.ts: a wrapper over class-name libraries.
- AudienceSlide: React key collisions and a non-array `channels` value are not modelled. A `PrototypeMember` icon or colour records what the lookup returns; how React renders it is not modelled.
- TargetMarketSlide: a reply without `targetMarketSegments` or `targetMarketSize` makes the slide throw (DynamicSlide3.tsx:62, 72). The model takes both as present.
- FunnelSlide: a reply without `funnelData`, or without the chosen time frame's figures, makes the slide throw (DynamicSlide2.tsx:93, 138). The model takes the figures of both frames as present.
- CaseStudySlide: `partnerPlatform`, `audienceSize` and `result` are carried but never shown.
- PartnerSlide: `criteriaChecks` are not shown by the slide and are not kept. A partner without `website` or `name` makes the slide throw (DynamicSlide9.tsx:99, 161). The model takes both as present.
- VariablesPanel: the `useState` initialiser runs once, so later changes to `data` are not modelled. `hasChanges` when `String` throws is not modelled. What `onRegenerate` does is the caller's.
- Countdown: `setInterval` timing is not modelled; the interval is a sequence of ticks.
- src/pages/Generate.tsx, src/components/ScaledSlide.tsx and the fixed-content slides: I/O orchestration, DOM measurement and static copy.

## Findings

| source | as written | input that shows it | evidently intended | confidence | as-written member | corrected member |
|---|---|---|---|---|---|---|
| supabase/functions/generate-slides/index.ts:136-142 | `DAY_PROMPTS[day]` is a plain object lookup, so days named after `Object.prototype` members pass the "Invalid day" test | `{"day": "constructor", "answers": "x"}`: the gateway is called; the system prompt is the inherited `Object` function, which `JSON.stringify` (lines 157, 160) omits, so the system message is sent without content | only days 1, 2 and 3 are accepted; every other day gets 400 "Invalid day" | not executed | GenerateSlides.PrototypeDayReachesGateway | GenerateSlides.Handle |
