/** The target-market slide with the income pie and the per-country drill-down
    (src/components/dynamic/DynamicSlide4.tsx): compact number formatting, the pie built from
    the income segments plus an "Under $100K" remainder, the people count of a slice, the
    double-click detection that opens the drill-down, and the drill-down's own figures. */
module MarketSlide {
  import opened Options
  import opened JsText
  import opened JsNumber
  import opened Selection

  // ---------------------------------------------------------------------------------------
  // formatNum

  /** `parseInt(s.replace(/,/g, ""), 10)`: the number a figure such as "12,000,001" stands for. */
  function ParseCount(s: string): Option<int> {
    ParseInt(RemoveChar(s, ','))
  }

  /** `formatNum` (lines 29-35): text that holds no number comes back unchanged. */
  function FormatNum(s: string): (r: string)
    ensures ParseCount(s).None? ==> r == s
    ensures ParseCount(s).Some? ==> r == Compact(ParseCount(s).value, s)
  {
    match ParseCount(s)
    case None => s
    case Some(n) => Compact(n, s)
  }

  /** The branches of `formatNum` for a number `n` read from `s`: whole or one-decimal millions,
      thousands rounded to the nearest, and below a thousand the original text. */
  function Compact(n: int, s: string): (r: string)
    ensures n < 1000 ==> r == s
    ensures 1000 <= n < 1000000 ==> r == NatToString(RoundHalfUp(n, 1000)) + "K"
    ensures n >= 1000000 && n % 1000000 == 0 ==> r == NatToString(n / 1000000) + "M"
    ensures n >= 1000000 && n % 1000000 != 0 ==> r == FixedDigits(n, 1000000, 1) + "M"
  {
    if n >= 1000000 then
      if n % 1000000 == 0 then ExactMillions(n); ToFixed(n, 1000000, 0) + "M"
      else ToFixed(n, 1000000, 1) + "M"
    else if n >= 1000 then ToFixed(n, 1000, 0) + "K"
    else s
  }

  lemma ExactMillions(n: nat)
    requires n % 1000000 == 0
    ensures ToFixed(n, 1000000, 0) == NatToString(n / 1000000)
  {
    assert n == (n / 1000000) * 1000000;
    RoundHalfUpExact(n / 1000000, 1000000);
  }

  /** Rounding an exact multiple gives the multiplier back. */
  lemma RoundHalfUpExact(q: int, b: int)
    requires b > 0
    ensures RoundHalfUp(q * b, b) == q
  {
    NearestUnique(q * b, b, q);
  }

  /** The "K" figure is the whole number of thousands nearest to `n`, ties upward, so 999,999
      reaches "1000K" rather than "1.0M": it lies between 1 and 1000. */
  lemma ThousandsNearest(n: int)
    requires 1000 <= n < 1000000
    ensures var k := RoundHalfUp(n, 1000);
            -1000 < 2 * (k * 1000 - n) <= 1000 && 1 <= k <= 1000
  {
    RoundHalfUpNearest(n, 1000);
  }

  /** The one-decimal "M" figure is n / 1,000,000 rounded to the nearest tenth, ties upward. */
  lemma MillionsNearestTenth(n: nat)
    requires n >= 1000000 && n % 1000000 != 0
    ensures var k := RoundHalfUp(n * 10, 1000000);
            FixedDigits(n, 1000000, 1) == NatToString(k / 10) + "." + [DigitChar(k % 10)]
            && -1000000 < 2 * (k * 1000000 - n * 10) <= 1000000
  {
    var k := RoundHalfUp(n * 10, 1000000);
    RoundHalfUpNearest(n * 10, 1000000);
    assert Pow10(1) == 10;
    assert NatToString(k % 10) == [DigitChar(k % 10)];
  }

  /** A figure whose digits, once the commas are gone, are the numeral of `n` reads as `n`. */
  lemma ReadsAs(s: string, n: nat)
    requires s == Grouped(n)
    ensures ParseCount(s) == Some(n)
  {
    UngroupReadsBack(n);
  }

  lemma Grouped999999()
    ensures Grouped(999999) == "999,999"
  {
    assert Pad3(999) == "999" && NatToString(999) == "999";
  }

  lemma Grouped12000001()
    ensures Grouped(12000001) == "12,000,001"
  {
    assert Pad3(1) == "001" && Pad3(0) == "000";
    assert NatToString(12) == "12";
    assert GroupedNat(12) == "12";
    assert GroupedNat(12000) == "12,000";
    assert GroupedNat(12000001) == GroupedNat(12000) + "," + Pad3(1);
  }

  /** Just under a million still reads in thousands. */
  lemma FormatNumJustUnderMillion()
    ensures FormatNum("999,999") == "1000K"
  {
    Grouped999999();
    ReadsAs("999,999", 999999);
    ThousandK();
  }

  lemma ThousandK()
    ensures NatToString(RoundHalfUp(999999, 1000)) + "K" == "1000K"
  {
    assert RoundHalfUp(999999, 1000) == 1000;
    assert NatToString(1000) == "1000";
  }

  /** A million-plus figure that is not a whole number of millions keeps its one decimal, even
      when that decimal is 0. */
  lemma FormatNumKeepsZeroDecimal()
    ensures FormatNum("12,000,001") == "12.0M"
  {
    Grouped12000001();
    FormatNumOfGroupedMillions(12000001);
    TwelvePointZero();
  }

  /** A grouped figure of millions that are not whole keeps one decimal. */
  lemma FormatNumOfGroupedMillions(n: nat)
    requires n >= 1000000 && n % 1000000 != 0
    ensures FormatNum(Grouped(n)) == FixedDigits(n, 1000000, 1) + "M"
  {
    ReadsAs(Grouped(n), n);
  }

  lemma TwelvePointZero()
    ensures FixedDigits(12000001, 1000000, 1) == "12.0"
  {
    assert Pow10(1) == 10;
    assert NonNegProduct(12000001, 10) == 120000010;
    assert RoundHalfUp(120000010, 1000000) == 120;
    assert NatDiv(120, 10) == 12 && 120 % 10 == 0;
    assert NatToString(12) == "12" && NatToString(0) == "0";
    assert PadZeros("0", 1) == "0";
  }

  /** Text that does not start with a sign, a digit, a comma or white space holds no number
      and comes back as it was; "n/a", for one. */
  lemma FormatNumNotANumber(s: string)
    requires s != [] && !IsSpace(s[0]) && !IsDigit(s[0]) && s[0] !in {'-', '+', ','}
    ensures FormatNum(s) == s
    ensures FormatNum("n/a") == "n/a"
  {
    NoLeadingNumber(s);
    NoLeadingNumber("n/a");
  }

  lemma NoLeadingNumber(s: string)
    requires s != [] && !IsSpace(s[0]) && !IsDigit(s[0]) && s[0] !in {'-', '+', ','}
    ensures ParseCount(s) == None
  {
    var r := RemoveChar(s, ',');
    assert r == [s[0]] + RemoveChar(s[1..], ',');
    assert TrimStart(r) == r;
    assert LeadingDigits(r) == [];
  }

  /** A figure below 1,000 comes back as it was. */
  lemma FormatNumBelowThousand()
    ensures FormatNum("850") == "850"
  {
    assert Grouped(850) == "850" by {
      assert NatToString(850) == NatToString(85) + "0";
      assert NatToString(85) == "85";
    }
    ReadsAs("850", 850);
  }

  // ---------------------------------------------------------------------------------------
  // The pie

  datatype Segment = Segment(name: string, percentage: real, color: string)
  datatype Slice = Slice(name: string, value: real, color: string)

  const UnderName := "Under $100K"
  const UnderColor := "hsl(160,30%,35%)"

  /** The slide's market data. A missing `totalUS` or `incomeSegments` is `None`. */
  datatype MarketData = MarketData(
    totalUS: Option<string>,
    incomeSegments: Option<seq<Segment>>,
    countries: map<string, map<string, string>>)

  /** `marketData.incomeSegments || []`. */
  function Segments(md: MarketData): seq<Segment> {
    md.incomeSegments.GetOr([])
  }

  /** `marketData.totalUS || "0"`. */
  function AllTotal(md: MarketData): (r: string)
    ensures r != ""
    ensures md.totalUS.Some? && md.totalUS.value != "" ==> r == md.totalUS.value
    ensures md.totalUS.None? || md.totalUS.value == "" ==> r == "0"
  {
    OrElse(md.totalUS, "0")
  }

  /** `segments.slice(1)`: the segments after the "All" entry. */
  function PieSegments(segments: seq<Segment>): (r: seq<Segment>)
    ensures |r| == if segments == [] then 0 else |segments| - 1
    ensures forall i :: 0 <= i < |r| ==> r[i] == segments[i + 1]
  {
    if segments == [] then [] else segments[1..]
  }

  function SumPercent(segs: seq<Segment>): real {
    if segs == [] then 0.0 else segs[0].percentage + SumPercent(segs[1..])
  }

  function SumValues(slices: seq<Slice>): real {
    if slices == [] then 0.0 else slices[0].value + SumValues(slices[1..])
  }

  function Max(a: real, b: real): real {
    if a >= b then a else b
  }

  function ToSlice(seg: Segment): Slice {
    Slice(seg.name, seg.percentage, seg.color)
  }

  /** `fullPieData` (lines 148-161): the remainder slice first, then every segment after "All"
      in order, with its percentage as the slice value. */
  function FullPieData(segments: seq<Segment>): (r: seq<Slice>)
    ensures |r| == |PieSegments(segments)| + 1
    ensures r[0] == Slice(UnderName, Max(0.0, 100.0 - SumPercent(PieSegments(segments))), UnderColor)
    ensures r[0].value >= 0.0
    ensures forall i :: 1 <= i < |r| ==> r[i] == ToSlice(segments[i])
  {
    var pie := PieSegments(segments);
    [Slice(UnderName, Max(0.0, 100.0 - SumPercent(pie)), UnderColor)]
      + seq(|pie|, i requires 0 <= i < |pie| => ToSlice(pie[i]))
  }

  lemma {:induction false} SumValuesOfSlices(segs: seq<Segment>)
    ensures SumValues(seq(|segs|, i requires 0 <= i < |segs| => ToSlice(segs[i]))) == SumPercent(segs)
  {
    if segs != [] {
      var s := seq(|segs|, i requires 0 <= i < |segs| => ToSlice(segs[i]));
      assert s[1..] == seq(|segs[1..]|, i requires 0 <= i < |segs[1..]| => ToSlice(segs[1..][i]));
      SumValuesOfSlices(segs[1..]);
    }
  }

  /** The slices fill the whole pie: their values add up to 100 when the segments leave room for
      the remainder, and to the segments' own total when they already exceed 100. */
  lemma FullPieTotal(segments: seq<Segment>)
    ensures SumValues(FullPieData(segments)) == Max(100.0, SumPercent(PieSegments(segments)))
  {
    var pie := PieSegments(segments);
    var r := FullPieData(segments);
    SumValuesOfSlices(pie);
    assert r[1..] == seq(|pie|, i requires 0 <= i < |pie| => ToSlice(pie[i]));
  }

  /** `fullPieData[idx]?.value || 0`: the percentage of a slice, 0 for an index with no slice. */
  function SlicePercent(md: MarketData, idx: int): (p: real)
    ensures !(0 <= idx <= |PieSegments(Segments(md))|) ==> p == 0.0
  {
    var full := FullPieData(Segments(md));
    if 0 <= idx < |full| then full[idx].value else 0.0
  }

  /** A percentage of a total, exactly. */
  function Share(pct: real, total: int): real {
    pct / 100.0 * total as real
  }

  /** `count` of `getSegmentCount` (lines 167-172): `Math.round(pct / 100 * total)`, the whole
      number nearest the slice's share of the total; `None` when the total is not a number. */
  function SegmentCount(md: MarketData, idx: int): (c: Option<int>)
    ensures c.None? <==> ParseCount(AllTotal(md)).None?
    ensures c.Some? ==> var exact := Share(SlicePercent(md, idx), ParseCount(AllTotal(md)).value);
                        exact - 0.5 < c.value as real <= exact + 0.5
  {
    match ParseCount(AllTotal(md))
    case None => None
    case Some(total) => Some(MathRound(Share(SlicePercent(md, idx), total)))
  }

  /** A slice index with no pie entry counts 0 people. */
  lemma SegmentCountOutOfRange(md: MarketData, idx: int)
    requires !(0 <= idx <= |PieSegments(Segments(md))|)
    requires ParseCount(AllTotal(md)).Some?
    ensures SegmentCount(md, idx) == Some(0)
  {
    assert SlicePercent(md, idx) == 0.0;
    NoShare(ParseCount(AllTotal(md)).value);
  }

  lemma NoShare(total: int)
    ensures MathRound(Share(0.0, total)) == 0
  {
    assert Share(0.0, total) == 0.0;
  }

  /** `getSegmentCount`: the count in en-US grouping, or "NaN". Reading the figure back the way
      `formatNum` does recovers the count. */
  function GetSegmentCount(md: MarketData, idx: int): (r: string)
    ensures ParseCount(r) == SegmentCount(md, idx)
    ensures SegmentCount(md, idx).Some? ==> r == Grouped(SegmentCount(md, idx).value)
  {
    match SegmentCount(md, idx)
    case None => NaNText()
    case Some(c) => UngroupReadsBack(c); Grouped(c)
  }

  /** `String(NaN)`, which `parseInt` does not read as a number. */
  function NaNText(): (r: string)
    ensures ParseCount(r).None?
  {
    var s := "NaN";
    assert forall i :: 0 <= i < |s| ==> s[i] != ',';
    s
  }

  /** The figure in the pie's centre: the whole market's total, or the active slice's count. */
  function ActiveCouples(md: MarketData, sel: Active): (r: string)
    ensures sel == All ==> r == AllTotal(md) && r != ""
    ensures sel.At? ==> ParseCount(r) == SegmentCount(md, sel.idx)
  {
    match sel
    case All => AllTotal(md)
    case At(i) => GetSegmentCount(md, i)
  }

  /** The centre label of a slice is the compact form of its count. */
  lemma CentreShowsCompactCount(md: MarketData, i: int)
    requires SegmentCount(md, i).Some?
    ensures var c := SegmentCount(md, i).value;
            FormatNum(ActiveCouples(md, At(i))) == Compact(c, Grouped(c))
  {
  }

  // ---------------------------------------------------------------------------------------
  // Clicks

  datatype Click = Click(idx: int, time: int)

  /** The slide's interaction state: the highlighted slice, the open drill-down, and the last
      single click (`lastClickRef`). */
  class MarketPie {
    var active: Active
    var drillDown: Option<int>
    var lastClick: Option<Click>

    constructor()
      ensures active == All && drillDown == None && lastClick == None
    {
      active := All;
      drillDown := None;
      lastClick := None;
    }

    /** The click at `now` on slice `idx` is the second of a double click. */
    predicate IsDoubleClick(idx: int, now: int)
      reads this
    {
      lastClick.Some? && lastClick.value.idx == idx && now - lastClick.value.time < 400
    }

    /** `handlePieClick` (lines 176-186): a second click on the same slice within 400 ms opens
        its drill-down and forgets the click; any other click selects the slice and is
        remembered. */
    method PieClick(idx: int, now: int)
      modifies this
      ensures old(IsDoubleClick(idx, now)) ==>
                drillDown == Some(idx) && lastClick == None && active == old(active)
      ensures old(IsDoubleClick(idx, now)) ==> (DrillDownShown(drillDown) <==> idx > 0)
      ensures !old(IsDoubleClick(idx, now)) ==>
                active == At(idx) && lastClick == Some(Click(idx, now)) && drillDown == old(drillDown)
    {
      var last := lastClick;
      if last.Some? && last.value.idx == idx && now - last.value.time < 400 {
        drillDown := Some(idx);
        lastClick := None;
      } else {
        active := At(idx);
        lastClick := Some(Click(idx, now));
      }
    }

    /** Hovering a slice highlights it (the pie's `onMouseEnter`). */
    method PieHover(idx: int)
      modifies this
      ensures active == At(idx) && drillDown == old(drillDown) && lastClick == old(lastClick)
    {
      active := At(idx);
    }

    /** Clicking the centre figure goes back to the whole market. */
    method CentreClick()
      modifies this
      ensures active == All && drillDown == old(drillDown) && lastClick == old(lastClick)
    {
      active := All;
    }

    /** A legend click: entry 0 is "All", entry i the slice i. */
    method LegendClick(i: int)
      modifies this
      ensures active == (if i == 0 then All else At(i))
      ensures drillDown == old(drillDown) && lastClick == old(lastClick)
    {
      active := if i == 0 then All else At(i);
    }

    /** A legend double click opens the drill-down of every entry but "All". */
    method LegendDoubleClick(i: int)
      modifies this
      ensures drillDown == (if i > 0 then Some(i) else old(drillDown))
      ensures DrillDownShown(drillDown) <==> i > 0 || old(DrillDownShown(drillDown))
      ensures active == old(active) && lastClick == old(lastClick)
    {
      if i > 0 {
        drillDown := Some(i);
      }
    }

    method CloseDrillDown()
      modifies this
      ensures drillDown == None && active == old(active) && lastClick == old(lastClick)
    {
      drillDown := None;
    }
  }

  /** Two clicks on one slice less than 400 ms apart always record that slice as the drill-down,
      whatever was clicked before: if the first click already completed a double click, the
      second is a single click that leaves the drill-down as it is. The overlay then shows for
      every slice but slice 0 ("Under $100K"), for which nothing opens. */
  method DoubleClickOpensDrillDown(p: MarketPie, idx: int, t: int, d: int)
    requires 0 <= d < 400
    modifies p
    ensures p.drillDown == Some(idx)
    ensures DrillDownShown(p.drillDown) <==> idx > 0
  {
    p.PieClick(idx, t);
    p.PieClick(idx, t + d);
  }

  // ---------------------------------------------------------------------------------------
  // The drill-down

  const SegmentKeys: seq<string> := ["all", "100k", "200k", "500k"]
  const SegmentLabels: seq<string> := ["All", "$100K+", "$200K+", "$500K+"]
  const DrillFallbackColor := "hsl(145,50%,45%)"

  /** `idxToKey` (line 189): the country-data key of a slice, "all" for any other index. */
  function IdxToKey(idx: int): (k: string)
    ensures k in SegmentKeys
    ensures 0 <= idx < |SegmentKeys| ==> k == SegmentKeys[idx]
    ensures !(0 <= idx < |SegmentKeys|) ==> k == "all"
  {
    if 0 <= idx < |SegmentKeys| then SegmentKeys[idx] else "all"
  }

  /** The drill-down renders only for a slice index above 0 (line 288). */
  predicate DrillDownShown(drillDown: Option<int>) {
    drillDown.Some? && drillDown.value > 0
  }

  /** `fullPieData[idx]?.color || "hsl(145,50%,45%)"` (line 291): the slice's own colour when it
      has one, the fallback green otherwise, so the drill-down is never uncoloured. */
  function DrillColor(md: MarketData, idx: int): (r: string)
    ensures r != ""
    ensures var full := FullPieData(Segments(md));
            0 <= idx < |full| && full[idx].color != "" ==> r == full[idx].color
    ensures var full := FullPieData(Segments(md));
            !(0 <= idx < |full|) || full[idx].color == "" ==> r == DrillFallbackColor
  {
    var full := FullPieData(Segments(md));
    OrElse(if 0 <= idx < |full| then Some(full[idx].color) else None, DrillFallbackColor)
  }

  /** `segmentLabels[idx] || ""` (line 292): a label exactly for the four slice indexes. */
  function DrillLabel(idx: int): (r: string)
    ensures r != "" <==> 0 <= idx < |SegmentLabels|
    ensures 0 <= idx < |SegmentLabels| ==> r == SegmentLabels[idx]
  {
    if 0 <= idx < |SegmentLabels| then SegmentLabels[idx] else ""
  }

  /** `marketData.countries[segmentKeys[idx]] || {}` (line 293). This indexes `segmentKeys`
      directly rather than through `idxToKey`: past the last key the lookup is for the property
      named "undefined", not for "all". */
  function DrillCountryData(md: MarketData, idx: int): (r: map<string, string>)
    ensures 0 <= idx < |SegmentKeys| && SegmentKeys[idx] in md.countries ==> r == md.countries[SegmentKeys[idx]]
    ensures 0 <= idx < |SegmentKeys| && SegmentKeys[idx] !in md.countries ==> r == map[]
    ensures !(0 <= idx < |SegmentKeys|) && "undefined" in md.countries ==> r == md.countries["undefined"]
    ensures !(0 <= idx < |SegmentKeys|) && "undefined" !in md.countries ==> r == map[]
  {
    var key := if 0 <= idx < |SegmentKeys| then SegmentKeys[idx] else "undefined";
    if key in md.countries then md.countries[key] else map[]
  }

  const Countries: seq<string> := ["US", "UK", "CA", "AU"]

  /** What the drill-down overlay is given: the slice, its colour, its label (`caption`) and its countries. */
  datatype DrillOverlay = DrillOverlay(
    segmentIdx: int, color: string, caption: string, countryData: map<string, string>)

  /** The overlay (lines 288-295): rendered only when a drill-down index above 0 is set, with
      the slice's colour, label and country record. */
  function DrillDownOverlay(md: MarketData, drillDown: Option<int>): (r: Option<DrillOverlay>)
    ensures r.Some? <==> DrillDownShown(drillDown)
    ensures drillDown == Some(0) || drillDown == None ==> r == None
    ensures r.Some? ==> r.value.segmentIdx == drillDown.value > 0 && r.value.color != ""
    ensures r.Some? && drillDown.value < |SegmentLabels| ==> r.value.caption == SegmentLabels[drillDown.value]
    ensures r.Some? ==> r.value.countryData == DrillCountryData(md, drillDown.value)
  {
    if DrillDownShown(drillDown) then
      var idx := drillDown.value;
      Some(DrillOverlay(idx, DrillColor(md, idx), DrillLabel(idx), DrillCountryData(md, idx)))
    else None
  }

  /** `countryData[k] || "0"`. */
  function Entry(data: map<string, string>, k: string): (r: string)
    ensures r != ""
    ensures k in data && data[k] != "" ==> r == data[k]
    ensures k !in data || data[k] == "" ==> r == "0"
  {
    OrElse(Lookup(data, k), "0")
  }

  /** The bar width of country `c` in the drill-down (lines 114-115): `(val / total * 100)
      .toFixed(0)` when the total is positive, "0" otherwise. */
  function CountryPercent(data: map<string, string>, c: string): (r: string)
    ensures !(ParseCount(Entry(data, "total")).Some? && ParseCount(Entry(data, "total")).value > 0) ==> r == "0"
  {
    var total := ParseCount(Entry(data, "total"));
    if total.Some? && total.value > 0 then
      match ParseCount(Entry(data, c))
      case None => NaNText()
      case Some(v) => ToFixed(100 * v, total.value, 0)
    else "0"
  }

  /** A country's share of a positive total is the nearest whole percentage, 0 to 100. */
  lemma CountryPercentBounds(data: map<string, string>, c: string)
    requires ParseCount(Entry(data, "total")).Some? && ParseCount(Entry(data, "total")).value > 0
    requires ParseCount(Entry(data, c)).Some?
    requires 0 <= ParseCount(Entry(data, c)).value <= ParseCount(Entry(data, "total")).value
    ensures var t := ParseCount(Entry(data, "total")).value;
            var v := ParseCount(Entry(data, c)).value;
            var k := RoundHalfUp(100 * v, t);
            CountryPercent(data, c) == NatToString(k) && 0 <= k <= 100
            && -t < 2 * (k * t - 100 * v) <= t
  {
    ShareInRange(ParseCount(Entry(data, c)).value, ParseCount(Entry(data, "total")).value);
  }

  lemma ZeroParses()
    ensures ParseCount("0") == Some(0)
  {
    assert RemoveChar("0", ',') == "0";
    ParseIntOfIntToString(0);
    assert IntToString(0) == "0";
  }

  lemma ZeroPercent(t: int)
    requires t > 0
    ensures ToFixed(100 * 0, t, 0) == "0"
  {
    assert NonNegProduct(0, Pow10(0)) == 0;
    assert RoundHalfUp(0, t) == 0;
    assert NatToString(0) == "0";
  }

  /** A country with no entry counts as 0 and gets a 0% bar. */
  lemma MissingCountryIsZero(data: map<string, string>, c: string)
    requires c !in data
    requires ParseCount(Entry(data, "total")).Some? && ParseCount(Entry(data, "total")).value > 0
    ensures CountryPercent(data, c) == "0"
  {
    assert Entry(data, c) == "0";
    ZeroParses();
    var t := ParseCount(Entry(data, "total")).value;
    ZeroPercent(t);
  }
}
