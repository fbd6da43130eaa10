/** The fixed per-country breakdown of each income segment (src/components/Slide3DrillDown.tsx):
    the table, its own `formatTotal`, the guard for a segment without a breakdown, and each
    country's share of the segment total. */
module CountryBreakdown {
  import opened Options
  import opened JsNumber
  import MarketSlide

  datatype Country = Country(name: string, couples: nat, couplesLabel: string, color: string)
  datatype Breakdown = Breakdown(total: string, countries: seq<Country>)

  /** `countryBreakdowns` (lines 7-44), without the flag emoji: the entry of each segment. */
  function BreakdownOf(segmentIndex: int): (b: Option<Breakdown>)
    ensures b.Some? <==> 0 <= segmentIndex < |SegmentNames|
  {
    if segmentIndex == 0 then Some(Breakdown("14,500,000", [
      Country("United States", 9600000, "9.6M", "hsl(160,30%,35%)"),
      Country("United Kingdom", 2400000, "2.4M", "hsl(160,30%,45%)"),
      Country("Canada", 1600000, "1.6M", "hsl(160,30%,55%)"),
      Country("Australia", 900000, "900K", "hsl(160,30%,65%)")]))
    else if segmentIndex == 1 then Some(Breakdown("2,880,000", [
      Country("United States", 1800000, "1.8M", "hsl(145,50%,45%)"),
      Country("United Kingdom", 480000, "480K", "hsl(145,50%,55%)"),
      Country("Canada", 360000, "360K", "hsl(145,50%,65%)"),
      Country("Australia", 240000, "240K", "hsl(145,50%,75%)")]))
    else if segmentIndex == 2 then Some(Breakdown("810,000", [
      Country("United States", 540000, "540K", "hsl(45,95%,52%)"),
      Country("United Kingdom", 130000, "130K", "hsl(45,95%,60%)"),
      Country("Canada", 85000, "85K", "hsl(45,95%,68%)"),
      Country("Australia", 55000, "55K", "hsl(45,95%,76%)")]))
    else if segmentIndex == 3 then Some(Breakdown("92,000", [
      Country("United States", 60000, "60K", "hsl(25,100%,55%)"),
      Country("United Kingdom", 16000, "16K", "hsl(25,100%,63%)"),
      Country("Canada", 10000, "10K", "hsl(25,100%,71%)"),
      Country("Australia", 6000, "6K", "hsl(25,100%,79%)")]))
    // no entry: the drill-down renders nothing (line 73)
    else None
  }

  /** `segmentNames` (line 46); the middle two hold an en dash (U+2013). */
  const SegmentNames: seq<string> := ["Under $100K", "$100K \U{2013} $200K", "$200K \U{2013} $500K", "$500K+"]

  /** `formatTotal` (lines 57-62): `formatNum` without the NaN test. Every comparison with NaN is
      false, so text that holds no number still falls through to the unchanged input, and the
      result is the guarded version's in every case. */
  function FormatTotal(s: string): (r: string)
    ensures r == MarketSlide.FormatNum(s)
  {
    var n := MarketSlide.ParseCount(s);
    if AtLeast(n, 1000000) then ToFixed(n.value, 1000000, if n.value % 1000000 == 0 then 0 else 1) + "M"
    else if AtLeast(n, 1000) then ToFixed(n.value, 1000, 0) + "K"
    else s
  }

  /** `String(x)` of the bar width `(couples / total * 100).toFixed(0)` (line 159) for an exact
      quotient: NaN when the total does not parse or is 0 over 0, an infinity over a zero total. */
  function CountryPercent(b: Breakdown, c: Country): (r: string)
    ensures MarketSlide.ParseCount(b.total).None? ==> r == "NaN"
    ensures MarketSlide.ParseCount(b.total) == Some(0) ==> r == (if c.couples == 0 then "NaN" else "Infinity")
    // any other total gives a numeral, and a positive one the nearest whole percentage
    ensures var t := MarketSlide.ParseCount(b.total);
            t.Some? && t.value != 0 ==> r != [] && (IsDigit(r[0]) || r[0] == '-')
    ensures var t := MarketSlide.ParseCount(b.total);
            t.Some? && t.value > 0 ==> r == NatToString(RoundHalfUp(100 * c.couples, t.value))
  {
    match MarketSlide.ParseCount(b.total)
    case None => "NaN"
    case Some(t) =>
      if t == 0 then (if c.couples == 0 then "NaN" else "Infinity")
      else if t > 0 then ToFixed(100 * c.couples, t, 0)
      else ToFixed(-100 * c.couples, -t, 0)
  }

  function SumCouples(cs: seq<Country>): nat {
    if cs == [] then 0 else cs[0].couples + SumCouples(cs[1..])
  }

  lemma {:induction false} SumBoundsEach(cs: seq<Country>, i: int)
    requires 0 <= i < |cs|
    ensures cs[i].couples <= SumCouples(cs)
  {
    if i > 0 {
      SumBoundsEach(cs[1..], i - 1);
    }
  }

  /** Every segment's countries add up exactly to its stated total, and the total is written
      in en-US grouping. */
  lemma CountriesSumToTotal(k: int)
    requires BreakdownOf(k).Some?
    ensures var b := BreakdownOf(k).value;
            b.total == Grouped(SumCouples(b.countries))
            && MarketSlide.ParseCount(b.total) == Some(SumCouples(b.countries))
  {
    var b := BreakdownOf(k).value;
    var t := SumCouples(b.countries);
    if k == 0 {
      assert t == 14500000;
      Grouped14500000();
    } else if k == 1 {
      assert t == 2880000;
      Grouped2880000();
    } else if k == 2 {
      assert t == 810000;
      Grouped810000();
    } else {
      assert t == 92000;
      Grouped92000();
    }
    UngroupReadsBack(t);
  }

  lemma Grouped14500000()
    ensures Grouped(14500000) == "14,500,000"
  {
    assert Pad3(0) == "000" && Pad3(500) == "500";
    assert NatToString(14) == "14";
    assert GroupedNat(14500) == "14,500";
  }

  lemma Grouped2880000()
    ensures Grouped(2880000) == "2,880,000"
  {
    assert Pad3(0) == "000" && Pad3(880) == "880";
    assert NatToString(2) == "2";
    assert GroupedNat(2880) == "2,880";
  }

  lemma Grouped810000()
    ensures Grouped(810000) == "810,000"
  {
    assert Pad3(0) == "000";
    assert NatToString(810) == "810";
  }

  lemma Grouped92000()
    ensures Grouped(92000) == "92,000"
  {
    assert Pad3(0) == "000";
    assert NatToString(92) == "92";
  }

  /** `formatTotal` of a plain numeral works on the number itself. */
  lemma FormatTotalOfNumeral(n: nat)
    ensures FormatTotal(NatToString(n)) == MarketSlide.Compact(n, NatToString(n))
  {
    ParseIntOfIntToString(n);
  }

  /** A whole number of thousands below a million prints as that many "K". */
  lemma ThousandsLabel(n: nat)
    requires 1000 <= n < 1000000 && n % 1000 == 0
    ensures FormatTotal(NatToString(n)) == NatToString(n / 1000) + "K"
  {
    FormatTotalOfNumeral(n);
    assert n == (n / 1000) * 1000;
    MarketSlide.RoundHalfUpExact(n / 1000, 1000);
  }

  /** A whole number of hundred thousands of a million or more, not a whole number of millions,
      prints as millions with its one decimal. */
  lemma MillionsLabel(n: nat)
    requires n >= 1000000 && n % 100000 == 0 && n % 1000000 != 0
    ensures FormatTotal(NatToString(n)) == NatToString(n / 1000000) + "." + [DigitChar(n / 100000 % 10)] + "M"
  {
    FormatTotalOfNumeral(n);
    MarketSlide.MillionsNearestTenth(n);
    var q := n / 100000;
    assert n == 100000 * q;
    assert q * 1000000 == n * 10;
    NearestUnique(n * 10, 1000000, q);
    assert n == 1000000 * (q / 10) + 100000 * (q % 10);
    assert n / 1000000 == q / 10;
  }

  /** Every country's stored label is what `formatTotal` prints for its couples count. */
  lemma LabelsMatchCounts(k: int, i: int)
    requires BreakdownOf(k).Some? && 0 <= i < |BreakdownOf(k).value.countries|
    ensures var c := BreakdownOf(k).value.countries[i];
            FormatTotal(NatToString(c.couples)) == c.couplesLabel
  {
    if k == 0 {
      Labels0(i);
    } else if k == 1 {
      Labels1(i);
    } else if k == 2 {
      Labels2(i);
    } else {
      Labels3(i);
    }
  }

  lemma Labels0(i: int)
    requires 0 <= i < 4
    ensures var c := BreakdownOf(0).value.countries[i];
            FormatTotal(NatToString(c.couples)) == c.couplesLabel
  {
    var c := BreakdownOf(0).value.countries[i];
    if i == 0 {
      assert c.couples == 9600000 && c.couplesLabel == "9.6M";
      LabelM(9600000, "9.6M");
    } else if i == 1 {
      assert c.couples == 2400000 && c.couplesLabel == "2.4M";
      LabelM(2400000, "2.4M");
    } else if i == 2 {
      assert c.couples == 1600000 && c.couplesLabel == "1.6M";
      LabelM(1600000, "1.6M");
    } else {
      assert c.couples == 900000 && c.couplesLabel == "900K";
      assert NatToString(90) == "90";
      LabelK(900000, "900K");
    }
  }

  lemma Labels1(i: int)
    requires 0 <= i < 4
    ensures var c := BreakdownOf(1).value.countries[i];
            FormatTotal(NatToString(c.couples)) == c.couplesLabel
  {
    var c := BreakdownOf(1).value.countries[i];
    if i == 0 {
      assert c.couples == 1800000 && c.couplesLabel == "1.8M";
      LabelM(1800000, "1.8M");
    } else if i == 1 {
      assert c.couples == 480000 && c.couplesLabel == "480K";
      assert NatToString(48) == "48";
      LabelK(480000, "480K");
    } else if i == 2 {
      assert c.couples == 360000 && c.couplesLabel == "360K";
      assert NatToString(36) == "36";
      LabelK(360000, "360K");
    } else {
      assert c.couples == 240000 && c.couplesLabel == "240K";
      assert NatToString(24) == "24";
      LabelK(240000, "240K");
    }
  }

  lemma Labels2(i: int)
    requires 0 <= i < 4
    ensures var c := BreakdownOf(2).value.countries[i];
            FormatTotal(NatToString(c.couples)) == c.couplesLabel
  {
    var c := BreakdownOf(2).value.countries[i];
    if i == 0 {
      assert c.couples == 540000 && c.couplesLabel == "540K";
      assert NatToString(54) == "54";
      LabelK(540000, "540K");
    } else if i == 1 {
      assert c.couples == 130000 && c.couplesLabel == "130K";
      assert NatToString(13) == "13";
      LabelK(130000, "130K");
    } else if i == 2 {
      assert c.couples == 85000 && c.couplesLabel == "85K";
      LabelK(85000, "85K");
    } else {
      assert c.couples == 55000 && c.couplesLabel == "55K";
      LabelK(55000, "55K");
    }
  }

  lemma Labels3(i: int)
    requires 0 <= i < 4
    ensures var c := BreakdownOf(3).value.countries[i];
            FormatTotal(NatToString(c.couples)) == c.couplesLabel
  {
    var c := BreakdownOf(3).value.countries[i];
    if i == 0 {
      assert c.couples == 60000 && c.couplesLabel == "60K";
      LabelK(60000, "60K");
    } else if i == 1 {
      assert c.couples == 16000 && c.couplesLabel == "16K";
      LabelK(16000, "16K");
    } else if i == 2 {
      assert c.couples == 10000 && c.couplesLabel == "10K";
      LabelK(10000, "10K");
    } else {
      assert c.couples == 6000 && c.couplesLabel == "6K";
      LabelK(6000, "6K");
    }
  }

  /** A label in thousands, once its numeral is known. */
  lemma LabelK(n: nat, text: string)
    requires 1000 <= n < 1000000 && n % 1000 == 0
    requires text == NatToString(n / 1000) + "K"
    ensures FormatTotal(NatToString(n)) == text
  {
    ThousandsLabel(n);
  }

  /** A label in millions with one decimal, once its numeral is known. */
  lemma LabelM(n: nat, text: string)
    requires n >= 1000000 && n % 100000 == 0 && n % 1000000 != 0
    requires text == NatToString(n / 1000000) + "." + [DigitChar(n / 100000 % 10)] + "M"
    ensures FormatTotal(NatToString(n)) == text
  {
    MillionsLabel(n);
  }

  /** When a breakdown's total reads back as the sum of its countries and is positive, every
      bar width is the whole percentage nearest that country's share, between 0 and 100. */
  lemma PercentOfConsistentBreakdown(b: Breakdown, i: int)
    requires 0 <= i < |b.countries|
    requires MarketSlide.ParseCount(b.total) == Some(SumCouples(b.countries))
    requires SumCouples(b.countries) > 0
    ensures var c := b.countries[i];
            var t := SumCouples(b.countries);
            var p := RoundHalfUp(100 * c.couples, t);
            CountryPercent(b, c) == NatToString(p) && 0 <= p <= 100
            && -(t as int) < 2 * (p * t - 100 * c.couples) <= t
  {
    SumBoundsEach(b.countries, i);
    ShareInRange(b.countries[i].couples, SumCouples(b.countries));
  }

  /** Each bar width of the table is a whole percentage between 0 and 100, the one nearest the
      country's share of its segment. */
  lemma PercentagesInRange(k: int, i: int)
    requires BreakdownOf(k).Some? && 0 <= i < |BreakdownOf(k).value.countries|
    ensures var b := BreakdownOf(k).value;
            var c := b.countries[i];
            var t := SumCouples(b.countries);
            var p := RoundHalfUp(100 * c.couples, t);
            t > 0 && CountryPercent(b, c) == NatToString(p) && 0 <= p <= 100
  {
    var b := BreakdownOf(k).value;
    CountriesSumToTotal(k);
    SumBoundsEach(b.countries, 0);
    PercentOfConsistentBreakdown(b, i);
  }

  /** The drill-down's hover highlight. */
  class DrillHover {
    var hovered: Option<int>

    constructor()
      ensures hovered == None
    {
      hovered := None;
    }

    method Enter(i: int)
      modifies this
      ensures hovered == Some(i)
    {
      hovered := Some(i);
    }

    method Leave()
      modifies this
      ensures hovered == None
    {
      hovered := None;
    }
  }
}
