/** The revenue roadmap chart (src/components/Slide8.tsx): the weeks needed to reach the revenue
    goal, the weekly series drawn up to a little past it, the axis labels, the currency format,
    the tooltip's client count and the caption. The three constants of the slide become the
    fields of a `Plan`, so every property is stated for any positive plan and the slide's own
    figures follow as one instance. Money is counted in cents, which keeps the 115% cap exact. */
module RevenueRoadmap {
  import opened Options
  import opened JsText
  import opened JsNumber

  /** `CLIENTS_PER_1000`, `PRICE` and `GOAL` (lines 14-16), in whole clients and dollars. */
  datatype Plan = Plan(clientsPer1000: int, price: int, goal: int)

  /** The slide's own plan. */
  const SlidePlan := Plan(2, 10000, 120000)

  predicate Valid(p: Plan) {
    p.clientsPer1000 > 0 && p.price > 0 && p.goal > 0
  }

  /** `revenuePerWeek` (line 19). */
  function RevenuePerWeek(p: Plan): (r: int)
    ensures Valid(p) ==> r > 0
  {
    p.clientsPer1000 * p.price
  }

  /** `Math.ceil(a / b)` for a positive divisor: the least q with a <= q * b. */
  function CeilDiv(a: int, b: int): (q: int)
    requires b > 0
    ensures (q - 1) * b < a <= q * b
  {
    if a % b == 0 then a / b else a / b + 1
  }

  /** `weeksToGoal` (line 20): the first week whose revenue reaches the goal. */
  function WeeksToGoal(p: Plan): (w: int)
    requires Valid(p)
    ensures w >= 1
    ensures (w - 1) * RevenuePerWeek(p) < p.goal <= w * RevenuePerWeek(p)
  {
    CeilDiv(p.goal, RevenuePerWeek(p))
  }

  /** `totalPoints` (line 23). */
  function TotalPoints(p: Plan): (n: int)
    requires Valid(p)
    ensures n >= 6 && n >= WeeksToGoal(p) + 2
    ensures n == 6 || n == WeeksToGoal(p) + 2
  {
    if WeeksToGoal(p) + 2 >= 6 then WeeksToGoal(p) + 2 else 6
  }

  /** `useMonthlLabels` (line 26): monthly labels are used exactly when the goal is more than
      ten weeks away. */
  predicate MonthlyLabels(p: Plan): (monthly: bool)
    requires Valid(p)
    ensures monthly <==> WeeksToGoal(p) > 10
  {
    TotalPoints(p) > 12
  }

  /** `revenuePerWeek`, in cents. */
  function WeeklyCents(p: Plan): int {
    RevenuePerWeek(p) * 100
  }

  /** `GOAL * 1.15`, in cents. */
  function CapCents(p: Plan): int {
    p.goal * 115
  }

  /** The revenue of a week (line 30), in cents: the weekly rate times the week, capped at
      115% of the goal. */
  function RevenueCents(p: Plan, week: int): (r: int)
    ensures r <= CapCents(p)
    ensures r == CapCents(p) || r == week * WeeklyCents(p)
    ensures week * WeeklyCents(p) <= CapCents(p) ==> r == week * WeeklyCents(p)
  {
    if week * WeeklyCents(p) <= CapCents(p) then week * WeeklyCents(p) else CapCents(p)
  }

  /** The axis label of a week (lines 34-38): every fourth week as a month "M1", "M2", ... in
      monthly mode and nothing in between, otherwise "W1", "W2", ... */
  function WeekLabel(monthly: bool, week: int): (r: string)
    ensures monthly ==> (r != "" <==> week % 4 == 0)
    ensures monthly && week % 4 == 0 ==> r[0] == 'M' && r[1..] == IntToString(week / 4)
    ensures !monthly ==> r != "" && r[0] == 'W' && r[1..] == IntToString(week)
  {
    assert ("M" + IntToString(week / 4))[1..] == IntToString(week / 4);
    assert ("W" + IntToString(week))[1..] == IntToString(week);
    if monthly then (if week % 4 == 0 then "M" + IntToString(week / 4) else "")
    else "W" + IntToString(week)
  }

  datatype Point = Point(week: int, revenueCents: int, caption: string)

  /** `chartData` (lines 28-40): one point per week from week 1. */
  function ChartData(p: Plan): (r: seq<Point>)
    requires Valid(p)
    ensures |r| == TotalPoints(p)
    ensures forall i :: 0 <= i < |r| ==>
              r[i] == Point(i + 1, RevenueCents(p, i + 1), WeekLabel(MonthlyLabels(p), i + 1))
  {
    seq(TotalPoints(p), i => Point(i + 1, RevenueCents(p, i + 1), WeekLabel(MonthlyLabels(p), i + 1)))
  }

  /** The weeks run 1, 2, 3, ... without a gap. */
  lemma WeeksConsecutive(p: Plan, i: int)
    requires Valid(p) && 0 <= i < |ChartData(p)| - 1
    ensures ChartData(p)[i + 1].week == ChartData(p)[i].week + 1
    ensures ChartData(p)[0].week == 1
  {
  }

  /** The series never goes down. */
  lemma RevenueNonDecreasing(p: Plan, i: int, j: int)
    requires Valid(p) && 0 <= i <= j < |ChartData(p)|
    ensures ChartData(p)[i].revenueCents <= ChartData(p)[j].revenueCents
  {
    MulLeft(i + 1, j + 1, WeeklyCents(p));
  }

  /** The goal is first reached at week `weeksToGoal`, and the chart runs at least two weeks past
      it: every earlier week is short of the goal, that week and every later one reach it. */
  lemma GoalFirstReachedAtWeeksToGoal(p: Plan, i: int)
    requires Valid(p) && 0 <= i < |ChartData(p)|
    ensures WeeksToGoal(p) + 2 <= |ChartData(p)|
    ensures ChartData(p)[i].revenueCents >= p.goal * 100 <==> i + 1 >= WeeksToGoal(p)
  {
    assert ChartData(p)[i].revenueCents == RevenueCents(p, i + 1);
    RevenueReachesGoal(p, i + 1);
  }

  /** A week's revenue reaches the goal exactly from week `weeksToGoal` on. */
  lemma RevenueReachesGoal(p: Plan, week: int)
    requires Valid(p) && week >= 1
    ensures RevenueCents(p, week) >= p.goal * 100 <==> week >= WeeksToGoal(p)
  {
    var w := WeeksToGoal(p);
    var rate := RevenuePerWeek(p);
    assert week * WeeklyCents(p) == week * rate * 100;
    if week >= w {
      MulLeft(w, week, rate);
    } else {
      MulLeft(week, w - 1, rate);
    }
  }

  lemma MulLeft(x: int, y: int, c: int)
    requires x <= y && c > 0
    ensures x * c <= y * c
  {
    assert y * c - x * c == (y - x) * c;
  }

  /** In monthly mode only every fourth week is labelled, as its month; otherwise every week
      is labelled with its number. */
  lemma LabelsFollowMode(p: Plan, i: int)
    requires Valid(p) && 0 <= i < |ChartData(p)|
    ensures var pt := ChartData(p)[i];
            (MonthlyLabels(p) ==> (pt.caption != "" <==> pt.week % 4 == 0))
            && (MonthlyLabels(p) && pt.week % 4 == 0 ==>
                  pt.caption[0] == 'M' && ParseInt(pt.caption[1..]) == Some(pt.week / 4))
            && (!MonthlyLabels(p) ==> pt.caption != [] && pt.caption[0] == 'W' && ParseInt(pt.caption[1..]) == Some(pt.week))
  {
    var pt := ChartData(p)[i];
    if MonthlyLabels(p) {
      ParseIntOfIntToString(pt.week / 4);
    } else {
      ParseIntOfIntToString(pt.week);
    }
  }

  // ---------------------------------------------------------------------------------------
  // fmtCurrency

  /** `fmtCurrency` (lines 43-47) of an amount given in cents: one-decimal millions, whole
      thousands, or the plain amount in dollars. */
  function FmtCurrency(cents: int): (r: string)
    ensures |r| >= 2 && r[0] == '$'
    ensures cents >= 100000000 <==> r[|r| - 1] == 'M'
    ensures 100000 <= cents < 100000000 <==> r[|r| - 1] == 'K'
    ensures cents < 100000 ==> IsDigit(r[|r| - 1])
    // thousands are rounded to the nearest whole thousand (see `ThousandsRounded`)
    ensures 100000 <= cents < 100000000 ==> r == "$" + NatToString(RoundHalfUp(cents, 100000)) + "K"
  {
    if cents >= 100000000 then "$" + ToFixed(cents, 100000000, 1) + "M"
    else if cents >= 100000 then "$" + ToFixed(cents, 100000, 0) + "K"
    else "$" + DollarText(cents)
  }

  /** `String(v)` of a dollar amount with at most two decimals: no decimals for a whole amount,
      and no trailing zero otherwise. */
  function DollarText(cents: int): string {
    if cents < 0 then "-" + DollarDigits(-cents) else DollarDigits(cents)
  }

  function DollarDigits(cents: nat): string {
    var whole, frac := cents / 100, cents % 100;
    if frac == 0 then NatToString(whole)
    else if frac % 10 == 0 then NatToString(whole) + "." + [DigitChar(frac / 10)]
    else NatToString(whole) + "." + [DigitChar(frac / 10), DigitChar(frac % 10)]
  }

  /** A whole number of dollars below $1,000 is printed as that number. */
  lemma WholeDollars(d: int)
    requires d < 1000
    ensures FmtCurrency(100 * d) == "$" + IntToString(d)
  {
    assert FmtCurrency(100 * d) == "$" + DollarText(100 * d);
    if d < 0 {
      assert DollarDigits(-100 * d) == NatToString(-d);
    } else {
      assert DollarDigits(100 * d) == NatToString(d);
    }
  }

  /** A whole number of thousands below a million is printed as that many "K". */
  lemma ThousandsCurrency(k: int)
    requires 1 <= k < 1000
    ensures FmtCurrency(k * 100000) == "$" + NatToString(k) + "K"
  {
    NearestUnique(k * 100000, 100000, k);
    assert NonNegProduct(k * 100000, Pow10(0)) == k * 100000;
  }

  /** An amount from $1,000 up to a million is printed as the nearest whole number of thousands,
      halves rounded up. */
  lemma ThousandsRounded(cents: int)
    requires 100000 <= cents < 100000000
    ensures var k := RoundHalfUp(cents, 100000);
            FmtCurrency(cents) == "$" + NatToString(k) + "K"
            && -100000 < 2 * (k * 100000 - cents) <= 100000
  {
  }

  /** The dollar text reads as the amount: the whole dollars, then, only when there are cents,
      a point and the cents with a trailing zero dropped. */
  lemma DollarDigitsReadsAsAmount(cents: nat)
    ensures var w := NatToString(cents / 100); var r := DollarDigits(cents);
            |r| >= |w| && r[..|w|] == w
            && (cents % 100 == 0 <==> r == w)
            && (cents % 100 != 0 ==> r[|w|] == '.')
            && (cents % 100 != 0 && cents % 10 == 0 ==>
                  |r| == |w| + 2 && (r[|w| + 1] as int) - ('0' as int) == cents % 100 / 10)
            && (cents % 10 != 0 ==>
                  |r| == |w| + 3
                  && 10 * ((r[|w| + 1] as int) - ('0' as int)) + ((r[|w| + 2] as int) - ('0' as int)) == cents % 100)
  {
  }

  /** Amounts of a million dollars or more are printed as the nearest tenth of a million. */
  lemma MillionsCurrency(cents: int)
    requires cents >= 100000000
    ensures var k := RoundHalfUp(cents * 10, 100000000);
            FmtCurrency(cents) == "$" + NatToString(k / 10) + "." + [DigitChar(k % 10)] + "M"
            && -100000000 < 2 * (k * 100000000 - cents * 10) <= 100000000
  {
    MillionsText(cents);
    RoundHalfUpNearest(cents * 10, 100000000);
  }

  lemma MillionsText(cents: int)
    requires cents >= 100000000
    ensures var k := RoundHalfUp(cents * 10, 100000000);
            FmtCurrency(cents) == "$" + NatToString(k / 10) + "." + [DigitChar(k % 10)] + "M"
  {
    assert Pow10(1) == 10;
    assert NonNegProduct(cents, Pow10(1)) == cents * 10;
    var k := RoundHalfUp(cents * 10, 100000000);
    assert k >= 0;
    assert FixedDigits(cents, 100000000, 1) == NatToString(NatDiv(k, 10)) + "." + PadZeros(NatToString(k % 10), 1);
    assert NatToString(k % 10) == [DigitChar(k % 10)];
    assert FmtCurrency(cents) == "$" + FixedDigits(cents, 100000000, 1) + "M";
  }

  // ---------------------------------------------------------------------------------------
  // The tooltip and the caption

  /** The tooltip's client count for a week (line 56): the clients signed so far, but never
      more than it takes to reach the goal. */
  function TooltipClients(p: Plan, week: int): (c: int)
    requires Valid(p)
    ensures c <= week * p.clientsPer1000 && c <= CeilDiv(p.goal, p.price)
    ensures c == week * p.clientsPer1000 || c == CeilDiv(p.goal, p.price)
  {
    var signed := week * p.clientsPer1000;
    var needed := CeilDiv(p.goal, p.price);
    if signed <= needed then signed else needed
  }

  /** Those clients pay for the week's revenue up to the goal, and no client is one too many:
      without the last one the goal would not be reached. */
  lemma TooltipClientsPayForRevenue(p: Plan, week: int)
    requires Valid(p) && week >= 0
    ensures var c := TooltipClients(p, week);
            c * p.price <= week * RevenuePerWeek(p)
            && (c * p.price >= week * RevenuePerWeek(p) || c * p.price >= p.goal)
            && (c - 1) * p.price < p.goal
  {
    var signed := week * p.clientsPer1000;
    var needed := CeilDiv(p.goal, p.price);
    assert signed * p.price == week * RevenuePerWeek(p);
    if needed < signed {
      MulLeft(needed, signed, p.price);
    } else {
      MulLeft(signed - 1, needed - 1, p.price);
    }
  }

  /** `weeksLabel` (lines 62-64). */
  function WeeksLabel(p: Plan): (r: string)
    requires Valid(p)
    ensures MonthlyLabels(p) ==> |r| > 8 && r[0] == '~' && r[|r| - 7..] == " months"
    ensures !MonthlyLabels(p) ==> |r| > 6 && IsDigit(r[0]) && r[|r| - 6..] == " weeks"
  {
    if MonthlyLabels(p) then "~" + IntToString(CeilDiv(WeeksToGoal(p), 4)) + " months"
    else IntToString(WeeksToGoal(p)) + " weeks"
  }

  /** In monthly mode the caption counts months, rounded up, and there are at least three. */
  lemma MonthsCaption(p: Plan)
    requires Valid(p) && MonthlyLabels(p)
    ensures var w := WeeksToGoal(p);
            var m := CeilDiv(w, 4);
            WeeksLabel(p) == "~" + IntToString(m) + " months" && 4 * (m - 1) < w <= 4 * m && m >= 3
  {
  }

  /** Otherwise it counts weeks, and the number it shows reads back as `weeksToGoal`. */
  lemma WeeksCaption(p: Plan)
    requires Valid(p) && !MonthlyLabels(p)
    ensures ParseInt(WeeksLabel(p)) == Some(WeeksToGoal(p))
  {
    var w := WeeksToGoal(p);
    ParseDigitsOfNatToString(w);
    LeadingDigitsStop(NatToString(w), " weeks");
    var t := NatToString(w) + " weeks";
    assert WeeksLabel(p) == t;
    assert !IsSpace(t[0]) && t[0] != '-' && t[0] != '+';
    assert TrimStart(t) == t;
  }

  /** The slide's own figures: six weeks to $120K, eight weekly points, capped at $138K. */
  lemma SlidePlanFigures()
    ensures Valid(SlidePlan)
    ensures WeeksToGoal(SlidePlan) == 6 && TotalPoints(SlidePlan) == 8 && !MonthlyLabels(SlidePlan)
    ensures CapCents(SlidePlan) == 13800000
    ensures WeeksLabel(SlidePlan) == "6 weeks"
    ensures FmtCurrency(SlidePlan.goal * 100) == "$120K"
  {
    ThousandsCurrency(120);
    assert NatToString(120) == "120";
  }
}
