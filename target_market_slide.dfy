/** The generated target-market slide (src/components/dynamic/DynamicSlide3.tsx): its own copy of
    `formatNum`, the pie entries built from the segments with cycling colours, the total taken
    from the market size with its "households" unit removed, and the centre figure and caption
    of the selected slice. */
module TargetMarketSlide {
  import opened Options
  import opened JsText
  import opened JsNumber
  import opened Selection
  import MarketSlide

  /** `formatNum` (lines 36-41): the same rules as the market slide's, but without the NaN test.
      Every comparison with NaN is false, so text that holds no number still falls through to
      the unchanged input, and the result is the guarded version's in every case. */
  function FormatNum(s: string): (r: string)
    ensures r == MarketSlide.FormatNum(s)
    ensures MarketSlide.ParseCount(s).None? ==> r == s
  {
    var n := MarketSlide.ParseCount(s);
    if AtLeast(n, 1000000) then ToFixed(n.value, 1000000, if n.value % 1000000 == 0 then 0 else 1) + "M"
    else if AtLeast(n, 1000) then ToFixed(n.value, 1000, 0) + "K"
    else s
  }

  // ---------------------------------------------------------------------------------------
  // The pie entries

  /** One entry of `targetMarketSegments`. */
  datatype TargetSegment = TargetSegment(name: string, percentage: real, count: string, detail: string)

  /** One entry of `pieData`. */
  datatype PieEntry = PieEntry(name: string, value: real, couples: string, color: string, detail: string)

  const Colors: seq<string> := ["hsl(160,30%,35%)", "hsl(145,50%,45%)", "hsl(45,95%,52%)", "hsl(25,100%,55%)"]

  /** `pieData` (lines 62-68): one entry per segment, in order, with the percentage as the
      slice value, the count as its couples figure, and the colours taken in turn. */
  function PieData(segments: seq<TargetSegment>): (r: seq<PieEntry>)
    ensures |r| == |segments|
    ensures forall i :: 0 <= i < |r| ==>
              r[i].name == segments[i].name && r[i].value == segments[i].percentage
              && r[i].couples == segments[i].count && r[i].detail == segments[i].detail
              && r[i].color == Colors[i % |Colors|]
  {
    seq(|segments|, i requires 0 <= i < |segments| =>
      PieEntry(segments[i].name, segments[i].percentage, segments[i].count, Colors[i % |Colors|], segments[i].detail))
  }

  /** The colours repeat every four slices, and four neighbouring slices never share one. */
  lemma ColorsCycle(segments: seq<TargetSegment>, i: int, j: int)
    requires 0 <= i < j < |segments|
    ensures var pie := PieData(segments);
            pie[i].color == pie[j].color <==> (j - i) % 4 == 0
  {
    var a, b := i % 4, j % 4;
    assert i == 4 * (i / 4) + a && j == 4 * (j / 4) + b;
    assert j - i == 4 * (j / 4 - i / 4) + (b - a);
  }

  // ---------------------------------------------------------------------------------------
  // The total: `targetMarketSize.replace(/\s*households?/i, "").trim()`

  const Unit := "household"

  /** ASCII case folding, which is what a non-Unicode `/i` pattern applies to these letters. */
  function Lower(c: char): (d: char)
    ensures 'A' <= c <= 'Z' ==> d as int == c as int + 32
    ensures !('A' <= c <= 'Z') ==> d == c
  {
    if 'A' <= c <= 'Z' then (c as int + 32) as char else c
  }

  /** Where the greedy `\s*` starting at `p` stops. */
  function SpaceEnd(s: string, p: nat): (q: nat)
    requires p <= |s|
    ensures p <= q <= |s|
    ensures forall k :: p <= k < q ==> IsSpace(s[k])
    ensures q == |s| || !IsSpace(s[q])
    decreases |s| - p
  {
    if p < |s| && IsSpace(s[p]) then SpaceEnd(s, p + 1) else p
  }

  /** "household", in any mix of cases, starts at `q`. */
  predicate WordAt(s: string, q: nat) {
    q + |Unit| <= |s| && forall k :: 0 <= k < |Unit| ==> Lower(s[q + k]) == Unit[k]
  }

  /** The pattern matches at `p`: after the white space there, the word follows. A shorter run
      of white space would leave a space where the "h" must be, so the greedy run is the only
      way the pattern can match at `p`. */
  predicate MatchAt(s: string, p: nat)
    requires p <= |s|
  {
    WordAt(s, SpaceEnd(s, p))
  }

  /** The end of a match at `p`: the word, and its plural "s" when one follows. */
  function MatchEnd(s: string, p: nat): (e: nat)
    requires p <= |s| && MatchAt(s, p)
    ensures p + |Unit| <= e <= |s|
  {
    var w := SpaceEnd(s, p) + |Unit|;
    if w < |s| && Lower(s[w]) == 's' then w + 1 else w
  }

  /** The leftmost position at or after `p` where the pattern matches. */
  function FirstMatch(s: string, p: nat): (r: Option<nat>)
    requires p <= |s|
    ensures r.Some? ==> p <= r.value <= |s| && MatchAt(s, r.value)
    ensures r.Some? ==> forall q :: p <= q < r.value ==> !MatchAt(s, q)
    ensures r.None? ==> forall q :: p <= q <= |s| ==> !MatchAt(s, q)
    decreases |s| - p
  {
    if MatchAt(s, p) then Some(p)
    else if p == |s| then None
    else FirstMatch(s, p + 1)
  }

  /** The first match removed, or the text as it is when there is none. */
  function StripUnit(s: string): (r: string)
    ensures FirstMatch(s, 0).None? ==> r == s
    ensures FirstMatch(s, 0).Some? ==>
              var p := FirstMatch(s, 0).value;
              r == s[..p] + s[MatchEnd(s, p)..] && |r| <= |s| - |Unit|
  {
    match FirstMatch(s, 0)
    case None => s
    case Some(p) => s[..p] + s[MatchEnd(s, p)..]
  }

  /** `allSegment.couples` (line 72). */
  function TotalCouples(size: string): (r: string)
    ensures r != [] ==> !IsSpace(r[0]) && !IsSpace(r[|r| - 1])
    ensures |r| <= |size|
  {
    Trim(StripUnit(size))
  }

  /** Text that never mentions the unit is only trimmed. */
  lemma TotalWithoutUnit(size: string)
    requires forall p :: 0 <= p <= |size| ==> !MatchAt(size, p)
    ensures TotalCouples(size) == Trim(size)
  {
    assert FirstMatch(size, 0).None?;
  }

  /** A figure followed by white space and the unit, singular or plural and in any case, gives
      back the figure. The figure's characters are neither white space nor an "h". */
  lemma TotalOfFigureWithUnit(figure: string, gap: string, unit: string)
    requires figure != []
    requires forall k :: 0 <= k < |figure| ==> !IsSpace(figure[k]) && Lower(figure[k]) != 'h'
    requires forall k :: 0 <= k < |gap| ==> IsSpace(gap[k])
    requires |unit| == |Unit| || (|unit| == |Unit| + 1 && Lower(unit[|Unit|]) == 's')
    requires forall k :: 0 <= k < |Unit| ==> Lower(unit[k]) == Unit[k]
    ensures TotalCouples(figure + gap + unit) == figure
  {
    var s := figure + gap + unit;
    var n := |figure|;
    forall q | 0 <= q < n
      ensures !MatchAt(s, q)
    {
      assert s[q] == figure[q];
      NoMatchAtWordChar(s, q);
    }
    SpaceRun(s, n, |gap|);
    assert MatchAt(s, n) by {
      forall k | 0 <= k < |Unit|
        ensures Lower(s[n + |gap| + k]) == Unit[k]
      {
        assert s[n + |gap| + k] == unit[k];
      }
    }
    NoEarlierMatch(s, n);
    assert MatchEnd(s, n) == |s| by {
      if |unit| > |Unit| {
        assert s[n + |gap| + |Unit|] == unit[|Unit|];
      }
    }
    assert StripUnit(s) == figure;
    TrimNoSpace(figure);
  }

  /** The pattern cannot match where a character other than white space or an "h" stands. */
  lemma NoMatchAtWordChar(s: string, q: nat)
    requires q < |s| && !IsSpace(s[q]) && Lower(s[q]) != 'h'
    ensures !MatchAt(s, q)
  {
    assert SpaceEnd(s, q) == q;
    assert Unit[0] == 'h';
  }

  /** For instance, "1,200,000 Households" shows as a total of "1,200,000". */
  lemma TotalOfSample()
    ensures TotalCouples("1,200,000 Households") == "1,200,000"
  {
    assert "1,200,000 Households" == "1,200,000" + " " + "Households";
    TotalOfFigureWithUnit("1,200,000", " ", "Households");
  }

  /** White space all the way from `p` to `p + len`, then something else, is one greedy run. */
  lemma {:induction false} SpaceRun(s: string, p: nat, len: nat)
    requires p + len <= |s|
    requires forall k :: p <= k < p + len ==> IsSpace(s[k])
    requires p + len == |s| || !IsSpace(s[p + len])
    ensures SpaceEnd(s, p) == p + len
    decreases len
  {
    if len > 0 {
      SpaceRun(s, p + 1, len - 1);
    }
  }

  /** When the pattern does not match before `n` but does at `n`, the first match is at `n`. */
  lemma {:induction false} NoEarlierMatch(s: string, n: nat)
    requires n <= |s| && MatchAt(s, n)
    requires forall q :: 0 <= q < n ==> !MatchAt(s, q)
    ensures FirstMatch(s, 0) == Some(n)
  {
  }

  // ---------------------------------------------------------------------------------------
  // The centre of the pie

  /** The centre figure (lines 76-77, 147): the whole market's total for "all", the active
      slice's count for an index that has a slice, and nothing for any other index. */
  function CentreFigure(segments: seq<TargetSegment>, size: string, sel: Active): (r: string)
    ensures sel.All? ==> r == FormatNum(TotalCouples(size))
    ensures sel.At? && 0 <= sel.idx < |segments| ==> r == FormatNum(segments[sel.idx].count)
    ensures sel.At? && !(0 <= sel.idx < |segments|) ==> r == ""
  {
    var pie := PieData(segments);
    match sel
    case All => FormatNum(TotalCouples(size))
    case At(i) => if 0 <= i < |pie| then FormatNum(pie[i].couples) else ""
  }

  /** The caption under it (line 148): "total market", the slice's name, or nothing. */
  function CentreCaption(segments: seq<TargetSegment>, sel: Active): (r: string)
    ensures sel.All? ==> r == "total market"
    ensures sel.At? && 0 <= sel.idx < |segments| ==> r == segments[sel.idx].name
    ensures sel.At? && !(0 <= sel.idx < |segments|) ==> r == ""
  {
    var pie := PieData(segments);
    match sel
    case All => "total market"
    case At(i) => if 0 <= i < |pie| then pie[i].name else ""
  }

  /** A slice is drawn at full strength when everything is selected or it is the selected one;
      the others are dimmed (line 139). */
  predicate FullStrength(sel: Active, i: int) {
    sel.All? || sel == At(i)
  }

  /** Exactly one slice, or all of them, stand out. */
  lemma OneSliceStandsOut(sel: Active, i: int, j: int)
    requires sel.At? && i != j
    ensures !(FullStrength(sel, i) && FullStrength(sel, j))
  {
  }

  /** The slide's one piece of state: the selected slice (line 60). */
  class TargetPie {
    var active: Active

    constructor()
      ensures active == All
    {
      active := All;
    }

    /** Hovering slice `idx` selects it (line 133). */
    method PieHover(idx: int)
      modifies this
      ensures active == At(idx)
    {
      active := At(idx);
    }

    /** Clicking the centre figure goes back to the whole market (line 146). */
    method CentreClick()
      modifies this
      ensures active == All
    {
      active := All;
    }

    /** Clicking legend entry `i` selects slice `i` (line 164). */
    method LegendClick(i: int)
      modifies this
      ensures active == At(i)
    {
      active := At(i);
    }
  }

  /** After a click on the centre the slide shows the total again, whatever was selected. */
  method CentreClickShowsTotal(p: TargetPie, segments: seq<TargetSegment>, size: string)
    modifies p
    ensures CentreFigure(segments, size, p.active) == FormatNum(TotalCouples(size))
    ensures CentreCaption(segments, p.active) == "total market"
  {
    p.CentreClick();
  }

  /** After a legend click on an existing slice the centre shows that slice's count and name. */
  method LegendClickShowsSlice(p: TargetPie, segments: seq<TargetSegment>, size: string, i: int)
    requires 0 <= i < |segments|
    modifies p
    ensures CentreFigure(segments, size, p.active) == FormatNum(segments[i].count)
    ensures CentreCaption(segments, p.active) == segments[i].name
  {
    p.LegendClick(i);
  }
}
