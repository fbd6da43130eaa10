/** The generated funnel slide (src/components/dynamic/DynamicSlide2.tsx): the year/month
    switch that picks which figures are shown, the four funnel steps with their fixed widths,
    the step that can be opened by a click, and which steps are lit. */
module FunnelSlide {
  import opened Options
  import opened Selection

  datatype TimeFrame = Year | Month

  /** The steps of the funnel, top to bottom; `activeStep` holds one of their keys. */
  datatype Step = Leads | Conversations | Clients | Revenue

  const Steps: seq<Step> := [Leads, Conversations, Clients, Revenue]

  /** The figures of one time frame. */
  datatype Figures = Figures(leads: string, conversations: string, clients: string, revenue: string)

  datatype FunnelData = FunnelData(year: Figures, month: Figures)

  /** `data.funnelData[timeFrame]` (line 93). */
  function Shown(data: FunnelData, tf: TimeFrame): (f: Figures)
    ensures tf == Year ==> f == data.year
    ensures tf == Month ==> f == data.month
  {
    match tf
    case Year => data.year
    case Month => data.month
  }

  /** The number a step shows (lines 138-144). */
  function Number(f: Figures, s: Step): (r: string)
    ensures s == Leads ==> r == f.leads
    ensures s == Conversations ==> r == f.conversations
    ensures s == Clients ==> r == f.clients
    ensures s == Revenue ==> r == f.revenue
  {
    match s
    case Leads => f.leads
    case Conversations => f.conversations
    case Clients => f.clients
    case Revenue => f.revenue
  }

  /** `widthPercent` of each step (lines 138-144). */
  function Width(s: Step): (w: int)
    ensures 0 < w <= 100
  {
    match s
    case Leads => 100
    case Conversations => 80
    case Clients => 55
    case Revenue => 45
  }

  /** The funnel narrows all the way down, starting at full width. */
  lemma WidthsNarrow(i: int, j: int)
    requires 0 <= i < j < |Steps|
    ensures Width(Steps[i]) > Width(Steps[j])
    ensures Width(Steps[0]) == 100
  {
  }

  /** Only the revenue step carries `highlight`. */
  predicate Highlighted(s: Step) {
    s == Revenue
  }

  /** `isLit = highlight || active` (line 40). */
  predicate Lit(s: Step, active: Option<Step>): (lit: bool)
    // the revenue step is always lit, the open step too, and with nothing open nothing else is
    ensures s == Revenue ==> lit
    ensures active == Some(s) ==> lit
    ensures active.None? && lit ==> s == Revenue
  {
    Highlighted(s) || active == Some(s)
  }

  /** The lit steps are the revenue step and the open one, if any, and nothing else. */
  lemma LitSteps(active: Option<Step>)
    ensures forall s :: Lit(s, active) <==> s == Revenue || active == Some(s)
    ensures Lit(Revenue, active)
    ensures forall s, t :: s != Revenue && t != Revenue && Lit(s, active) && Lit(t, active) ==> s == t
  {
  }

  /** The slide's state: the time frame (starting at the year) and the open step (none). */
  class Funnel {
    var timeFrame: TimeFrame
    var activeStep: Option<Step>

    constructor()
      ensures timeFrame == Year && activeStep == None
    {
      timeFrame := Year;
      activeStep := None;
    }

    /** A click on a step closes it when it is the open one and opens it otherwise
        (lines 138-144). */
    method StepClick(s: Step)
      modifies this
      ensures activeStep == Toggled(old(activeStep), s)
      ensures timeFrame == old(timeFrame)
    {
      activeStep := if activeStep == Some(s) then None else Some(s);
    }

    /** The year and month buttons (line 152). */
    method SetTimeFrame(tf: TimeFrame)
      modifies this
      ensures timeFrame == tf && activeStep == old(activeStep)
    {
      timeFrame := tf;
    }
  }

  /** After choosing a time frame every step shows that frame's figure. */
  method ChooseTimeFrame(f: Funnel, data: FunnelData, tf: TimeFrame)
    modifies f
    ensures forall s :: Number(Shown(data, f.timeFrame), s) == Number(if tf == Year then data.year else data.month, s)
  {
    f.SetTimeFrame(tf);
  }

  /** Two clicks on one step leave it open if it was open before, and otherwise leave every step
      closed, even one that was open before. */
  method ClickTwice(f: Funnel, s: Step)
    modifies f
    ensures f.activeStep == (if old(f.activeStep) == Some(s) then Some(s) else None)
    ensures f.timeFrame == old(f.timeFrame)
  {
    f.StepClick(s);
    f.StepClick(s);
  }
}
