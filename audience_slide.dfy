/** The generated target-audience slide (src/components/dynamic/DynamicSlide5.tsx): the channel
    bars with their colours, icons and expandable details, the defaults used when parts of the
    media data are missing, and the two overlays listing media examples and sources. */
module AudienceSlide {
  import opened Options
  import opened JsText
  import opened Json
  import opened Selection

  // ---------------------------------------------------------------------------------------
  // The slide's data

  /** One entry of `mediaChannels.channels`. */
  datatype Channel = Channel(text: string, sublabel: string, percent: real, stat: string, detail: string, icon: string)

  /** One entry of `mediaChannels.sources`. */
  datatype Source = Source(title: string, org: string, url: string)

  /** One entry of `mediaExamples`; `kind` is its `type`. */
  datatype MediaExample = MediaExample(kind: string, name: string, description: string)

  /** `mediaChannels`; a missing member is `None`. */
  datatype MediaChannels = MediaChannels(totalAudience: Option<string>, channels: Option<seq<Channel>>, sources: Option<seq<Source>>)

  /** The slide's data; a missing `mediaChannels` or `mediaExamples` is `None`. */
  datatype AudienceData = AudienceData(clientName: string, crisis: string, mediaChannels: Option<MediaChannels>, mediaExamples: Option<seq<MediaExample>>)

  /** `mediaChannels?.channels || []` (line 175): an array, even an empty one, is truthy, so only
      a missing list is replaced. */
  function Channels(d: AudienceData): (r: seq<Channel>)
    ensures d.mediaChannels.None? ==> r == []
    ensures d.mediaChannels.Some? && d.mediaChannels.value.channels.None? ==> r == []
    ensures d.mediaChannels.Some? && d.mediaChannels.value.channels.Some? ==> r == d.mediaChannels.value.channels.value
  {
    match d.mediaChannels
    case None => []
    case Some(mc) => mc.channels.GetOr([])
  }

  /** `mediaChannels?.totalAudience || ""` (line 176). */
  function TotalAudience(d: AudienceData): (r: string)
    ensures d.mediaChannels.None? ==> r == ""
    ensures d.mediaChannels.Some? ==> r == OrElse(d.mediaChannels.value.totalAudience, "")
  {
    match d.mediaChannels
    case None => ""
    case Some(mc) => OrElse(mc.totalAudience, "")
  }

  /** `mediaChannels?.sources || []` (line 177). */
  function Sources(d: AudienceData): (r: seq<Source>)
    ensures d.mediaChannels.None? ==> r == []
    ensures d.mediaChannels.Some? && d.mediaChannels.value.sources.None? ==> r == []
    ensures d.mediaChannels.Some? && d.mediaChannels.value.sources.Some? ==> r == d.mediaChannels.value.sources.value
  {
    match d.mediaChannels
    case None => []
    case Some(mc) => mc.sources.GetOr([])
  }

  /** `mediaExamples || []` (line 178). */
  function Examples(d: AudienceData): (r: seq<MediaExample>)
    ensures d.mediaExamples.None? ==> r == []
    ensures d.mediaExamples.Some? ==> r == d.mediaExamples.value
  {
    d.mediaExamples.GetOr([])
  }

  // ---------------------------------------------------------------------------------------
  // Colours and icons

  /** The icons the slide draws. */
  datatype Glyph = Mail | Headphones | Youtube

  /** `table[key] || fallback` on an object literal whose entries are all truthy: the entry when
      there is one, the fallback when the key names nothing, and the inherited member of
      `Object.prototype` (a function, hence truthy) when the key is one of those names. */
  datatype Choice<T> = Chosen(value: T) | PrototypeMember(name: string)

  function Pick<T>(table: map<string, T>, key: string, fallback: T): (r: Choice<T>)
    ensures key in table ==> r == Chosen(table[key])
    ensures key !in table && key !in ObjectPrototypeNames ==> r == Chosen(fallback)
    ensures key !in table && key in ObjectPrototypeNames ==> r == PrototypeMember(key)
  {
    match RecordGet(table, key)
    case Own(v) => Chosen(v)
    case Inherited(name) => PrototypeMember(name)
    case Missing => Chosen(fallback)
  }

  /** `iconMap` (lines 19-23). */
  const IconMap: map<string, Glyph> := map["mail" := Mail, "headphones" := Headphones, "youtube" := Youtube]

  /** `mediaExampleIcons` (lines 158-162). */
  const ExampleIcons: map<string, Glyph> := map["newsletter" := Mail, "podcast" := Headphones, "youtube" := Youtube]

  /** `mediaExampleColors` (lines 164-168). */
  const ExampleColors: map<string, string> := map[
    "newsletter" := "hsl(45,95%,52%)", "podcast" := "hsl(145,50%,45%)", "youtube" := "hsl(25,100%,55%)"]

  const DefaultExampleColor := "hsl(45,95%,52%)"

  /** `barColors` (lines 25-29). */
  const BarColors: seq<string> := ["hsl(45,95%,52%)", "hsl(145,50%,45%)", "hsl(25,100%,55%)"]

  /** A channel's icon: `iconMap[item.icon] || Mail` (line 83). */
  function ChannelIcon(icon: string): (r: Choice<Glyph>)
    ensures icon == "mail" ==> r == Chosen(Mail)
    ensures icon == "headphones" ==> r == Chosen(Headphones)
    ensures icon == "youtube" ==> r == Chosen(Youtube)
    ensures icon !in {"mail", "headphones", "youtube"} && icon !in ObjectPrototypeNames ==> r == Chosen(Mail)
    ensures icon in ObjectPrototypeNames ==> r == PrototypeMember(icon)
  {
    Pick(IconMap, icon, Mail)
  }

  /** An example's icon: `mediaExampleIcons[ex.type] || Mail` (line 296). */
  function ExampleIcon(kind: string): (r: Choice<Glyph>)
    ensures kind == "newsletter" ==> r == Chosen(Mail)
    ensures kind == "podcast" ==> r == Chosen(Headphones)
    ensures kind == "youtube" ==> r == Chosen(Youtube)
    ensures kind !in {"newsletter", "podcast", "youtube"} && kind !in ObjectPrototypeNames ==> r == Chosen(Mail)
    ensures kind in ObjectPrototypeNames ==> r == PrototypeMember(kind)
  {
    Pick(ExampleIcons, kind, Mail)
  }

  /** An example's colour: `mediaExampleColors[ex.type] || "hsl(45,95%,52%)"` (line 297). */
  function ExampleColor(kind: string): (r: Choice<string>)
    ensures kind == "newsletter" ==> r == Chosen("hsl(45,95%,52%)")
    ensures kind == "podcast" ==> r == Chosen("hsl(145,50%,45%)")
    ensures kind == "youtube" ==> r == Chosen("hsl(25,100%,55%)")
    ensures kind !in {"newsletter", "podcast", "youtube"} && kind !in ObjectPrototypeNames ==> r == Chosen(DefaultExampleColor)
    ensures kind in ObjectPrototypeNames ==> r == PrototypeMember(kind)
  {
    Pick(ExampleColors, kind, DefaultExampleColor)
  }

  /** An example of a kind the tables know gets the icon and colour of that kind, and both
      tables know the same kinds; every other ordinary kind is drawn like a newsletter. */
  lemma UnknownKindLooksLikeNewsletter(kind: string)
    requires kind !in ExampleIcons && kind !in ObjectPrototypeNames
    ensures ExampleIcon(kind) == ExampleIcon("newsletter") && ExampleColor(kind) == ExampleColor("newsletter")
    ensures kind !in ExampleColors
  {
  }

  /** Bar `i`'s colour: `barColors[i] || barColors[0]` (line 229). Only the first three bars have
      colours of their own; every later bar repeats the first. */
  function BarColor(i: nat): (r: string)
    ensures i < |BarColors| ==> r == BarColors[i]
    ensures i >= |BarColors| ==> r == BarColors[0]
    ensures r in BarColors
  {
    if i < |BarColors| then BarColors[i] else BarColors[0]
  }

  /** Two of the first three bars never share a colour; a fourth bar and later ones share the
      first bar's. */
  lemma BarColorsDistinct(i: nat, j: nat)
    requires i < j
    ensures BarColor(i) == BarColor(j) <==> (i == 0 && j >= |BarColors|) || (i >= |BarColors|)
  {
  }

  // ---------------------------------------------------------------------------------------
  // The bars

  /** What an open bar shows below its bar: the statistic, the crisis it refers to and the
      detail text (lines 144-150). */
  datatype Details = Details(stat: string, crisis: string, detail: string)

  /** What one `BarRow` shows. */
  datatype Bar = Bar(channel: Channel, color: string, icon: Choice<Glyph>, isActive: bool, details: Option<Details>)

  /** `channels.map(...)` (lines 225-235): one bar per channel, in order; a bar is active when
      its index is `activeIdx`, and only an active bar shows its details (line 136). */
  function Bars(d: AudienceData, activeIdx: Option<int>): (r: seq<Bar>)
    ensures |r| == |Channels(d)|
    ensures forall i :: 0 <= i < |r| ==>
              r[i].channel == Channels(d)[i] && r[i].color == BarColor(i)
              && r[i].icon == ChannelIcon(Channels(d)[i].icon)
              && (r[i].isActive <==> activeIdx == Some(i))
              && (r[i].details.Some? <==> r[i].isActive)
              && (r[i].details.Some? ==>
                    r[i].details.value == Details(Channels(d)[i].stat, d.crisis, Channels(d)[i].detail))
  {
    var channels := Channels(d);
    seq(|channels|, i requires 0 <= i < |channels| =>
      var active := activeIdx == Some(i);
      Bar(channels[i], BarColor(i), ChannelIcon(channels[i].icon), active,
          if active then Some(Details(channels[i].stat, d.crisis, channels[i].detail)) else None))
  }

  /** At most one bar is open at a time, and none when nothing is selected. */
  lemma AtMostOneOpen(d: AudienceData, activeIdx: Option<int>, i: int, j: int)
    requires 0 <= i < j < |Channels(d)|
    ensures var bars := Bars(d, activeIdx); !(bars[i].details.Some? && bars[j].details.Some?)
    ensures activeIdx.None? ==> Bars(d, activeIdx)[i].details.None?
  {
  }

  // ---------------------------------------------------------------------------------------
  // The overlays

  /** The body of an overlay: its rows, and the placeholder shown when there are none. */
  datatype Panel<T> = Panel(rows: seq<T>, placeholder: Option<string>)

  const NoExamples := "No media examples available"
  const NoSources := "No detailed sources available"

  /** One row of the media examples overlay (lines 295-315). */
  datatype ExampleRow = ExampleRow(icon: Choice<Glyph>, color: Choice<string>, name: string, description: string)

  /** One row of the sources overlay (lines 363-383): its number, counted from 1, and the
      source's title, organisation and link. */
  datatype SourceRow = SourceRow(number: nat, title: string, org: string, url: string)

  /** The media examples overlay (lines 262-325): absent unless opened; a row per example, and
      the placeholder exactly when there is none (lines 316-318). */
  function ExamplesOverlay(show: bool, d: AudienceData): (r: Option<Panel<ExampleRow>>)
    ensures r.Some? <==> show
    ensures r.Some? ==>
              var ex := Examples(d);
              |r.value.rows| == |ex|
              && (forall i :: 0 <= i < |ex| ==>
                    r.value.rows[i] == ExampleRow(ExampleIcon(ex[i].kind), ExampleColor(ex[i].kind), ex[i].name, ex[i].description))
              && (r.value.placeholder.Some? <==> ex == [])
              && (r.value.placeholder.Some? ==> r.value.placeholder.value == NoExamples)
  {
    if !show then None
    else
      var ex := Examples(d);
      var rows := seq(|ex|, i requires 0 <= i < |ex| =>
        ExampleRow(ExampleIcon(ex[i].kind), ExampleColor(ex[i].kind), ex[i].name, ex[i].description));
      Some(Panel(rows, if |ex| == 0 then Some(NoExamples) else None))
  }

  /** The sources overlay (lines 330-393): absent unless opened; a numbered row per source, and
      the placeholder exactly when there is none (lines 384-386). */
  function SourcesOverlay(show: bool, d: AudienceData): (r: Option<Panel<SourceRow>>)
    ensures r.Some? <==> show
    ensures r.Some? ==>
              var src := Sources(d);
              |r.value.rows| == |src|
              && (forall i :: 0 <= i < |src| ==>
                    r.value.rows[i] == SourceRow(i + 1, src[i].title, src[i].org, src[i].url))
              && (r.value.placeholder.Some? <==> src == [])
              && (r.value.placeholder.Some? ==> r.value.placeholder.value == NoSources)
  {
    if !show then None
    else
      var src := Sources(d);
      var rows := seq(|src|, i requires 0 <= i < |src| => SourceRow(i + 1, src[i].title, src[i].org, src[i].url));
      Some(Panel(rows, if |src| == 0 then Some(NoSources) else None))
  }

  /** A slide whose media data is missing altogether still renders: no bars, an empty audience
      figure, and the two placeholders once the overlays are opened. */
  lemma MissingMediaData(d: AudienceData)
    requires d.mediaChannels.None? && d.mediaExamples.None?
    ensures Bars(d, None) == [] && TotalAudience(d) == ""
    ensures ExamplesOverlay(true, d) == Some(Panel([], Some(NoExamples)))
    ensures SourcesOverlay(true, d) == Some(Panel([], Some(NoSources)))
  {
  }

  // ---------------------------------------------------------------------------------------
  // The slide's state

  /** `activeIdx`, `showSources` and `showExamples` (lines 171-173). */
  class Audience {
    var activeIdx: Option<int>
    var showSources: bool
    var showExamples: bool

    /** Nothing selected, both overlays closed. */
    constructor()
      ensures activeIdx == None && !showSources && !showExamples
    {
      activeIdx := None;
      showSources := false;
      showExamples := false;
    }

    /** A click on bar `i` (line 232) opens it, or closes it when it is the open one. */
    method BarClick(i: int)
      modifies this
      ensures activeIdx == Toggled(old(activeIdx), i)
      ensures showSources == old(showSources) && showExamples == old(showExamples)
    {
      activeIdx := Toggled(activeIdx, i);
    }

    /** The call to action opens the media examples (line 243). */
    method OpenExamples()
      modifies this
      ensures showExamples && activeIdx == old(activeIdx) && showSources == old(showSources)
    {
      showExamples := true;
    }

    /** The backdrop and the close button of the examples overlay close it (lines 275, 290). */
    method CloseExamples()
      modifies this
      ensures !showExamples && activeIdx == old(activeIdx) && showSources == old(showSources)
    {
      showExamples := false;
    }

    /** The source line opens the sources overlay (line 255). */
    method OpenSources()
      modifies this
      ensures showSources && activeIdx == old(activeIdx) && showExamples == old(showExamples)
    {
      showSources := true;
    }

    /** The backdrop and the close button of the sources overlay close it (lines 343, 358). */
    method CloseSources()
      modifies this
      ensures !showSources && activeIdx == old(activeIdx) && showExamples == old(showExamples)
    {
      showSources := false;
    }
  }

  /** A click on a closed bar opens exactly that bar; a second click on it closes every bar. */
  method ClickBarTwice(a: Audience, d: AudienceData, i: int)
    requires 0 <= i < |Channels(d)|
    requires a.activeIdx != Some(i)
    modifies a
    ensures Bars(d, a.activeIdx)[i].details.None?
    ensures forall j :: 0 <= j < |Channels(d)| ==> !Bars(d, a.activeIdx)[j].isActive
  {
    a.BarClick(i);
    assert Bars(d, a.activeIdx)[i].isActive;
    a.BarClick(i);
  }
}
