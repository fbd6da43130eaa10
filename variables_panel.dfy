/** The "See Variables" panel (src/components/VariablesPanel.tsx): the editable fields of each
    training day, the edited values initialised from the slide data, edits to one field at a
    time, the "Unsaved changes" test, and the regenerate button that hands the edits on. */
module VariablesPanel {
  import opened Options
  import opened JsText
  import opened Json

  datatype Kind = Text | TextArea

  /** One editable field: the data key it edits, the caption above it, and its input kind. */
  datatype FieldDef = FieldDef(key: string, caption: string, kind: Kind)

  /** `DAY_FIELDS[day] || []` (lines 11-32, 43): the fields of days 1, 2 and 3, and none for any
      other day. */
  function DayFields(day: int): (r: seq<FieldDef>)
    ensures day == 1 ==> |r| == 6
    ensures day == 2 ==> |r| == 5
    ensures day == 3 ==> |r| == 3
    ensures day !in {1, 2, 3} ==> r == []
    ensures r != [] ==> r[0] == FieldDef("clientName", "Client Name", Text)
  {
    if day == 1 then
      [FieldDef("clientName", "Client Name", Text), FieldDef("revenueGoal", "Revenue Goal", Text),
       FieldDef("revenueTimeframe", "Timeframe", Text), FieldDef("niche", "Niche", Text),
       FieldDef("targetMarket", "Target Market", Text), FieldDef("motivatingForce", "Motivating Force", TextArea)]
    else if day == 2 then
      [FieldDef("clientName", "Client Name", Text), FieldDef("niche", "Niche", Text),
       FieldDef("crisis", "Crisis", Text), FieldDef("industry", "Industry", Text),
       FieldDef("targetAudience", "Target Audience", TextArea)]
    else if day == 3 then
      [FieldDef("clientName", "Client Name", Text), FieldDef("niche", "Niche", Text),
       FieldDef("revenueGoal", "Revenue Goal", Text)]
    else []
  }

  /** No day lists the same key twice, so every field edits a value of its own. */
  predicate DistinctKeys(fields: seq<FieldDef>) {
    forall i, j :: 0 <= i < j < |fields| ==> fields[i].key != fields[j].key
  }

  lemma DayKeysDistinct(day: int)
    ensures DistinctKeys(DayFields(day))
  {
    var fs := DayFields(day);
    if day == 1 {
      assert fs[0].key == "clientName" && fs[1].key == "revenueGoal" && fs[2].key == "revenueTimeframe";
      assert fs[3].key == "niche" && fs[4].key == "targetMarket" && fs[5].key == "motivatingForce";
    } else if day == 2 {
      assert fs[0].key == "clientName" && fs[1].key == "niche" && fs[2].key == "crisis";
      assert fs[3].key == "industry" && fs[4].key == "targetAudience";
    } else if day == 3 {
      assert fs[0].key == "clientName" && fs[1].key == "niche" && fs[2].key == "revenueGoal";
    }
  }

  /** The keys of a field list. */
  function KeysOf(fields: seq<FieldDef>): (r: set<string>)
    ensures forall k :: k in r <==> exists i :: 0 <= i < |fields| && fields[i].key == k
  {
    if fields == [] then {}
    else
      var front := fields[..|fields| - 1];
      assert forall i :: 0 <= i < |front| ==> front[i] == fields[i];
      KeysOf(front) + {fields[|fields| - 1].key}
  }

  lemma KeysOfSnoc(fields: seq<FieldDef>, i: int)
    requires 0 <= i < |fields|
    ensures KeysOf(fields[..i + 1]) == KeysOf(fields[..i]) + {fields[i].key}
  {
    assert fields[..i + 1][..i] == fields[..i];
  }

  /** `String(data[key] ?? "")` (lines 49, 58): a null or missing value gives "", anything else
      its string form; `None` when that conversion throws. */
  function Baseline(data: map<string, JsonValue>, key: string): (r: Option<string>)
    ensures key !in data || data[key] == JNull || data[key] == JUndefined ==> r == Some("")
    ensures key in data && data[key].JString? ==> r == Some(data[key].s)
  {
    if key !in data || data[key] == JNull || data[key] == JUndefined then Some("")
    else StringOf(data[key])
  }

  /** Every field's starting value can be computed. */
  predicate Convertible(fields: seq<FieldDef>, data: map<string, JsonValue>) {
    forall i :: 0 <= i < |fields| ==> Baseline(data, fields[i].key).Some?
  }

  /** The `editedVars` initialiser (lines 46-52): one entry per field, holding the field's
      value from the data as a string. It fails (`None`) where `String` throws. */
  method InitialVars(fields: seq<FieldDef>, data: map<string, JsonValue>) returns (r: Option<map<string, string>>)
    ensures r.Some? <==> Convertible(fields, data)
    ensures r.Some? ==> r.value.Keys == KeysOf(fields)
    ensures r.Some? ==> forall k :: k in r.value ==> Baseline(data, k) == Some(r.value[k])
  {
    var init: map<string, string> := map[];
    for i := 0 to |fields|
      invariant init.Keys == KeysOf(fields[..i])
      invariant forall k :: k in init ==> Baseline(data, k) == Some(init[k])
      invariant forall j :: 0 <= j < i ==> Baseline(data, fields[j].key).Some?
    {
      var b := Baseline(data, fields[i].key);
      if b.None? {
        return None;
      }
      assert forall j :: 0 <= j < i + 1 ==> Baseline(data, fields[j].key).Some?;
      KeysOfSnoc(fields, i);
      init := init[fields[i].key := b.value];
    }
    assert fields[..|fields|] == fields;
    return Some(init);
  }

  /** `hasChanges` (line 58): some field's edited value differs from its value in the data. */
  predicate HasChanges(fields: seq<FieldDef>, data: map<string, JsonValue>, edited: map<string, string>): (changed: bool)
    // only the set of keys matters, not the order or repetition of the fields
    ensures changed <==> exists k :: k in KeysOf(fields) && Lookup(edited, k) != Baseline(data, k)
  {
    exists i :: 0 <= i < |fields| && Lookup(edited, fields[i].key) != Baseline(data, fields[i].key)
  }

  /** Values that all agree with the data show no unsaved changes. */
  lemma UnchangedWhenAgreeing(fields: seq<FieldDef>, data: map<string, JsonValue>, edited: map<string, string>)
    requires forall k :: k in edited ==> Baseline(data, k) == Some(edited[k])
    requires KeysOf(fields) <= edited.Keys
    ensures !HasChanges(fields, data, edited)
  {
    forall i | 0 <= i < |fields|
      ensures Lookup(edited, fields[i].key) == Baseline(data, fields[i].key)
    {
      assert fields[i].key in KeysOf(fields);
    }
  }

  /** Setting a field to something other than its value in the data is an unsaved change, and
      setting the only changed field back to that value leaves none. */
  lemma EditMakesChange(fields: seq<FieldDef>, data: map<string, JsonValue>, edited: map<string, string>, i: int, v: string)
    requires 0 <= i < |fields|
    ensures Some(v) != Baseline(data, fields[i].key) ==> HasChanges(fields, data, edited[fields[i].key := v])
    ensures Some(v) == Baseline(data, fields[i].key)
            && (forall j :: 0 <= j < |fields| && fields[j].key != fields[i].key ==>
                  Lookup(edited, fields[j].key) == Baseline(data, fields[j].key))
            ==> !HasChanges(fields, data, edited[fields[i].key := v])
  {
    var e := edited[fields[i].key := v];
    assert Lookup(e, fields[i].key) == Some(v);
  }

  /** The panel's state: whether it is open, and the edited values (lines 42, 46). The day and
      the slide data are the component's props and are passed to the members that read them. */
  class Panel {
    var isOpen: bool
    var editedVars: map<string, string>

    /** A closed panel holding `init` as its edited values. */
    constructor(init: map<string, string>)
      ensures !isOpen && editedVars == init
    {
      isOpen := false;
      editedVars := init;
    }

    /** `handleChange(key, value)` (lines 54-56): that one key takes the new value. */
    method HandleChange(key: string, value: string)
      modifies this
      ensures editedVars == old(editedVars)[key := value]
      ensures isOpen == old(isOpen)
    {
      editedVars := editedVars[key := value];
    }

    /** The "See Variables" button (line 63) opens a closed panel and closes an open one. */
    method Toggle()
      modifies this
      ensures isOpen == !old(isOpen) && editedVars == old(editedVars)
    {
      isOpen := !isOpen;
    }

    /** The regenerate button (lines 107-109): while regenerating it is disabled and nothing is
      sent; otherwise the edited values are handed on as they are. */
    method Regenerate(isRegenerating: bool) returns (sent: Option<map<string, string>>)
      ensures isRegenerating ==> sent == None
      ensures !isRegenerating ==> sent == Some(editedVars)
    {
      sent := if isRegenerating then None else Some(editedVars);
    }
  }

  /** Mounting the panel for a day: its fields' values taken from the data. A freshly mounted
      panel is closed and shows no unsaved changes. */
  method Mount(day: int, data: map<string, JsonValue>) returns (p: Option<Panel>)
    ensures p.Some? <==> Convertible(DayFields(day), data)
    ensures p.Some? ==> fresh(p.value) && !p.value.isOpen
    ensures p.Some? ==> p.value.editedVars.Keys == KeysOf(DayFields(day))
    ensures p.Some? ==> !HasChanges(DayFields(day), data, p.value.editedVars)
  {
    var fields := DayFields(day);
    var init := InitialVars(fields, data);
    if init.None? {
      return None;
    }
    UnchangedWhenAgreeing(fields, data, init.value);
    var panel := new Panel(init.value);
    return Some(panel);
  }

  /** Editing a field of the day's list to a new value shows an unsaved change. */
  method EditShowsChange(p: Panel, day: int, data: map<string, JsonValue>, i: int, v: string)
    requires 0 <= i < |DayFields(day)|
    requires Some(v) != Baseline(data, DayFields(day)[i].key)
    modifies p
    ensures HasChanges(DayFields(day), data, p.editedVars)
  {
    EditMakesChange(DayFields(day), data, p.editedVars, i, v);
    p.HandleChange(DayFields(day)[i].key, v);
  }
}
