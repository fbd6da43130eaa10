/** The dash sanitiser of src/lib/utils.ts: every em dash (U+2014) and en dash (U+2013) in
    every string of a JSON-like value becomes a plain hyphen, and nothing else changes. */
module Sanitize {
  import opened JsText
  import opened Json

  const EmDash: char := '\U{2014}'
  const EnDash: char := '\U{2013}'

  predicate IsDash(c: char) { c == EmDash || c == EnDash }

  predicate NoDash(s: string) { forall i :: 0 <= i < |s| ==> !IsDash(s[i]) }

  /** `t` is `s` with each dash replaced by '-' and every other character kept. */
  predicate CharsCorrespond(s: string, t: string) {
    |t| == |s| && forall i :: 0 <= i < |s| ==> t[i] == (if IsDash(s[i]) then '-' else s[i])
  }

  /** No string anywhere inside `v` holds a dash. Object keys are not inspected: the
      sanitiser does not touch them. */
  predicate DashFree(v: JsonValue)
    decreases v
  {
    match v
    case JString(s) => NoDash(s)
    case JArray(items) => forall i :: 0 <= i < |items| ==> DashFree(items[i])
    case JObject(ms) => forall i :: 0 <= i < |ms| ==> DashFree(ms[i].value)
    case _ => true
  }

  /** `r` has the shape of `v`: the same constructors, array lengths and object keys in the same
      order, the same numbers, booleans, null and undefined, and strings related by
      `CharsCorrespond`. */
  predicate Corresponds(v: JsonValue, r: JsonValue)
    decreases v
  {
    match v
    case JString(s) => r.JString? && CharsCorrespond(s, r.s)
    case JArray(items) =>
      r.JArray? && |r.items| == |items|
      && forall i :: 0 <= i < |items| ==> Corresponds(items[i], r.items[i])
    case JObject(ms) =>
      r.JObject? && |r.members| == |ms|
      && forall i :: 0 <= i < |ms| ==>
           r.members[i].key == ms[i].key && Corresponds(ms[i].value, r.members[i].value)
    case _ => r == v
  }

  /** The string branch: both global replacements, em dash first. */
  function ReplaceDashes(s: string): (r: string)
    ensures CharsCorrespond(s, r)
    ensures NoDash(r)
  {
    ReplaceChar(ReplaceChar(s, EmDash, '-'), EnDash, '-')
  }

  /** `stripDashes`: strings are cleaned, arrays and objects are rebuilt element by element
      (objects in entry order, keys untouched), everything else is returned as it is. */
  function StripDashes(v: JsonValue): (r: JsonValue)
    ensures DashFree(r)
    ensures Corresponds(v, r)
    decreases v
  {
    match v
    case JString(s) => JString(ReplaceDashes(s))
    case JArray(items) =>
      JArray(seq(|items|, i requires 0 <= i < |items| => StripDashes(items[i])))
    case JObject(ms) =>
      JObject(seq(|ms|, i requires 0 <= i < |ms| => Member(ms[i].key, StripDashes(ms[i].value))))
    case _ => v
  }

  /** `Corresponds` pins the result down: the sanitiser's output is the only value of the
      input's shape with every dash turned into '-'. */
  lemma {:induction false} CorrespondsUnique(v: JsonValue, r: JsonValue)
    requires Corresponds(v, r)
    ensures r == StripDashes(v)
    decreases v
  {
    match v
    case JString(s) =>
      assert r.s == ReplaceDashes(s);
    case JArray(items) =>
      var out := StripDashes(v).items;
      forall i | 0 <= i < |items|
        ensures r.items[i] == out[i]
      {
        CorrespondsUnique(items[i], r.items[i]);
      }
      assert r.items == out;
    case JObject(ms) =>
      var out := StripDashes(v).members;
      forall i | 0 <= i < |ms|
        ensures r.members[i] == out[i]
      {
        CorrespondsUnique(ms[i].value, r.members[i].value);
      }
      assert r.members == out;
    case _ =>
  }

  /** A value with no dash left is returned unchanged. */
  lemma {:induction false} StripDashFree(v: JsonValue)
    requires DashFree(v)
    ensures StripDashes(v) == v
    decreases v
  {
    match v
    case JString(s) =>
      assert ReplaceDashes(s) == s;
    case JArray(items) =>
      forall i | 0 <= i < |items|
        ensures StripDashes(items[i]) == items[i]
      {
        StripDashFree(items[i]);
      }
      assert StripDashes(v).items == items;
    case JObject(ms) =>
      forall i | 0 <= i < |ms|
        ensures StripDashes(ms[i].value) == ms[i].value
      {
        StripDashFree(ms[i].value);
      }
      assert StripDashes(v).members == ms;
    case _ =>
  }

  /** Sanitising twice is the same as sanitising once. */
  lemma StripIdempotent(v: JsonValue)
    ensures StripDashes(StripDashes(v)) == StripDashes(v)
  {
    StripDashFree(StripDashes(v));
  }

  /** A string without dashes and every non-string scalar pass through unchanged. */
  lemma StripScalars(v: JsonValue)
    requires !v.JArray? && !v.JObject?
    requires v.JString? ==> NoDash(v.s)
    ensures StripDashes(v) == v
  {
    StripDashFree(v);
  }
}
