/** The number built-ins the slide code relies on: `parseInt(s, 10)` (ECMA-262 section 19.2.5),
    `String(n)` for integers, `Number.prototype.toFixed` (section 21.1.3.3), `Math.round`
    and the en-US digit grouping of `Number.prototype.toLocaleString`.
    Numbers are exact here: integers and rationals, never binary floating point. */
module JsNumber {
  import opened Options
  import opened JsText

  predicate IsDigit(c: char) { '0' <= c <= '9' }

  predicate AllDigits(s: string) { forall i :: 0 <= i < |s| ==> IsDigit(s[i]) }

  function DigitChar(d: nat): (c: char)
    requires d < 10
    ensures IsDigit(c) && (c as int) - ('0' as int) == d
  {
    (('0' as int) + d) as char
  }

  /** The value of a string of decimal digits, most significant first. */
  function DigitsValue(s: string): nat
    requires AllDigits(s)
  {
    if s == [] then 0 else DigitsValue(s[..|s| - 1]) * 10 + ((s[|s| - 1] as int) - ('0' as int))
  }

  /** `String(n)` for a non-negative integer: its shortest decimal numeral. */
  function NatToString(n: nat): (r: string)
    ensures |r| >= 1 && AllDigits(r)
    ensures |r| > 1 ==> r[0] != '0'
  {
    if n < 10 then [DigitChar(n)] else NatToString(n / 10) + [DigitChar(n % 10)]
  }

  /** `String(i)` for any integer. */
  function IntToString(i: int): string {
    if i < 0 then "-" + NatToString(-i) else NatToString(i)
  }

  lemma {:induction false} NatToStringValue(n: nat)
    ensures DigitsValue(NatToString(n)) == n
  {
    if n >= 10 {
      var s := NatToString(n);
      assert s[..|s| - 1] == NatToString(n / 10);
      NatToStringValue(n / 10);
    }
  }

  /** The longest prefix of `s` made of decimal digits. */
  function LeadingDigits(s: string): (r: string)
    ensures AllDigits(r) && r <= s
    ensures |r| < |s| ==> !IsDigit(s[|r|])
  {
    if s != [] && IsDigit(s[0]) then [s[0]] + LeadingDigits(s[1..]) else []
  }

  /** `parseInt(s, 10)`: skip leading white space, read an optional sign and then as many decimal
      digits as there are; `None` (NaN) when there is no digit. Trailing text is ignored. */
  function ParseInt(s: string): (r: Option<int>)
    ensures s == [] ==> r.None?
    ensures s != [] && !IsSpace(s[0]) && s[0] != '-' && s[0] != '+' && !IsDigit(s[0]) ==> r.None?
  {
    var t := TrimStart(s);
    if t != [] && t[0] == '-' then Negated(ParseDigits(t[1..]))
    else if t != [] && t[0] == '+' then ParseDigits(t[1..])
    else ParseDigits(t)
  }

  /** The value of the leading digits of `u`, if there is at least one. */
  function ParseDigits(u: string): Option<nat> {
    var d := LeadingDigits(u);
    if d == [] then None else Some(DigitsValue(d))
  }

  function Negated(o: Option<nat>): Option<int> {
    match o
    case None => None
    case Some(v) => Some(0 - v as int)
  }

  /** `n >= k` for a `parseInt` result: every relational comparison with NaN is false. */
  predicate AtLeast(n: Option<int>, k: int) {
    n.Some? && n.value >= k
  }

  /** `parseInt` reads back what `String` prints. */
  lemma ParseIntOfIntToString(i: int)
    ensures ParseInt(IntToString(i)) == Some(i)
  {
    if i < 0 {
      var s := NatToString(-i);
      ParseDigitsOfNatToString(-i);
      var full := "-" + s;
      assert full[0] == '-' && full[1..] == s;
      assert TrimStart(full) == full;
    } else {
      var s := NatToString(i);
      ParseDigitsOfNatToString(i);
      assert !IsSpace(s[0]);
      assert TrimStart(s) == s;
    }
  }

  /** A plain numeral parses as its value. */
  lemma ParseIntOfNumeral(s: string)
    requires s != [] && AllDigits(s)
    ensures ParseInt(s) == Some(DigitsValue(s))
  {
    LeadingDigitsAll(s);
    assert TrimStart(s) == s;
  }

  lemma ParseDigitsOfNatToString(m: nat)
    ensures ParseDigits(NatToString(m)) == Some(m)
  {
    LeadingDigitsAll(NatToString(m));
    NatToStringValue(m);
  }

  lemma {:induction false} LeadingDigitsAll(s: string)
    requires AllDigits(s)
    ensures LeadingDigits(s) == s
  {
    if s != [] {
      LeadingDigitsAll(s[1..]);
    }
  }

  /** `parseInt` stops at the first character that is not a digit. */
  lemma {:induction false} LeadingDigitsStop(d: string, rest: string)
    requires AllDigits(d)
    requires rest == [] || !IsDigit(rest[0])
    ensures LeadingDigits(d + rest) == d
  {
    if d != [] {
      assert (d + rest)[1..] == d[1..] + rest;
      LeadingDigitsStop(d[1..], rest);
    } else {
      assert d + rest == rest;
    }
  }

  function Pow10(k: nat): (r: nat)
    ensures r >= 1
  {
    if k == 0 then 1 else 10 * Pow10(k - 1)
  }

  /** The integer nearest to a / b, the larger one on a tie. */
  function RoundHalfUp(a: int, b: int): (k: int)
    requires b > 0
    ensures a >= 0 ==> k >= 0
  {
    (2 * a + b) / (2 * b)
  }

  function NonNegProduct(x: nat, y: nat): nat {
    x * y
  }

  function NatDiv(x: nat, y: nat): nat
    requires y > 0
  {
    x / y
  }

  /** RoundHalfUp picks the integer k whose distance |k*b - a| is least, and of two equally
      near ones the larger: ECMA-262's rule for toFixed and for Math.round. */
  lemma RoundHalfUpNearest(a: int, b: int)
    requires b > 0
    ensures var k := RoundHalfUp(a, b); -b < 2 * (k * b - a) <= b
  {
    var k := RoundHalfUp(a, b);
    var m := (2 * a + b) % (2 * b);
    assert 2 * a + b == (2 * b) * k + m;
    assert 0 <= m < 2 * b;
    assert 2 * (k * b - a) == b - m;
  }

  /** Only one integer meets that rule. */
  lemma NearestUnique(a: int, b: int, k: int)
    requires b > 0
    requires -b < 2 * (k * b - a) <= b
    ensures k == RoundHalfUp(a, b)
  {
    var j := RoundHalfUp(a, b);
    RoundHalfUpNearest(a, b);
    if k > j {
      MulStep(j, k, b);
    } else if k < j {
      MulStep(k, j, b);
    }
  }

  lemma MulStep(x: int, y: int, b: int)
    requires x < y && b > 0
    ensures x * b + b <= y * b
  {
    var d := y - x - 1;
    assert y * b == (x + 1 + d) * b;
    assert (x + 1 + d) * b == x * b + b + d * b;
    assert d * b >= 0;
  }

  /** `(part / t * 100).toFixed(0)` for a part of a positive whole: the nearest whole
      percentage, between 0 and 100. */
  lemma ShareInRange(part: nat, t: int)
    requires 0 < t && part <= t
    ensures var p := RoundHalfUp(100 * part, t);
            ToFixed(100 * part, t, 0) == NatToString(p) && 0 <= p <= 100
            && -t < 2 * (p * t - 100 * part) <= t
  {
    var p := RoundHalfUp(100 * part, t);
    RoundHalfUpNearest(100 * part, t);
    if p > 100 {
      MulStep(100, p, t);
    }
    assert NonNegProduct(100 * part, Pow10(0)) == 100 * part;
  }

  /** Left-pads a numeral with zeros to width `w`. */
  function PadZeros(s: string, w: nat): (r: string)
    ensures |r| == if |s| >= w then |s| else w
    ensures r[|r| - |s|..] == s
  {
    if |s| >= w then s else seq(w - |s|, _ => '0') + s
  }

  /** `(num / den).toFixed(f)` on the exact quotient: round-half-up to `f` decimals,
      a minus sign in front when the quotient is negative (so `-0.4` gives "-0"). */
  function ToFixed(num: int, den: int, f: nat): (r: string)
    requires den > 0
    ensures num >= 0 ==> r != [] && IsDigit(r[0])
    ensures num < 0 ==> |r| >= 2 && r[0] == '-' && IsDigit(r[1])
    ensures f == 0 && num >= 0 ==> r == NatToString(RoundHalfUp(num, den))
  {
    if num < 0 then "-" + FixedDigits(-num, den, f) else FixedDigits(num, den, f)
  }

  function FixedDigits(num: nat, den: int, f: nat): (r: string)
    requires den > 0
    ensures r != [] && IsDigit(r[0])
    ensures f == 0 ==> r == NatToString(RoundHalfUp(num, den))
  {
    var k: nat := RoundHalfUp(NonNegProduct(num, Pow10(f)), den);
    assert f == 0 ==> NonNegProduct(num, Pow10(f)) == num;
    var p := Pow10(f);
    if f == 0 then NatToString(k)
    else NatToString(NatDiv(k, p)) + "." + PadZeros(NatToString(k % p), f)
  }

  /** `Math.round(x)`: the nearest integer, ties toward +infinity. */
  function MathRound(x: real): (k: int)
    ensures x - 0.5 < k as real <= x + 0.5
  {
    (x + 0.5).Floor
  }

  /** Three decimal digits of n < 1000, zero-padded. */
  function Pad3(n: nat): (r: string)
    requires n < 1000
    ensures |r| == 3 && AllDigits(r)
  {
    [DigitChar(n / 100), DigitChar(n / 10 % 10), DigitChar(n % 10)]
  }

  /** en-US `toLocaleString()` of an integer: groups of three digits separated by commas. */
  function Grouped(n: int): (r: string)
    ensures -1000 < n < 1000 ==> r == IntToString(n)
    ensures n <= -1000 || n >= 1000 ==> |r| >= 5 && r[|r| - 4] == ','
  {
    if n < 0 then "-" + GroupedNat(-n) else GroupedNat(n)
  }

  function GroupedNat(n: nat): (r: string)
    ensures n < 1000 ==> r == NatToString(n)
    ensures n >= 1000 ==> |r| >= 5 && r[|r| - 4] == ','
  {
    if n < 1000 then NatToString(n) else GroupedNat(n / 1000) + "," + Pad3(n % 1000)
  }

  lemma NatToStringSplit(n: nat)
    requires n >= 1000
    ensures NatToString(n) == NatToString(n / 1000) + Pad3(n % 1000)
  {
    ThousandsDigits(n);
    var d0, d1, d2 := DigitChar(n % 10), DigitChar(n / 10 % 10), DigitChar(n / 100 % 10);
    assert NatToString(n) == NatToString(n / 10) + [d0];
    assert NatToString(n / 10) == NatToString(n / 100) + [d1];
    assert NatToString(n / 100) == NatToString(n / 1000) + [d2];
    assert Pad3(n % 1000) == [d2, d1, d0];
  }

  lemma ThousandsDigits(n: nat)
    ensures n / 10 / 10 == n / 100 && n / 100 / 10 == n / 1000
    ensures n % 10 == n % 1000 % 10
    ensures n / 10 % 10 == n % 1000 / 10 % 10
    ensures n / 100 % 10 == n % 1000 / 100
  {
    var q, r := n / 1000, n % 1000;
    assert n == 1000 * q + r;
    assert n / 10 == 100 * q + r / 10;
    assert n / 100 == 10 * q + r / 100;
  }

  /** Removing the grouping commas gives back the plain numeral, so `parseInt` after
      `.replace(/,/g, "")` reads the grouped number back. */
  lemma {:induction false} UngroupNat(n: nat)
    ensures RemoveChar(GroupedNat(n), ',') == NatToString(n)
  {
    if n >= 1000 {
      assert GroupedNat(n) == GroupedNat(n / 1000) + "," + Pad3(n % 1000);
      UngroupNat(n / 1000);
      RemoveCharAppend(GroupedNat(n / 1000) + ",", Pad3(n % 1000), ',');
      RemoveCharAppend(GroupedNat(n / 1000), ",", ',');
      NatToStringSplit(n);
    }
  }

  lemma UngroupReadsBack(n: int)
    ensures ParseInt(RemoveChar(Grouped(n), ',')) == Some(n)
  {
    if n < 0 {
      UngroupNat(-n);
      RemoveCharAppend("-", GroupedNat(-n), ',');
      assert RemoveChar("-", ',') == "-";
    } else {
      UngroupNat(n);
    }
    assert RemoveChar(Grouped(n), ',') == IntToString(n);
    ParseIntOfIntToString(n);
  }
}
