/**
 * Whole-number strings as the player's clock displays them: JavaScript's
 * `String(n)` for integers, the two-character zero padding used by both the
 * controller and the seek slider, JavaScript's truncating `%`, `Math.round`,
 * and a reference reader for "H:MM:SS"-style clock strings against which the
 * formatters are proved; also `endsWith` and `Math.abs`, which several of the
 * components use.
 */
module Clock {
  import opened Wrappers

  /** JavaScript's `s.endsWith(suffix)`. */
  predicate EndsWith(s: string, suffix: string)
  {
    |suffix| <= |s| && s[|s| - |suffix|..] == suffix
  }

  function Abs(x: real): real { if x < 0.0 then -x else x }

  predicate IsDigit(c: char) { '0' <= c <= '9' }

  predicate AllDigits(s: string) { forall i | 0 <= i < |s| :: IsDigit(s[i]) }

  function DigitChar(d: nat): (c: char)
    requires d < 10
    ensures IsDigit(c) && c as int - '0' as int == d
  {
    ('0' as int + d) as char
  }

  function DigitValue(c: char): (d: nat)
    requires IsDigit(c)
    ensures d < 10
  {
    c as int - '0' as int
  }

  /** The decimal digits of `n`, most significant first, with no leading zero. */
  function NatToString(n: nat): (r: string)
    ensures AllDigits(r) && |r| >= 1
    ensures n < 10 ==> |r| == 1
    ensures 10 <= n < 100 ==> |r| == 2
    ensures n >= 10 ==> |r| >= 2
    decreases n
  {
    if n < 10 then [DigitChar(n)] else NatToString(n / 10) + [DigitChar(n % 10)]
  }

  /** JavaScript's `String(i)` for an integer-valued number. */
  function IntToString(i: int): string
  {
    if i < 0 then "-" + NatToString(-i) else NatToString(i)
  }

  /** The number a string of decimal digits denotes (the empty string denotes 0). */
  function DigitsValue(s: string): nat
    requires AllDigits(s)
    decreases |s|
  {
    if s == [] then 0 else DigitsValue(s[..|s| - 1]) * 10 + DigitValue(s[|s| - 1])
  }

  lemma {:induction false} NatToStringValue(n: nat)
    ensures DigitsValue(NatToString(n)) == n
    decreases n
  {
    var r := NatToString(n);
    if n < 10 {
      assert r[..0] == [];
    } else {
      NatToStringValue(n / 10);
      assert r[..|r| - 1] == NatToString(n / 10);
    }
  }

  /**
   * Prefix a "0" to values up to 9: `t <= 9 ? "0" + t : "" + t`, written once for
   * updateNumber (PlayerController.tsx) and the mm/ss fields of secondsToTime
   * (SeekSlider.tsx), which test `< 10` — the same condition on integers.
   */
  function ZeroPad(t: int): (r: string)
    ensures t >= 0 ==> AllDigits(r) && |r| >= 2
    ensures 0 <= t <= 99 ==> |r| == 2
  {
    if t <= 9 then "0" + IntToString(t) else IntToString(t)
  }

  /** For a non-negative value the padded string is all digits, at least two of
      them, exactly two below 100, and reads back as the value. */
  lemma ZeroPadValue(t: nat)
    ensures AllDigits(ZeroPad(t)) && DigitsValue(ZeroPad(t)) == t
    ensures |ZeroPad(t)| >= 2 && (t <= 99 ==> |ZeroPad(t)| == 2)
  {
    var r := ZeroPad(t);
    NatToStringValue(t);
    if t <= 9 {
      var d := NatToString(t);
      assert r == ['0'] + d;
      assert r[..|r| - 1] == "0";
      assert DigitsValue("0") == 0 by { assert "0"[..0] == []; }
    }
  }

  /** JavaScript's `a % b` for a positive divisor: the remainder takes the sign of `a`. */
  function JsRem(a: int, b: int): (r: int)
    requires b > 0
    ensures (a - r) % b == 0
    ensures a >= 0 ==> r == a % b && 0 <= r < b
    ensures a < 0 ==> -b < r <= 0
  {
    if a >= 0 then
      MultipleRem(a - a % b, a / b, b);
      a % b
    else
      MultipleRem(a + (-a) % b, -((-a) / b), b);
      -((-a) % b)
  }

  /** A multiple of `b` leaves no remainder. */
  lemma MultipleRem(x: int, k: int, b: int)
    requires b > 0 && x == k * b
    ensures x % b == 0
  {
    var d := k - x / b;
    assert x % b == d * b;
  }

  /** `Math.round`: the nearest integer, halves rounded up. */
  function Round(x: real): (r: int)
    ensures x - 0.5 < r as real <= x + 0.5
  {
    (x + 0.5).Floor
  }

  /** The fields of `s` between colons (at least one). */
  function SplitColon(s: string): (r: seq<string>)
    ensures |r| >= 1
    decreases |s|
  {
    if s == [] then [[]]
    else
      var rest := SplitColon(s[1..]);
      if s[0] == ':' then [[]] + rest else [[s[0]] + rest[0]] + rest[1..]
  }

  predicate DigitFields(fs: seq<string>)
  {
    forall i | 0 <= i < |fs| :: fs[i] != [] && AllDigits(fs[i])
  }

  /** Base-60 value of clock fields: [h, m, s] means (h * 60 + m) * 60 + s. */
  function FieldsValue(fs: seq<string>): nat
    requires DigitFields(fs)
    decreases |fs|
  {
    if fs == [] then 0 else FieldsValue(fs[..|fs| - 1]) * 60 + DigitsValue(fs[|fs| - 1])
  }

  /** Reference reader for clock strings: "MM:SS" or "HH:MM:SS" to a number of seconds. */
  function ParseClock(s: string): Option<nat>
  {
    var fs := SplitColon(s);
    if DigitFields(fs) then Some(FieldsValue(fs)) else None
  }

  lemma {:induction false} SplitDigits(a: string)
    requires AllDigits(a)
    ensures SplitColon(a) == [a]
    decreases |a|
  {
    if a != [] {
      SplitDigits(a[1..]);
      assert [a[0]] + a[1..] == a;
    }
  }

  lemma {:induction false} SplitJoin(a: string, b: string)
    requires AllDigits(a)
    ensures SplitColon(a + ":" + b) == [a] + SplitColon(b)
    decreases |a|
  {
    var s := a + ":" + b;
    if a == [] {
      assert s[1..] == b;
    } else {
      assert s[1..] == a[1..] + ":" + b;
      SplitJoin(a[1..], b);
      assert [a[0]] + a[1..] == a;
    }
  }

  lemma FieldsValueSnoc(fs: seq<string>, f: string)
    requires DigitFields(fs) && f != [] && AllDigits(f)
    ensures DigitFields(fs + [f]) && FieldsValue(fs + [f]) == FieldsValue(fs) * 60 + DigitsValue(f)
  {
    assert (fs + [f])[..|fs|] == fs;
  }

  lemma SplitTwo(m: string, s: string)
    requires AllDigits(m) && AllDigits(s)
    ensures SplitColon(m + ":" + s) == [m, s]
  {
    SplitJoin(m, s);
    SplitDigits(s);
  }

  lemma SplitThree(h: string, m: string, s: string)
    requires AllDigits(h) && AllDigits(m) && AllDigits(s)
    ensures SplitColon(h + ":" + m + ":" + s) == [h, m, s]
  {
    assert h + ":" + m + ":" + s == h + ":" + (m + ":" + s);
    SplitJoin(h, m + ":" + s);
    SplitTwo(m, s);
  }

  lemma ParseOfFields(str: string, fs: seq<string>)
    requires SplitColon(str) == fs && DigitFields(fs)
    ensures ParseClock(str) == Some(FieldsValue(fs))
  {
  }

  /** A two-field clock reads back as minutes * 60 + seconds. */
  lemma ParseTwoFields(m: string, s: string)
    requires m != [] && AllDigits(m) && s != [] && AllDigits(s)
    ensures ParseClock(m + ":" + s) == Some(DigitsValue(m) * 60 + DigitsValue(s))
  {
    SplitTwo(m, s);
    FieldsValueSnoc([], m);
    assert [] + [m] == [m];
    FieldsValueSnoc([m], s);
    assert [m] + [s] == [m, s];
    ParseOfFields(m + ":" + s, [m, s]);
  }

  lemma FieldsValueThree(h: string, m: string, s: string)
    requires h != [] && AllDigits(h) && m != [] && AllDigits(m) && s != [] && AllDigits(s)
    ensures DigitFields([h, m, s])
    ensures FieldsValue([h, m, s]) == (DigitsValue(h) * 60 + DigitsValue(m)) * 60 + DigitsValue(s)
  {
    FieldsValueSnoc([], h);
    assert [] + [h] == [h];
    FieldsValueSnoc([h], m);
    assert [h] + [m] == [h, m];
    FieldsValueSnoc([h, m], s);
    assert [h, m] + [s] == [h, m, s];
  }

  /** A three-field clock reads back as (hours * 60 + minutes) * 60 + seconds. */
  lemma ParseThreeFields(h: string, m: string, s: string)
    requires h != [] && AllDigits(h) && m != [] && AllDigits(m) && s != [] && AllDigits(s)
    ensures ParseClock(h + ":" + m + ":" + s)
         == Some((DigitsValue(h) * 60 + DigitsValue(m)) * 60 + DigitsValue(s))
  {
    FieldsValueThree(h, m, s);
    SplitThree(h, m, s);
    ParseOfFields(h + ":" + m + ":" + s, [h, m, s]);
  }
}
