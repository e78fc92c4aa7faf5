/** The two clock-text formatters of the tracker, `format_hms_string` and
    `format_ms_string`, over real seconds, together with a reference parser
    that reads the text back. */
module TimeFormat {

  import opened Optional

  /** `max(0, s)`: negative durations are shown as zero. */
  function Clamp(s: real): (r: real)
    ensures r >= 0.0 && r >= s
    ensures s >= 0.0 ==> r == s
    ensures s < 0.0 ==> r == 0.0
  {
    if s < 0.0 then 0.0 else s
  }

  /** Python's `x % d` on floats for a positive divisor: `x - d * floor(x / d)`. */
  function FloatMod(x: real, d: real): real
    requires d > 0.0
  {
    x - d * (x / d).Floor as real
  }

  /** The floor of a quotient is pinned by bounds on the dividend. */
  lemma QuotientFloor(c: real, e: real, q: int)
    requires e > 0.0
    requires q as real * e <= c < (q + 1) as real * e
    ensures (c / e).Floor == q
  {
    var x := c / e;
    assert x * e == c;
    LowerBound(q as real, x, e);
    UpperBound(x, (q + 1) as real, e);
  }

  lemma LowerBound(a: real, x: real, e: real)
    requires e > 0.0 && a * e <= x * e
    ensures a <= x
  {
  }

  lemma UpperBound(x: real, b: real, e: real)
    requires e > 0.0 && x * e < b * e
    ensures x < b
  {
  }

  lemma ShiftFloor(c: real, k: int)
    ensures (c - k as real).Floor == c.Floor - k
  {
  }

  /** Python's float `//` and `%` by a positive integer agree with integer `/` and `%`
      on the floor of a non-negative value. */
  lemma FloorDiv(c: real, d: int)
    requires c >= 0.0 && d > 0
    ensures (c / d as real).Floor == c.Floor / d
    ensures FloatMod(c, d as real).Floor == c.Floor % d
  {
    var t := c.Floor;
    var q, r := t / d, t % d;
    assert t == q * d + r && 0 <= r < d;
    assert (q * d) as real == q as real * d as real;
    assert ((q + 1) * d) as real == (q + 1) as real * d as real;
    QuotientFloor(c, d as real, q);
    ShiftFloor(c, q * d);
  }

  lemma HmsArith(t: int)
    requires t >= 0
    ensures (t % 3600) / 60 < 60
    ensures (t / 3600) * 3600 + ((t % 3600) / 60) * 60 + t % 60 == t
  {
    var q, r := t / 3600, t % 3600;
    assert t == q * 3600 + r;
    assert r == (r / 60) * 60 + r % 60;
    assert t % 60 == r % 60 by {
      assert t == (q * 60 + r / 60) * 60 + r % 60;
    }
  }

  /** The hour, minute and second fields `format_hms_string` computes, exactly as it
      computes them: `h = s // 3600`, `m = (s % 3600) // 60`, `s %= 60` on the clamped value. */
  function HmsFields(s: real): (f: (nat, nat, nat))
    ensures f.1 < 60 && f.2 < 60
    ensures f.0 * 3600 + f.1 * 60 + f.2 == Clamp(s).Floor
  {
    var c := Clamp(s);
    var rest := FloatMod(c, 3600.0);
    FloorDiv(c, 3600);
    FloorDiv(c, 60);
    FloorDiv(rest, 60);
    HmsArith(c.Floor);
    ((c / 3600.0).Floor, (rest / 60.0).Floor, FloatMod(c, 60.0).Floor)
  }

  /** The minute and second fields `format_ms_string` computes: `m = s // 60`, `s %= 60`. */
  function MsFields(s: real): (f: (nat, nat))
    ensures f.1 < 60
    ensures f.0 * 60 + f.1 == Clamp(s).Floor
  {
    var c := Clamp(s);
    FloorDiv(c, 60);
    ((c / 60.0).Floor, FloatMod(c, 60.0).Floor)
  }

  // ---- decimal text -------------------------------------------------------

  function Digit(n: nat): char
    requires n < 10
  {
    (48 + n) as char
  }

  predicate IsDigit(c: char) {
    '0' <= c <= '9'
  }

  predicate AllDigits(s: string) {
    forall i :: 0 <= i < |s| ==> IsDigit(s[i])
  }

  /** Python's `str(n)` for a natural number. */
  function NatToString(n: nat): (s: string)
    decreases n
  {
    if n < 10 then [Digit(n)] else NatToString(n / 10) + [Digit(n % 10)]
  }

  /** The reference reading of a string of decimal digits. */
  function Value(s: string): nat
    requires AllDigits(s)
  {
    if |s| == 0 then 0 else Value(s[..|s| - 1]) * 10 + (s[|s| - 1] as int - 48)
  }

  lemma {:induction false} NatToStringValue(n: nat)
    ensures |NatToString(n)| >= 1
    ensures AllDigits(NatToString(n))
    ensures Value(NatToString(n)) == n
    decreases n
  {
    var s := NatToString(n);
    if n >= 10 {
      NatToStringValue(n / 10);
      assert s[..|s| - 1] == NatToString(n / 10);
    }
  }

  lemma {:induction false} NatToStringShort(n: nat)
    requires 10 <= n < 100
    ensures |NatToString(n)| == 2
  {
    assert n / 10 < 10;
  }

  /** The `:02d` format specifier: at least two digits, padded with `0` on the left. */
  function Pad2(n: nat): (s: string)
  {
    if n < 10 then ['0', Digit(n)] else NatToString(n)
  }

  lemma Pad2Value(n: nat)
    ensures AllDigits(Pad2(n)) && |Pad2(n)| >= 2
    ensures n < 100 ==> |Pad2(n)| == 2
    ensures Value(Pad2(n)) == n
  {
    if n < 10 {
      var s := Pad2(n);
      assert s[..1] == ['0'];
      assert s[..1][..0] == [];
      assert Value(s[..1]) == 0;
      assert s[1] as int == 48 + n;
    } else {
      NatToStringValue(n);
      if n < 100 { NatToStringShort(n); }
      assert NatToString(n) == NatToString(n / 10) + [Digit(n % 10)];
    }
  }

  /** Where the fields of `a:b:c` sit when `b` and `c` have two characters each. */
  lemma SplitHms(a: string, b: string, c: string)
    requires |b| == 2 && |c| == 2
    ensures var t := a + ":" + b + ":" + c;
      |t| == |a| + 6 && t[|t| - 6] == ':' && t[|t| - 3] == ':' &&
      t[..|t| - 6] == a && t[|t| - 5..|t| - 3] == b && t[|t| - 2..] == c
  {
    var t := a + ":" + b + ":" + c;
    assert t[..|t| - 6] == a;
    assert t[|t| - 5..|t| - 3] == b;
    assert t[|t| - 2..] == c;
  }

  lemma SplitMs(a: string, b: string)
    requires |b| == 2
    ensures var t := a + ":" + b;
      |t| == |a| + 3 && t[|t| - 3] == ':' && t[..|t| - 3] == a && t[|t| - 2..] == b
  {
    var t := a + ":" + b;
    assert t[..|t| - 3] == a;
    assert t[|t| - 2..] == b;
  }

  /** `format_hms_string`: `HH:MM:SS` of the clamped seconds, the hour field unbounded. */
  function FormatHms(s: real): (t: string)
    ensures |t| >= 8 && t[|t| - 6] == ':' && t[|t| - 3] == ':'
    ensures AllDigits(t[..|t| - 6]) && AllDigits(t[|t| - 5..|t| - 3]) && AllDigits(t[|t| - 2..])
  {
    var f := HmsFields(s);
    Pad2Value(f.0);
    Pad2Value(f.1);
    Pad2Value(f.2);
    var a, b, c := Pad2(f.0), Pad2(f.1), Pad2(f.2);
    SplitHms(a, b, c);
    a + ":" + b + ":" + c
  }

  /** `format_ms_string`: `MM:SS` of the clamped seconds, the minute field unbounded. */
  function FormatMs(s: real): (t: string)
    ensures |t| >= 5 && t[|t| - 3] == ':'
    ensures AllDigits(t[..|t| - 3]) && AllDigits(t[|t| - 2..])
  {
    var f := MsFields(s);
    Pad2Value(f.0);
    Pad2Value(f.1);
    var a, b := Pad2(f.0), Pad2(f.1);
    SplitMs(a, b);
    a + ":" + b
  }

  /** Reference reader for `H..H:MM:SS` text: the total whole seconds it denotes.
      Minute and second fields of 60 or more are refused. */
  function ParseHms(t: string): Option<int>
  {
    var n := |t|;
    if n >= 8 && t[n - 6] == ':' && t[n - 3] == ':'
       && AllDigits(t[..n - 6]) && AllDigits(t[n - 5..n - 3]) && AllDigits(t[n - 2..])
       && Value(t[n - 5..n - 3]) < 60 && Value(t[n - 2..]) < 60
    then Some(Value(t[..n - 6]) * 3600 + Value(t[n - 5..n - 3]) * 60 + Value(t[n - 2..]))
    else None
  }

  /** Reference reader for `M..M:SS` text; a second field of 60 or more is refused. */
  function ParseMs(t: string): Option<int>
  {
    var n := |t|;
    if n >= 5 && t[n - 3] == ':' && AllDigits(t[..n - 3]) && AllDigits(t[n - 2..])
       && Value(t[n - 2..]) < 60
    then Some(Value(t[..n - 3]) * 60 + Value(t[n - 2..]))
    else None
  }

  /** Reading back what `format_hms_string` wrote gives the whole seconds of `max(0, s)`:
      no field overflows into another and nothing is lost but the fraction. */
  lemma {:induction false} HmsRoundTrip(s: real)
    ensures ParseHms(FormatHms(s)) == Some(Clamp(s).Floor)
  {
    var f := HmsFields(s);
    Pad2Value(f.0);
    Pad2Value(f.1);
    Pad2Value(f.2);
    SplitHms(Pad2(f.0), Pad2(f.1), Pad2(f.2));
  }

  lemma {:induction false} MsRoundTrip(s: real)
    ensures ParseMs(FormatMs(s)) == Some(Clamp(s).Floor)
  {
    var f := MsFields(s);
    Pad2Value(f.0);
    Pad2Value(f.1);
    SplitMs(Pad2(f.0), Pad2(f.1));
  }

  /** The Pomodoro finished-sentinel `-1` is shown as `00:00`. */
  lemma SentinelShownAsZero()
    ensures FormatMs(-1.0) == "00:00"
  {
    assert MsFields(-1.0) == (0, 0);
  }
}
