/**
 Printing of the calculator's decimal reals: three layouts with trailing zeros stripped, proved
 to denote exactly the stored number under an independent reading of decimal text.
 */
module RealPrinter {
  import opened Wrappers
  import opened Digits

  // ------------------------------------------------------------- reading decimal text

  function Dig(c: char): int { c as int - '0' as int }

  predicate AllDigits(s: string) { forall i :: 0 <= i < |s| ==> '0' <= s[i] <= '9' }

  /** The number a string of decimal digits denotes. */
  function Num(s: string): int
  {
    if s == "" then 0 else 10 * Num(s[..|s| - 1]) + Dig(s[|s| - 1])
  }

  /** 10^e, for any integer e. */
  function P10(e: int): real
    decreases if e < 0 then -e else e
  {
    if e == 0 then 1.0 else if e > 0 then 10.0 * P10(e - 1) else P10(e + 1) / 10.0
  }

  /** d * 10^e */
  function Times10(d: int, e: int): real { d as real * P10(e) }

  /** The first place a character occurs, or the end. */
  function Find(s: string, ch: char): (i: nat)
    ensures i <= |s|
  {
    if s == "" || s[0] == ch then 0 else 1 + Find(s[1..], ch)
  }

  function IntOf(s: string): Option<int>
  {
    if s != "" && s[0] == '-' && |s| > 1 && AllDigits(s[1..]) then Some(-Num(s[1..]))
    else if s != "" && AllDigits(s) then Some(Num(s))
    else None
  }

  /** The value of a fixed-point string with integer part i and fraction f. */
  function FixedValue(i: string, f: string): real
  {
    Num(i + f) as real * P10(-|f|)
  }

  /** At least one digit in all, and nothing but digits. */
  function FixedOf(i: string, f: string): Option<real>
  {
    if i + f != "" && AllDigits(i + f) then Some(FixedValue(i, f)) else None
  }

  /** digits, a point, digits */
  function Fixed(s: string): Option<real>
  {
    var d := Find(s, '.');
    FixedOf(s[..d], if d < |s| then s[d + 1..] else "")
  }

  function Shifted(v: real, e: int): real { v * P10(e) }

  function Scaled(v: Option<real>, x: Option<int>): Option<real>
  {
    if v.Some? && x.Some? then Some(Shifted(v.value, x.value)) else None
  }

  /** The same with an optional exponent after the letter E. */
  function Unsigned(s: string): Option<real>
  {
    var e := Find(s, 'E');
    if e == |s| then Fixed(s) else Scaled(Fixed(s[..e]), IntOf(s[e + 1..]))
  }

  function Denotes(s: string): Option<real>
  {
    if s != "" && s[0] == '-' then
      match Unsigned(s[1..]) case Some(v) => Some(-v) case None => None
    else Unsigned(s)
  }

  // ------------------------------------------------------------- powers and digit strings

  lemma P10Up(e: int)
    ensures P10(e + 1) == 10.0 * P10(e)
  {
  }

  lemma P10Zero()
    ensures P10(0) == 1.0
  {
  }

  lemma Mul10(z: real, x: real, y: real)
    ensures 10.0 * z == x * (10.0 * y) <==> z == x * y
  {
    assert x * (10.0 * y) == 10.0 * (x * y);
  }

  lemma {:induction false} P10Add(a: int, b: int)
    ensures P10(a + b) == P10(a) * P10(b)
    decreases if b < 0 then -b else b
  {
    hide P10;
    P10Zero();
    if b > 0 {
      P10Add(a, b - 1);
      P10Up(a + b - 1);
      P10Up(b - 1);
      Mul10(P10(a + b - 1), P10(a), P10(b - 1));
    } else if b < 0 {
      P10Add(a, b + 1);
      P10Up(a + b);
      P10Up(b);
      Mul10(P10(a + b), P10(a), P10(b));
    }
  }

  lemma {:induction false} NumAppend(a: string, b: string)
    ensures Num(a + b) == Num(a) * Pow(10, |b|) + Num(b)
  {
    if b == "" {
      assert a + b == a;
    } else {
      var n := |b| - 1;
      NumAppend(a, b[..n]);
      assert (a + b)[..|a| + n] == a + b[..n];
      Associate(10, Num(a), Pow(10, n));
      assert Num(a) * Pow(10, |b|) == 10 * (Num(a) * Pow(10, n));
    }
  }

  lemma {:induction false} NumPositive(s: string, i: nat)
    requires AllDigits(s) && i < |s|
    ensures Num(s) >= 0 && (s[i] != '0' ==> Num(s) > 0)
  {
    var n := |s| - 1;
    if n > 0 { NumPositive(s[..n], if i < n then i else 0); }
    if i < n { NumPositive(s[..n], i); }
  }

  /** A zero at the end of a fraction changes nothing. */
  lemma TrailingZero(i: string, f: string)
    requires f != "" && f[|f| - 1] == '0'
    ensures FixedValue(i, f[..|f| - 1]) == FixedValue(i, f)
  {
    var n := |f| - 1;
    assert (i + f)[..|i + f| - 1] == i + f[..n];
    P10Up(-|f|);
    assert Num(i + f) == 10 * Num(i + f[..n]);
  }

  lemma {:induction false} FindAt(a: string, ch: char, b: string)
    requires ch !in a
    ensures Find(a, ch) == |a| && Find(a + [ch] + b, ch) == |a|
  {
    if a == "" {
      assert a + [ch] + b == [ch] + b;
    } else {
      FindAt(a[1..], ch, b);
      assert (a + [ch] + b)[1..] == a[1..] + [ch] + b;
    }
  }

  lemma DigitsLack(s: string, ch: char)
    requires AllDigits(s) && !('0' <= ch <= '9')
    ensures ch !in s
  {
  }

  lemma ReadFixed(i: string, f: string)
    requires AllDigits(i) && AllDigits(f) && i + f != ""
    ensures Fixed(i + "." + f) == Some(FixedValue(i, f)) && (f == "" ==> Fixed(i) == Some(FixedValue(i, f)))
  {
    DigitsLack(i, '.');
    FindAt(i, '.', f);
    var s := i + "." + f;
    assert s == i + ['.'] + f && s[..|i|] == i && s[|i| + 1..] == f;
    assert AllDigits(i + f);
    assert i[..|i|] == i;
    hide FixedValue, Find;
  }

  lemma ReadPlain(i: string, f: string)
    requires AllDigits(i) && AllDigits(f) && i + f != ""
    ensures Unsigned(i + "." + f) == Some(FixedValue(i, f)) && (f == "" ==> Unsigned(i) == Some(FixedValue(i, f)))
  {
    ReadFixed(i, f);
    DigitsLack(i, 'E');
    DigitsLack(f, 'E');
    FindAt(i + "." + f, 'E', "");
    FindAt(i, 'E', "");
  }

  lemma ScaledIs(v: real, e: int)
    ensures Scaled(Some(v), Some(e)) == Some(Shifted(v, e))
  {
  }

  lemma ReadExponent(i: string, f: string, x: string, e: int)
    requires AllDigits(i) && AllDigits(f) && i + f != "" && IntOf(x) == Some(e)
    ensures Unsigned(i + "." + f + "E" + x) == Some(Shifted(FixedValue(i, f), e))
  {
    hide FixedValue, Shifted;
    ReadFixed(i, f);
    DigitsLack(i, 'E');
    DigitsLack(f, 'E');
    var m := i + "." + f;
    FindAt(m, 'E', x);
    var s := m + "E" + x;
    assert s[..|m|] == m && s[|m| + 1..] == x && s == m + ['E'] + x;
    assert Find(s, 'E') == |m| < |s|;
    assert Unsigned(s) == Scaled(Fixed(m), IntOf(x));
    ScaledIs(FixedValue(i, f), e);
  }

  lemma ReadSign(neg: bool, s: string, v: real)
    requires Unsigned(s) == Some(v) && s != "" && s[0] != '-'
    ensures Denotes((if neg then "-" else "") + s) == Some(WithSign(neg, v))
  {
    hide Unsigned;
    if neg { assert ("-" + s)[1..] == s; } else { assert "" + s == s; }
  }

  // ------------------------------------------------------------- writing digits

  function HexDigit(d: int): char
    requires 0 <= d < 16
  {
    if d < 10 then '0' + d as char else 'A' + (d - 10) as char
  }

  /** Digits as text, most significant first; `d` is least significant first. */
  function Text(d: seq<int>): (s: string)
    requires Below(d, 16)
    ensures |s| == |d|
  {
    if d == [] then "" else Text(d[1..]) + [HexDigit(d[0])]
  }

  /** printf's %.<n>X for a number of at most n digits */
  function HexText(v: int, n: nat): (s: string)
    ensures |s| == n
  {
    SplitBelow(v, 16, n);
    Text(Split(v, 16, n))
  }

  lemma HexTextOfDigits(d: seq<int>)
    requires Below(d, 16)
    ensures HexText(Value(d, 16), |d|) == Text(d)
  {
    ValueBound(d, 16);
    SplitExact(Value(d, 16), 16, |d|);
    SplitBelow(Value(d, 16), 16, |d|);
    ValueInjective(Split(Value(d, 16), 16, |d|), d, 16);
  }

  lemma {:induction false} TextAppend(a: seq<int>, b: seq<int>)
    requires Below(a, 16) && Below(b, 16)
    ensures Below(a + b, 16) && Text(a + b) == Text(b) + Text(a)
  {
    if a == [] {
      assert a + b == b;
    } else {
      assert (a + b)[1..] == a[1..] + b;
      TextAppend(a[1..], b);
    }
  }

  lemma {:induction false} TextNum(d: seq<int>)
    requires Below(d, 10)
    ensures Below(d, 16) && AllDigits(Text(d)) && Num(Text(d)) == Value(d, 10)
  {
    if d != [] {
      TextNum(d[1..]);
      var s := Text(d);
      assert s[..|s| - 1] == Text(d[1..]);
    }
  }

  /** printf's %ld */
  function NatText(n: nat): (s: string)
    ensures s != ""
  {
    if n < 10 then [HexDigit(n)] else NatText(n / 10) + [HexDigit(n % 10)]
  }

  function IntText(n: int): string { if n < 0 then "-" + NatText(-n) else NatText(n) }

  lemma {:induction false} NatTextNum(n: nat)
    ensures AllDigits(NatText(n)) && Num(NatText(n)) == n
  {
    if n < 10 {
      assert NatText(n)[..0] == "";
    } else {
      NatTextNum(n / 10);
      assert NatText(n)[..|NatText(n)| - 1] == NatText(n / 10);
    }
  }

  lemma IntOfDigits(t: string)
    requires t != "" && AllDigits(t)
    ensures IntOf(t) == Some(Num(t)) && IntOf("-" + t) == Some(-Num(t))
  {
    assert t[0] != '-' && ("-" + t)[1..] == t && ("-" + t)[0] == '-';
    hide Num, AllDigits;
  }

  lemma IntTextReads(n: int)
    ensures IntOf(IntText(n)) == Some(n)
  {
    hide Num, NatText, AllDigits, IntOf;
    NatTextNum(if n < 0 then -n else n);
    IntOfDigits(NatText(if n < 0 then -n else n));
  }

  // ------------------------------------------------------------- the printer

  /** A stored real: exponent digits, mantissa digits and sign nibble, low nibble first. */
  datatype Stored = Stored(x: seq<int>, mant: seq<int>, sign: int)

  /** The two formats: twelve or fifteen mantissa digits, three or five exponent digits. */
  predicate Format(ml: nat, xl: nat) { (ml == 11 && xl == 3) || (ml == 14 && xl == 5) }

  ghost predicate Bcd(r: Stored, ml: nat, xl: nat)
  {
    |r.x| == xl && |r.mant| == ml + 1 && Below(r.x, 10) && Below(r.mant, 10) && 0 <= r.sign < 16
  }

  /** The exponent in ten's complement. */
  function Exponent(x: seq<int>): int
  {
    var v := Value(x, 10);
    if 2 * v >= Pow(10, |x|) then v - Pow(10, |x|) else v
  }

  /** The number stored. */
  function Number(r: Stored, ml: nat): real
  {
    WithSign(r.sign >= 5, Times10(Value(r.mant, 10), Exponent(r.x) - ml))
  }

  lemma {:induction false} ZeroDigits(d: seq<int>)
    requires Below(d, 16) && Value(d, 16) == 0
    ensures Value(d, 10) == 0
  {
    if d != [] {
      ValueBound(d[1..], 16);
      ZeroDigits(d[1..]);
    }
  }

  /** A packed decimal number as an integer. */
  method Hxs2Real(packed: int, ghost d: seq<int>) returns (n: int)
    requires Below(d, 16) && packed == Value(d, 16)
    ensures n == Value(d, 10)
  {
    var hxs, c := packed, 1;
    n := 0;
    ghost var k := 0;
    assert d[0..] == d && Pow(10, 0) == 1;
    hide Value, Pow, Below;
    while hxs > 0
      invariant 0 <= k <= |d| && hxs == Value(d[k..], 16) && c == Pow(10, k)
      invariant n + c * Value(d[k..], 10) == Value(d, 10)
      decreases |d| - k
    {
      HxsStep(d, k, c, n);
      n := n + hxs % 16 * c;
      c := c * 10;
      hxs := hxs / 16;
      k := k + 1;
    }
    TailZero(d, k);
  }

  /** One digit of the packed number and its place in the decimal one. */
  lemma HxsStep(d: seq<int>, k: nat, c: int, n: int)
    requires Below(d, 16) && k <= |d| && Value(d[k..], 16) > 0 && c == Pow(10, k)
    ensures k < |d| && c * 10 == Pow(10, k + 1)
    ensures var hxs := Value(d[k..], 16);
            hxs / 16 == Value(d[k + 1..], 16) &&
            n + hxs % 16 * c + c * 10 * Value(d[k + 1..], 10) == n + c * Value(d[k..], 10)
  {
    var x, rest := d[k], d[k + 1..];
    assert d[k..] == [x] + rest && 0 <= x < 16;
    assert Pow(10, k + 1) == 10 * Pow(10, k);
    hide Value, Pow, Below;
    ValueCons(x, rest, 16);
    ValueCons(x, rest, 10);
    DivMod16(x, Value(rest, 16));
    Distribute(c, x, 10 * Value(rest, 10));
    Associate(c, 10, Value(rest, 10));
  }

  /** When the rest of the packed number is not positive, its decimal value is zero. */
  lemma TailZero(d: seq<int>, k: nat)
    requires Below(d, 16) && k <= |d| && Value(d[k..], 16) <= 0
    ensures Value(d[k..], 10) == 0
  {
    assert Below(d[k..], 16);
    hide Value, Pow, Below;
    ValueBound(d[k..], 16);
    ZeroDigits(d[k..]);
  }

  lemma DivMod16(x: int, v: int)
    requires 0 <= x < 16
    ensures (x + 16 * v) % 16 == x && (x + 16 * v) / 16 == v
  {
  }

  /** Drops trailing zeros from a fraction; `head` is everything up to and including the point. */
  method StripZeros(text: string, ghost neg: string, ghost i: string, ghost f0: string)
    returns (p: string, ghost f: string)
    requires text == neg + i + "." + f0 && AllDigits(f0)
    ensures p == neg + i + "." + f && AllDigits(f) && FixedValue(i, f) == FixedValue(i, f0)
    ensures f == "" || f[|f| - 1] != '0'
  {
    hide FixedValue;
    p, f := text, f0;
    while p[|p| - 1] == '0'
      invariant p == neg + i + "." + f && AllDigits(f) && FixedValue(i, f) == FixedValue(i, f0)
      decreases |f|
    {
      TrailingZero(i, f);
      p := p[..|p| - 1];
      f := f[..|f| - 1];
    }
  }

  lemma ThreeParts(d: seq<int>, a: nat, b: nat)
    requires a <= b < |d| && b + 1 == |d|
    ensures d == d[..a] + (d[a..b] + d[b..]) && d[b..] == [d[b]]
  {
  }

  /** The mantissa as the three hexadecimal conversions print it. */
  lemma MantissaText(d: seq<int>, ml: nat)
    requires 8 <= ml && |d| == ml + 1 && Below(d, 10)
    ensures Below(d, 16) && Below(d[..ml - 8], 16) && Below(d[ml - 8..ml], 16)
    ensures HexText(d[ml], 1) + HexText(Value(d[ml - 8..ml], 16), 8) + HexText(Value(d[..ml - 8], 16), ml - 8) ==
              Text(d)
  {
    hide HexText, Split;
    var lo, mid, hi := d[..ml - 8], d[ml - 8..ml], d[ml..];
    ThreeParts(d, ml - 8, ml);
    HexTextOfDigits(lo);
    HexTextOfDigits(mid);
    HexTextOfDigits(hi);
    ValueNone(16);
    ValueCons(d[ml], [], 16);
    assert [d[ml]] + [] == hi;
    TextAppend(mid, hi);
    TextAppend(lo, mid + hi);
  }

  /** The number that ml + 1 digits and an exponent stand for. */
  function Amount(m: string, ml: nat, re: int): real
  {
    Times10(Num(m), re - ml)
  }

  function WithSign(neg: bool, v: real): real { if neg then -v else v }

  /** Moving the point re places into the digits m scales them by 10^(re - ml). */
  lemma PointInside(m: string, ml: nat, re: int)
    requires |m| == ml + 1 && 0 <= re <= ml
    ensures FixedValue(m[..re + 1], m[re + 1..]) == Amount(m, ml, re)
  {
    assert m[..re + 1] + m[re + 1..] == m;
  }

  lemma {:induction false} ZeroText(z: string)
    requires forall k :: 0 <= k < |z| ==> z[k] == '0'
    ensures Num(z) == 0
  {
    if z != "" { ZeroText(z[..|z| - 1]); }
  }

  lemma PointBefore(z: string, m: string, ml: nat, re: int)
    requires |m| == ml + 1 && re < 0 && |z| == -re - 1 && forall k :: 0 <= k < |z| ==> z[k] == '0'
    ensures FixedValue("", z + m) == Amount(m, ml, re)
  {
    ZeroText(z);
    NumAppend(z, m);
    assert "" + (z + m) == z + m;
  }

  lemma PointAfterFirst(m: string, ml: nat, re: int)
    requires |m| == ml + 1
    ensures Shifted(FixedValue(m[..1], m[1..]), re) == Amount(m, ml, re)
  {
    assert m[..1] + m[1..] == m;
    P10Add(-(ml as int), re);
    MulAssoc(Num(m) as real, P10(-(ml as int)), P10(re));
  }

  lemma MulAssoc(x: real, y: real, z: real)
    ensures x * y * z == x * (y * z)
  {
  }

  /** The exponent of either format from its packed digits. */
  method ReadExponentField(x: seq<int>, xl: nat) returns (re: int)
    requires |x| == xl && Below(x, 10) && (xl == 3 || xl == 5)
    ensures re == Exponent(x)
  {
    var xs, k := 5, xl;
    k := k - 1;
    while k > 0
      invariant 0 <= k < xl && xs == 5 * Pow(10, xl - 1 - k)
    {
      xs := xs * 10;
      k := k - 1;
    }
    re := Hxs2Real(Value(x, 16), x);
    if re >= xs { re := re - 2 * xs; }
  }

  /** Integer part, point, fraction; a bare point at the end is dropped. */
  method InsideLayout(m: string, neg: string, ml: nat, re: int) returns (p: string)
    requires |m| == ml + 1 && 0 <= re <= ml && AllDigits(m) && (neg == "-" || neg == "")
    ensures Denotes(p) == Some(WithSign(neg == "-", Amount(m, ml, re)))
  {
    hide FixedValue, Amount, Denotes, Unsigned, WithSign;
    var i, f0 := m[..re + 1], m[re + 1..];
    PointInside(m, ml, re);
    p := neg + i + "." + f0;
    ghost var f;
    p, f := StripZeros(p, neg, i, f0);
    ReadPlain(i, f);
    if p[|p| - 1] == '.' {
      assert f == "";
      p := p[..|p| - 1];
      ReadSign(neg == "-", i, FixedValue(i, f));
      assert p == neg + i;
    } else {
      ReadSign(neg == "-", i + "." + f, FixedValue(i, f));
      assert p == neg + (i + "." + f);
    }
  }

  /** A leading point and the zeros a negative exponent asks for. */
  method BeforeLayout(m: string, neg: string, ml: nat, re: int) returns (p: string)
    requires |m| == ml + 1 && re < 0 && AllDigits(m) && Num(m) > 0 && (neg == "-" || neg == "")
    ensures Denotes(p) == Some(WithSign(neg == "-", Amount(m, ml, re)))
  {
    ghost var z := "";
    p := neg + ".";
    for k := 1 to -re
      invariant |z| == k - 1 && (forall j :: 0 <= j < |z| ==> z[j] == '0') && p == neg + "." + z
    {
      p := p + ['0'];
      z := z + ['0'];
    }
    p := p + m;
    PointBefore(z, m, ml, re);
    ghost var f;
    assert p == neg + "" + "." + (z + m);
    p, f := StripZeros(p, neg, "", z + m);
    NotNothing(f, z + m, m, ml, re);
    hide FixedValue, P10, Num, Amount, Denotes, Unsigned, WithSign;
    ReadPlain("", f);
    ReadSign(neg == "-", "" + "." + f, FixedValue("", f));
    assert p == neg + ("" + "." + f);
  }

  /** Stripping a positive fraction leaves something. */
  lemma NotNothing(f: string, f0: string, m: string, ml: nat, re: int)
    requires FixedValue("", f) == FixedValue("", f0) == Amount(m, ml, re) && Num(m) > 0
    ensures "" + f != ""
  {
    AmountPositive(m, ml, re);
    hide Amount, P10;
  }

  lemma AmountPositive(m: string, ml: nat, re: int)
    requires Num(m) > 0
    ensures Amount(m, ml, re) > 0.0
  {
    P10Positive(re - ml);
  }

  lemma {:induction false} P10Positive(e: int)
    ensures P10(e) > 0.0
    decreases if e < 0 then -e else e
  {
    if e > 0 { P10Positive(e - 1); }
    if e < 0 { P10Positive(e + 1); }
  }

  /** One digit, point, fraction, and the exponent. */
  method ScientificLayout(m: string, neg: string, ml: nat, re: int) returns (p: string)
    requires |m| == ml + 1 && AllDigits(m) && (neg == "-" || neg == "")
    ensures Denotes(p) == Some(WithSign(neg == "-", Amount(m, ml, re)))
  {
    hide FixedValue, Shifted, Amount, Denotes, Unsigned, WithSign, IntText, Pow;
    var i, f0 := m[..1], m[1..];
    PointAfterFirst(m, ml, re);
    ghost var f;
    p := neg + i + "." + f0;
    p, f := StripZeros(p, neg, i, f0);
    if re != 0 {
      IntTextReads(re);
      ReadExponent(i, f, IntText(re), re);
      p := p + "E" + IntText(re);
      ReadSign(neg == "-", i + "." + f + "E" + IntText(re), Shifted(FixedValue(i, f), re));
      assert p == neg + (i + "." + f + "E" + IntText(re));
    } else {
      ShiftedZero(FixedValue(i, f));
      ReadPlain(i, f);
      ReadSign(neg == "-", i + "." + f, FixedValue(i, f));
      assert p == neg + (i + "." + f);
    }
  }

  lemma ShiftedZero(v: real)
    ensures Shifted(v, 0) == v
  {
  }

  lemma NumberIs(r: Stored, ml: nat, xl: nat)
    requires Bcd(r, ml, xl)
    ensures Below(r.mant, 16) && Number(r, ml) == WithSign(r.sign >= 5, Amount(Text(r.mant), ml, Exponent(r.x)))
  {
    TextNum(r.mant);
    NumberOf(r.sign >= 5, Text(r.mant), Value(r.mant, 10), ml, Exponent(r.x));
    hide *;
  }

  lemma NumberOf(neg: bool, m: string, v: int, ml: nat, re: int)
    requires Num(m) == v
    ensures WithSign(neg, Times10(v, re - ml)) == WithSign(neg, Amount(m, ml, re))
  {
    hide Times10, WithSign;
  }

  /** The printed text denotes the stored number exactly. */
  method RealNumber(r: Stored, ml: nat, xl: nat) returns (p: string)
    requires Format(ml, xl) && Bcd(r, ml, xl)
    requires Value(r.mant, 10) != 0 || Exponent(r.x) >= 0 || Exponent(r.x) < -(ml as int) - 1
    ensures Denotes(p) == Some(Number(r, ml))
  {
    hide FixedValue, HexText, Exponent, Denotes, Number, Amount, WithSign, Pow;
    MantissaText(r.mant, ml);
    TextNum(r.mant);
    NumberIs(r, ml, xl);
    var re := ReadExponentField(r.x, xl);
    var m := HexText(r.mant[ml], 1) + HexText(Value(r.mant[ml - 8..ml], 16), 8) +
             HexText(Value(r.mant[..ml - 8], 16), ml - 8);
    var neg := if r.sign >= 5 then "-" else "";
    if re >= 0 && re < ml + 1 {
      p := InsideLayout(m, neg, ml, re);
      return;
    }
    if re < 0 && re >= -(ml as int) - 1 {
      SomeDigit(m);
      var i := ml;
      while m[i] == '0'
        invariant 0 <= i <= ml && exists k :: 0 <= k <= i && m[k] != '0'
        decreases i
      {
        i := i - 1;
      }
      if -re <= ml - i + 1 {
        p := BeforeLayout(m, neg, ml, re);
        return;
      }
    }
    p := ScientificLayout(m, neg, ml, re);
  }

  /** The scan for the last digit that is not zero finds one exactly when the mantissa is not zero. */
  lemma SomeDigit(m: string)
    requires AllDigits(m)
    ensures Num(m) >= 0 && (Num(m) != 0 <==> exists k :: 0 <= k < |m| && m[k] != '0')
  {
    if forall k :: 0 <= k < |m| ==> m[k] == '0' {
      ZeroText(m);
    } else {
      var k :| 0 <= k < |m| && m[k] != '0';
      NumPositive(m, k);
    }
  }
}
