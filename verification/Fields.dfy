/**
 What the field operations of the register unit compute, as functions of the digits of
 one field, and the numbers those digits denote.
 */
module Fields {
  import opened Digits

  const HEX: nat := 16
  const DEC: nat := 10

  /** The two arithmetic modes. */
  predicate Mode(base: nat) { base == 10 || base == 16 }

  const P_FIELD := 0
  const WP_FIELD := 1
  const W_FIELD := 7
  const A_FIELD := 15
  const IN_FIELD := 16
  const OUT_FIELD := 17
  const OUTS_FIELD := 18

  /** First nibble of a field; the fields P and WP depend on the P register. */
  function GetStart(p: nat, code: nat): (s: nat)
    requires p < 16 && code < 19
    ensures s < 16
  {
    match code
    case 0 => p
    case 8 => p
    case 2 => 2
    case 10 => 2
    case 4 => 15
    case 12 => 15
    case 5 => 3
    case 13 => 3
    case _ => 0
  }

  /** Last nibble of a field. */
  function GetEnd(p: nat, code: nat): (e: nat)
    requires p < 16 && code < 19
    ensures GetStart(p, code) <= e < 16
  {
    match code
    case 0 => p
    case 1 => p
    case 8 => p
    case 9 => p
    case 4 => 15
    case 7 => 15
    case 12 => 15
    case 5 => 14
    case 13 => 14
    case 6 => 1
    case 14 => 1
    case 15 => 4
    case 16 => 3
    case 18 => 0
    case _ => 2
  }

  /** The nibbles of `r` that a field selects. */
  function Field(r: seq<int>, p: nat, code: nat): seq<int>
    requires p < 16 && code < 19 && GetEnd(p, code) < |r|
  {
    r[GetStart(p, code)..GetEnd(p, code) + 1]
  }

  /**
   The fields tile a register: X, M and S; X is B and XS; the address field is the low five
   nibbles; WP is what lies up to P, and P the nibble there.
   */
  lemma FieldsTile(r: seq<int>, p: nat)
    requires |r| == 16 && p < 16
    ensures Field(r, p, 3) + Field(r, p, 5) + Field(r, p, 4) == r
    ensures |Field(r, p, 3)| == 3 && |Field(r, p, 5)| == 12 && |Field(r, p, 4)| == 1
    ensures Field(r, p, 6) + Field(r, p, 2) == Field(r, p, 3) && |Field(r, p, 6)| == 2
    ensures Field(r, p, 15) == r[..5] && Field(r, p, 7) == r
    ensures Field(r, p, 0) == [r[p]] && Field(r, p, 1) + r[p + 1..] == r
  {
  }

  /** Codes 8 to 14 repeat 0 to 6, and the three fields of IN and OUT are its low nibbles. */
  lemma FieldsRepeat(r: seq<int>, p: nat, code: nat)
    requires |r| == 16 && p < 16 && code < 7
    ensures Field(r, p, code + 8) == Field(r, p, code)
    ensures GetStart(p, code + 8) == GetStart(p, code)
    ensures Field(r, p, 16) == r[..4] && Field(r, p, 17) == r[..3] && Field(r, p, 18) == r[..1]
  {
    match code
    case 0 =>
    case 1 =>
    case 2 =>
    case 3 =>
    case 4 =>
    case 5 =>
    case _ =>
  }

  /** t & 0xf */
  function Nib(t: int): (r: int)
    ensures 0 <= r < 16
  {
    if 0 <= t < 16 then t else t % 16
  }

  // ---------------------------------------------------------------- addition

  /** One column of an addition: the digit written and the carry out. */
  function AddStep(t: int, base: nat): (int, int)
  {
    if t < base then (Nib(t), 0) else (Nib(t - base), 1)
  }

  /** Digits and carry of a + b, the columns taken from the low end up. */
  function AddDigits(a: seq<int>, b: seq<int>, base: nat): (r: (seq<int>, int))
    requires |a| == |b|
    ensures |r.0| == |a|
  {
    if a == [] then ([], 0)
    else
      var n := |a| - 1;
      var (lo, c) := AddDigits(a[..n], b[..n], base);
      var (d, c') := AddStep(a[n] + b[n] + c, base);
      (lo + [d], c')
  }

  lemma AddStepExact(t: int, base: nat)
    requires Mode(base) && 0 <= t < 2 * base
    ensures var (d, c) := AddStep(t, base); 0 <= d < base && 0 <= c <= 1 && t == d + base * c
  {
    if base == 10 {} else {}
  }

  lemma {:induction false} AddRange(a: seq<int>, b: seq<int>, base: nat)
    requires |a| == |b|
    ensures var (s, out) := AddDigits(a, b, base);
            Below(s, 16) && 0 <= out <= 1 &&
            (Mode(base) && Below(a, base) && Below(b, base) ==> Below(s, base))
  {
    if a != [] { AddRange(a[..|a| - 1], b[..|a| - 1], base); }
  }

  /** r1 + r2 = res + CARRY * base^n, for valid digits in either mode. */
  lemma {:induction false} AddExact(a: seq<int>, b: seq<int>, base: nat)
    requires |a| == |b| && Mode(base) && Below(a, base) && Below(b, base)
    ensures var (s, out) := AddDigits(a, b, base);
            Value(a, base) + Value(b, base) == Value(s, base) + out * Pow(base, |a|)
  {
    if a != [] {
      var n := |a| - 1;
      AddExact(a[..n], b[..n], base);
      AddRange(a[..n], b[..n], base);
      var (lo, c) := AddDigits(a[..n], b[..n], base);
      var t := a[n] + b[n] + c;
      AddStepExact(t, base);
      var (d, c') := AddStep(t, base);
      ValueLast(a, base);
      ValueLast(b, base);
      ValueSnoc(lo, d, base);
      AddColumn(base, Pow(base, n), a[n], b[n], c, d, c');
    }
  }

  /** The top column of a sum, scaled by its weight. */
  lemma AddColumn(base: int, p: int, x: int, y: int, c: int, d: int, c': int)
    requires x + y + c == d + base * c'
    ensures p * x + p * y + c * p == p * d + c' * (base * p)
  {
    assert p * x + p * y + p * c == p * (x + y + c);
    assert p * (d + base * c') == p * d + p * (base * c');
    assert p * (base * c') == c' * (base * p);
  }

  // ------------------------------------------------------------- subtraction

  function SubStep(t: int, base: nat): (int, int)
  {
    if t >= 0 then (Nib(t), 0) else (Nib(t + base), 1)
  }

  function SubDigits(a: seq<int>, b: seq<int>, base: nat): (r: (seq<int>, int))
    requires |a| == |b|
    ensures |r.0| == |a|
  {
    if a == [] then ([], 0)
    else
      var n := |a| - 1;
      var (lo, c) := SubDigits(a[..n], b[..n], base);
      var (d, c') := SubStep(a[n] - b[n] - c, base);
      (lo + [d], c')
  }

  lemma SubStepExact(t: int, base: nat)
    requires Mode(base) && -(base as int) <= t < base
    ensures var (d, c) := SubStep(t, base); 0 <= d < base && 0 <= c <= 1 && t == d - base * c
  {
    if base == 10 {} else {}
  }

  lemma {:induction false} SubRange(a: seq<int>, b: seq<int>, base: nat)
    requires |a| == |b|
    ensures var (s, out) := SubDigits(a, b, base);
            Below(s, 16) && 0 <= out <= 1 &&
            (Mode(base) && Below(a, base) && Below(b, base) ==> Below(s, base))
  {
    if a != [] { SubRange(a[..|a| - 1], b[..|a| - 1], base); }
  }

  /** r1 - r2 = res - CARRY * base^n, for valid digits in either mode. */
  lemma {:induction false} SubExact(a: seq<int>, b: seq<int>, base: nat)
    requires |a| == |b| && Mode(base) && Below(a, base) && Below(b, base)
    ensures var (s, out) := SubDigits(a, b, base);
            Value(a, base) - Value(b, base) == Value(s, base) - out * Pow(base, |a|)
  {
    if a != [] {
      var n := |a| - 1;
      SubExact(a[..n], b[..n], base);
      SubRange(a[..n], b[..n], base);
      var (lo, c) := SubDigits(a[..n], b[..n], base);
      var t := a[n] - b[n] - c;
      SubStepExact(t, base);
      var (d, c') := SubStep(t, base);
      ValueLast(a, base);
      ValueLast(b, base);
      ValueSnoc(lo, d, base);
      AddColumn(base, Pow(base, n), d, b[n], c, a[n], c');
    }
  }

  /** The borrow out of a subtraction does not depend on the arithmetic mode. */
  lemma {:induction false} BorrowIgnoresMode(a: seq<int>, b: seq<int>, base: nat, base': nat)
    requires |a| == |b|
    ensures SubDigits(a, b, base).1 == SubDigits(a, b, base').1
  {
    if a != [] { BorrowIgnoresMode(a[..|a| - 1], b[..|a| - 1], base, base'); }
  }

  lemma BorrowArith(x: int, y: int, d: int, out: int, p: int)
    requires 0 <= x < p && 0 <= y < p && 0 <= d < p && 0 <= out <= 1 && x - y == d - out * p
    ensures out == if x < y then 1 else 0
  {
    if out == 1 { assert out * p == p; }
  }

  /** For arbitrary nibbles, in either mode, the borrow says which field is smaller. */
  lemma BorrowIsLess(a: seq<int>, b: seq<int>, base: nat)
    requires |a| == |b| && Below(a, 16) && Below(b, 16)
    ensures SubDigits(a, b, base).1 == if Value(a, 16) < Value(b, 16) then 1 else 0
  {
    BorrowIgnoresMode(a, b, base, HEX);
    SubRange(a, b, HEX);
    SubExact(a, b, HEX);
    var (d, out) := SubDigits(a, b, HEX);
    ValueBound(d, HEX);
    ValueBound(a, HEX);
    ValueBound(b, HEX);
    BorrowArith(Value(a, HEX), Value(b, HEX), Value(d, HEX), out, Pow(HEX, |a|));
  }

  // ----------------------- increments: a carry that ripples until a digit absorbs it

  /** Adds `val` into the low digit and ripples the carry; a clear carry changes nothing more. */
  function RippleUp(a: seq<int>, val: int, base: nat): (r: (seq<int>, int))
    ensures |r.0| == |a|
  {
    if a == [] then ([], val)
    else
      var n := |a| - 1;
      var (lo, c) := RippleUp(a[..n], val, base);
      var (d, c') := if c == 0 then (a[n], 0) else AddStep(a[n] + c, base);
      (lo + [d], c')
  }

  lemma RippleUpNext(a: seq<int>, val: int, base: nat, k: nat)
    requires k < |a|
    ensures var (lo, c) := RippleUp(a[..k], val, base);
            var (d, c') := if c == 0 then (a[k], 0) else AddStep(a[k] + c, base);
            RippleUp(a[..k + 1], val, base) == (lo + [d], c')
  {
    assert a[..k + 1][..k] == a[..k];
  }

  /** Once the carry is clear the remaining digits keep their values. */
  lemma {:induction false} RippleUpStops(a: seq<int>, val: int, base: nat, k: nat)
    requires k <= |a| && RippleUp(a[..k], val, base).1 == 0
    ensures RippleUp(a, val, base) == (RippleUp(a[..k], val, base).0 + a[k..], 0)
  {
    var n := |a| - 1;
    if k == |a| {
      assert a[..k] == a && RippleUp(a, val, base).0 + a[k..] == RippleUp(a, val, base).0;
    } else {
      assert a[..n][..k] == a[..k];
      RippleUpStops(a[..n], val, base, k);
      var done := RippleUp(a[..k], val, base).0;
      assert done + a[..n][k..] + [a[n]] == done + a[k..];
    }
  }

  lemma {:induction false} RippleUpRange(a: seq<int>, val: int, base: nat)
    requires Below(a, 16) && 0 <= val
    ensures var (s, out) := RippleUp(a, val, base);
            Below(s, 16) && 0 <= out && (a != [] ==> out <= 1) &&
            (Mode(base) && val <= base && Below(a, base) ==> Below(s, base))
  {
    if a != [] { RippleUpRange(a[..|a| - 1], val, base); }
  }

  lemma {:induction false} RippleUpExact(a: seq<int>, val: int, base: nat)
    requires Mode(base) && Below(a, base) && 0 <= val <= base
    ensures var (s, out) := RippleUp(a, val, base);
            Value(a, base) + val == Value(s, base) + out * Pow(base, |a|)
  {
    hide *;
    RipplesNone(val, base);
    if a != [] {
      var n := |a| - 1;
      LastDigit(a, base);
      RippleUpExact(a[..n], val, base);
      RippleUpCarry(a[..n], val, base);
      var (lo, c) := RippleUp(a[..n], val, base);
      ValueLast(a, base);
      RippleUpNext(a, val, base, n);
      assert a[..n + 1] == a;
      if c == 0 {
        ValueSnoc(lo, a[n], base);
      } else {
        AddStepExact(a[n] + c, base);
        var (d, c') := AddStep(a[n] + c, base);
        ValueSnoc(lo, d, base);
        AddColumn(base, Pow(base, n), a[n], 0, c, d, c');
      }
    }
  }

  lemma RipplesNone(val: int, base: nat)
    ensures RippleUp([], val, base) == ([], val) == RippleDown([], val, base)
    ensures Value([], base) == 0 && Pow(base, 0) == 1
  {
  }

  lemma LastDigit(a: seq<int>, base: nat)
    requires a != [] && Mode(base) && Below(a, base)
    ensures var n := |a| - 1;
            0 <= a[n] < base && Below(a[..n], base) && Pow(base, n + 1) == base * Pow(base, n)
  {
  }

  lemma RippleUpCarry(a: seq<int>, val: int, base: nat)
    requires Mode(base) && Below(a, base) && 0 <= val <= base
    ensures 0 <= RippleUp(a, val, base).1 <= base
  {
    RippleUpRange(a, val, base);
  }

  lemma RippleDownCarry(a: seq<int>, val: int, base: nat)
    requires Mode(base) && Below(a, base) && 0 <= val <= base
    ensures 0 <= RippleDown(a, val, base).1 <= base
  {
    RippleDownRange(a, val, base);
  }

  /** Subtracts `val` from the low digit and ripples the borrow. */
  function RippleDown(a: seq<int>, val: int, base: nat): (r: (seq<int>, int))
    ensures |r.0| == |a|
  {
    if a == [] then ([], val)
    else
      var n := |a| - 1;
      var (lo, c) := RippleDown(a[..n], val, base);
      var (d, c') := if c == 0 then (a[n], 0) else SubStep(a[n] - c, base);
      (lo + [d], c')
  }

  lemma RippleDownNext(a: seq<int>, val: int, base: nat, k: nat)
    requires k < |a|
    ensures var (lo, c) := RippleDown(a[..k], val, base);
            var (d, c') := if c == 0 then (a[k], 0) else SubStep(a[k] - c, base);
            RippleDown(a[..k + 1], val, base) == (lo + [d], c')
  {
    assert a[..k + 1][..k] == a[..k];
  }

  /** Once the carry is clear the remaining digits keep their values. */
  lemma {:induction false} RippleDownStops(a: seq<int>, val: int, base: nat, k: nat)
    requires k <= |a| && RippleDown(a[..k], val, base).1 == 0
    ensures RippleDown(a, val, base) == (RippleDown(a[..k], val, base).0 + a[k..], 0)
  {
    var n := |a| - 1;
    if k == |a| {
      assert a[..k] == a && RippleDown(a, val, base).0 + a[k..] == RippleDown(a, val, base).0;
    } else {
      assert a[..n][..k] == a[..k];
      RippleDownStops(a[..n], val, base, k);
      var done := RippleDown(a[..k], val, base).0;
      assert done + a[..n][k..] + [a[n]] == done + a[k..];
    }
  }

  lemma {:induction false} RippleDownRange(a: seq<int>, val: int, base: nat)
    requires Below(a, 16) && 0 <= val
    ensures var (s, out) := RippleDown(a, val, base);
            Below(s, 16) && 0 <= out && (a != [] ==> out <= 1) &&
            (Mode(base) && val <= base && Below(a, base) ==> Below(s, base))
  {
    if a != [] { RippleDownRange(a[..|a| - 1], val, base); }
  }

  lemma {:induction false} RippleDownExact(a: seq<int>, val: int, base: nat)
    requires Mode(base) && Below(a, base) && 0 <= val <= base
    ensures var (s, out) := RippleDown(a, val, base);
            Value(a, base) - val == Value(s, base) - out * Pow(base, |a|)
  {
    hide *;
    RipplesNone(val, base);
    if a != [] {
      var n := |a| - 1;
      LastDigit(a, base);
      RippleDownExact(a[..n], val, base);
      RippleDownCarry(a[..n], val, base);
      var (lo, c) := RippleDown(a[..n], val, base);
      ValueLast(a, base);
      RippleDownNext(a, val, base, n);
      assert a[..n + 1] == a;
      if c == 0 {
        ValueSnoc(lo, a[n], base);
      } else {
        SubStepExact(a[n] - c, base);
        var (d, c') := SubStep(a[n] - c, base);
        ValueSnoc(lo, d, base);
        AddColumn(base, Pow(base, n), d, 0, c, a[n], c');
      }
    }
  }

  // ------------------------------------------------------------- complements

  /**
   Two's (ten's) complement with carry-in 1: the digits, the running carry, and the sum of
   the digits that the CARRY test looks at.
   */
  function NegDigits(a: seq<int>, base: nat): (r: (seq<int>, int, int))
    ensures |r.0| == |a|
  {
    if a == [] then ([], 1, 0)
    else
      var n := |a| - 1;
      var (lo, c, sum) := NegDigits(a[..n], base);
      var (d, c') := AddStep(base - 1 - a[n] + c, base);
      (lo + [d], c', sum + d)
  }

  function NotDigits(a: seq<int>, base: nat): (r: seq<int>)
    ensures |r| == |a|
  {
    if a == [] then [] else NotDigits(a[..|a| - 1], base) + [Nib(base - 1 - a[|a| - 1])]
  }

  lemma {:induction false} NegRange(a: seq<int>, base: nat)
    ensures var (n, c, sum) := NegDigits(a, base);
            Below(n, 16) && 0 <= c <= 1 && 0 <= sum && (sum == 0 <==> Below(n, 1)) &&
            (Mode(base) && Below(a, base) ==> Below(n, base))
  {
    if a != [] {
      var k := |a| - 1;
      NegRange(a[..k], base);
      var (lo, c, _) := NegDigits(a[..k], base);
      BelowSnoc(lo, AddStep(base - 1 - a[k] + c, base).0, 1);
    }
  }

  lemma {:induction false} NotRange(a: seq<int>, base: nat)
    ensures Below(NotDigits(a, base), 16)
    ensures Mode(base) && Below(a, base) ==> Below(NotDigits(a, base), base)
  {
    if a != [] { NotRange(a[..|a| - 1], base); }
  }

  /** -r-1: digit by digit it is base^n - 1 - r. */
  lemma {:induction false} Complement1Exact(a: seq<int>, base: nat)
    requires Mode(base) && Below(a, base)
    ensures Value(NotDigits(a, base), base) + Value(a, base) + 1 == Pow(base, |a|)
  {
    if a != [] {
      var n := |a| - 1;
      Complement1Exact(a[..n], base);
      ValueLast(a, base);
      ValueSnoc(NotDigits(a[..n], base), base - 1 - a[n], base);
      AddColumn(base, Pow(base, n), base - 1 - a[n], a[n], 1, 0, 1);
    }
  }

  /** r + (-r) = base^n, the carry-in having rippled all the way only through zeros. */
  lemma {:induction false} NegExact(a: seq<int>, base: nat)
    requires Mode(base) && Below(a, base)
    ensures var (n, c, _) := NegDigits(a, base);
            Value(n, base) + Value(a, base) + c * Pow(base, |a|) == Pow(base, |a|)
  {
    if a != [] {
      var k := |a| - 1;
      NegExact(a[..k], base);
      NegRange(a[..k], base);
      var (lo, c, _) := NegDigits(a[..k], base);
      var t := base - 1 - a[k] + c;
      AddStepExact(t, base);
      var (d, c') := AddStep(t, base);
      ValueLast(a, base);
      ValueSnoc(lo, d, base);
      NegColumn(base, Pow(base, k), a[k], c, d, c');
    }
  }

  lemma NegColumn(base: int, p: int, x: int, c: int, d: int, c': int)
    requires base - 1 - x + c == d + base * c'
    ensures p * d + p * x + c' * (base * p) - c * p == base * p - p
  {
    assert p * (base - 1 + c) == p * base - p + p * c;
    assert p * (d + x + base * c') == p * d + p * x + p * (base * c');
    assert p * (base * c') == c' * (base * p);
  }

  lemma NegArith(c: int, p: int, v: int, n: int)
    requires 0 <= c <= 1 && 0 <= v < p && 0 <= n < p && n + v + c * p == p
    ensures n == if v == 0 then 0 else p - v
  {
    if c == 1 { assert c * p == p; }
  }

  /** -r is base^n - r modulo base^n, and its digit sum is 0 only for r = 0. */
  lemma Complement2Exact(a: seq<int>, base: nat)
    requires Mode(base) && Below(a, base)
    ensures var (n, _, sum) := NegDigits(a, base);
            Value(n, base) == (if Value(a, base) == 0 then 0 else Pow(base, |a|) - Value(a, base)) &&
            (sum != 0 <==> Value(a, base) != 0)
  {
    var (n, c, _) := NegDigits(a, base);
    NegRange(a, base);
    NegExact(a, base);
    ValueBound(a, base);
    ValueBound(n, base);
    ZeroValue(n, base);
    NegArith(c, Pow(base, |a|), Value(a, base), Value(n, base));
  }

  // ------------------------------------------------------------------ shifts

  /** Nibble shifts of a field; `t` enters at the vacated end. */
  function ShiftLeft(a: seq<int>, t: int): (r: seq<int>)
    requires a != []
    ensures |r| == |a|
  {
    [t] + a[..|a| - 1]
  }

  function ShiftRight(a: seq<int>, t: int): (r: seq<int>)
    requires a != []
    ensures |r| == |a|
  {
    a[1..] + [t]
  }

  lemma ScaleColumn(base: int, v: int, p: int, x: int)
    ensures base * (v + p * x) == base * v + x * (base * p)
  {
    Distribute(base, v, p * x);
    Associate(base, p, x);
  }

  /** Shifting left multiplies by 16, the top nibble leaving (or, circularly, coming back). */
  lemma ShiftLeftExact(a: seq<int>, t: int)
    requires a != []
    ensures Value(ShiftLeft(a, t), 16) + a[|a| - 1] * Pow(16, |a|) == 16 * Value(a, 16) + t
  {
    var n := |a| - 1;
    ValueLast(a, 16);
    ValueCons(t, a[..n], 16);
    ScaleColumn(16, Value(a[..n], 16), Pow(16, n), a[n]);
  }

  lemma ShiftRightExact(a: seq<int>, t: int)
    requires a != []
    ensures 16 * Value(ShiftRight(a, t), 16) + a[0] == Value(a, 16) + t * Pow(16, |a|)
  {
    var n := |a| - 1;
    ValueLast(a[1..] + [t], 16);
    assert (a[1..] + [t])[..n] == a[1..];
    ScaleColumn(16, Value(a[1..], 16), Pow(16, n), t);
  }

  /** One-bit right shift, from the top nibble down; `sb` enters at bit 3 of the top nibble. */
  function ShiftRightBit(a: seq<int>, sb: int): (r: (seq<int>, int))
    ensures |r.0| == |a|
  {
    if a == [] then ([], sb)
    else
      var n := |a| - 1;
      var (lo, out) := ShiftRightBit(a[..n], a[n] % 2);
      (lo + [a[n] / 2 + 8 * sb], out)
  }

  lemma HalveColumn(x: int, sb: int, p: int)
    ensures 2 * (p * (x / 2 + 8 * sb)) + x % 2 * p == p * x + sb * (16 * p)
  {
    var h, b := x / 2, x % 2;
    assert x == 2 * h + b;
    assert p * x == 2 * (p * h) + p * b;
    assert p * (h + 8 * sb) == p * h + 8 * (p * sb);
  }

  lemma {:induction false} ShiftRightBitRange(a: seq<int>, sb: int)
    requires Below(a, 16) && 0 <= sb <= 1
    ensures var (r, out) := ShiftRightBit(a, sb); Below(r, 16) && 0 <= out <= 1
  {
    if a != [] { ShiftRightBitRange(a[..|a| - 1], a[|a| - 1] % 2); }
  }

  lemma {:induction false} ShiftRightBitExact(a: seq<int>, sb: int)
    requires Below(a, 16) && 0 <= sb <= 1
    ensures var (r, out) := ShiftRightBit(a, sb);
            2 * Value(r, 16) + out == Value(a, 16) + sb * Pow(16, |a|)
  {
    if a != [] {
      var n := |a| - 1;
      ShiftRightBitExact(a[..n], a[n] % 2);
      var (lo, out) := ShiftRightBit(a[..n], a[n] % 2);
      var d := a[n] / 2 + 8 * sb;
      ValueLast(lo + [d], 16);
      assert (lo + [d])[..n] == lo;
      ValueLast(a, 16);
      HalveColumn(a[n], sb, Pow(16, n));
    }
  }

  // ----------------------------------------------------------------- logical

  function NibAnd(x: int, y: int): (r: int)
    requires 0 <= x < 16 && 0 <= y < 16
    ensures 0 <= r < 16
  {
    ((x as bv4) & (y as bv4)) as int
  }

  function NibOr(x: int, y: int): (r: int)
    requires 0 <= x < 16 && 0 <= y < 16
    ensures 0 <= r < 16
  {
    ((x as bv4) | (y as bv4)) as int
  }

  function NibOp(or: bool, x: int, y: int): (r: int)
    requires 0 <= x < 16 && 0 <= y < 16
    ensures 0 <= r < 16
  {
    if or then NibOr(x, y) else NibAnd(x, y)
  }

  function MapNibs(or: bool, a: seq<int>, b: seq<int>): (r: seq<int>)
    requires |a| == |b| && Below(a, 16) && Below(b, 16)
    ensures |r| == |a| && Below(r, 16)
  {
    seq(|a|, i requires 0 <= i < |a| => NibOp(or, a[i], b[i]))
  }

  function Zeros(n: nat): (r: seq<int>)
    ensures |r| == n && Below(r, 1)
  {
    seq(n, _ => 0)
  }

  // --------------------------------------------------------- top-down compare

  /** -1, 0 or 1 as `a` is below, equal to or above `b`, decided by the highest differing digit. */
  function Compare(a: seq<int>, b: seq<int>): int
    requires |a| == |b|
  {
    if a == [] then 0
    else
      var n := |a| - 1;
      if a[n] < b[n] then -1 else if a[n] > b[n] then 1 else Compare(a[..n], b[..n])
  }

  /** The digit comparison is the order of the numbers, in any base the digits fit. */
  lemma {:induction false} CompareIsOrder(a: seq<int>, b: seq<int>, base: nat)
    requires |a| == |b| && 0 < base && Below(a, base) && Below(b, base)
    ensures Compare(a, b) < 0 <==> Value(a, base) < Value(b, base)
    ensures Compare(a, b) == 0 <==> Value(a, base) == Value(b, base)
  {
    if a != [] {
      var n := |a| - 1;
      ValueLast(a, base);
      ValueLast(b, base);
      ValueBound(a[..n], base);
      ValueBound(b[..n], base);
      if a[n] == b[n] {
        CompareIsOrder(a[..n], b[..n], base);
      } else if a[n] < b[n] {
        TopDigitDecides(Pow(base, n), a[n], b[n], Value(a[..n], base), Value(b[..n], base));
      } else {
        TopDigitDecides(Pow(base, n), b[n], a[n], Value(b[..n], base), Value(a[..n], base));
      }
    }
  }

  lemma TopDigitDecides(p: int, x: int, y: int, v: int, w: int)
    requires x < y && 0 <= v < p && 0 <= w < p
    ensures v + p * x < w + p * y
  {
    MulMono(p, x + 1, y);
    Distribute(p, x, 1);
  }

  /** Swapping the operands turns < into >, and <= into >=. */
  lemma {:induction false} CompareDual(a: seq<int>, b: seq<int>)
    requires |a| == |b|
    ensures Compare(a, b) == -Compare(b, a)
  {
    if a != [] { CompareDual(a[..|a| - 1], b[..|a| - 1]); }
  }

  /** ?r1<r2 answers yes exactly when r1-r2 would set CARRY: any nibbles, either mode. */
  lemma CompareIsBorrow(a: seq<int>, b: seq<int>, base: nat)
    requires |a| == |b| && Below(a, 16) && Below(b, 16)
    ensures Compare(a, b) < 0 <==> SubDigits(a, b, base).1 == 1
  {
    CompareIsOrder(a, b, HEX);
    BorrowIsLess(a, b, base);
  }

  // ---------------------------------------- constants are added and subtracted in base 16

  /** The low digits of a ripple do not depend on the digits above. */
  lemma {:induction false} RippleUpPrefix(a: seq<int>, val: int, base: nat, k: nat)
    requires k <= |a|
    ensures RippleUp(a, val, base).0[..k] == RippleUp(a[..k], val, base).0
  {
    if k == |a| {
      assert a[..k] == a;
    } else {
      assert a[..|a| - 1][..k] == a[..k];
      RippleUpPrefix(a[..|a| - 1], val, base, k);
    }
  }

  lemma {:induction false} RippleDownPrefix(a: seq<int>, val: int, base: nat, k: nat)
    requires k <= |a|
    ensures RippleDown(a, val, base).0[..k] == RippleDown(a[..k], val, base).0
  {
    if k == |a| {
      assert a[..k] == a;
    } else {
      assert a[..|a| - 1][..k] == a[..k];
      RippleDownPrefix(a[..|a| - 1], val, base, k);
    }
  }

  lemma RippleUpOne(a: seq<int>, val: int, base: nat)
    requires a != [] && val != 0
    ensures var (d, c) := AddStep(a[0] + val, base); RippleUp(a[..1], val, base) == ([d], c)
    ensures RippleUp(a, val, base).0[0] == AddStep(a[0] + val, base).0
  {
    hide *;
    var d := AddStep(a[0] + val, base).0;
    RipplesNone(val, base);
    assert a[..0] == [] && a[..0 + 1] == a[..1] && [] + [d] == [d];
    RippleUpNext(a, val, base, 0);
    RippleUpPrefix(a, val, base, 1);
    assert RippleUp(a, val, base).0[..1][0] == d;
  }

  lemma RippleDownOne(a: seq<int>, val: int, base: nat)
    requires a != [] && val != 0
    ensures var (d, c) := SubStep(a[0] - val, base); RippleDown(a[..1], val, base) == ([d], c)
    ensures RippleDown(a, val, base).0[0] == SubStep(a[0] - val, base).0
  {
    hide *;
    var d := SubStep(a[0] - val, base).0;
    RipplesNone(val, base);
    assert a[..0] == [] && a[..0 + 1] == a[..1] && [] + [d] == [d];
    RippleDownNext(a, val, base, 0);
    RippleDownPrefix(a, val, base, 1);
    assert RippleDown(a, val, base).0[..1][0] == d;
  }

  /** Numbers that differ in one low digit, and in two. */
  lemma LowDigitValue(a: seq<int>, x: int, base: nat)
    requires a != []
    ensures Value([x] + a[1..], base) == Value(a, base) + x - a[0]
  {
    assert a == [a[0]] + a[1..];
    ValueCons(x, a[1..], base);
    ValueCons(a[0], a[1..], base);
  }

  lemma TwoDigitValue(a: seq<int>, x: int, y: int, base: nat)
    requires |a| >= 2
    ensures Value([x, y] + a[2..], base) == Value(a, base) + x - a[0] + base * (y - a[1])
  {
    var t := [y] + a[2..];
    assert [x, y] + a[2..] == [x] + t && a == [a[0]] + a[1..];
    assert a[1..][1..] == a[2..];
    LowDigitValue(a[1..], y, base);
    ValueCons(x, t, base);
    ValueCons(a[0], a[1..], base);
    Distribute(base, Value(a[1..], base), y - a[1]);
  }

  /** The field holds the decimal result, with the carry for what is lost at the top. */
  ghost predicate IsDecimal(v: seq<int>, c: int, result: int)
  {
    Below(v, DEC) && Value(v, DEC) + c * Pow(DEC, |v|) == result
  }

  /** In decimal mode a constant addition is the decimal sum exactly when the low digit absorbs it. */
  lemma ConstantAddIsHex(a: seq<int>, val: int)
    requires a != [] && Below(a, DEC) && 1 <= val <= 16
    ensures var (v, c) := RippleUp(a, val, HEX);
            IsDecimal(v, c, Value(a, DEC) + val) <==> a[0] + val < 10
    ensures RippleUp(a, val, HEX) == RippleUp(a, val, DEC) <==> a[0] + val < 10
  {
    RippleUpOne(a, val, HEX);
    RippleUpOne(a, val, DEC);
    var (v, c) := RippleUp(a, val, HEX);
    if a[0] + val < 16 {
      RippleUpStops(a, val, HEX, 1);
      if a[0] + val < 10 { RippleUpStops(a, val, DEC, 1); }
      LowDigitValue(a, a[0] + val, DEC);
      assert v == [a[0] + val] + a[1..] && v[0] == a[0] + val;
    } else {
      HexCarryTells(a, val);
    }
  }

  /** A carry in base 16 leaves the decimal number six short. */
  lemma HexCarryTells(a: seq<int>, val: int)
    requires a != [] && Below(a, DEC) && val <= 16 <= a[0] + val
    ensures var (v, c) := RippleUp(a, val, HEX); Value(v, DEC) + c * Pow(DEC, |v|) == Value(a, DEC) + val - 6
  {
    RippleUpOne(a, val, HEX);
    var (v, c) := RippleUp(a, val, HEX);
    if |a| == 1 {
      assert a[..1] == a && a[1..] == [] && v == [a[0] + val - 16] + a[1..] && Pow(DEC, 1) == 10;
      LowDigitValue(a, a[0] + val - 16, DEC);
    } else {
      RippleUpNext(a, val, HEX, 1);
      RippleUpStops(a, val, HEX, 2);
      assert v == [a[0] + val - 16, a[1] + 1] + a[2..];
      TwoDigitValue(a, a[0] + val - 16, a[1] + 1, DEC);
    }
  }

  /** In decimal mode a constant subtraction is the decimal difference exactly when the low digit covers it. */
  lemma ConstantSubIsHex(a: seq<int>, val: int)
    requires a != [] && Below(a, DEC) && 1 <= val <= 16
    ensures var (v, c) := RippleDown(a, val, HEX);
            IsDecimal(v, -c, Value(a, DEC) - val) <==> val <= a[0]
    ensures val <= 10 ==> (RippleDown(a, val, HEX) == RippleDown(a, val, DEC) <==> val <= a[0])
  {
    RippleDownOne(a, val, HEX);
    RippleDownOne(a, val, DEC);
    var (v, c) := RippleDown(a, val, HEX);
    if val <= a[0] {
      RippleDownStops(a, val, HEX, 1);
      RippleDownStops(a, val, DEC, 1);
      LowDigitValue(a, a[0] - val, DEC);
      assert v == [a[0] - val] + a[1..];
    } else {
      HexBorrowTells(a, val);
    }
  }

  /** A borrow in base 16 leaves a digit that is not decimal, or the decimal number six too large. */
  lemma HexBorrowTells(a: seq<int>, val: int)
    requires a != [] && Below(a, DEC) && a[0] < val <= 16
    ensures var (v, c) := RippleDown(a, val, HEX);
            Below(v, DEC) ==> Value(v, DEC) - c * Pow(DEC, |v|) == Value(a, DEC) - val + 6
  {
    RippleDownOne(a, val, HEX);
    var (v, c) := RippleDown(a, val, HEX);
    if |a| == 1 {
      assert a[..1] == a && a[1..] == [] && v == [a[0] - val + 16] + a[1..] && Pow(DEC, 1) == 10;
      LowDigitValue(a, a[0] - val + 16, DEC);
    } else {
      RippleDownNext(a, val, HEX, 1);
      if a[1] == 0 {
        RippleDownPrefix(a, val, HEX, 2);
        assert v[..2][1] == 15;
      } else {
        RippleDownStops(a, val, HEX, 2);
        assert v == [a[0] - val + 16, a[1] - 1] + a[2..];
        TwoDigitValue(a, a[0] - val + 16, a[1] - 1, DEC);
      }
    }
  }
}
