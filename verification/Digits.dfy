/**
 Little-endian digit strings: the form in which the Saturn keeps numbers in its
 registers and its memory.  Element 0 is the least significant digit.
 */
module Digits {
  function Max(a: int, b: int): int { if a < b then b else a }

  function Pow(base: nat, n: nat): nat
  {
    if n == 0 then 1 else base * Pow(base, n - 1)
  }

  /** The number a digit string denotes. */
  function Value(d: seq<int>, base: nat): int
  {
    if d == [] then 0 else d[0] + base * Value(d[1..], base)
  }

  /** Every digit lies in [0, bound). */
  ghost predicate Below(d: seq<int>, bound: int)
  {
    forall i :: 0 <= i < |d| ==> 0 <= d[i] < bound
  }

  /** `old` with the digits of `mid` written from position `s` on. */
  function Patch(old_: seq<int>, s: nat, mid: seq<int>): (r: seq<int>)
    requires s + |mid| <= |old_|
    ensures |r| == |old_|
  {
    old_[..s] + mid + old_[s + |mid|..]
  }

  /** The same, said position by position of an array. */
  ghost predicate Wrote(r: array<int>, old_: seq<int>, s: nat, e: nat, mid: seq<int>)
    reads r
  {
    s <= e <= r.Length == |old_| && |mid| == e - s &&
    (forall k :: s <= k < e ==> r[k] == mid[k - s]) &&
    forall k :: 0 <= k < r.Length && !(s <= k < e) ==> r[k] == old_[k]
  }

  lemma WroteIsPatch(r: array<int>, old_: seq<int>, s: nat, e: nat, mid: seq<int>)
    requires Wrote(r, old_, s, e, mid)
    ensures r[..] == Patch(old_, s, mid)
  {
  }

  /** Positions left alone count as written with what they held. */
  lemma WroteRest(r: array<int>, old_: seq<int>, s: nat, i: nat, e: nat, mid: seq<int>)
    requires Wrote(r, old_, s, i, mid) && i <= e <= r.Length
    ensures Wrote(r, old_, s, e, mid + old_[s..e][i - s..])
  {
  }

  // ---- the few products the positional proofs need, each in a context of its own

  lemma MulMono(a: int, x: int, y: int)
    requires 0 <= a && x <= y
    ensures a * x <= a * y
  {
    assert 0 <= a * (y - x);
  }

  /** One column of a positional sum: `u` is split into digit and carry, the rest already adds up. */
  lemma Column(base: int, u: int, d: int, k: int, v: int, w: int, out: int, p: int)
    requires u == d + base * k
    requires v + k == w + out * p
    ensures u + base * v == d + base * w + out * (base * p)
  {
    assert base * v + base * k == base * (v + k);
    assert base * (w + out * p) == base * w + base * (out * p);
    assert base * (out * p) == out * (base * p);
  }

  lemma {:induction false} PowPositive(base: nat, n: nat)
    requires 0 < base
    ensures 0 < Pow(base, n)
  {
    if n > 0 {
      PowPositive(base, n - 1);
      MulMono(base, 1, Pow(base, n - 1));
    }
  }

  lemma {:induction false} PowAdd(base: nat, m: nat, n: nat)
    ensures Pow(base, m + n) == Pow(base, m) * Pow(base, n)
  {
    if m > 0 {
      PowAdd(base, m - 1, n);
      Associate(base, Pow(base, m - 1), Pow(base, n));
    }
  }

  lemma Distribute(x: int, y: int, z: int)
    ensures x * (y + z) == x * y + x * z
  {
  }

  lemma Associate(x: int, y: int, z: int)
    ensures x * (y * z) == x * y * z
  {
  }

  lemma {:induction false} ValueBound(d: seq<int>, base: nat)
    requires 0 < base && Below(d, base)
    ensures 0 <= Value(d, base) < Pow(base, |d|)
  {
    if d != [] {
      ValueBound(d[1..], base);
      BoundStep(base, d[0], Value(d[1..], base), Pow(base, |d| - 1));
    }
  }

  lemma BoundStep(base: int, x: int, v: int, p: int)
    requires 0 <= x < base && 0 <= v < p
    ensures 0 <= x + base * v < base * p
  {
    MulMono(base, 0, v);
    MulMono(base, v, p - 1);
    assert base * (p - 1) == base * p - base;
  }

  lemma {:induction false} ValueAppend(a: seq<int>, b: seq<int>, base: nat)
    ensures Value(a + b, base) == Value(a, base) + Pow(base, |a|) * Value(b, base)
  {
    if a == [] {
      assert a + b == b;
    } else {
      assert (a + b)[1..] == a[1..] + b;
      ValueAppend(a[1..], b, base);
      Column(base, a[0], a[0], 0, Value(a[1..] + b, base), Value(a[1..], base),
             Value(b, base), Pow(base, |a| - 1));
    }
  }

  lemma ValueNone(base: nat)
    ensures Value([], base) == 0
  {
  }

  lemma ValueCons(x: int, d: seq<int>, base: nat)
    ensures Value([x] + d, base) == x + base * Value(d, base)
  {
    assert ([x] + d)[1..] == d;
  }

  lemma BelowCons(x: int, d: seq<int>, bound: int)
    ensures Below([x] + d, bound) <==> 0 <= x < bound && Below(d, bound)
  {
    if Below([x] + d, bound) {
      assert ([x] + d)[0] == x;
      forall i | 0 <= i < |d| ensures 0 <= d[i] < bound { assert d[i] == ([x] + d)[i + 1]; }
    }
  }

  lemma BelowSnoc(d: seq<int>, x: int, bound: int)
    ensures Below(d + [x], bound) <==> Below(d, bound) && 0 <= x < bound
  {
    if Below(d + [x], bound) {
      assert (d + [x])[|d|] == x;
      forall i | 0 <= i < |d| ensures 0 <= d[i] < bound { assert d[i] == (d + [x])[i]; }
    }
  }

  lemma {:induction false} ZeroValue(d: seq<int>, base: nat)
    requires 0 < base && Below(d, base)
    ensures Value(d, base) == 0 <==> Below(d, 1)
  {
    if d != [] {
      ZeroValue(d[1..], base);
      ValueBound(d[1..], base);
      if Value(d[1..], base) > 0 { MulMono(base, 1, Value(d[1..], base)); }
    }
  }

  lemma ValueSnoc(d: seq<int>, x: int, base: nat)
    ensures Value(d + [x], base) == Value(d, base) + Pow(base, |d|) * x
  {
    ValueAppend(d, [x], base);
    ValueCons(x, [], base);
    assert [x] + [] == [x];
  }

  /** The value of a string split at its top digit. */
  lemma ValueLast(a: seq<int>, base: nat)
    requires a != []
    ensures Value(a, base) == Value(a[..|a| - 1], base) + Pow(base, |a| - 1) * a[|a| - 1]
  {
    var n := |a| - 1;
    assert a == a[..n] + [a[n]];
    ValueSnoc(a[..n], a[n], base);
  }

  lemma DigitUnique(base: int, x: int, y: int, v: int, w: int)
    requires 0 <= x < base && 0 <= y < base && x + base * v == y + base * w
    ensures x == y && v == w
  {
    assert base * (v - w) == base * v - base * w;
    if v < w { MulMono(base, v - w, -1); }
    if w < v { MulMono(base, 1, v - w); }
  }

  /** A number below base^n has exactly one digit string of length n. */
  lemma {:induction false} ValueInjective(a: seq<int>, b: seq<int>, base: nat)
    requires 0 < base && |a| == |b| && Below(a, base) && Below(b, base)
    requires Value(a, base) == Value(b, base)
    ensures a == b
  {
    if a != [] {
      DigitUnique(base, a[0], b[0], Value(a[1..], base), Value(b[1..], base));
      ValueInjective(a[1..], b[1..], base);
      assert a == [a[0]] + a[1..] && b == [b[0]] + b[1..];
    }
  }

  /** The low n digits of v. */
  function Split(v: int, base: nat, n: nat): (r: seq<int>)
    requires 0 < base
    ensures |r| == n
    decreases n
  {
    if n == 0 then [] else [v % base] + Split(v / base, base, n - 1)
  }

  lemma SplitNone(v: int, base: nat)
    requires 0 < base
    ensures Split(v, base, 0) == []
  {
  }

  lemma SplitNext(done: seq<int>, v: int, base: nat, n: nat)
    requires 0 < base && 0 < n
    ensures done + Split(v, base, n) == done + [v % base] + Split(v / base, base, n - 1)
  {
  }

  lemma {:induction false} SplitBelow(v: int, base: nat, n: nat)
    requires 0 < base
    ensures Below(Split(v, base, n), base)
    decreases n
  {
    if n > 0 {
      SplitBelow(v / base, base, n - 1);
      BelowCons(v % base, Split(v / base, base, n - 1), base);
    }
  }

  lemma QuotientBelow(v: int, base: int, p: int)
    requires 0 < base && 0 <= v < base * p
    ensures 0 <= v / base < p && v == base * (v / base) + v % base
  {
    var q := v / base;
    assert v == base * q + v % base;
    if q < 0 { MulMono(base, q, -1); }
    if q >= p { MulMono(base, p, q); }
  }

  lemma {:induction false} SplitExact(v: int, base: nat, n: nat)
    requires 0 < base && 0 <= v < Pow(base, n)
    ensures Value(Split(v, base, n), base) == v
    decreases n
  {
    if n > 0 {
      var q := v / base;
      QuotientBelow(v, base, Pow(base, n - 1));
      SplitExact(q, base, n - 1);
      ValueCons(v % base, Split(q, base, n - 1), base);
    }
  }
}