/**
 The register unit: digit loops that run in place over a field of a register, where the
 destination may be one of the operands or both.  Each operation is proved equal to the
 function of the field's digits that `Fields` defines, and to leave every other digit alone.
 */
module Register {
  import opened Digits
  import opened Fields

  /** A top-down computation that still has `rest` to put below what is `done`. */
  ghost predicate ToDoBelow(full: (seq<int>, int), rest: (seq<int>, int), done: seq<int>)
  {
    full.0 == rest.0 + done && full.1 == rest.1
  }

  class Alu {
    var P: nat
    var CARRY: int
    var SB: int
    var hexmode: nat

    constructor ()
      ensures P == 0 && CARRY == 0 && SB == 0 && hexmode == HEX
    {
      P, CARRY, SB, hexmode := 0, 0, 0, HEX;
    }

    /** The field lies inside the register. */
    ghost predicate Fits(r: array<int>, code: nat)
      reads this`P
    {
      P < 16 && code < 19 && GetEnd(P, code) < r.Length
    }

    method AddRegister(res: array<int>, r1: array<int>, r2: array<int>, code: nat)
      requires Fits(res, code) && Fits(r1, code) && Fits(r2, code)
      modifies this`CARRY, res
      ensures var (sum, out) := AddDigits(old(Field(r1[..], P, code)), old(Field(r2[..], P, code)), hexmode);
              res[..] == Patch(old(res[..]), GetStart(P, code), sum) && CARRY == out
    {
      var c := AddLoop(res, r1, r2, GetStart(P, code), GetEnd(P, code) + 1, hexmode);
      WroteIsPatch(res, old(res[..]), GetStart(P, code), GetEnd(P, code) + 1,
                   AddDigits(old(Field(r1[..], P, code)), old(Field(r2[..], P, code)), hexmode).0);
      CARRY := if c != 0 then 1 else 0;
    }

    static method AddLoop(res: array<int>, r1: array<int>, r2: array<int>, s: nat, e: nat, base: nat)
      returns (c: int)
      requires s <= e && e <= res.Length && e <= r1.Length && e <= r2.Length
      modifies res
      ensures var (sum, out) := AddDigits(old(r1[..])[s..e], old(r2[..])[s..e], base);
              Wrote(res, old(res[..]), s, e, sum) && c == out && 0 <= c <= 1
    {
      ghost var x, y, z, done := r1[..][s..e], r2[..][s..e], res[..], [];
      c := 0;
      for i := s to e
        invariant forall k :: i <= k < e ==> r1[k] == x[k - s] && r2[k] == y[k - s]
        invariant Wrote(res, z, s, i, done)
        invariant (done, c) == AddDigits(x[..i - s], y[..i - s], base) && 0 <= c <= 1
      {
        assert x[..i + 1 - s][..i - s] == x[..i - s] && y[..i + 1 - s][..i - s] == y[..i - s];
        var t := r1[i] + r2[i] + c;
        if t < base {
          res[i] := Nib(t);
          c := 0;
        } else {
          res[i] := Nib(t - base);
          c := 1;
        }
        done := done + [res[i]];
      }
      assert x[..e - s] == x && y[..e - s] == y;
    }

    method SubRegister(res: array<int>, r1: array<int>, r2: array<int>, code: nat)
      requires Fits(res, code) && Fits(r1, code) && Fits(r2, code)
      modifies this`CARRY, res
      ensures var (diff, out) := SubDigits(old(Field(r1[..], P, code)), old(Field(r2[..], P, code)), hexmode);
              res[..] == Patch(old(res[..]), GetStart(P, code), diff) && CARRY == out
    {
      var c := SubLoop(res, r1, r2, GetStart(P, code), GetEnd(P, code) + 1, hexmode);
      WroteIsPatch(res, old(res[..]), GetStart(P, code), GetEnd(P, code) + 1,
                   SubDigits(old(Field(r1[..], P, code)), old(Field(r2[..], P, code)), hexmode).0);
      CARRY := if c != 0 then 1 else 0;
    }

    static method SubLoop(res: array<int>, r1: array<int>, r2: array<int>, s: nat, e: nat, base: nat)
      returns (c: int)
      requires s <= e && e <= res.Length && e <= r1.Length && e <= r2.Length
      modifies res
      ensures var (diff, out) := SubDigits(old(r1[..])[s..e], old(r2[..])[s..e], base);
              Wrote(res, old(res[..]), s, e, diff) && c == out && 0 <= c <= 1
    {
      ghost var x, y, z, done := r1[..][s..e], r2[..][s..e], res[..], [];
      c := 0;
      for i := s to e
        invariant forall k :: i <= k < e ==> r1[k] == x[k - s] && r2[k] == y[k - s]
        invariant Wrote(res, z, s, i, done)
        invariant (done, c) == SubDigits(x[..i - s], y[..i - s], base) && 0 <= c <= 1
      {
        assert x[..i + 1 - s][..i - s] == x[..i - s] && y[..i + 1 - s][..i - s] == y[..i - s];
        var t := r1[i] - r2[i] - c;
        if t >= 0 {
          res[i] := Nib(t);
          c := 0;
        } else {
          res[i] := Nib(t + base);
          c := 1;
        }
        done := done + [res[i]];
      }
      assert x[..e - s] == x && y[..e - s] == y;
    }

    /** -r */
    method Complement2Register(r: array<int>, code: nat)
      requires Fits(r, code)
      modifies this`CARRY, r
      ensures var (neg, _, sum) := NegDigits(old(Field(r[..], P, code)), hexmode);
              r[..] == Patch(old(r[..]), GetStart(P, code), neg) && CARRY == if sum != 0 then 1 else 0
    {
      var carry := NegLoop(r, GetStart(P, code), GetEnd(P, code) + 1, hexmode);
      WroteIsPatch(r, old(r[..]), GetStart(P, code), GetEnd(P, code) + 1,
                   NegDigits(old(Field(r[..], P, code)), hexmode).0);
      CARRY := if carry != 0 then 1 else 0;
    }

    static method NegLoop(r: array<int>, s: nat, e: nat, base: nat) returns (carry: int)
      requires s <= e <= r.Length
      modifies r
      ensures var (neg, _, sum) := NegDigits(old(r[..])[s..e], base);
              Wrote(r, old(r[..]), s, e, neg) && carry == sum
    {
      ghost var x, z, done := r[..][s..e], r[..], [];
      var c := 1;
      carry := 0;
      for i := s to e
        invariant Wrote(r, z, s, i, done)
        invariant (done, c, carry) == NegDigits(x[..i - s], base)
      {
        assert x[..i + 1 - s][..i - s] == x[..i - s];
        var t := base - 1 - r[i] + c;
        if t < base {
          r[i] := Nib(t);
          c := 0;
        } else {
          r[i] := Nib(t - base);
          c := 1;
        }
        carry := carry + r[i];
        done := done + [r[i]];
      }
      assert x[..e - s] == x;
    }

    /** -r-1 */
    method Complement1Register(r: array<int>, code: nat)
      requires Fits(r, code)
      modifies this`CARRY, r
      ensures r[..] == Patch(old(r[..]), GetStart(P, code), NotDigits(old(Field(r[..], P, code)), hexmode))
      ensures CARRY == 0
    {
      NotLoop(r, GetStart(P, code), GetEnd(P, code) + 1, hexmode);
      WroteIsPatch(r, old(r[..]), GetStart(P, code), GetEnd(P, code) + 1,
                   NotDigits(old(Field(r[..], P, code)), hexmode));
      CARRY := 0;
    }

    static method NotLoop(r: array<int>, s: nat, e: nat, base: nat)
      requires s <= e <= r.Length
      modifies r
      ensures Wrote(r, old(r[..]), s, e, NotDigits(old(r[..])[s..e], base))
    {
      ghost var x, z, done := r[..][s..e], r[..], [];
      for i := s to e
        invariant Wrote(r, z, s, i, done)
        invariant done == NotDigits(x[..i - s], base)
      {
        assert x[..i + 1 - s][..i - s] == x[..i - s];
        r[i] := Nib(base - 1 - r[i]);
        done := done + [r[i]];
      }
      assert x[..e - s] == x;
    }

    method IncRegister(r: array<int>, code: nat)
      requires Fits(r, code)
      modifies this`CARRY, r
      ensures var (sum, out) := RippleUp(old(Field(r[..], P, code)), 1, hexmode);
              r[..] == Patch(old(r[..]), GetStart(P, code), sum) && CARRY == if out != 0 then 1 else 0
    {
      var c := UpLoop(r, GetStart(P, code), GetEnd(P, code) + 1, 1, hexmode);
      WroteIsPatch(r, old(r[..]), GetStart(P, code), GetEnd(P, code) + 1,
                   RippleUp(old(Field(r[..], P, code)), 1, hexmode).0);
      CARRY := if c != 0 then 1 else 0;
    }

    /** Constant addition: hexadecimal whatever the mode. */
    method AddRegisterConstant(r: array<int>, code: nat, val: int)
      requires Fits(r, code) && 1 <= val <= 16
      modifies this`CARRY, r
      ensures var (sum, out) := RippleUp(old(Field(r[..], P, code)), val, HEX);
              r[..] == Patch(old(r[..]), GetStart(P, code), sum) && CARRY == if out != 0 then 1 else 0
    {
      var c := UpLoop(r, GetStart(P, code), GetEnd(P, code) + 1, val, HEX);
      WroteIsPatch(r, old(r[..]), GetStart(P, code), GetEnd(P, code) + 1,
                   RippleUp(old(Field(r[..], P, code)), val, HEX).0);
      CARRY := if c != 0 then 1 else 0;
    }

    /** One digit of a run that is being written. */
    static method Put(r: array<int>, i: nat, v: int, ghost z: seq<int>, ghost s: nat, ghost done: seq<int>)
      requires i < r.Length && s <= i && Wrote(r, z, s, i, done)
      modifies r
      ensures Wrote(r, z, s, i + 1, done + [v])
    {
      r[i] := v;
    }

    static lemma Unwritten(r: array<int>, z: seq<int>, s: nat, i: nat, done: seq<int>)
      requires i < r.Length && Wrote(r, z, s, i, done)
      ensures |z| == r.Length && r[i] == z[i]
    {
    }

    /** After the early exit the rest of the field counts as written. */
    static lemma UpStopped(r: array<int>, z: seq<int>, s: nat, i: nat, e: nat, val: int, base: nat, done: seq<int>)
      requires s <= i <= e <= r.Length && Wrote(r, z, s, i, done)
      requires RippleUp(z[s..e][..i - s], val, base) == (done, 0)
      ensures Wrote(r, z, s, e, RippleUp(z[s..e], val, base).0) && RippleUp(z[s..e], val, base).1 == 0
    {
      hide RippleUp;
      RippleUpStops(z[s..e], val, base, i - s);
      WroteRest(r, z, s, i, e, done);
    }

    /** One more digit of an addition whose carry is set. */
    static lemma UpNext(x: seq<int>, val: int, base: nat, k: nat, done: seq<int>, c: int)
      requires k < |x| && c != 0 && (done, c) == RippleUp(x[..k], val, base)
      ensures var t := x[k] + c;
              RippleUp(x[..k + 1], val, base) ==
                if t < base then (done + [Nib(t)], 0) else (done + [Nib(t - base)], 1)
    {
      RippleUpNext(x, val, base, k);
    }

    /** The loop of increment and constant addition; it stops at the first clear carry. */
    static method UpLoop(r: array<int>, s: nat, e: nat, val: int, base: nat) returns (c: int)
      requires s <= e <= r.Length && val > 0
      modifies r
      ensures var (sum, out) := RippleUp(old(r[..])[s..e], val, base);
              Wrote(r, old(r[..]), s, e, sum) && c == out
    {
      ghost var x, z, done := r[..][s..e], r[..], [];
      assert RippleUp([], val, base) == ([], val) && x[..0] == [] && x[..e - s] == x && Wrote(r, z, s, s, []);
      hide RippleUp, Wrote, Nib;
      c := val;
      var i := s;
      while i < e
        invariant s <= i <= e && c != 0 && Wrote(r, z, s, i, done)
        invariant (done, c) == RippleUp(x[..i - s], val, base)
      {
        UpNext(x, val, base, i - s, done, c);
        UnwrittenField(r, z, s, i, e, done);
        var t := r[i] + c;
        if t < base {
          Put(r, i, Nib(t), z, s, done);
          UpStopped(r, z, s, i + 1, e, val, base, done + [Nib(t)]);
          return 0;
        }
        Put(r, i, Nib(t - base), z, s, done);
        c := 1;
        done := done + [Nib(t - base)];
        i := i + 1;
      }
    }

    method DecRegister(r: array<int>, code: nat)
      requires Fits(r, code)
      modifies this`CARRY, r
      ensures var (diff, out) := RippleDown(old(Field(r[..], P, code)), 1, hexmode);
              r[..] == Patch(old(r[..]), GetStart(P, code), diff) && CARRY == if out != 0 then 1 else 0
    {
      var c := DownLoop(r, GetStart(P, code), GetEnd(P, code) + 1, 1, hexmode);
      WroteIsPatch(r, old(r[..]), GetStart(P, code), GetEnd(P, code) + 1,
                   RippleDown(old(Field(r[..], P, code)), 1, hexmode).0);
      CARRY := if c != 0 then 1 else 0;
    }

    method SubRegisterConstant(r: array<int>, code: nat, val: int)
      requires Fits(r, code) && 1 <= val <= 16
      modifies this`CARRY, r
      ensures var (diff, out) := RippleDown(old(Field(r[..], P, code)), val, HEX);
              r[..] == Patch(old(r[..]), GetStart(P, code), diff) && CARRY == if out != 0 then 1 else 0
    {
      var c := DownLoop(r, GetStart(P, code), GetEnd(P, code) + 1, val, HEX);
      WroteIsPatch(r, old(r[..]), GetStart(P, code), GetEnd(P, code) + 1,
                   RippleDown(old(Field(r[..], P, code)), val, HEX).0);
      CARRY := if c != 0 then 1 else 0;
    }

    /** After the early exit the rest of the field counts as written. */
    static lemma DownStopped(r: array<int>, z: seq<int>, s: nat, i: nat, e: nat, val: int, base: nat, done: seq<int>)
      requires s <= i <= e <= r.Length && Wrote(r, z, s, i, done)
      requires RippleDown(z[s..e][..i - s], val, base) == (done, 0)
      ensures Wrote(r, z, s, e, RippleDown(z[s..e], val, base).0) && RippleDown(z[s..e], val, base).1 == 0
    {
      hide RippleDown;
      RippleDownStops(z[s..e], val, base, i - s);
      WroteRest(r, z, s, i, e, done);
    }

    /** One more digit of a subtraction whose borrow is set. */
    static lemma UnwrittenField(r: array<int>, z: seq<int>, s: nat, i: nat, e: nat, done: seq<int>)
      requires s <= i < e <= r.Length && Wrote(r, z, s, i, done)
      ensures e <= |z| && r[i] == z[s..e][i - s]
    {
    }

    static lemma DownNext(x: seq<int>, val: int, base: nat, k: nat, done: seq<int>, c: int)
      requires k < |x| && c != 0 && (done, c) == RippleDown(x[..k], val, base)
      ensures var t := x[k] - c;
              RippleDown(x[..k + 1], val, base) ==
                if t >= 0 then (done + [Nib(t)], 0) else (done + [Nib(t + base)], 1)
    {
      RippleDownNext(x, val, base, k);
    }

    static method DownLoop(r: array<int>, s: nat, e: nat, val: int, base: nat) returns (c: int)
      requires s <= e <= r.Length && val > 0
      modifies r
      ensures var (diff, out) := RippleDown(old(r[..])[s..e], val, base);
              Wrote(r, old(r[..]), s, e, diff) && c == out
    {
      ghost var x, z, done := r[..][s..e], r[..], [];
      assert RippleDown([], val, base) == ([], val) && x[..0] == [] && x[..e - s] == x && Wrote(r, z, s, s, []);
      hide RippleDown, Wrote, Nib;
      c := val;
      var i := s;
      while i < e
        invariant s <= i <= e && c != 0 && Wrote(r, z, s, i, done)
        invariant (done, c) == RippleDown(x[..i - s], val, base)
      {
        DownNext(x, val, base, i - s, done, c);
        UnwrittenField(r, z, s, i, e, done);
        var t := r[i] - c;
        if t >= 0 {
          Put(r, i, Nib(t), z, s, done);
          DownStopped(r, z, s, i + 1, e, val, base, done + [Nib(t)]);
          return 0;
        }
        Put(r, i, Nib(t + base), z, s, done);
        c := 1;
        done := done + [Nib(t + base)];
        i := i + 1;
      }
    }

    /** C+P+1: hexadecimal, over the address field, carrying P+1 into the low nibble. */
    method AddPPlusOne(r: array<int>)
      requires P < 16 && 5 <= r.Length && Below(r[..5], 16)
      modifies this`CARRY, r
      ensures var (sum, out) := RippleUp(old(r[..])[..5], P + 1, HEX);
              r[..] == Patch(old(r[..]), 0, sum) && CARRY == if out != 0 then 1 else 0
    {
      ghost var x, z, done := r[..][..5], r[..], [];
      var c := P + 1;
      for i := 0 to 5
        invariant Wrote(r, z, 0, i, done)
        invariant (done, c) == RippleUp(x[..i], P + 1, HEX)
      {
        assert x[..i + 1][..i] == x[..i] && 0 <= x[i] < 16;
        var t := r[i] + c;
        if t < 16 {
          r[i] := Nib(t);
          c := 0;
        } else {
          r[i] := Nib(t - 16);
          c := 1;
        }
        done := done + [r[i]];
      }
      assert x[..5] == x;
      WroteIsPatch(r, z, 0, 5, done);
      CARRY := if c != 0 then 1 else 0;
    }

    // ---------------------------------------------------------------- shifts

    method ShiftLeftRegister(r: array<int>, code: nat, circ: bool)
      requires Fits(r, code) && Below(r[..], 16)
      modifies r
      ensures var f := old(Field(r[..], P, code));
              r[..] == Patch(old(r[..]), GetStart(P, code), ShiftLeft(f, if circ then f[|f| - 1] else 0))
    {
      hide ShiftLeft, GetStart, GetEnd;
      LeftLoop(r, GetStart(P, code), GetEnd(P, code), circ);
      WroteIsPatch(r, old(r[..]), GetStart(P, code), GetEnd(P, code) + 1, Field(r[..], P, code));
    }

    static method LeftLoop(r: array<int>, s: nat, e: nat, circ: bool)
      requires s <= e < r.Length && Below(r[..], 16)
      modifies r
      ensures var x := old(r[..]);
              Wrote(r, x, s, e + 1, ShiftLeft(x[s..e + 1], if circ then x[e] else 0))
    {
      ghost var x := r[..];
      var t := if circ then Nib(r[e]) else 0;
      var i := e;
      while i > s
        invariant s <= i <= e
        invariant forall k :: 0 <= k < r.Length && (k <= i || e < k) ==> r[k] == x[k]
        invariant forall k :: i < k <= e ==> r[k] == x[k - 1]
      {
        r[i] := Nib(r[i - 1]);
        assert r[i] == x[i - 1];
        i := i - 1;
      }
      r[s] := t;
    }

    method ShiftRightRegister(r: array<int>, code: nat, circ: bool)
      requires Fits(r, code) && Below(r[..], 16)
      modifies this`SB, r
      ensures var f := old(Field(r[..], P, code));
              r[..] == Patch(old(r[..]), GetStart(P, code), ShiftRight(f, if circ then f[0] else 0)) &&
              SB == (if f[0] != 0 then 1 else old(SB))
    {
      var s, e := GetStart(P, code), GetEnd(P, code);
      ghost var x := r[..];
      ghost var f := x[s..e + 1];
      assert f[0] == x[s];
      var t := RightLoop(r, s, e, circ);
      WroteIsPatch(r, x, s, e + 1, ShiftRight(f, if circ then f[0] else 0));
      if t != 0 { SB := 1; }
    }

    static method RightLoop(r: array<int>, s: nat, e: nat, circ: bool) returns (t: int)
      requires s <= e < r.Length && Below(r[..], 16)
      modifies r
      ensures var x := old(r[..]);
              Wrote(r, x, s, e + 1, ShiftRight(x[s..e + 1], if circ then x[s] else 0)) && t == x[s]
    {
      ghost var x := r[..];
      t := Nib(r[s]);
      for i := s to e
        invariant forall k :: 0 <= k < r.Length && (k < s || i <= k) ==> r[k] == x[k]
        invariant forall k :: s <= k < i ==> r[k] == x[k + 1]
      {
        r[i] := Nib(r[i + 1]);
        assert r[i] == x[i + 1];
      }
      r[e] := if circ then t else 0;
    }

    method ShiftRightBitRegister(r: array<int>, code: nat)
      requires Fits(r, code) && Below(r[..], 16)
      modifies this`SB, r
      ensures var (shifted, out) := ShiftRightBit(old(Field(r[..], P, code)), 0);
              r[..] == Patch(old(r[..]), GetStart(P, code), shifted) &&
              SB == (if out != 0 then 1 else old(SB))
    {
      var sb := BitLoop(r, GetStart(P, code), GetEnd(P, code));
      WroteIsPatch(r, old(r[..]), GetStart(P, code), GetEnd(P, code) + 1,
                   ShiftRightBit(old(Field(r[..], P, code)), 0).0);
      if sb != 0 { SB := 1; }
    }

    static method PutBelow(r: array<int>, i: nat, v: int, ghost z: seq<int>, ghost e: nat, ghost done: seq<int>)
      requires i < r.Length && Wrote(r, z, i + 1, e, done)
      modifies r
      ensures Wrote(r, z, i, e, [v] + done)
    {
      r[i] := v;
    }

    static lemma UnwrittenBelow(r: array<int>, z: seq<int>, i: nat, e: nat, done: seq<int>)
      requires i < r.Length && Wrote(r, z, i + 1, e, done)
      ensures |z| == r.Length && r[i] == z[i]
    {
    }

    /** One more digit of a shift by a bit, from the top down. */
    static lemma BitNext(x: seq<int>, k: nat, sb: int, full: (seq<int>, int), done: seq<int>)
      requires k < |x| && ToDoBelow(full, ShiftRightBit(x[..k + 1], sb), done)
      ensures ToDoBelow(full, ShiftRightBit(x[..k], x[k] % 2), [x[k] / 2 + 8 * sb] + done)
    {
      assert x[..k + 1][..k] == x[..k];
    }

    static method BitLoop(r: array<int>, s: nat, e: nat) returns (sb: int)
      requires s <= e < r.Length
      modifies r
      ensures var (shifted, out) := ShiftRightBit(old(r[..])[s..e + 1], 0);
              Wrote(r, old(r[..]), s, e + 1, shifted) && sb == out
    {
      ghost var x, z, done := r[..][s..e + 1], r[..], [];
      ghost var full := ShiftRightBit(x, 0);
      var i := e;
      sb := 0;
      assert x[..e + 1 - s] == x && Wrote(r, z, e + 1, e + 1, done) && ToDoBelow(full, ShiftRightBit(x, 0), done);
      assert x[..0] == [] && forall b :: ShiftRightBit([], b) == ([], b);
      hide Wrote, ToDoBelow, ShiftRightBit;
      while i >= s
        invariant s - 1 <= i <= e && Wrote(r, z, i + 1, e + 1, done)
        invariant ToDoBelow(full, ShiftRightBit(x[..i + 1 - s], sb), done)
      {
        UnwrittenBelow(r, z, i, e + 1, done);
        BitNext(x, i - s, sb, full, done);
        var t := r[i] / 2 + 8 * sb;
        sb := r[i] % 2;
        PutBelow(r, i, t, z, e + 1, done);
        done := [t] + done;
        i := i - 1;
      }
      BitsDone(full, sb, done);
    }

    static lemma BitsDone(full: (seq<int>, int), sb: int, done: seq<int>)
      requires ToDoBelow(full, ([], sb), done)
      ensures full == (done, sb)
    {
      assert [] + done == done;
    }

    // -------------------------------------------------- logic, moves and tests

    /** and_register, or_register */
    method LogicRegister(or: bool, res: array<int>, r1: array<int>, r2: array<int>, code: nat)
      requires Fits(res, code) && Fits(r1, code) && Fits(r2, code)
      requires Below(Field(r1[..], P, code), 16) && Below(Field(r2[..], P, code), 16)
      modifies res
      ensures var z := old(MapNibs(or, Field(r1[..], P, code), Field(r2[..], P, code)));
              res[..] == Patch(old(res[..]), GetStart(P, code), z)
    {
      LogicLoop(or, res, r1, r2, GetStart(P, code), GetEnd(P, code) + 1);
      WroteIsPatch(res, old(res[..]), GetStart(P, code), GetEnd(P, code) + 1,
                   old(MapNibs(or, Field(r1[..], P, code), Field(r2[..], P, code))));
    }

    static method LogicLoop(or: bool, res: array<int>, r1: array<int>, r2: array<int>, s: nat, e: nat)
      requires s <= e && e <= res.Length && e <= r1.Length && e <= r2.Length
      requires Below(r1[..][s..e], 16) && Below(r2[..][s..e], 16)
      modifies res
      ensures Wrote(res, old(res[..]), s, e, old(MapNibs(or, r1[..][s..e], r2[..][s..e])))
    {
      ghost var x, y, z := r1[..][s..e], r2[..][s..e], res[..];
      ghost var full := MapNibs(or, x, y);
      for i := s to e
        invariant forall k :: i <= k < e ==> r1[k] == x[k - s] && r2[k] == y[k - s]
        invariant Wrote(res, z, s, i, full[..i - s])
      {
        assert r1[i] == x[i - s] && r2[i] == y[i - s];
        res[i] := NibOp(or, r1[i], r2[i]);
        assert full[..i + 1 - s] == full[..i - s] + [res[i]];
      }
      assert full[..e - s] == full;
    }

    /** copy_register; between two registers or of a register to itself */
    method CopyRegister(to: array<int>, from: array<int>, code: nat)
      requires Fits(to, code) && Fits(from, code)
      modifies to
      ensures to[..] == Patch(old(to[..]), GetStart(P, code), old(Field(from[..], P, code)))
    {
      var s, e := GetStart(P, code), GetEnd(P, code) + 1;
      ghost var x, z := from[..][s..e], to[..];
      for i := s to e
        invariant forall k :: i <= k < e ==> from[k] == x[k - s]
        invariant Wrote(to, z, s, i, x[..i - s])
      {
        to[i] := from[i];
        assert x[..i + 1 - s] == x[..i - s] + [to[i]];
      }
      assert x[..e - s] == x;
      WroteIsPatch(to, z, s, e, x);
    }

    /** `r` held `x` and has taken the elements of `y` from `s` up to `i`. */
    static ghost predicate Took(r: array<int>, x: seq<int>, y: seq<int>, s: nat, i: nat)
      reads r
    {
      r.Length == |x| && i <= |y| && forall k :: 0 <= k < r.Length ==> r[k] == if s <= k < i then y[k] else x[k]
    }

    static lemma Untaken(r: array<int>, y: seq<int>, s: nat)
      requires s <= |y|
      ensures Took(r, r[..], y, s, s)
    {
    }

    static lemma TookIsPatch(r: array<int>, x: seq<int>, y: seq<int>, s: nat, e: nat)
      requires Took(r, x, y, s, e) && s <= e <= |x|
      ensures r[..] == Patch(x, s, y[s..e])
    {
    }

    static method SwapAt(r1: array<int>, r2: array<int>, i: nat, ghost x: seq<int>, ghost y: seq<int>, ghost s: nat)
      requires r1 != r2 && s <= i < r1.Length && i < r2.Length && Took(r1, x, y, s, i) && Took(r2, y, x, s, i)
      modifies r1, r2
      ensures Took(r1, x, y, s, i + 1) && Took(r2, y, x, s, i + 1)
    {
      var t := r1[i];
      r1[i] := r2[i];
      r2[i] := t;
    }

    method ExchangeRegister(r1: array<int>, r2: array<int>, code: nat)
      requires Fits(r1, code) && Fits(r2, code) && r1 != r2
      modifies r1, r2
      ensures r1[..] == Patch(old(r1[..]), GetStart(P, code), old(Field(r2[..], P, code)))
      ensures r2[..] == Patch(old(r2[..]), GetStart(P, code), old(Field(r1[..], P, code)))
    {
      var s, e := GetStart(P, code), GetEnd(P, code) + 1;
      ghost var x, y := r1[..], r2[..];
      hide Took;
      Untaken(r1, y, s);
      Untaken(r2, x, s);
      for i := s to e
        invariant Took(r1, x, y, s, i) && Took(r2, y, x, s, i)
      {
        SwapAt(r1, r2, i, x, y, s);
      }
      TookIsPatch(r1, x, y, s, e);
      TookIsPatch(r2, y, x, s, e);
    }

    method ZeroRegister(r: array<int>, code: nat)
      requires Fits(r, code)
      modifies r
      ensures r[..] == Patch(old(r[..]), GetStart(P, code), Zeros(|Field(r[..], P, code)|))
    {
      var s, e := GetStart(P, code), GetEnd(P, code) + 1;
      for i := s to e
        invariant forall k :: 0 <= k < r.Length ==> r[k] == if s <= k < i then 0 else old(r[k])
      {
        r[i] := 0;
      }
    }

    /** is_zero_register, and its complement is_not_zero_register: the number in the field is 0. */
    method IsZeroRegister(r: array<int>, code: nat) returns (z: int)
      requires Fits(r, code) && Below(Field(r[..], P, code), 16)
      ensures z == if Value(Field(r[..], P, code), 16) == 0 then 1 else 0
    {
      var s, e := GetStart(P, code), GetEnd(P, code) + 1;
      ghost var f := Field(r[..], P, code);
      ZeroValue(f, 16);
      for i := s to e
        invariant forall k :: s <= k < i ==> r[k] == 0
      {
        if r[i] != 0 {
          assert f[i - s] != 0;
          return 0;
        }
      }
      return 1;
    }

    /** is_equal_register, and its complement is_not_equal_register: the numbers are equal. */
    method IsEqualRegister(r1: array<int>, r2: array<int>, code: nat) returns (z: int)
      requires Fits(r1, code) && Fits(r2, code)
      requires Below(Field(r1[..], P, code), 16) && Below(Field(r2[..], P, code), 16)
      ensures z == if Value(Field(r1[..], P, code), 16) == Value(Field(r2[..], P, code), 16) then 1 else 0
    {
      var s, e := GetStart(P, code), GetEnd(P, code) + 1;
      ghost var f, g := r1[s..e], r2[s..e];
      assert Field(r1[..], P, code) == f && Field(r2[..], P, code) == g;
      hide Field, Below, GetStart, GetEnd, Value;
      for i := s to e
        invariant forall k :: s <= k < i ==> r1[k] == r2[k]
      {
        if r1[i] != r2[i] {
          assert f[i - s] == r1[i] && g[i - s] == r2[i];
          if Value(f, 16) == Value(g, 16) { ValueInjective(f, g, 16); }
          return 0;
        }
      }
      assert f == g;
      return 1;
    }

    // ----------------------------------------------------------- comparisons

    /** ?r1<r2 */
    method IsLessRegister(r1: array<int>, r2: array<int>, code: nat) returns (z: int)
      requires Fits(r1, code) && Fits(r2, code)
      ensures z == if Compare(Field(r1[..], P, code), Field(r2[..], P, code)) < 0 then 1 else 0
    {
      z := TopDown(r1, r2, code, 1, 0, 0);
    }

    static lemma DropLast(d: seq<int>, s: nat, i: nat)
      requires s <= i < |d|
      ensures d[s..i + 1][..i - s] == d[s..i]
    {
    }

    method IsLessOrEqualRegister(r1: array<int>, r2: array<int>, code: nat) returns (z: int)
      requires Fits(r1, code) && Fits(r2, code)
      ensures z == if Compare(Field(r1[..], P, code), Field(r2[..], P, code)) <= 0 then 1 else 0
    {
      z := TopDown(r1, r2, code, 1, 0, 1);
    }

    method IsGreaterRegister(r1: array<int>, r2: array<int>, code: nat) returns (z: int)
      requires Fits(r1, code) && Fits(r2, code)
      ensures z == if Compare(Field(r1[..], P, code), Field(r2[..], P, code)) > 0 then 1 else 0
    {
      z := TopDown(r1, r2, code, 0, 1, 0);
    }

    method IsGreaterOrEqualRegister(r1: array<int>, r2: array<int>, code: nat) returns (z: int)
      requires Fits(r1, code) && Fits(r2, code)
      ensures z == if Compare(Field(r1[..], P, code), Field(r2[..], P, code)) >= 0 then 1 else 0
    {
      z := TopDown(r1, r2, code, 0, 1, 1);
    }

    /** The loop of the four orders: its answer on a lower, a higher and no differing digit. */
    method TopDown(r1: array<int>, r2: array<int>, code: nat, less: int, greater: int, equal: int)
      returns (z: int)
      requires Fits(r1, code) && Fits(r2, code)
      ensures var c := Compare(Field(r1[..], P, code), Field(r2[..], P, code));
              z == if c < 0 then less else if c > 0 then greater else equal
    {
      var s, e := GetStart(P, code), GetEnd(P, code);
      z := equal;
      var i := e;
      while i >= s
        invariant s - 1 <= i <= e
        invariant Compare(r1[..][s..e + 1], r2[..][s..e + 1]) == Compare(r1[..][s..i + 1], r2[..][s..i + 1])
      {
        DropLast(r1[..], s, i);
        DropLast(r2[..], s, i);
        if r1[i] < r2[i] { return less; }
        if r1[i] > r2[i] { return greater; }
        i := i - 1;
      }
    }
  }
}
