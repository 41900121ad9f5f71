/**
 Laws of short programs: which instructions undo each other, what a test finds after an
 instruction, and what no instruction changes.
 */
module Laws {
  import opened Digits
  import opened Fields
  import opened Memory
  import opened ReturnStack
  import opened Interrupts
  import opened Instructions
  import opened Machine
  import opened Step

  // ------------------------------------------------------------- fields put and taken

  lemma FieldOfPatch(r: seq<int>, s: nat, v: seq<int>)
    requires s + |v| <= |r|
    ensures Patch(r, s, v)[s..s + |v|] == v
    ensures forall w: seq<int> :: |w| == |v| ==> Patch(Patch(r, s, v), s, w) == Patch(r, s, w)
    ensures Patch(r, s, r[s..s + |v|]) == r
  {
  }

  /** A field that has been set reads back, setting it again forgets the first, and setting it to itself is nothing. */
  lemma SetThenGet(c: Core, r: Reg, f: nat, v: seq<int>, w: seq<int>)
    requires CoreOk(c) && f < 19 && |v| == |w| == |FieldOf(c, r, f)|
    ensures var d := SetField(c, r, f, v);
            d.P == c.P && |Get(d, r)| == 16 && FieldOf(d, r, f) == v && SetField(d, r, f, w) == SetField(c, r, f, w)
    ensures SetField(c, r, f, FieldOf(c, r, f)) == c
  {
    var s, q := GetStart(c.P, f), Get(c, r);
    FieldOfPatch(q, s, v);
    hide CoreOk, GetStart, GetEnd, Patch;
  }

  lemma SetKeepsOthers(c: Core, r: Reg, v: seq<int>, q: Reg)
    requires q != r
    ensures Get(Set(c, r, v), q) == Get(c, q)
  {
  }

  /** The registers and memory after a data instruction. */
  ghost function After(c: Core, d: Data): Core { if CoreOk(c) && DataOk(d) then DataStep(c, d) else c }

  lemma AfterIs(c: Core, d: Data)
    requires CoreOk(c) && DataOk(d)
    ensures CoreOk(After(c, d)) && After(c, d) == DataStep(c, d)
  {
    DataKeepsOk(c, d);
    hide CoreOk, DataOk, DataStep;
  }

  /** Digits below the base, in the mode the processor is in. */
  ghost predicate Digital(c: Core, r: Reg, f: nat)
    requires CoreOk(c) && f < 19
  {
    Below(FieldOf(c, r, f), c.hexmode)
  }

  // ------------------------------------------------------------- digits undone

  lemma SameResidue(x: int, y: int, back: int, out: int, p: int)
    requires 0 <= x < p && 0 <= y < p && y - back * p == x - out * p
    ensures x == y && back == out
  {
    if back > out { MulMono(p, out + 1, back); }
    if back < out { MulMono(p, back + 1, out); }
  }

  /** Digits that stand for the same number modulo base^n, with the carries alike. */
  lemma SameDigits(t: seq<int>, a: seq<int>, back: int, out: int, base: nat)
    requires |t| == |a| && 0 < base && Below(t, base) && Below(a, base)
    requires Value(t, base) - back * Pow(base, |a|) == Value(a, base) - out * Pow(base, |a|)
    ensures t == a && back == out
  {
    ValueBound(a, base);
    ValueBound(t, base);
    SameResidue(Value(a, base), Value(t, base), back, out, Pow(base, |a|));
    ValueInjective(t, a, base);
  }

  lemma CancelDigits(a: seq<int>, b: seq<int>, base: nat)
    requires |a| == |b| && Mode(base) && Below(a, base) && Below(b, base)
    ensures SubDigits(AddDigits(a, b, base).0, b, base) == (a, AddDigits(a, b, base).1)
  {
    hide AddDigits, SubDigits, Below, Value, Pow;
    var (s, out) := AddDigits(a, b, base);
    AddExact(a, b, base);
    AddRange(a, b, base);
    SubExact(s, b, base);
    SubRange(s, b, base);
    var (t, back) := SubDigits(s, b, base);
    SameDigits(t, a, back, out, base);
  }

  lemma CancelRipple(a: seq<int>, base: nat)
    requires a != [] && Mode(base) && Below(a, base)
    ensures RippleDown(RippleUp(a, 1, base).0, 1, base) == (a, RippleUp(a, 1, base).1)
    ensures RippleUp(a, 1, base).1 <= 1
  {
    BelowHex(a, base);
    hide RippleUp, RippleDown, Below, Value, Pow;
    var (s, out) := RippleUp(a, 1, base);
    RippleUpExact(a, 1, base);
    RippleUpRange(a, 1, base);
    RippleDownExact(s, 1, base);
    RippleDownRange(s, 1, base);
    var (t, back) := RippleDown(s, 1, base);
    SameDigits(t, a, back, out, base);
  }

  lemma BelowHex(a: seq<int>, base: nat)
    requires Mode(base) && Below(a, base)
    ensures Below(a, 16)
  {
  }

  lemma ComplementTwice(a: seq<int>, base: nat)
    requires Mode(base) && Below(a, base)
    ensures NotDigits(NotDigits(a, base), base) == a
    ensures var (n, _, sum) := NegDigits(a, base);
            var (m, _, sum') := NegDigits(n, base);
            m == a && (sum' != 0 <==> sum != 0)
  {
    hide NegDigits, NotDigits, Below, Value, Pow;
    var (n, _, sum) := NegDigits(a, base);
    var (m, _, sum') := NegDigits(n, base);
    NegRange(a, base);
    NegRange(n, base);
    Complement2Exact(a, base);
    Complement2Exact(n, base);
    ValueBound(a, base);
    ValueInjective(m, a, base);
    var z := NotDigits(a, base);
    NotRange(a, base);
    NotRange(z, base);
    Complement1Exact(a, base);
    Complement1Exact(z, base);
    ValueInjective(NotDigits(z, base), a, base);
  }

  // ------------------------------------------------------------- arithmetic undone

  lemma AfterAdd(c: Core, r: Reg, q: Reg, f: nat)
    requires CoreOk(c) && f < 19
    ensures var (v, out) := AddDigits(FieldOf(c, r, f), FieldOf(c, q, f), c.hexmode);
            var d := After(c, Add(r, q, f));
            CoreOk(d) && d == SetField(c, r, f, v).(CARRY := out)
  {
    AfterIs(c, Add(r, q, f));
    hide CoreOk, After, AddDigits, SetField, FieldOf;
  }

  lemma AfterSub(c: Core, r: Reg, a: Reg, b: Reg, f: nat)
    requires CoreOk(c) && f < 19
    ensures var (v, out) := SubDigits(FieldOf(c, a, f), FieldOf(c, b, f), c.hexmode);
            After(c, Sub(r, a, b, f)) == SetField(c, r, f, v).(CARRY := out)
  {
    AfterIs(c, Sub(r, a, b, f));
    hide CoreOk, After, SubDigits, SetField, FieldOf;
  }

  lemma AfterInc(c: Core, r: Reg, f: nat)
    requires CoreOk(c) && f < 19
    ensures var v := FieldOf(c, r, f);
            var d := After(c, Inc(r, f));
            var (u, out) := RippleUp(v, 1, c.hexmode);
            CoreOk(d) && d == SetField(c, r, f, u).(CARRY := Flag(out))
  {
    AfterIs(c, Inc(r, f));
    hide CoreOk, After, RippleUp, SetField, FieldOf;
  }

  lemma AfterDec(c: Core, r: Reg, f: nat)
    requires CoreOk(c) && f < 19
    ensures var v := FieldOf(c, r, f);
            var d := After(c, Dec(r, f));
            var (u, out) := RippleDown(v, 1, c.hexmode);
            CoreOk(d) && d == SetField(c, r, f, u).(CARRY := Flag(out))
  {
    AfterIs(c, Dec(r, f));
    hide CoreOk, After, RippleDown, SetField, FieldOf;
  }

  lemma AfterNeg(c: Core, r: Reg, f: nat)
    requires CoreOk(c) && f < 19
    ensures var v := FieldOf(c, r, f);
            var d := After(c, Neg(r, f));
            CoreOk(d) && d == SetField(c, r, f, NegDigits(v, c.hexmode).0).(CARRY := Flag(NegDigits(v, c.hexmode).2))
  {
    AfterIs(c, Neg(r, f));
    hide CoreOk, After, NegDigits, SetField, FieldOf;
  }

  lemma AfterNot(c: Core, r: Reg, f: nat)
    requires CoreOk(c) && f < 19
    ensures var v := FieldOf(c, r, f);
            var d := After(c, Not(r, f));
            CoreOk(d) && d == SetField(c, r, f, NotDigits(v, c.hexmode)).(CARRY := 0)
  {
    AfterIs(c, Not(r, f));
    hide CoreOk, After, NotDigits, SetField, FieldOf;
  }

  /** A field of one register set, with the carry: what it and another register then hold. */
  lemma SetWithCarry(c: Core, r: Reg, q: Reg, f: nat, v: seq<int>, carry: int)
    requires CoreOk(c) && f < 19 && r != q && |v| == |FieldOf(c, r, f)|
    ensures var d := SetField(c, r, f, v).(CARRY := carry);
            d.P == c.P && d.hexmode == c.hexmode && |Get(d, r)| == |Get(d, q)| == 16 &&
            FieldOf(d, r, f) == v && FieldOf(d, q, f) == FieldOf(c, q, f)
  {
    SetThenGet(c, r, f, v, v);
    SetKeepsOthers(c, r, Patch(Get(c, r), GetStart(c.P, f), v), q);
    hide CoreOk, Patch, GetStart, GetEnd;
  }

  lemma SetBack(c: Core, r: Reg, f: nat, v: seq<int>, carry: int, carry': int)
    requires CoreOk(c) && f < 19 && |v| == |FieldOf(c, r, f)|
    ensures var d := SetField(c, r, f, v).(CARRY := carry);
            d.P == c.P && d.hexmode == c.hexmode && |Get(d, r)| == 16 && FieldOf(d, r, f) == v &&
            SetField(d, r, f, FieldOf(c, r, f)).(CARRY := carry') == c.(CARRY := carry')
  {
    SetThenGet(c, r, f, v, FieldOf(c, r, f));
    hide CoreOk, Patch, GetStart, GetEnd;
  }

  /** r=r+q then r=r-q: the register is as it was, and the borrow equals the carry. */
  lemma AddThenSub(c: Core, r: Reg, q: Reg, f: nat)
    requires CoreOk(c) && f < 19 && r != q && Digital(c, r, f) && Digital(c, q, f)
    ensures var d := After(c, Add(r, q, f));
            After(d, Sub(r, r, q, f)) == c.(CARRY := d.CARRY)
  {
    var a, b := FieldOf(c, r, f), FieldOf(c, q, f);
    CancelDigits(a, b, c.hexmode);
    hide *;
    var (s, out) := AddDigits(a, b, c.hexmode);
    AfterAdd(c, r, q, f);
    SetWithCarry(c, r, q, f, s, out);
    SetBack(c, r, f, s, out, out);
    AfterSub(After(c, Add(r, q, f)), r, r, q, f);
  }

  /** r=r+1 then r=r-1. */
  lemma IncThenDec(c: Core, r: Reg, f: nat)
    requires CoreOk(c) && f < 19 && Digital(c, r, f)
    ensures var d := After(c, Inc(r, f)); After(d, Dec(r, f)) == c.(CARRY := d.CARRY)
  {
    var a := FieldOf(c, r, f);
    CancelRipple(a, c.hexmode);
    hide *;
    var (s, out) := RippleUp(a, 1, c.hexmode);
    AfterInc(c, r, f);
    SetBack(c, r, f, s, Flag(out), Flag(out));
    AfterDec(After(c, Inc(r, f)), r, f);
  }

  lemma FlagSame(x: int, y: int)
    ensures (x != 0 <==> y != 0) ==> Flag(x) == Flag(y)
  {
  }

  /** r=-r twice. */
  lemma NegTwice(c: Core, r: Reg, f: nat)
    requires CoreOk(c) && f < 19 && Digital(c, r, f)
    ensures var d := After(c, Neg(r, f)); After(d, Neg(r, f)) == c.(CARRY := d.CARRY)
  {
    var a := FieldOf(c, r, f);
    ComplementTwice(a, c.hexmode);
    FlagSame(NegDigits(a, c.hexmode).2, NegDigits(NegDigits(a, c.hexmode).0, c.hexmode).2);
    hide *;
    var (n, _, sum) := NegDigits(a, c.hexmode);
    AfterNeg(c, r, f);
    SetBack(c, r, f, n, Flag(sum), Flag(sum));
    AfterNeg(After(c, Neg(r, f)), r, f);
  }

  /** r=-r-1 twice. */
  lemma NotTwice(c: Core, r: Reg, f: nat)
    requires CoreOk(c) && f < 19 && Digital(c, r, f)
    ensures After(After(c, Not(r, f)), Not(r, f)) == c.(CARRY := 0)
  {
    var a := FieldOf(c, r, f);
    ComplementTwice(a, c.hexmode);
    hide *;
    AfterNot(c, r, f);
    SetBack(c, r, f, NotDigits(a, c.hexmode), 0, 0);
    AfterNot(After(c, Not(r, f)), r, f);
  }

  lemma AfterRotateLeft(c: Core, r: Reg, f: nat)
    requires CoreOk(c) && f < 19
    ensures var v := FieldOf(c, r, f);
            var d := After(c, Shl(r, f, true));
            CoreOk(d) && d == SetField(c, r, f, ShiftLeft(v, v[|v| - 1]))
  {
    AfterIs(c, Shl(r, f, true));
    hide CoreOk, After, ShiftLeft, SetField, FieldOf;
  }

  lemma AfterRotateRight(c: Core, r: Reg, f: nat)
    requires CoreOk(c) && f < 19
    ensures var v := FieldOf(c, r, f);
            var d := After(c, Shr(r, f, true));
            CoreOk(d) && d == SetField(c, r, f, ShiftRight(v, v[0])).(SB := if v[0] != 0 then 1 else c.SB)
  {
    AfterIs(c, Shr(r, f, true));
    hide CoreOk, After, ShiftRight, SetField, FieldOf;
  }

  lemma RotateBack(a: seq<int>)
    requires a != []
    ensures var left, right := ShiftLeft(a, a[|a| - 1]), ShiftRight(a, a[0]);
            |left| == |right| == |a| && ShiftRight(left, left[0]) == a && ShiftLeft(right, right[|a| - 1]) == a
  {
  }

  /** The circular shifts undo each other; only the sticky bit remembers. */
  lemma RotateLeftThenRight(c: Core, r: Reg, f: nat)
    requires CoreOk(c) && f < 19
    ensures var e := After(After(c, Shl(r, f, true)), Shr(r, f, true)); e == c.(SB := e.SB)
  {
    var a := FieldOf(c, r, f);
    RotateBack(a);
    hide CoreOk, After, Patch, GetStart, GetEnd, Below, Get, Set, ShiftLeft, ShiftRight;
    SetThenGet(c, r, f, ShiftLeft(a, a[|a| - 1]), a);
    AfterRotateLeft(c, r, f);
    AfterRotateRight(After(c, Shl(r, f, true)), r, f);
  }

  lemma RotateRightThenLeft(c: Core, r: Reg, f: nat)
    requires CoreOk(c) && f < 19
    ensures var d := After(c, Shr(r, f, true)); After(d, Shl(r, f, true)) == c.(SB := d.SB)
  {
    var a := FieldOf(c, r, f);
    RotateBack(a);
    hide *;
    AfterRotateRight(c, r, f);
    var d := After(c, Shr(r, f, true));
    SetBackSticky(c, r, f, ShiftRight(a, a[0]), d.SB);
    AfterRotateLeft(d, r, f);
  }

  lemma SetBackSticky(c: Core, r: Reg, f: nat, v: seq<int>, sticky: int)
    requires CoreOk(c) && f < 19 && |v| == |FieldOf(c, r, f)|
    ensures var d := SetField(c, r, f, v).(SB := sticky);
            d.P == c.P && |Get(d, r)| == 16 && FieldOf(d, r, f) == v &&
            SetField(d, r, f, FieldOf(c, r, f)) == c.(SB := sticky)
  {
    SetThenGet(c, r, f, v, FieldOf(c, r, f));
    hide CoreOk, Patch, GetStart, GetEnd;
  }

  // ------------------------------------------------------------- what tests find

  /** r=a-b sets CARRY exactly when the test ?a<b would have held. */
  lemma BorrowIsTest(c: Core, r: Reg, a: Reg, b: Reg, f: nat)
    requires CoreOk(c) && f < 19
    ensures After(c, Sub(r, a, b, f)).CARRY == 1 <==> Holds(c, Order(a, b, f, 1))
  {
    AfterSub(c, r, a, b, f);
    FieldOk(c, a, f);
    FieldOk(c, b, f);
    CompareIsBorrow(FieldOf(c, a, f), FieldOf(c, b, f), c.hexmode);
    hide CoreOk, After, SubDigits, Compare, Below, SetField, FieldOf;
  }

  /** After r=q the registers test equal on the field. */
  lemma CopyTestsEqual(c: Core, r: Reg, q: Reg, f: nat)
    requires CoreOk(c) && f < 19 && r != q
    ensures var d := After(c, Copy(r, q, f)); CoreOk(d) && Holds(d, Equal(r, q, f, true))
  {
    AfterIs(c, Copy(r, q, f));
    var b := FieldOf(c, q, f);
    SetThenGet(c, r, f, b, b);
    SetKeepsOthers(c, r, Patch(Get(c, r), GetStart(c.P, f), b), q);
    hide CoreOk, After, Patch, GetStart, GetEnd;
  }

  /** After r=0 the field tests zero. */
  lemma ClearTestsZero(c: Core, r: Reg, f: nat)
    requires CoreOk(c) && f < 19
    ensures var d := After(c, Clear(r, f)); CoreOk(d) && Holds(d, Zero(r, f, true))
  {
    AfterIs(c, Clear(r, f));
    var z := Zeros(|FieldOf(c, r, f)|);
    SetThenGet(c, r, f, z, z);
    hide CoreOk, After, Patch, GetStart, GetEnd, Zeros;
  }

  lemma BitHolds(c: Core, r: Reg, k: nat, v: int)
    requires CoreOk(c) && k < 16 && 0 <= v <= 1
    ensures RegOk(Get(c, r)) && (Holds(c, BitIs(r, k, v)) <==> Bit(Get(c, r)[k / 4], k % 4) == v)
  {
  }

  /** The nibbles of a register with one bit written. */
  function WithRegBit(x: seq<int>, n: nat, b: int): (y: seq<int>)
    requires |x| == 16 && n < 16
    ensures |y| == 16
  {
    x[n / 4 := WithBit(x[n / 4], n % 4, b)]
  }

  lemma RegBit(x: seq<int>, n: nat, b: int, k: nat)
    requires RegOk(x) && n < 16 && 0 <= b <= 1 && k < 16
    ensures Bit(WithRegBit(x, n, b)[k / 4], k % 4) == if k == n then b else Bit(x[k / 4], k % 4)
  {
    WithBitOk(x[n / 4], n % 4, b, k % 4);
    hide Bit, WithBit;
    assert k == 4 * (k / 4) + k % 4 && n == 4 * (n / 4) + n % 4;
  }

  lemma AfterSetBit(c: Core, r: Reg, n: nat, b: int)
    requires CoreOk(c) && n < 16 && 0 <= b <= 1
    ensures |Get(c, r)| == 16
    ensures var d := After(c, SetBit(r, n, b)); CoreOk(d) && Get(d, r) == WithRegBit(Get(c, r), n, b)
  {
    assert |Get(c, r)| == 16;
    hide CoreOk, After, WithBit;
    AfterIs(c, SetBit(r, n, b));
  }

  /** A bit that was set or cleared tests so, and no other bit of the register tests differently. */
  lemma BitTests(c: Core, r: Reg, n: nat, b: int, k: nat, v: int)
    requires CoreOk(c) && n < 16 && 0 <= b <= 1 && k < 16 && 0 <= v <= 1
    ensures var d := After(c, SetBit(r, n, b));
            CoreOk(d) && (Holds(d, BitIs(r, k, v)) <==> if k == n then v == b else Holds(c, BitIs(r, k, v)))
  {
    hide CoreOk, After, Holds, Bit, WithRegBit, Get, RegOk;
    AfterSetBit(c, r, n, b);
    BitHolds(c, r, k, v);
    BitHolds(After(c, SetBit(r, n, b)), r, k, v);
    RegBit(Get(c, r), n, b, k);
  }

  // ------------------------------------------------------------- moves undone

  lemma PatchTwice(x: seq<int>, y: seq<int>, s: nat, n: nat)
    requires s + n <= |x| && s + n <= |y|
    ensures var x', y' := Patch(x, s, y[s..s + n]), Patch(y, s, x[s..s + n]);
            x'[s..s + n] == y[s..s + n] && y'[s..s + n] == x[s..s + n] &&
            Patch(x', s, y'[s..s + n]) == x && Patch(y', s, x'[s..s + n]) == y
  {
  }

  /** Two registers with a field exchanged. */
  lemma AfterExchange(c: Core, r: Reg, q: Reg, f: nat)
    requires CoreOk(c) && f < 19 && r != q
    ensures var s, n := GetStart(c.P, f), |FieldOf(c, r, f)|;
            var x, y := Get(c, r), Get(c, q);
            var d := After(c, Exchange(r, q, f));
            CoreOk(d) && |x| == |y| == 16 && s + n <= 16 &&
            d == Set(Set(c, r, Patch(x, s, y[s..s + n])), q, Patch(y, s, x[s..s + n]))
  {
    assert |Get(c, r)| == |Get(c, q)| == 16;
    hide CoreOk, After, Patch, GetStart, GetEnd, Get, Set;
    AfterIs(c, Exchange(r, q, f));
    SetKeepsOthers(c, r, Patch(Get(c, r), GetStart(c.P, f), FieldOf(c, q, f)), q);
  }

  lemma SetSet(c: Core, r: Reg, q: Reg, x: seq<int>, y: seq<int>, x': seq<int>, y': seq<int>)
    requires r != q
    ensures var d := Set(Set(c, r, x), q, y);
            d.P == c.P && Get(d, r) == x && Get(d, q) == y &&
            Set(Set(d, r, x'), q, y') == Set(Set(c, r, x'), q, y') && Set(Set(c, r, Get(c, r)), q, Get(c, q)) == c
  {
  }

  /** Exchanging a field of two registers twice. */
  lemma ExchangeTwice(c: Core, r: Reg, q: Reg, f: nat)
    requires CoreOk(c) && f < 19 && r != q
    ensures After(After(c, Exchange(r, q, f)), Exchange(r, q, f)) == c
  {
    AfterExchange(c, r, q, f);
    AfterExchange(After(c, Exchange(r, q, f)), r, q, f);
    hide CoreOk, After, Get, Set, Patch, GetStart, GetEnd;
    var s, n := GetStart(c.P, f), |FieldOf(c, r, f)|;
    var x, y := Get(c, r), Get(c, q);
    PatchTwice(x, y, s, n);
    SetSet(c, r, q, Patch(x, s, y[s..s + n]), Patch(y, s, x[s..s + n]), x, y);
  }

  /** A register and a scratch register with a field exchanged. */
  lemma AfterScratch(c: Core, k: nat, r: Reg, f: nat)
    requires CoreOk(c) && k < 5 && f < 19
    ensures var s, n := GetStart(c.P, f), |FieldOf(c, r, f)|;
            var d := After(c, ExchScratch(r, k, f));
            CoreOk(d) && |Get(c, r)| == |c.R[k]| == 16 && s + n <= 16 &&
            d == Set(c, r, Patch(Get(c, r), s, c.R[k][s..s + n])).(R := c.R[k := Patch(c.R[k], s, Get(c, r)[s..s + n])])
  {
    AfterIs(c, ExchScratch(r, k, f));
    assert RegOk(c.R[k]);
    hide CoreOk, After, Set, Get, Patch, GetStart, GetEnd;
  }

  lemma SetScratch(c: Core, k: nat, r: Reg, x: seq<int>, y: seq<int>)
    requires k < |c.R|
    ensures var d := Set(c, r, x).(R := c.R[k := y]);
            d.P == c.P && Get(d, r) == x && d.R[k] == y &&
            Set(d, r, Get(c, r)).(R := d.R[k := c.R[k]]) == c
  {
    assert c.R[k := y][k := c.R[k]] == c.R;
  }

  lemma SameFieldLength(c: Core, d: Core, r: Reg, f: nat)
    requires CoreOk(c) && CoreOk(d) && f < 19 && c.P == d.P
    ensures |FieldOf(c, r, f)| == |FieldOf(d, r, f)|
  {
    hide GetStart, GetEnd;
  }

  /** A scratch register exchanged twice. */
  lemma ScratchTwice(c: Core, k: nat, r: Reg, f: nat)
    requires CoreOk(c) && k < 5 && f < 19
    ensures After(After(c, ExchScratch(r, k, f)), ExchScratch(r, k, f)) == c
  {
    assert |c.R| == 5;
    hide *;
    AfterScratch(c, k, r, f);
    var d := After(c, ExchScratch(r, k, f));
    var s, n := GetStart(c.P, f), |FieldOf(c, r, f)|;
    var x, y := Get(c, r), c.R[k];
    PatchTwice(x, y, s, n);
    SetScratch(c, k, r, Patch(x, s, y[s..s + n]), Patch(y, s, x[s..s + n]));
    SameFieldLength(c, d, r, f);
    AfterScratch(d, k, r, f);
  }

  /** A field saved in a scratch register, and a field brought back from one. */
  lemma AfterSave(c: Core, k: nat, r: Reg, f: nat)
    requires CoreOk(c) && k < 5 && f < 19
    ensures var d := After(c, ToScratch(k, r, f));
            CoreOk(d) && |c.R[k]| == 16 &&
            d == c.(R := c.R[k := Patch(c.R[k], GetStart(c.P, f), FieldOf(c, r, f))])
    ensures var d := After(c, FromScratch(r, k, f));
            CoreOk(d) && d == SetField(c, r, f, Field(c.R[k], c.P, f))
  {
    AfterIs(c, ToScratch(k, r, f));
    AfterIs(c, FromScratch(r, k, f));
    assert RegOk(c.R[k]);
    hide CoreOk, After, SetField, Get, Patch, GetStart, GetEnd;
  }

  lemma SetKeepsRest(c: Core, r: Reg, v: seq<int>)
    ensures var d := Set(c, r, v); d.P == c.P && d.R == c.R && Get(d, r) == v
  {
  }

  /** A field saved in a scratch register comes back whatever was done to the register in between. */
  lemma SaveAndBringBack(c: Core, k: nat, r: Reg, f: nat, v: seq<int>)
    requires CoreOk(c) && k < 5 && f < 19 && RegOk(v)
    ensures var d := After(c, ToScratch(k, r, f));
            var e := After(Set(d, r, v), FromScratch(r, k, f));
            CoreOk(Set(d, r, v)) && CoreOk(e) && FieldOf(e, r, f) == FieldOf(c, r, f) && e.R == d.R
  {
    AfterSave(c, k, r, f);
    var d := After(c, ToScratch(k, r, f));
    SetOk(d, r, v);
    SetKeepsRest(d, r, v);
    var x := Set(d, r, v);
    AfterSave(x, k, r, f);
    var a, s := FieldOf(c, r, f), GetStart(c.P, f);
    FieldOfPatch(c.R[k], s, a);
    SetThenGet(x, r, f, a, a);
    hide CoreOk, After, GetStart, GetEnd, Below, Patch, Get, Set;
    assert |x.R| == |c.R| && x.R[k] == Patch(c.R[k], s, a);
    SetKeepsRest(x, r, Patch(Get(x, r), s, a));
  }

  /** A pointer moved by n, around the end of the address space. */
  function Moved(c: Core, k: nat, n: int): Core
  {
    var t := GetD(c, k) + n;
    SetPointer(c, k, t % ADDR_SPACE).(CARRY := if 0 <= t < ADDR_SPACE then 0 else 1)
  }

  lemma AfterAddD(c: Core, k: nat, n: int)
    requires CoreOk(c) && k < 2
    ensures CoreOk(After(c, AddD(k, n))) && After(c, AddD(k, n)) == Moved(c, k, n)
  {
    AfterIs(c, AddD(k, n));
    hide CoreOk, After, GetD, SetPointer;
  }

  lemma WrapBack(x: int, n: int)
    requires 0 <= x < ADDR_SPACE && -ADDR_SPACE < n < ADDR_SPACE
    ensures var t := (x + n) % ADDR_SPACE;
            (t + -n) % ADDR_SPACE == x && (0 <= x + n < ADDR_SPACE <==> 0 <= t + -n < ADDR_SPACE)
  {
  }

  lemma MovedBack(c: Core, k: nat, n: int)
    requires 0 <= GetD(c, k) < ADDR_SPACE && -ADDR_SPACE < n < ADDR_SPACE
    ensures Moved(Moved(c, k, n), k, -n) == c.(CARRY := Moved(c, k, n).CARRY)
  {
    WrapBack(GetD(c, k), n);
  }

  /** A pointer moved forth and back, over the end of the address space or not. */
  lemma PointerReturns(c: Core, k: nat, n: int)
    requires CoreOk(c) && k < 2 && -ADDR_SPACE < n < ADDR_SPACE
    ensures var e := After(c, AddD(k, n)); After(e, AddD(k, -n)) == c.(CARRY := e.CARRY)
  {
    hide *;
    PointerOk(c, k);
    MovedBack(c, k, n);
    AfterAddD(c, k, n);
    AfterAddD(After(c, AddD(k, n)), k, -n);
  }

  lemma PointerOk(c: Core, k: nat)
    requires CoreOk(c)
    ensures 0 <= GetD(c, k) < ADDR_SPACE
  {
  }

  /** A pointer exchanged twice with A or C. */
  lemma PointerExchangeTwice(c: Core, r: Reg, k: nat, n: nat)
    requires CoreOk(c) && k < 2 && 4 <= n <= 5
    ensures After(After(c, ExchD(r, k, n)), ExchD(r, k, n)) == c
  {
    hide CoreOk, After, LowDigits, Low, Split, Get, Set, GetD, SetPointer;
    AfterExchD(c, r, k, n);
    AfterExchD(After(c, ExchD(r, k, n)), r, k, n);
    RegOf(c, r);
    PointerOk(c, k);
    var x, p := Get(c, r), GetD(c, k);
    LowDigitsBack(p, x[..n], n);
    LowBack(x, Split(p, 16, n));
    SetWithPointer(c, r, k, Low(x, Split(p, 16, n)), LowDigits(p, x[..n]));
  }

  lemma RegOf(c: Core, r: Reg)
    requires CoreOk(c)
    ensures RegOk(Get(c, r))
  {
  }

  lemma AfterExchD(c: Core, r: Reg, k: nat, n: nat)
    requires CoreOk(c) && k < 2 && 4 <= n <= 5
    ensures CoreOk(After(c, ExchD(r, k, n))) && |Get(c, r)| == 16
    ensures After(c, ExchD(r, k, n)) ==
              SetPointer(Set(c, r, Low(Get(c, r), Split(GetD(c, k), 16, n))), k, LowDigits(GetD(c, k), Get(c, r)[..n]))
  {
    RegOf(c, r);
    AfterIs(c, ExchD(r, k, n));
    hide CoreOk, After, LowDigits, Low, Split, Get, Set, GetD, SetPointer;
  }

  lemma LowBack(x: seq<int>, v: seq<int>)
    requires |v| <= |x|
    ensures Low(x, v)[..|v|] == v && Low(Low(x, v), x[..|v|]) == x
  {
  }

  lemma SetWithPointer(c: Core, r: Reg, k: nat, x: seq<int>, p: int)
    ensures var d := SetPointer(Set(c, r, x), k, p);
            Get(d, r) == x && GetD(d, k) == p && SetPointer(Set(d, r, Get(c, r)), k, GetD(c, k)) == c
  {
  }

  // ------------------------------------------------------------- memory and back

  lemma PutPlain(s: Saturn, addr: int, v: int)
    requires CoreOk(s.core) && Mapped(s.core.mem) && MemOk(s.core.mem)
    requires Writable(s.core.mem, CellOf(s.core.mem, addr)) && CellOf(s.core.mem, addr) == StoreCellOf(s.core.mem, addr)
    ensures PutNib(s, addr, v) == Saturn(s.core.(mem := Memory.Store(s.core.mem, addr, v)), s.flow)
  {
    hide CoreOk, MemOk, CellOf, StoreCellOf, Memory.Store;
  }

  lemma PlainStays(m: Mem, addr: int, v: seq<int>)
    requires MemOk(m) && Plain(m, addr, |v|)
    ensures var p := StoreAll(m, addr, v);
            MemOk(p) && Mapped(p) && Writable(p, CellOf(p, addr + |v|)) &&
            CellOf(p, addr + |v|) == StoreCellOf(p, addr + |v|)
  {
    hide CellOf, StoreCellOf;
    assert Mapped(StoreAll(m, addr, v));
    hide MemOk, StoreAll, Mapped;
    StoreAllKeepsMap(m, addr, v, addr + |v|);
  }

  /** The state with the nibbles stored in its memory, and nothing else changed. */
  ghost function Stored(s: Saturn, addr: int, v: seq<int>): Saturn
    requires CoreOk(s.core)
  {
    Saturn(s.core.(mem := StoreAll(s.core.mem, addr, v)), s.flow)
  }

  lemma StoreOneMore(s: Saturn, addr: int, v: seq<int>)
    requires CoreOk(s.core) && v != [] && Plain(s.core.mem, addr, |v| - 1)
    requires StoreRun(s, addr, v[..|v| - 1]) == Stored(s, addr, v[..|v| - 1])
    ensures StoreRun(s, addr, v) == Stored(s, addr, v)
  {
    hide CoreOk, MemOk, CellOf, StoreCellOf, Memory.Store, Writable, PutNib, StoreRun, StoreAll;
    CoreMem(s.core);
    PlainStays(s.core.mem, addr, v[..|v| - 1]);
    PutPlain(Stored(s, addr, v[..|v| - 1]), addr + |v| - 1, v[|v| - 1]);
    StoreRunNext(s, addr, v);
    StoreAllLast(s.core.mem, addr, v);
  }

  /** Stores to plain memory touch nothing but the memory. */
  lemma {:induction false} StoreRunPlain(s: Saturn, addr: int, v: seq<int>)
    requires CoreOk(s.core) && forall i :: 0 <= i < |v| ==> Plain(s.core.mem, addr, i)
    ensures StoreRun(s, addr, v) == Stored(s, addr, v)
  {
    CoreMem(s.core);
    hide CoreOk, MemOk, CellOf, StoreCellOf;
    if v == [] {
      StoreNone(s.core.mem, addr);
    } else {
      StoreRunPlain(s, addr, v[..|v| - 1]);
      StoreOneMore(s, addr, v);
    }
  }

  lemma StoreAllLast(m: Mem, addr: int, v: seq<int>)
    requires MemOk(m) && v != []
    ensures var n := |v| - 1;
            StoreAll(m, addr, v) == Memory.Store(StoreAll(m, addr, v[..n]), addr + n, v[n])
  {
    hide MemOk, Memory.Store;
  }

  /** The device CRC does not enter into what plain memory holds. */
  lemma CrcUnseen(m: Mem, addr: int, crc: int)
    requires MemOk(m) && Writable(m, CellOf(m, addr)) && 0 <= crc < 0x10000
    ensures var m' := m.(dev := m.dev.(crc := crc));
            MemOk(m') && LoadCrc(m', addr).1 == Load(m, addr).1 &&
            LoadCrc(m', addr).0 == m'.(dev := m'.dev.(crc := LoadCrc(m', addr).0.dev.crc))
  {
    var m' := m.(dev := m.dev.(crc := crc));
    SameSxCell(m, m', Masked(addr));
    SameGxCell(m, m', Masked(addr), MCTL_MMIO);
    assert CellOf(m', addr) == CellOf(m, addr);
    hide CellOf;
  }

  lemma {:induction false} RecallRunPlain(m: Mem, addr: int, n: nat)
    requires MemOk(m) && forall i :: 0 <= i < n ==> Plain(m, addr, i)
    ensures var (m', v) := RecallRun(m, addr, n);
            v == LoadAll(m, addr, n) && m' == m.(dev := m.dev.(crc := m'.dev.crc))
    decreases n
  {
    hide CellOf, StoreCellOf, Load, LoadCrc;
    if n > 0 {
      RecallRunPlain(m, addr, n - 1);
      assert Plain(m, addr, n - 1);
      CrcUnseen(m, addr + n - 1, RecallRun(m, addr, n - 1).0.dev.crc);
    }
  }

  lemma AfterRecall(c: Core, q: Reg, k: nat, f: nat)
    requires CoreOk(c) && k < 2 && f < 19
    ensures var (m, v) := RecallRun(c.mem, GetD(c, k), |FieldOf(c, q, f)|);
            var d := After(c, Recall(q, k, f));
            CoreOk(d) && d == SetField(c, q, f, v).(mem := m)
  {
    hide CoreOk, MemOk, After, SetField, FieldOf, RecallRun;
    hide GetD, StatusStep, ArithStep, MoveStep, ScratchStep, PointerStep;
    AfterIs(c, Recall(q, k, f));
  }

  lemma AfterCopy(c: Core, q: Reg, r: Reg, f: nat)
    requires CoreOk(c) && f < 19
    ensures After(c, Copy(q, r, f)) == SetField(c, q, f, FieldOf(c, r, f))
  {
    AfterIs(c, Copy(q, r, f));
    hide CoreOk, After, SetField, FieldOf;
  }

  lemma SetFieldMem(c: Core, q: Reg, f: nat, v: seq<int>, m: Mem, m': Mem)
    requires CoreOk(c) && f < 19 && |v| == |FieldOf(c, q, f)|
    ensures var d := c.(mem := m);
            |Get(d, q)| == 16 && GetD(d, 0) == c.D0 && GetD(d, 1) == c.D1 && FieldOf(d, q, f) == FieldOf(c, q, f) &&
            SetField(d, q, f, v).(mem := m') == SetField(c, q, f, v).(mem := m')
  {
    assert c.P < 16 && |Get(c, q)| == 16;
    assert Get(c.(mem := m), q) == Get(c, q);
    hide CoreOk, Patch, GetStart, GetEnd;
  }

  lemma PlainAfterStores(m: Mem, a: int, v: seq<int>)
    requires MemOk(m) && forall i :: 0 <= i < |v| ==> Plain(m, a, i)
    ensures forall i :: 0 <= i < |v| ==> Plain(StoreAll(m, a, v), a, i)
  {
    hide CellOf, StoreCellOf;
    assert Mapped(m) && Mapped(StoreAll(m, a, v));
    hide MemOk, Below, StoreAll, Writable, Mapped;
    forall i | 0 <= i < |v| ensures Plain(StoreAll(m, a, v), a, i) {
      assert Plain(m, a, i);
      StoreAllKeepsMap(m, a, v, a + i);
    }
  }

  /** The nibbles that pass through plain memory, and what memory is left with. */
  lemma ThroughMemory(m: Mem, a: int, v: seq<int>)
    requires MemOk(m) && Below(v, 16)
    requires forall i :: 0 <= i < |v| ==> Plain(m, a, i)
    requires forall i, j :: 0 <= i < j < |v| ==> Apart(m, a, j, i)
    ensures var p := StoreAll(m, a, v);
            var (q, w) := RecallRun(p, a, |v|);
            w == v && q == p.(dev := p.dev.(crc := q.dev.crc))
  {
    PlainAfterStores(m, a, v);
    hide *;
    ReadBack(m, a, v);
    RecallRunPlain(StoreAll(m, a, v), a, |v|);
  }

  lemma ExecStoreIs(s: Saturn, k: nat, r: Reg, f: nat, len: nat)
    requires Ok(s) && k < 2 && f < 19
    ensures var t := Exec(s, Opcode(Store(k, r, f), len));
            CoreOk(t.core) &&
            t == StoreRun(Saturn(s.core, Advance(s.flow, len)), GetD(s.core, k), FieldOf(s.core, r, f))
  {
    hide CoreOk, FieldOf, StoreRun, GetD, Get, Holds;
    ExecKeepsOk(s, Opcode(Store(k, r, f), len));
  }

  lemma ExecStorePlain(s: Saturn, k: nat, r: Reg, f: nat, len: nat)
    requires Ok(s) && k < 2 && f < 19
    requires forall i :: 0 <= i < |FieldOf(s.core, r, f)| ==> Plain(s.core.mem, GetD(s.core, k), i)
    ensures var t := Exec(s, Opcode(Store(k, r, f), len));
            CoreOk(t.core) && MemOk(s.core.mem) &&
            t.core == s.core.(mem := StoreAll(s.core.mem, GetD(s.core, k), FieldOf(s.core, r, f)))
  {
    assert s.core.P < 16 && |Get(s.core, r)| == 16;
    hide CoreOk, MemOk, Exec, FieldOf, StoreRun, StoreAll, Plain, Get, GetD;
    CoreMem(s.core);
    ExecStoreIs(s, k, r, f, len);
    StoreRunPlain(Saturn(s.core, Advance(s.flow, len)), GetD(s.core, k), FieldOf(s.core, r, f));
  }

  lemma SameFieldLengths(c: Core, q: Reg, r: Reg, f: nat)
    requires CoreOk(c) && f < 19
    ensures |FieldOf(c, q, f)| == |FieldOf(c, r, f)|
  {
    hide GetStart, GetEnd;
  }

  /** A field recalled from memory that holds another field is a copy of it. */
  lemma RecallBack(c: Core, d: Core, k: nat, r: Reg, q: Reg, f: nat)
    requires CoreOk(c) && CoreOk(d) && d == c.(mem := d.mem) && k < 2 && f < 19
    requires MemOk(d.mem) && RecallRun(d.mem, GetD(c, k), |FieldOf(c, r, f)|).1 == FieldOf(c, r, f)
    ensures var m' := RecallRun(d.mem, GetD(c, k), |FieldOf(c, r, f)|).0;
            After(d, Recall(q, k, f)) == SetField(c, q, f, FieldOf(c, r, f)).(mem := m')
  {
    assert GetD(d, k) == GetD(c, k);
    hide *;
    SameFieldLengths(c, q, r, f);
    AfterRecall(d, q, k, f);
    SetFieldMem(c, q, f, FieldOf(c, r, f), d.mem, RecallRun(d.mem, GetD(c, k), |FieldOf(c, r, f)|).0);
  }

  /** What a copy leaves is what a recall leaves but for the memory. */
  lemma CopyMem(c: Core, q: Reg, r: Reg, f: nat, m: Mem)
    requires CoreOk(c) && f < 19
    ensures |FieldOf(c, r, f)| == |FieldOf(c, q, f)|
    ensures SetField(c, q, f, FieldOf(c, r, f)).(mem := m).(mem := c.mem) == After(c, Copy(q, r, f))
  {
    SameFieldLengths(c, q, r, f);
    SetFieldKeepsMem(c, q, f, FieldOf(c, r, f));
    AfterCopy(c, q, r, f);
    hide *;
  }

  lemma SetFieldKeepsMem(c: Core, q: Reg, f: nat, v: seq<int>)
    requires CoreOk(c) && f < 19 && |v| == |FieldOf(c, q, f)|
    ensures SetField(c, q, f, v).mem == c.mem
  {
    hide CoreOk, Patch, GetStart, GetEnd;
  }

  /** DAT0=r then q=DAT0, through distinct cells of RAM, is q=r; only those cells and the device CRC differ. */
  lemma StoreThenRecall(s: Saturn, k: nat, r: Reg, q: Reg, f: nat, len: nat)
    requires Ok(s) && k < 2 && f < 19
    requires forall i :: 0 <= i < |FieldOf(s.core, r, f)| ==> Plain(s.core.mem, GetD(s.core, k), i)
    requires forall i, j :: 0 <= i < j < |FieldOf(s.core, r, f)| ==> Apart(s.core.mem, GetD(s.core, k), j, i)
    ensures var t := Exec(s, Opcode(Store(k, r, f), len));
            var u := After(t.core, Recall(q, k, f));
            u.(mem := s.core.mem) == After(s.core, Copy(q, r, f)) &&
            u.mem == t.core.mem.(dev := t.core.mem.dev.(crc := u.mem.dev.crc))
  {
    var c, a, v := s.core, GetD(s.core, k), FieldOf(s.core, r, f);
    assert c.P < 16 && |Get(c, r)| == |Get(c, q)| == 16 && CoreOk(c);
    hide *;
    ExecStorePlain(s, k, r, f, len);
    FieldOk(c, r, f);
    ThroughMemory(c.mem, a, v);
    var d := Exec(s, Opcode(Store(k, r, f), len)).core;
    RecallBack(c, d, k, r, q, f);
    CopyMem(c, q, r, f, After(d, Recall(q, k, f)).mem);
  }

  /** Low digits replaced and put back. */
  lemma LowDigitsBack(p: int, v: seq<int>, n: nat)
    requires 0 <= p < ADDR_SPACE && |v| == n <= 5 && Below(v, 16)
    ensures Split(LowDigits(p, v), 16, n) == v && LowDigits(LowDigits(p, v), Split(p, 16, n)) == p
  {
    Pow16(n);
    var q := Pow(16, n);
    ValueBound(v, 16);
    var hi := p / q;
    assert LowDigits(p, v) == Value(v, 16) + q * hi;
    QuotientOf(q, Value(v, 16), hi);
    SplitLow(Value(v, 16), hi, n);
    SplitOfValue(v);
    assert p == q * hi + p % q;
    SplitLow(p % q, hi, n);
    SplitExact(p % q, 16, n);
  }

  lemma QuotientOf(q: int, lo: int, hi: int)
    requires 0 <= lo < q
    ensures (lo + q * hi) / q == hi
  {
    var x := lo + q * hi;
    assert x == q * (x / q) + x % q;
    DigitUnique(q, x % q, lo, x / q, hi);
  }

  lemma SplitOfValue(v: seq<int>)
    requires Below(v, 16)
    ensures Split(Value(v, 16), 16, |v|) == v
  {
    ValueBound(v, 16);
    SplitExact(Value(v, 16), 16, |v|);
    SplitBelow(Value(v, 16), 16, |v|);
    ValueInjective(Split(Value(v, 16), 16, |v|), v, 16);
  }

  /** A number pushed is the number popped, and below it the stack has at most lost its oldest address. */
  lemma StackReturns(st: seq<int>, a: int)
    requires |st| <= NR_RSTK
    ensures Pop(Push(st, a)) == (if |st| < NR_RSTK then st else st[1..], a)
  {
    var p := Push(st, a);
    assert p[..|p| - 1] == (if |st| < NR_RSTK then st else st[1..]) && p[|p| - 1] == a;
  }

  /** The address field written back over itself. */
  lemma AddressReturns(r: seq<int>)
    requires RegOk(r)
    ensures Low(r, Split(Addr(r), 16, 5)) == r
  {
    SplitOfValue(r[..5]);
    assert Low(r, r[..5]) == r;
  }

  lemma AfterPush(s: Saturn)
    requires Ok(s)
    ensures |s.core.C| == 16
    ensures Ok(Exec(s, Opcode(PushC, 2)))
    ensures Exec(s, Opcode(PushC, 2)) ==
              Saturn(s.core, s.flow.(pc := s.flow.pc + 2, stack := Push(s.flow.stack, Addr(s.core.C))))
  {
    assert |s.core.C| == 16;
    hide CoreOk, Addr, Push, Holds;
    ExecKeepsOk(s, Opcode(PushC, 2));
  }

  lemma AfterPop(s: Saturn)
    requires Ok(s)
    ensures var (st, a) := Pop(s.flow.stack);
            Exec(s, Opcode(PopC, 2)) ==
              Saturn(s.core.(C := Low(s.core.C, Split(a, 16, 5))), s.flow.(pc := s.flow.pc + 2, stack := st))
  {
    hide CoreOk, Low, Split, Pop, Holds;
  }

  /** RSTK=C then C=RSTK: C is as it was, and so is the stack unless it was full and lost its oldest address. */
  lemma PushThenPop(s: Saturn)
    requires Ok(s)
    ensures var t := Exec(s, Opcode(PushC, 2));
            Ok(t) && Exec(t, Opcode(PopC, 2)) ==
              Saturn(s.core, Flow(s.flow.pc + 4, if |s.flow.stack| < NR_RSTK then s.flow.stack else s.flow.stack[1..],
                                  s.flow.enabled, s.flow.pending))
  {
    assert RegOk(s.core.C) && |s.flow.stack| <= NR_RSTK;
    hide *;
    AfterPush(s);
    AfterPop(Exec(s, Opcode(PushC, 2)));
    AddressReturns(s.core.C);
    StackReturns(s.flow.stack, Addr(s.core.C));
  }

  /** C+P+1 is hexadecimal too: it is the decimal sum exactly when the low digit absorbs it. */
  lemma CPlusPIsHex(c: Core)
    requires CoreOk(c) && Below(c.C[..5], DEC)
    ensures var d := After(c, CPlusP);
            CoreOk(d) &&
            (IsDecimal(d.C[..5], d.CARRY, Value(c.C[..5], DEC) + c.P + 1) <==> c.C[0] + c.P + 1 < 10)
  {
    AfterIs(c, CPlusP);
    var a := c.C[..5];
    ConstantAddIsHex(a, c.P + 1);
    RippleUpRange(a, c.P + 1, HEX);
    var (v, out) := RippleUp(a, c.P + 1, HEX);
    assert Low(c.C, v)[..5] == v;
    hide CoreOk, After, RippleUp, IsDecimal, Value;
  }

  // ------------------------------------------------------------- what no instruction changes

  ghost predicate SameRom(m: Mem, n: Mem) { m.rom == n.rom && m.model == n.model }

  lemma {:induction false} StoreRunKeepsRom(s: Saturn, addr: int, v: seq<int>)
    requires CoreOk(s.core)
    ensures SameRom(s.core.mem, StoreRun(s, addr, v).core.mem)
  {
    hide CoreOk, MemOk, Memory.Store, StoreCellOf, PutNib;
    if v != [] {
      hide StoreRun;
      var p := StoreRun(s, addr, v[..|v| - 1]);
      StoreRunKeepsRom(s, addr, v[..|v| - 1]);
      CoreMem(p.core);
      StoreKeepsOk(p.core.mem, addr + |v| - 1, v[|v| - 1]);
      StoreRunNext(s, addr, v);
    }
  }

  lemma {:induction false} RecallRunKeepsRom(m: Mem, addr: int, n: nat)
    requires MemOk(m)
    ensures SameRom(m, RecallRun(m, addr, n).0)
    decreases n
  {
    hide MemOk, LoadCrc;
    if n > 0 {
      RecallRunKeepsRom(m, addr, n - 1);
      LoadKeepsOk(RecallRun(m, addr, n - 1).0, addr + n - 1);
    }
  }

  lemma {:induction false} LoadDownKeepsRom(m: Mem, addr: int, n: nat)
    requires MemOk(m)
    ensures SameRom(m, LoadDown(m, addr, n).0)
    decreases n
  {
    hide MemOk, Load;
    if n > 0 {
      hide LoadDown;
      LoadDownNext(m, addr, n - 1);
      LoadKeepsOk(m, addr + n - 1);
      LoadDownKeepsRom(Load(m, addr + n - 1).0, addr, n - 1);
    }
  }

  lemma StatusKeepsMem(c: Core, d: Data)
    requires CoreOk(c)
    ensures StatusStep(c, d).mem == c.mem
  {
    hide CoreOk, Low, StatusBits, StatusNibbles, Bit, Zeros;
  }

  predicate Adds(d: Data) { d.Logic? || d.Add? || d.Sub? || d.Neg? || d.Not? }

  lemma AddsKeepMem(c: Core, d: Data)
    requires CoreOk(c) && DataOk(d) && Adds(d)
    ensures ArithStep(c, d).mem == c.mem
  {
    hide CoreOk, Patch, FieldOf, GetStart, GetEnd, Get, MapNibs, AddDigits, SubDigits, NegDigits, NotDigits;
  }

  lemma RipplesKeepMem(c: Core, d: Data)
    requires CoreOk(c) && DataOk(d) && !Adds(d)
    ensures ArithStep(c, d).mem == c.mem
  {
    hide CoreOk, Patch, FieldOf, GetStart, GetEnd, Get, RippleUp, RippleDown, Low;
  }

  lemma ArithKeepsMem(c: Core, d: Data)
    requires CoreOk(c) && DataOk(d)
    ensures ArithStep(c, d).mem == c.mem
  {
    hide CoreOk, DataOk, ArithStep, Adds;
    if Adds(d) { AddsKeepMem(c, d); } else { RipplesKeepMem(c, d); }
  }

  lemma RegisterKeepsMem(c: Core, d: Data)
    requires CoreOk(c) && DataOk(d)
    ensures RegisterStep(c, d).mem == c.mem
  {
    hide CoreOk, Get, Wrap, InNibbles, WithBit, Low;
  }

  lemma ShiftKeepsMem(c: Core, d: Data)
    requires CoreOk(c) && DataOk(d) && (d.Shl? || d.Shr? || d.ShrBit?)
    ensures MoveStep(c, d).mem == c.mem
  {
    hide CoreOk, RegisterStep, Patch, FieldOf, GetStart, GetEnd, Get, ShiftLeft, ShiftRight, ShiftRightBit;
  }

  lemma CopyKeepsMem(c: Core, d: Data)
    requires CoreOk(c) && DataOk(d) && (d.Clear? || d.Copy? || d.Exchange?)
    ensures MoveStep(c, d).mem == c.mem
  {
    hide CoreOk, RegisterStep, Patch, FieldOf, GetStart, GetEnd, Get, Zeros;
  }

  lemma MoveKeepsMem(c: Core, d: Data)
    requires CoreOk(c) && DataOk(d)
    ensures MoveStep(c, d).mem == c.mem
  {
    if d.Shl? || d.Shr? || d.ShrBit? {
      hide MoveStep, CoreOk, DataOk;
      ShiftKeepsMem(c, d);
    } else if d.Clear? || d.Copy? || d.Exchange? {
      hide MoveStep, CoreOk, DataOk;
      CopyKeepsMem(c, d);
    } else {
      hide RegisterStep, CoreOk, DataOk, SetField, FieldOf;
      RegisterKeepsMem(c, d);
    }
  }

  lemma ScratchKeepsMem(c: Core, d: Data)
    requires CoreOk(c) && DataOk(d)
    ensures ScratchStep(c, d).mem == c.mem
  {
    hide CoreOk, Patch, FieldOf, Field, GetStart, GetEnd, Get;
  }

  lemma PointerKeepsMem(c: Core, d: Data)
    requires CoreOk(c) && DataOk(d)
    ensures PointerStep(c, d).mem == c.mem
  {
    hide CoreOk, Get, GetD, Low, LowDigits, Split, Pow, Value;
  }

  lemma DataKeepsRom(c: Core, d: Data)
    requires CoreOk(c) && DataOk(d)
    ensures SameRom(c.mem, DataStep(c, d).mem)
  {
    hide CoreOk, MemOk, RecallRun, DataOk, StatusStep, ArithStep, MoveStep, ScratchStep, PointerStep;
    match UnitOf(d)
    case StatusUnit => StatusKeepsMem(c, d);
    case ArithUnit => ArithKeepsMem(c, d);
    case MoveUnit => MoveKeepsMem(c, d);
    case ScratchUnit => ScratchKeepsMem(c, d);
    case PointerUnit => PointerKeepsMem(c, d);
    case BusUnit => BusKeepsRom(c, d);
  }

  lemma SetKeepsMem(c: Core, r: Reg, v: seq<int>)
    ensures Set(c, r, v).mem == c.mem
  {
  }

  lemma RecallKeepsRom(c: Core, d: Data)
    requires CoreOk(c) && DataOk(d) && (d.Recall? || d.RecallN?)
    ensures SameRom(c.mem, BusStep(c, d).mem)
  {
    CoreMem(c);
    hide CoreOk, MemOk, RecallRun, Patch, FieldOf, GetStart, GetEnd, Get, GetD, Set, Low;
    if d.Recall? {
      RecallRunKeepsRom(c.mem, GetD(c, d.d), |FieldOf(c, d.dst, d.f)|);
    } else {
      RecallRunKeepsRom(c.mem, GetD(c, d.d), d.n);
    }
  }

  lemma BusKeepsRom(c: Core, d: Data)
    requires CoreOk(c) && DataOk(d)
    ensures SameRom(c.mem, BusStep(c, d).mem)
  {
    hide CoreOk, MemOk, DataOk, RecallRun, Low, Split, ChipId, Addr;
    if d.Recall? || d.RecallN? { RecallKeepsRom(c, d); }
  }

  lemma StoreKeepsRom(s: Saturn, op: Opcode)
    requires CoreOk(s.core) && InstrOk(op.i) && (op.i.Store? || op.i.StoreN?)
    ensures SameRom(s.core.mem, Exec(s, op).core.mem)
  {
    var c := s.core;
    assert c.P < 16 && |Get(c, op.i.src)| == 16;
    hide CoreOk, StoreRun, FieldOf, Get, GetD, Holds, SameRom;
    match op.i
    case Store(k, src, f) => StoreRunKeepsRom(Saturn(c, Advance(s.flow, op.len)), GetD(c, k), FieldOf(c, src, f));
    case StoreN(k, src, n) => StoreRunKeepsRom(Saturn(c, Advance(s.flow, op.len)), GetD(c, k), Get(c, src)[..n]);
  }

  lemma JumpIndKeepsRom(s: Saturn, op: Opcode)
    requires CoreOk(s.core) && InstrOk(op.i) && op.i.JumpInd?
    ensures SameRom(s.core.mem, Exec(s, op).core.mem)
  {
    hide CoreOk, MemOk, LoadDown, Get, Addr, Value, Holds, SameRom;
    hide DataStep, StoreRun, FieldOf, GetD, Set, Low, Split, Push, Pop, Rti, KbdInt, Branch, Goto;
    CoreMem(s.core);
    RegOf(s.core, op.i.r);
    LoadDownKeepsRom(s.core.mem, Addr(Get(s.core, op.i.r)), 5);
  }

  lemma FlowKeepsRom(s: Saturn, op: Opcode)
    requires CoreOk(s.core) && InstrOk(op.i)
    requires !op.i.Simple? && !op.i.Store? && !op.i.StoreN? && !op.i.JumpInd?
    ensures Exec(s, op).core.mem == s.core.mem
  {
    var c := s.core;
    assert forall r: Reg :: |Get(c, r)| == 16;
    hide CoreOk, MemOk, Holds, Get, Addr, Low, Split, Value, Set, Push, Pop, Rti, KbdInt, Branch, Goto;
    match op.i
    case RegFromPc(r) => SetKeepsMem(c, r, Low(Get(c, r), Split(s.flow.pc + op.len, 16, 5)));
    case ExchPc(r) => SetKeepsMem(c, r, Low(Get(c, r), Split(s.flow.pc + op.len, 16, 5)));
    case _ =>
  }

  /** Whatever is executed, the ROM and the model stay. */
  lemma ExecKeepsRom(s: Saturn, op: Opcode)
    requires CoreOk(s.core) && InstrOk(op.i)
    ensures SameRom(s.core.mem, Exec(s, op).core.mem)
  {
    hide CoreOk, MemOk, DataStep;
    if op.i.Simple? {
      DataKeepsRom(s.core, op.i.data);
    } else {
      hide Exec, InstrOk;
      if op.i.Store? || op.i.StoreN? { StoreKeepsRom(s, op); }
      else if op.i.JumpInd? { JumpIndKeepsRom(s, op); }
      else { FlowKeepsRom(s, op); }
    }
  }

  lemma StepKeepsRom(s: Saturn)
    requires Ok(s)
    ensures SameRom(s.core.mem, StepOf(s).0.core.mem)
  {
    hide CoreOk, Exec, Fetch, SameRom;
    ExecKeepsRom(s, Fetch(s));
  }

  lemma HappenKeepsRom(s: Saturn, e: Step.Event)
    requires Ok(s)
    ensures SameRom(s.core.mem, Happen(s, e).core.mem)
  {
    hide StepOf, Shutdown, KbdInt, Interrupt, Value;
    if e.Tick? { StepKeepsRom(s); }
  }

  /** No run of instructions, keys and interrupts changes the ROM. */
  lemma {:induction false} RunKeepsRom(s: Saturn, es: seq<Step.Event>)
    requires Ok(s)
    ensures SameRom(s.core.mem, Step.Run(s, es).core.mem)
    decreases |es|
  {
    hide Ok, Happen;
    if es != [] {
      var n := |es| - 1;
      RunKeepsRom(s, es[..n]);
      HappenKeepsRom(Step.Run(s, es[..n]), es[n]);
    }
  }
}
