/**
 The arithmetic, logic, copy, shift and test instructions as the disassembler lists them, read
 as equations between numbers, and proved of what the processor leaves.  The letters are those
 of the disassembler's own tables and owe nothing to the processor's decoder.
 */
module Listing {
  import opened Digits
  import opened Fields
  import opened Memory
  import opened ReturnStack
  import opened Interrupts
  import opened Instructions
  import opened Machine
  import opened Step
  import opened Laws

  // ------------------------------------------------------------------ what is listed

  /** A listed instruction: the letters are registers. */
  datatype Equation =
    | Plus(x: char, y: char, z: char)    // x=y+z
    | Minus(x: char, y: char, z: char)   // x=y-z
    | PlusOne(x: char)                   // x=x+1
    | MinusOne(x: char)                  // x=x-1
    | NegMinusOne(x: char)               // x=-x-1
    | Cleared(x: char)                   // x=0
    | Is(x: char, y: char)               // x=y
    | Swap(x: char, y: char)             // xyEX
    | Left(x: char) | Right(x: char)     // xSL, xSR
    | And(x: char, y: char) | Or(x: char, y: char) // x=x&y, x=x!y

  // The letters of the disassembler's operand tables, place by place.
  const AF_X := "ABCDABCDBCACABCD"
  const AF_Y := "ABCDABCDBCACBCAC"
  const AF_Z := "BCACABCDABCDABCD"
  const HP_REG_1_AF := "ABCDABCDBCACABAC"
  const HP_REG_2_AF := "0000BCACABCDBCCD"
  const OP_0_X := "ABCDBCAC"
  const OP_0_Z := "BCACABCD"

  function Letter(n: nat): char
    requires n < 16
  {
    "ABCDABCDABCDABCD"[n]
  }

  function AddListing(n: nat): Equation
    requires n < 16
  {
    if n < 12 then Plus(AF_X[n], AF_Y[n], AF_Z[n]) else MinusOne(Letter(n))
  }

  function CopyListing(n: nat): Equation
    requires n < 16
  {
    if n < 4 then Cleared(Letter(n)) else if n >= 12 then Swap(HP_REG_1_AF[n], HP_REG_2_AF[n])
    else Is(HP_REG_1_AF[n], HP_REG_2_AF[n])
  }

  function SubListing(n: nat): Equation
    requires n < 16
  {
    if n >= 12 then Minus(AF_X[n], AF_Y[n], AF_Z[n])
    else if 4 <= n <= 7 then PlusOne(Letter(n - 4)) else Minus(AF_X[n], AF_Y[n], AF_Z[n])
  }

  /** Negations are listed as decrements. */
  function ShiftListing(n: nat): Equation
    requires n < 16
  {
    if n < 4 then Left(Letter(n)) else if n < 8 then Right(Letter(n))
    else if n < 12 then MinusOne(Letter(n)) else NegMinusOne(Letter(n))
  }

  function LogicListing(n: nat): Equation
    requires n < 16
  {
    if n < 8 then And(OP_0_X[n % 8], OP_0_Z[n % 8]) else Or(OP_0_X[n % 8], OP_0_Z[n % 8])
  }

  /** The nibble patterns of these instructions. */
  predicate Listed(w: seq<int>)
    requires Nibbles(w)
  {
    w[0] >= 10 || (w[0] == 0 && w[1] == 14)
  }

  function ListingOf(w: seq<int>): Equation
    requires Nibbles(w) && Listed(w)
  {
    match w[0]
    case 0 => LogicListing(w[3])
    case 10 => if w[1] < 8 then AddListing(w[2]) else CopyListing(w[2])
    case 11 => if w[1] < 8 then SubListing(w[2]) else ShiftListing(w[2])
    case 12 => AddListing(w[1])
    case 13 => CopyListing(w[1])
    case 14 => SubListing(w[1])
    case _ => ShiftListing(w[1])
  }

  /** The field named with it: a nibble, of which the groups A and B use three bits, or the address field. */
  function FieldAt(w: seq<int>): nat
    requires Nibbles(w) && Listed(w)
  {
    if w[0] == 0 then w[2] else if w[0] < 12 then w[1] % 8 else 15
  }

  function Length(w: seq<int>): nat
    requires Nibbles(w) && Listed(w)
  {
    if w[0] == 0 then 4 else if w[0] < 12 then 3 else 2
  }

  /** The negations: group F, or the upper half of group B, with 8 to B. */
  predicate Negation(w: seq<int>)
    requires Nibbles(w) && Listed(w)
  {
    (w[0] == 15 && 8 <= w[1] < 12) || (w[0] == 11 && w[1] >= 8 && 8 <= w[2] < 12)
  }

  // ------------------------------------------------------------------ what it means

  function RegNamed(x: char): Reg
  {
    if x == 'A' then RA else if x == 'B' then RB else if x == 'C' then RC else RD
  }

  predicate Named(x: char) { 'A' <= x <= 'D' }

  ghost predicate Sound(c: Core, f: nat) { CoreOk(c) && f < 19 }

  ghost function Part(c: Core, x: char, f: nat): (v: seq<int>)
  {
    if Sound(c, f) then FieldOf(c, RegNamed(x), f) else []
  }

  /** The number in a field, in the mode the processor is in. */
  ghost function Num(c: Core, x: char, f: nat): int { Value(Part(c, x, f), c.hexmode) }

  /** The same in base 16, whatever the mode. */
  ghost function HexNum(c: Core, x: char, f: nat): int { Value(Part(c, x, f), 16) }

  ghost function Places(c: Core, f: nat): nat { |Part(c, 'A', f)| }

  /** All but one field of register x, the carry and the sticky bit is as it was. */
  ghost predicate Only(c: Core, d: Core, x: char, f: nat)
  {
    d.(A := c.A, B := c.B, C := c.C, D := c.D, CARRY := c.CARRY, SB := c.SB) == c && Sound(c, f) &&
    (forall y :: Named(y) && y != x ==> Get(d, RegNamed(y)) == Get(c, RegNamed(y))) &&
    |Get(d, RegNamed(x))| == 16 &&
    forall i :: 0 <= i < 16 && !(GetStart(c.P, f) <= i <= GetEnd(c.P, f)) ==>
      Get(d, RegNamed(x))[i] == Get(c, RegNamed(x))[i]
  }

  ghost predicate Digital4(c: Core, f: nat)
  {
    Sound(c, f) && forall r: Reg :: Below(FieldOf(c, r, f), c.hexmode)
  }

  /** The new number is one the field can hold. */
  ghost predicate Fits(c: Core, d: Core, x: char, f: nat)
  {
    0 <= Num(d, x, f) < Pow(c.hexmode, Places(c, f)) && 0 <= d.CARRY <= 1 && d.hexmode == c.hexmode
  }

  /** From c to d the equation holds of the numbers in the field, and nothing else has changed. */
  ghost predicate Meaning(e: Equation, c: Core, d: Core, f: nat)
  {
    var w := Pow(c.hexmode, Places(c, f));
    match e
    case Plus(x, y, z) =>
      Num(d, x, f) + d.CARRY * w == Num(c, y, f) + Num(c, z, f) && Fits(c, d, x, f) && Only(c, d, x, f) && d.SB == c.SB
    case Minus(x, y, z) =>
      Num(d, x, f) - d.CARRY * w == Num(c, y, f) - Num(c, z, f) && Fits(c, d, x, f) && Only(c, d, x, f) && d.SB == c.SB
    case PlusOne(x) =>
      Num(d, x, f) + d.CARRY * w == Num(c, x, f) + 1 && Fits(c, d, x, f) && Only(c, d, x, f) && d.SB == c.SB
    case MinusOne(x) =>
      Num(d, x, f) - d.CARRY * w == Num(c, x, f) - 1 && Fits(c, d, x, f) && Only(c, d, x, f) && d.SB == c.SB
    case NegMinusOne(x) =>
      Num(d, x, f) == w - 1 - Num(c, x, f) && d.CARRY == 0 && Only(c, d, x, f) && d.SB == c.SB
    case Cleared(x) => HexNum(d, x, f) == 0 && Only(c, d, x, f) && d.CARRY == c.CARRY && d.SB == c.SB
    case Is(x, y) => Part(d, x, f) == Part(c, y, f) && Only(c, d, x, f) && d.CARRY == c.CARRY && d.SB == c.SB
    case Swap(x, y) =>
      Part(d, x, f) == Part(c, y, f) && Part(d, y, f) == Part(c, x, f) && d.CARRY == c.CARRY && d.SB == c.SB &&
      exists m :: Only(c, m, x, f) && Only(m, d, y, f)
    case Left(x) =>
      0 <= HexNum(d, x, f) < Pow(16, Places(c, f)) && Kept(c, d, x, f) &&
      exists top :: HexNum(d, x, f) + top * Pow(16, Places(c, f)) == 16 * HexNum(c, x, f)
    case Right(x) =>
      HexNum(d, x, f) == HexNum(c, x, f) / 16 && Only(c, d, x, f) && d.CARRY == c.CARRY &&
      d.SB == if HexNum(c, x, f) % 16 != 0 then 1 else c.SB
    case And(x, y) => Bitwise(Part(d, x, f), Part(c, x, f), Part(c, y, f), false) && Kept(c, d, x, f)
    case Or(x, y) => Bitwise(Part(d, x, f), Part(c, x, f), Part(c, y, f), true) && Kept(c, d, x, f)
  }

  ghost predicate Kept(c: Core, d: Core, x: char, f: nat)
  {
    Only(c, d, x, f) && d.CARRY == c.CARRY && d.SB == c.SB
  }

  /** Each bit of r is the conjunction, or the disjunction, of the same bits of a and b. */
  ghost predicate Bitwise(r: seq<int>, a: seq<int>, b: seq<int>, or: bool)
  {
    |r| == |a| == |b| && Below(r, 16) &&
    forall i, k :: 0 <= i < |r| && 0 <= k < 4 ==>
      (Bit(r[i], k) == 1 <==> if or then Bit(a[i], k) == 1 || Bit(b[i], k) == 1
                                    else Bit(a[i], k) == 1 && Bit(b[i], k) == 1)
  }

  // ------------------------------------------------------- the decoder and the listing

  /** The instruction that an equation asks for. */
  function DataOf(e: Equation, f: nat): Data
  {
    match e
    case Plus(x, _, z) => Add(RegNamed(x), RegNamed(z), f)
    case Minus(x, y, z) => Sub(RegNamed(x), RegNamed(y), RegNamed(z), f)
    case PlusOne(x) => Inc(RegNamed(x), f)
    case MinusOne(x) => Dec(RegNamed(x), f)
    case NegMinusOne(x) => Not(RegNamed(x), f)
    case Cleared(x) => Clear(RegNamed(x), f)
    case Is(x, y) => Copy(RegNamed(x), RegNamed(y), f)
    case Swap(x, y) => Exchange(RegNamed(x), RegNamed(y), f)
    case Left(x) => Shl(RegNamed(x), f, false)
    case Right(x) => Shr(RegNamed(x), f, false)
    case And(x, y) => Logic(false, RegNamed(x), RegNamed(y), f)
    case Or(x, y) => Logic(true, RegNamed(x), RegNamed(y), f)
  }

  /** Equations as the tables have them. */
  predicate Written(e: Equation)
  {
    match e
    case Plus(x, y, z) => Named(x) && y == x && Named(z)
    case Minus(x, y, z) => Named(x) && Named(y) && Named(z)
    case Is(x, y) => Named(x) && Named(y) && x != y
    case Swap(x, y) => Named(x) && Named(y) && x != y
    case And(x, y) => Named(x) && Named(y)
    case Or(x, y) => Named(x) && Named(y)
    case _ => Named(e.x)
  }

  lemma AddDecodes(k: nat, f: nat)
    requires k < 16
    ensures Written(AddListing(k)) && AddGroup(k, f) == DataOf(AddListing(k), f)
  {
    if k < 8 { AddDecodesLow(k, f); } else { AddDecodesHigh(k, f); }
    hide *;
  }

  lemma AddDecodesLow(k: nat, f: nat)
    requires k < 8
    ensures Written(AddListing(k)) && AddGroup(k, f) == DataOf(AddListing(k), f)
  {
    Sixteen(k);
  }

  lemma AddDecodesHigh(k: nat, f: nat)
    requires 8 <= k < 16
    ensures Written(AddListing(k)) && AddGroup(k, f) == DataOf(AddListing(k), f)
  {
    Sixteen(k);
  }

  lemma CopyDecodes(k: nat, f: nat)
    requires k < 16
    ensures Written(CopyListing(k)) && CopyGroup(k, f) == DataOf(CopyListing(k), f)
  {
    if k < 8 { CopyDecodesLow(k, f); } else { CopyDecodesHigh(k, f); }
    hide *;
  }

  lemma CopyDecodesLow(k: nat, f: nat)
    requires k < 8
    ensures Written(CopyListing(k)) && CopyGroup(k, f) == DataOf(CopyListing(k), f)
  {
    Sixteen(k);
  }

  lemma CopyDecodesHigh(k: nat, f: nat)
    requires 8 <= k < 16
    ensures Written(CopyListing(k)) && CopyGroup(k, f) == DataOf(CopyListing(k), f)
  {
    Sixteen(k);
  }

  lemma SubDecodes(k: nat, f: nat)
    requires k < 16
    ensures Written(SubListing(k)) && SubGroup(k, f) == DataOf(SubListing(k), f)
  {
    Sixteen(k);
  }

  lemma ShiftDecodes(k: nat, f: nat)
    requires k < 16
    ensures Written(ShiftListing(k))
    ensures ShiftGroup(k, f) ==
            if 8 <= k < 12 then Neg(RegNamed(Letter(k)), f) else DataOf(ShiftListing(k), f)
  {
    Sixteen(k);
  }

  lemma LogicDecodes(k: nat, f: nat)
    requires k < 16
    ensures Written(LogicListing(k)) && LogicGroup(k, f) == DataOf(LogicListing(k), f)
  {
    Sixteen(k);
  }

  lemma Sixteen(k: nat)
    requires k < 16
    ensures k == 0 || k == 1 || k == 2 || k == 3 || k == 4 || k == 5 || k == 6 || k == 7 ||
            k == 8 || k == 9 || k == 10 || k == 11 || k == 12 || k == 13 || k == 14 || k == 15
  {
  }

  /** The decoder's tables are the listing's, letter by letter, except for the negations. */
  lemma Decodes(w: seq<int>)
    requires Nibbles(w) && Listed(w)
    ensures var e := ListingOf(w);
            var d := if Negation(w) then Neg(RegNamed(e.x), FieldAt(w)) else DataOf(e, FieldAt(w));
            Written(e) && (Negation(w) ==> e.MinusOne?) && FieldAt(w) < 16 && DecodeAt(w) == Inline(d, Length(w))
  {
    var f := FieldAt(w);
    hide *;
    match w[0]
    case 0 => LogicDecodes(w[3], f);
    case 10 => if w[1] < 8 { AddDecodes(w[2], f); } else { CopyDecodes(w[2], f); }
    case 11 => if w[1] < 8 { SubDecodes(w[2], f); } else { ShiftDecodes(w[2], f); }
    case 12 => AddDecodes(w[1], f);
    case 13 => CopyDecodes(w[1], f);
    case 14 => SubDecodes(w[1], f);
    case _ => ShiftDecodes(w[1], f);
  }

  // -------------------------------------------------------------- what it leaves

  lemma NamedRegs(x: char, y: char)
    requires Named(x) && Named(y)
    ensures RegNamed(x) == RegNamed(y) <==> x == y
  {
  }

  lemma Parts(c: Core, x: char, f: nat)
    requires Sound(c, f)
    ensures Mode(c.hexmode) && c.P < 16 && |Get(c, RegNamed(x))| == 16 && 0 <= c.CARRY <= 1
    ensures Part(c, x, f) == FieldOf(c, RegNamed(x), f) && |Part(c, x, f)| == Places(c, f) > 0
    ensures Below(Part(c, x, f), 16)
  {
    FieldOk(c, RegNamed(x), f);
    hide Below, GetStart, GetEnd, MemOk;
  }

  lemma DigitsOf(c: Core, x: char, f: nat)
    requires Digital4(c, f)
    ensures Sound(c, f) && Below(Part(c, x, f), c.hexmode)
  {
    hide Below, CoreOk;
  }

  lemma PatchKeeps(r: seq<int>, s: nat, v: seq<int>)
    requires s + |v| <= |r|
    ensures forall i :: 0 <= i < |r| && !(s <= i < s + |v|) ==> Patch(r, s, v)[i] == r[i]
  {
  }

  /** A field set, with a carry and a sticky bit. */
  lemma SetMeans(c: Core, d: Core, x: char, f: nat, v: seq<int>)
    requires Sound(c, f) && Named(x) && CoreOk(d) && |v| == |FieldOf(c, RegNamed(x), f)|
    requires d == SetField(c, RegNamed(x), f, v).(CARRY := d.CARRY, SB := d.SB)
    ensures Only(c, d, x, f) && Part(d, x, f) == v && d.hexmode == c.hexmode && 0 <= d.CARRY <= 1
  {
    hide *;
    SoundParts(c, f);
    SetThenGet(c, RegNamed(x), f, v, v);
    SetFieldKeeps(c, d, x, f, v);
    PartSame(c, d, x, f, v);
  }

  lemma PartSame(c: Core, d: Core, x: char, f: nat, v: seq<int>)
    requires CoreOk(c) && CoreOk(d) && f < 19 && |Get(c, RegNamed(x))| == 16
    requires |v| == |FieldOf(c, RegNamed(x), f)|
    requires var e := SetField(c, RegNamed(x), f, v);
             d == e.(CARRY := d.CARRY, SB := d.SB) && e.P == c.P && |Get(e, RegNamed(x))| == 16 &&
             FieldOf(e, RegNamed(x), f) == v
    ensures Part(d, x, f) == v && 0 <= d.CARRY <= 1
  {
    hide GetStart, GetEnd, Patch, SetField, MemOk;
  }

  lemma SetFieldKeeps(c: Core, d: Core, x: char, f: nat, v: seq<int>)
    requires Sound(c, f) && CoreOk(c) && Named(x) && |v| == |FieldOf(c, RegNamed(x), f)|
    requires d == SetField(c, RegNamed(x), f, v).(CARRY := d.CARRY, SB := d.SB)
    ensures Only(c, d, x, f) && d.hexmode == c.hexmode
  {
    hide CoreOk, Sound, Patch, GetStart, GetEnd;
    SoundParts(c, f);
    var r, y := Get(c, RegNamed(x)), Patch(Get(c, RegNamed(x)), GetStart(c.P, f), v);
    PatchKeeps(r, GetStart(c.P, f), v);
    forall z | Named(z) && z != x ensures Get(d, RegNamed(z)) == Get(c, RegNamed(z)) {
      NamedRegs(x, z);
      SetKeepsOthers(c, RegNamed(x), y, RegNamed(z));
    }
  }

  /** The number a field has been set to. */
  lemma SetNum(c: Core, d: Core, x: char, f: nat, v: seq<int>)
    requires Sound(c, f) && Part(d, x, f) == v && |v| == Places(c, f) && Below(v, c.hexmode)
    requires d.hexmode == c.hexmode && 0 <= d.CARRY <= 1
    ensures Num(d, x, f) == Value(v, c.hexmode) && Fits(c, d, x, f)
  {
    Parts(c, x, f);
    ValueBound(v, c.hexmode);
    hide CoreOk, Below, Value, Pow, Part;
  }

  lemma PlusMeans(c: Core, x: char, z: char, f: nat)
    requires Digital4(c, f) && Named(x) && Named(z)
    ensures Meaning(Plus(x, x, z), c, After(c, Add(RegNamed(x), RegNamed(z), f)), f)
  {
    var d := After(c, Add(RegNamed(x), RegNamed(z), f));
    var a, b := Part(c, x, f), Part(c, z, f);
    hide CoreOk, Below, Value, Pow, AddDigits, SetField, FieldOf, Part, Only, After, Digital4, Get, GetStart, GetEnd;
    DigitsOf(c, x, f);
    DigitsOf(c, z, f);
    Parts(c, x, f);
    Parts(c, z, f);
    AfterAdd(c, RegNamed(x), RegNamed(z), f);
    AddExact(a, b, c.hexmode);
    AddRange(a, b, c.hexmode);
    var v := AddDigits(a, b, c.hexmode).0;
    SetSticky(c, RegNamed(x), f, v);
    SetMeans(c, d, x, f, v);
    SetNum(c, d, x, f, v);
  }

  lemma SetSticky(c: Core, r: Reg, f: nat, v: seq<int>)
    requires CoreOk(c) && f < 19 && |v| == |FieldOf(c, r, f)|
    ensures SetField(c, r, f, v).SB == c.SB && SetField(c, r, f, v).CARRY == c.CARRY
  {
    hide CoreOk, Patch, GetStart, GetEnd;
  }

  lemma MinusMeans(c: Core, x: char, y: char, z: char, f: nat)
    requires Digital4(c, f) && Named(x) && Named(y) && Named(z)
    ensures Meaning(Minus(x, y, z), c, After(c, Sub(RegNamed(x), RegNamed(y), RegNamed(z), f)), f)
  {
    var d := After(c, Sub(RegNamed(x), RegNamed(y), RegNamed(z), f));
    var a, b := Part(c, y, f), Part(c, z, f);
    hide CoreOk, Below, Value, Pow, SubDigits, SetField, FieldOf, Part, Only, After, Digital4, Get, GetStart, GetEnd;
    DigitsOf(c, y, f);
    DigitsOf(c, z, f);
    Parts(c, x, f);
    Parts(c, y, f);
    Parts(c, z, f);
    AfterSub(c, RegNamed(x), RegNamed(y), RegNamed(z), f);
    SubExact(a, b, c.hexmode);
    SubRange(a, b, c.hexmode);
    var v := SubDigits(a, b, c.hexmode).0;
    SetSticky(c, RegNamed(x), f, v);
    SubKeepsOk(c, RegNamed(x), RegNamed(y), RegNamed(z), f);
    SetMeans(c, d, x, f, v);
    SetNum(c, d, x, f, v);
  }

  lemma SubKeepsOk(c: Core, r: Reg, a: Reg, b: Reg, f: nat)
    requires CoreOk(c) && f < 19
    ensures CoreOk(After(c, Sub(r, a, b, f)))
  {
    AfterIs(c, Sub(r, a, b, f));
    hide CoreOk, After;
  }

  lemma FlagIs(x: int)
    requires 0 <= x <= 1
    ensures Flag(x) == x
  {
  }

  lemma PlusOneMeans(c: Core, x: char, f: nat)
    requires Digital4(c, f) && Named(x)
    ensures Meaning(PlusOne(x), c, After(c, Inc(RegNamed(x), f)), f)
  {
    var d, a := After(c, Inc(RegNamed(x), f)), Part(c, x, f);
    hide CoreOk, Below, Value, Pow, RippleUp, Flag, SetField, FieldOf, Part, Only, After;
    hide Digital4, Get, GetStart, GetEnd;
    DigitsOf(c, x, f);
    Parts(c, x, f);
    AfterInc(c, RegNamed(x), f);
    RippleUpExact(a, 1, c.hexmode);
    RippleUpRange(a, 1, c.hexmode);
    var (v, out) := RippleUp(a, 1, c.hexmode);
    FlagIs(out);
    SetSticky(c, RegNamed(x), f, v);
    SetMeans(c, d, x, f, v);
    SetNum(c, d, x, f, v);
  }

  lemma MinusOneMeans(c: Core, x: char, f: nat)
    requires Digital4(c, f) && Named(x)
    ensures Meaning(MinusOne(x), c, After(c, Dec(RegNamed(x), f)), f)
  {
    var d, a := After(c, Dec(RegNamed(x), f)), Part(c, x, f);
    hide CoreOk, Below, Value, Pow, RippleDown, Flag, SetField, FieldOf, Part, Only, After;
    hide Digital4, Get, GetStart, GetEnd;
    DigitsOf(c, x, f);
    Parts(c, x, f);
    AfterDec(c, RegNamed(x), f);
    RippleDownExact(a, 1, c.hexmode);
    RippleDownRange(a, 1, c.hexmode);
    var (v, out) := RippleDown(a, 1, c.hexmode);
    FlagIs(out);
    SetSticky(c, RegNamed(x), f, v);
    SetMeans(c, d, x, f, v);
    SetNum(c, d, x, f, v);
  }

  lemma NegMinusOneMeans(c: Core, x: char, f: nat)
    requires Digital4(c, f) && Named(x)
    ensures Meaning(NegMinusOne(x), c, After(c, Not(RegNamed(x), f)), f)
  {
    var d, a := After(c, Not(RegNamed(x), f)), Part(c, x, f);
    hide CoreOk, Below, Value, Pow, NotDigits, SetField, FieldOf, Part, Only, After, Digital4, Get, GetStart, GetEnd;
    DigitsOf(c, x, f);
    Parts(c, x, f);
    AfterNot(c, RegNamed(x), f);
    Complement1Exact(a, c.hexmode);
    NotRange(a, c.hexmode);
    var v := NotDigits(a, c.hexmode);
    SetSticky(c, RegNamed(x), f, v);
    SetMeans(c, d, x, f, v);
    SetNum(c, d, x, f, v);
  }

  /** x=-x: the number that makes the old one up to a power of the base, with a carry unless both are zero. */
  ghost predicate Negated(c: Core, d: Core, x: char, f: nat)
  {
    Num(d, x, f) == (if Num(c, x, f) == 0 then 0 else Pow(c.hexmode, Places(c, f)) - Num(c, x, f)) &&
    d.CARRY == (if Num(c, x, f) == 0 then 0 else 1) && Fits(c, d, x, f) && Only(c, d, x, f) && d.SB == c.SB
  }

  lemma NegMeans(c: Core, x: char, f: nat)
    requires Digital4(c, f) && Named(x)
    ensures Negated(c, After(c, Neg(RegNamed(x), f)), x, f)
  {
    var d, a := After(c, Neg(RegNamed(x), f)), Part(c, x, f);
    hide CoreOk, Below, Value, Pow, NegDigits, SetField, FieldOf, Part, Only, After, Digital4, Get, GetStart, GetEnd;
    DigitsOf(c, x, f);
    Parts(c, x, f);
    AfterNeg(c, RegNamed(x), f);
    Complement2Exact(a, c.hexmode);
    NegRange(a, c.hexmode);
    var v := NegDigits(a, c.hexmode).0;
    SetSticky(c, RegNamed(x), f, v);
    SetMeans(c, d, x, f, v);
    SetNum(c, d, x, f, v);
  }

  lemma AfterClear(c: Core, r: Reg, f: nat)
    requires CoreOk(c) && f < 19
    ensures var a := FieldOf(c, r, f);
            var d := After(c, Clear(r, f));
            CoreOk(d) && a != [] && d == SetField(c, r, f, Zeros(|a|))
  {
    AfterIs(c, Clear(r, f));
    hide CoreOk, After, Zeros, SetField, FieldOf, GetStart, GetEnd;
  }

  lemma AfterLeft(c: Core, r: Reg, f: nat)
    requires CoreOk(c) && f < 19
    ensures var a := FieldOf(c, r, f);
            var d := After(c, Shl(r, f, false));
            CoreOk(d) && a != [] && d == SetField(c, r, f, ShiftLeft(a, 0))
  {
    AfterIs(c, Shl(r, f, false));
    hide CoreOk, After, ShiftLeft, SetField, FieldOf, GetStart, GetEnd;
  }

  lemma AfterRight(c: Core, r: Reg, f: nat)
    requires CoreOk(c) && f < 19
    ensures var a := FieldOf(c, r, f);
            var d := After(c, Shr(r, f, false));
            CoreOk(d) && a != [] && d == SetField(c, r, f, ShiftRight(a, 0)).(SB := if a[0] != 0 then 1 else c.SB)
  {
    AfterIs(c, Shr(r, f, false));
    hide CoreOk, After, ShiftRight, SetField, FieldOf, GetStart, GetEnd;
  }

  lemma AfterLogic(c: Core, r: Reg, q: Reg, f: nat, or: bool)
    requires CoreOk(c) && f < 19
    ensures Below(FieldOf(c, r, f), 16) && Below(FieldOf(c, q, f), 16)
    ensures var d := After(c, Logic(or, r, q, f));
            CoreOk(d) && d == SetField(c, r, f, MapNibs(or, FieldOf(c, r, f), FieldOf(c, q, f)))
  {
    AfterIs(c, Logic(or, r, q, f));
    FieldOk(c, r, f);
    FieldOk(c, q, f);
    hide CoreOk, After, MapNibs, SetField, FieldOf;
  }

  lemma ZerosNum(n: nat)
    ensures Value(Zeros(n), 16) == 0
  {
    ZeroValue(Zeros(n), 16);
  }

  lemma ClearedMeans(c: Core, x: char, f: nat)
    requires Sound(c, f) && Named(x)
    ensures Meaning(Cleared(x), c, After(c, Clear(RegNamed(x), f)), f)
  {
    var d, a := After(c, Clear(RegNamed(x), f)), Part(c, x, f);
    hide CoreOk, Below, Value, Pow, Zeros, SetField, FieldOf, Part, Only, After, Digital4, Get, GetStart, GetEnd;
    Parts(c, x, f);
    AfterClear(c, RegNamed(x), f);
    ZerosNum(|a|);
    SetSticky(c, RegNamed(x), f, Zeros(|a|));
    SetMeans(c, d, x, f, Zeros(|a|));
  }

  lemma IsMeans(c: Core, x: char, y: char, f: nat)
    requires Sound(c, f) && Named(x) && Named(y)
    ensures Meaning(Is(x, y), c, After(c, Copy(RegNamed(x), RegNamed(y), f)), f)
  {
    var d, b := After(c, Copy(RegNamed(x), RegNamed(y), f)), Part(c, y, f);
    hide CoreOk, Below, Value, Pow, SetField, FieldOf, Part, Only, After, Digital4, Get, GetStart, GetEnd;
    Parts(c, x, f);
    Parts(c, y, f);
    AfterCopy(c, RegNamed(x), RegNamed(y), f);
    CopyKeepsCoreOk(c, RegNamed(x), RegNamed(y), f);
    SetSticky(c, RegNamed(x), f, b);
    SetMeans(c, d, x, f, b);
  }

  lemma CopyKeepsCoreOk(c: Core, r: Reg, q: Reg, f: nat)
    requires CoreOk(c) && f < 19
    ensures CoreOk(After(c, Copy(r, q, f)))
  {
    AfterIs(c, Copy(r, q, f));
    hide CoreOk, After;
  }

  lemma LeftMeans(c: Core, x: char, f: nat)
    requires Sound(c, f) && Named(x)
    ensures Meaning(Left(x), c, After(c, Shl(RegNamed(x), f, false)), f)
  {
    var d, a := After(c, Shl(RegNamed(x), f, false)), Part(c, x, f);
    hide CoreOk, Below, Value, Pow, ShiftLeft, SetField, FieldOf, Part, Only, After, Digital4, Get, GetStart, GetEnd;
    Parts(c, x, f);
    AfterLeft(c, RegNamed(x), f);
    var v := ShiftLeft(a, 0);
    ShiftLeftExact(a, 0);
    SetSticky(c, RegNamed(x), f, v);
    SetMeans(c, d, x, f, v);
    Parts(d, x, f);
    ValueBound(v, 16);
    var top := a[|a| - 1];
    assert HexNum(d, x, f) + top * Pow(16, Places(c, f)) == 16 * HexNum(c, x, f);
  }

  lemma TenthOf(v: int, q: int, r: int)
    requires 16 * q + r == v && 0 <= r < 16
    ensures q == v / 16 && r == v % 16
  {
  }

  lemma FirstDigit(a: seq<int>)
    requires a != [] && Below(a, 16)
    ensures 0 <= a[0] < 16
  {
  }

  lemma RightMeans(c: Core, x: char, f: nat)
    requires Sound(c, f) && Named(x)
    ensures Meaning(Right(x), c, After(c, Shr(RegNamed(x), f, false)), f)
  {
    var d, a := After(c, Shr(RegNamed(x), f, false)), Part(c, x, f);
    hide CoreOk, Below, Value, Pow, ShiftRight, SetField, FieldOf, Part, Only, After, Digital4, Get, GetStart, GetEnd;
    Parts(c, x, f);
    AfterRight(c, RegNamed(x), f);
    var v := ShiftRight(a, 0);
    ShiftRightExact(a, 0);
    FirstDigit(a);
    TenthOf(Value(a, 16), Value(v, 16), a[0]);
    SetSticky(c, RegNamed(x), f, v);
    SetMeans(c, d, x, f, v);
  }

  // -------------------------------------------------------------- bits

  /** The bits of a nibble as a number and as a bit vector. */
  lemma BitsOf(v: bv4, x: int)
    requires x == v as int
    ensures Bit(x, 0) == (v & 1) as int && Bit(x, 1) == ((v >> 1) & 1) as int
    ensures Bit(x, 2) == ((v >> 2) & 1) as int && Bit(x, 3) == ((v >> 3) & 1) as int
  {
    assert v == 0 || v == 1 || v == 2 || v == 3 || v == 4 || v == 5 || v == 6 || v == 7 ||
           v == 8 || v == 9 || v == 10 || v == 11 || v == 12 || v == 13 || v == 14 || v == 15;
  }

  lemma VectorBits(a: bv4, b: bv4)
    ensures ((a & b) & 1) as int == 1 <==> (a & 1) as int == 1 && (b & 1) as int == 1
    ensures (((a & b) >> 1) & 1) as int == 1 <==> ((a >> 1) & 1) as int == 1 && ((b >> 1) & 1) as int == 1
    ensures (((a & b) >> 2) & 1) as int == 1 <==> ((a >> 2) & 1) as int == 1 && ((b >> 2) & 1) as int == 1
    ensures (((a & b) >> 3) & 1) as int == 1 <==> ((a >> 3) & 1) as int == 1 && ((b >> 3) & 1) as int == 1
    ensures ((a | b) & 1) as int == 1 <==> (a & 1) as int == 1 || (b & 1) as int == 1
    ensures (((a | b) >> 1) & 1) as int == 1 <==> ((a >> 1) & 1) as int == 1 || ((b >> 1) & 1) as int == 1
    ensures (((a | b) >> 2) & 1) as int == 1 <==> ((a >> 2) & 1) as int == 1 || ((b >> 2) & 1) as int == 1
    ensures (((a | b) >> 3) & 1) as int == 1 <==> ((a >> 3) & 1) as int == 1 || ((b >> 3) & 1) as int == 1
  {
  }

  lemma OpIs(x: int, y: int)
    requires 0 <= x < 16 && 0 <= y < 16
    ensures (x as bv4) as int == x && (y as bv4) as int == y
    ensures NibAnd(x, y) == ((x as bv4) & (y as bv4)) as int && NibOr(x, y) == ((x as bv4) | (y as bv4)) as int
  {
    hide *;
    ToBitsAndBack(x);
    ToBitsAndBack(y);
    AndIs(x, y);
    OrIs(x, y);
  }

  lemma ToBitsAndBack(x: int)
    requires 0 <= x < 16
    ensures (x as bv4) as int == x
  {
  }

  lemma AndIs(x: int, y: int)
    requires 0 <= x < 16 && 0 <= y < 16
    ensures NibAnd(x, y) == ((x as bv4) & (y as bv4)) as int
  {
    hide NibOr;
  }

  lemma OrIs(x: int, y: int)
    requires 0 <= x < 16 && 0 <= y < 16
    ensures NibOr(x, y) == ((x as bv4) | (y as bv4)) as int
  {
    hide NibAnd;
  }

  lemma NibOpIs(or: bool, x: int, y: int)
    requires 0 <= x < 16 && 0 <= y < 16
    ensures NibOp(or, x, y) == if or then NibOr(x, y) else NibAnd(x, y)
  {
    hide NibOr, NibAnd;
  }

  /** And and or of nibbles, bit by bit. */
  lemma OpBits(or: bool, x: int, y: int, k: nat)
    requires 0 <= x < 16 && 0 <= y < 16 && k < 4
    ensures Bit(NibOp(or, x, y), k) == 1 <==>
              if or then Bit(x, k) == 1 || Bit(y, k) == 1 else Bit(x, k) == 1 && Bit(y, k) == 1
  {
    hide *;
    OpIs(x, y);
    BitsOf(x as bv4, x);
    BitsOf(y as bv4, y);
    VectorBits(x as bv4, y as bv4);
    NibOpIs(or, x, y);
    if or { BitsOf((x as bv4) | (y as bv4), NibOr(x, y)); } else { BitsOf((x as bv4) & (y as bv4), NibAnd(x, y)); }
    assert k == 0 || k == 1 || k == 2 || k == 3;
  }

  lemma MapBits(or: bool, a: seq<int>, b: seq<int>)
    requires |a| == |b| && Below(a, 16) && Below(b, 16)
    ensures Bitwise(MapNibs(or, a, b), a, b, or)
  {
    hide Bit, NibOp;
    var r := MapNibs(or, a, b);
    forall i, k | 0 <= i < |r| && 0 <= k < 4
      ensures Bit(r[i], k) == 1 <==> if or then Bit(a[i], k) == 1 || Bit(b[i], k) == 1
                                       else Bit(a[i], k) == 1 && Bit(b[i], k) == 1
    {
      OpBits(or, a[i], b[i], k);
    }
  }

  lemma LogicMeans(c: Core, x: char, y: char, f: nat, or: bool)
    requires Sound(c, f) && Named(x) && Named(y)
    ensures Meaning(if or then Or(x, y) else And(x, y), c, After(c, Logic(or, RegNamed(x), RegNamed(y), f)), f)
  {
    var d, a, b := After(c, Logic(or, RegNamed(x), RegNamed(y), f)), Part(c, x, f), Part(c, y, f);
    hide CoreOk, Below, Value, Pow, MapNibs, Bitwise, SetField, FieldOf, Part, Only, After;
    hide Digital4, Get, GetStart, GetEnd;
    Parts(c, x, f);
    Parts(c, y, f);
    AfterLogic(c, RegNamed(x), RegNamed(y), f, or);
    MapBits(or, a, b);
    var v := MapNibs(or, a, b);
    SetSticky(c, RegNamed(x), f, v);
    SetMeans(c, d, x, f, v);
  }

  lemma AfterSwap(c: Core, r: Reg, q: Reg, f: nat)
    requires CoreOk(c) && f < 19 && r != q
    ensures |FieldOf(c, q, f)| == |FieldOf(c, r, f)|
    ensures var m := SetField(c, r, f, FieldOf(c, q, f));
            CoreOk(m) && CoreOk(After(c, Exchange(r, q, f))) && |FieldOf(c, r, f)| == |FieldOf(m, q, f)| &&
            After(c, Exchange(r, q, f)) == SetField(m, q, f, FieldOf(c, r, f))
  {
    AfterIs(c, Exchange(r, q, f));
    FieldOk(c, q, f);
    SetFieldOk(c, r, f, FieldOf(c, q, f));
    SetSticky(c, r, f, FieldOf(c, q, f));
    hide CoreOk, After, FieldOf, GetStart, GetEnd, Patch;
  }

  lemma SwapMeans(c: Core, x: char, y: char, f: nat)
    requires Sound(c, f) && Named(x) && Named(y) && x != y
    ensures Meaning(Swap(x, y), c, After(c, Exchange(RegNamed(x), RegNamed(y), f)), f)
  {
    var d, a, b := After(c, Exchange(RegNamed(x), RegNamed(y), f)), Part(c, x, f), Part(c, y, f);
    hide CoreOk, Below, Value, Pow, SetField, FieldOf, Part, Only, After, Digital4, Get, GetStart, GetEnd;
    NamedRegs(x, y);
    Parts(c, x, f);
    Parts(c, y, f);
    AfterSwap(c, RegNamed(x), RegNamed(y), f);
    var m := SetField(c, RegNamed(x), f, b);
    SetSticky(c, RegNamed(x), f, b);
    SetMeans(c, m, x, f, b);
    SetSticky(m, RegNamed(y), f, a);
    SetMeans(m, d, y, f, a);
    OtherPart(m, d, y, x, f);
    assert Only(c, m, x, f) && Only(m, d, y, f);
  }

  lemma OtherPart(m: Core, d: Core, y: char, x: char, f: nat)
    requires Only(m, d, y, f) && Named(x) && x != y && Sound(d, f)
    ensures Part(d, x, f) == Part(m, x, f)
  {
    hide CoreOk, GetStart, GetEnd;
  }

  // ------------------------------------------------------------ one instruction

  /** The nibbles at the program counter. */
  ghost predicate At(s: Saturn, w: seq<int>)
  {
    Ok(s) && Nibbles(w) && w == Window(s.core.mem, s.flow.pc)
  }

  lemma AtOk(s: Saturn, w: seq<int>)
    requires At(s, w)
    ensures Ok(s) && CoreOk(s.core) && Nibbles(w) && Fetch(s) == DecodeAt(w)
  {
    FetchIsDecode(s);
    hide CoreOk, Fetch, DecodeAt, Window;
  }

  lemma ExecSimply(s: Saturn, d: Data, len: nat)
    requires CoreOk(s.core) && DataOk(d)
    ensures InstrOk(Inline(d, len).i)
    ensures Exec(s, Inline(d, len)) == Saturn(After(s.core, d), s.flow.(pc := s.flow.pc + len))
  {
    hide CoreOk, DataStep, DataOk;
  }

  lemma FetchedData(s: Saturn, d: Data, len: nat)
    requires CoreOk(s.core) && Fetch(s) == Inline(d, len)
    ensures DataOk(d)
    ensures StepOf(s) == (Exec(s, Inline(d, len)), false)
  {
    hide CoreOk, Fetch, DataOk, Exec;
  }

  /** An instruction that involves neither the program counter nor the stack. */
  lemma Simply(s: Saturn, w: seq<int>, d: Data, len: nat)
    requires At(s, w) && DecodeAt(w) == Inline(d, len)
    ensures CoreOk(s.core) && CoreOk(After(s.core, d))
    ensures StepOf(s) == (Saturn(After(s.core, d), s.flow.(pc := s.flow.pc + len)), false)
  {
    hide *;
    AtOk(s, w);
    FetchedData(s, d, len);
    ExecSimply(s, d, len);
    AfterIs(s.core, d);
  }

  predicate Arithmetic(e: Equation)
  {
    e.Plus? || e.Minus? || e.PlusOne? || e.MinusOne? || e.NegMinusOne?
  }

  lemma EquationMeans(c: Core, e: Equation, f: nat)
    requires Sound(c, f) && Written(e) && (Arithmetic(e) ==> Digital4(c, f))
    ensures Meaning(e, c, After(c, DataOf(e, f)), f)
  {
    hide Sound, Digital4, Meaning, After;
    match e
    case Plus(x, _, z) => PlusMeans(c, x, z, f);
    case Minus(x, y, z) => MinusMeans(c, x, y, z, f);
    case PlusOne(x) => PlusOneMeans(c, x, f);
    case MinusOne(x) => MinusOneMeans(c, x, f);
    case NegMinusOne(x) => NegMinusOneMeans(c, x, f);
    case Cleared(x) => ClearedMeans(c, x, f);
    case Is(x, y) => IsMeans(c, x, y, f);
    case Swap(x, y) => SwapMeans(c, x, y, f);
    case Left(x) => LeftMeans(c, x, f);
    case Right(x) => RightMeans(c, x, f);
    case And(x, y) => LogicMeans(c, x, y, f, false);
    case Or(x, y) => LogicMeans(c, x, y, f, true);
  }

  /**
   What is listed is what happens: the processor leaves numbers that satisfy the listed
   equation, everything else as it was, and the program counter past the instruction.  Only a
   negation is listed as something else; it leaves the negative.
   */
  lemma ListingHolds(s: Saturn, w: seq<int>)
    requires At(s, w) && Listed(w)
    requires Arithmetic(ListingOf(w)) ==> Digital4(s.core, FieldAt(w))
    ensures var (t, stop) := StepOf(s);
            !stop && t.flow == s.flow.(pc := s.flow.pc + Length(w)) &&
            if Negation(w) then Negated(s.core, t.core, ListingOf(w).x, FieldAt(w))
            else Meaning(ListingOf(w), s.core, t.core, FieldAt(w))
  {
    var e, f := ListingOf(w), FieldAt(w);
    Decodes(w);
    AtNibbles(s, w);
    hide *;
    NegationNamed(w);
    var d := if Negation(w) then Neg(RegNamed(e.x), f) else DataOf(e, f);
    Simply(s, w, d, Length(w));
    SoundHere(s, f);
    if Negation(w) { NegMeans(s.core, e.x, f); } else { EquationMeans(s.core, e, f); }
  }

  lemma AtNibbles(s: Saturn, w: seq<int>)
    requires At(s, w)
    ensures Nibbles(w)
  {
    hide CoreOk;
  }

  lemma NegationNamed(w: seq<int>)
    requires Nibbles(w) && Listed(w) && Written(ListingOf(w)) && (Negation(w) ==> ListingOf(w).MinusOne?)
    ensures Negation(w) ==> Arithmetic(ListingOf(w)) && ListingOf(w).MinusOne? && Named(ListingOf(w).x)
  {
    hide ListingOf;
  }

  lemma SoundHere(s: Saturn, f: nat)
    requires CoreOk(s.core) && f < 16
    ensures Sound(s.core, f)
  {
  }

  /** A negative is never one less: the listing is right exactly of everything but the negations. */
  lemma ListingRightExactly(s: Saturn, w: seq<int>)
    requires At(s, w) && Listed(w)
    requires Arithmetic(ListingOf(w)) ==> Digital4(s.core, FieldAt(w))
    ensures Meaning(ListingOf(w), s.core, StepOf(s).0.core, FieldAt(w)) <==> !Negation(w)
  {
    hide *;
    ListingHolds(s, w);
    AtOk(s, w);
    Decodes(w);
    NegationNamed(w);
    if Negation(w) { NotOneLess(s.core, StepOf(s).0.core, ListingOf(w).x, FieldAt(w)); }
  }

  lemma NotOneLess(c: Core, d: Core, x: char, f: nat)
    requires Negated(c, d, x, f)
    ensures !Meaning(MinusOne(x), c, d, f)
  {
    hide Num, Places, Pow, Only, Fits;
  }

  // ------------------------------------------------------------------------ tests

  // The tests' tables: relations, and the registers compared.
  const IN_9: seq<string> := ["=", "#", "=", "#", ">", "<", ">=", "<="]
  const OP_9_X := "ABCD"
  const OP_9_Y := "BCAC"

  /** ?x rel y, where y may be the letter 0. */
  datatype Question = Question(x: char, rel: string, y: char)

  predicate Asks(w: seq<int>)
    requires Nibbles(w)
  {
    w[0] == 9 || (w[0] == 8 && 10 <= w[1] <= 11)
  }

  /** The relations of the second half of a group compare the order. */
  function HalfOf(w: seq<int>): nat
    requires Nibbles(w) && Asks(w)
  {
    if w[0] == 8 then (if w[1] == 10 then 0 else 1) else if w[1] < 8 then 0 else 1
  }

  function QuestionOf(w: seq<int>): Question
    requires Nibbles(w) && Asks(w)
  {
    var c, n := HalfOf(w), w[2];
    Question(OP_9_X[n % 4], IN_9[n / 4 + 4 * c], if c == 0 && n >= 8 then '0' else OP_9_Y[n % 4])
  }

  function AskedField(w: seq<int>): nat
    requires Nibbles(w) && Asks(w)
  {
    if w[0] == 8 then 15 else w[1] % 8
  }

  /** The answer, between the numbers of the field in base 16. */
  ghost predicate Answer(q: Question, c: Core, f: nat)
  {
    var a, b := HexNum(c, q.x, f), if q.y == '0' then 0 else HexNum(c, q.y, f);
    if q.rel == "=" then a == b
    else if q.rel == "#" then a != b
    else if q.rel == ">" then a > b
    else if q.rel == "<" then a < b
    else if q.rel == ">=" then a >= b
    else a <= b
  }

  /** The decoder's test of the same registers. */
  function CondOf(q: Question, f: nat): Cond
  {
    if q.rel == "=" then (if q.y == '0' then Cond.Zero(RegNamed(q.x), f, true)
                          else Equal(RegNamed(q.x), RegNamed(q.y), f, true))
    else if q.rel == "#" then (if q.y == '0' then Cond.Zero(RegNamed(q.x), f, false)
                               else Equal(RegNamed(q.x), RegNamed(q.y), f, false))
    else if q.rel == ">" then Order(RegNamed(q.x), RegNamed(q.y), f, 0)
    else if q.rel == "<" then Order(RegNamed(q.x), RegNamed(q.y), f, 1)
    else if q.rel == ">=" then Order(RegNamed(q.x), RegNamed(q.y), f, 2)
    else Order(RegNamed(q.x), RegNamed(q.y), f, 3)
  }

  /** Two tests that differ at most in which register of an equality comes first. */
  predicate SameTest(t: Cond, u: Cond)
  {
    t == u || (t.Equal? && u.Equal? && t.f == u.f && t.eq == u.eq && t.a == u.b && t.b == u.a)
  }

  lemma EqualDecodes(k: nat, f: nat)
    requires k < 16
    ensures var q := Question(OP_9_X[k % 4], IN_9[k / 4], if k >= 8 then '0' else OP_9_Y[k % 4]);
            SameTest(EqualGroup(k, f), CondOf(q, f))
  {
    Sixteen(k);
  }

  lemma OrderDecodes(k: nat, f: nat)
    requires k < 16
    ensures OrderGroup(k, f) == CondOf(Question(OP_9_X[k % 4], IN_9[k / 4 + 4], OP_9_Y[k % 4]), f)
  {
    Sixteen(k);
  }

  predicate Sensible(q: Question)
  {
    Named(q.x) && (q.y == '0' || Named(q.y)) &&
    (q.rel == "=" || q.rel == "#" || (q.y != '0' && (q.rel == ">" || q.rel == "<" || q.rel == ">=" || q.rel == "<=")))
  }

  lemma SameNumbers(a: seq<int>, b: seq<int>)
    requires |a| == |b| && Below(a, 16) && Below(b, 16)
    ensures a == b <==> Value(a, 16) == Value(b, 16)
    ensures a == Zeros(|a|) <==> Value(a, 16) == 0
  {
    if Value(a, 16) == Value(b, 16) { ValueInjective(a, b, 16); }
    ZerosNum(|a|);
    if Value(a, 16) == 0 { ValueInjective(a, Zeros(|a|), 16); }
  }

  lemma NumbersCompare(c: Core, x: char, y: char, f: nat)
    requires Sound(c, f)
    ensures var a, b := FieldOf(c, RegNamed(x), f), FieldOf(c, RegNamed(y), f);
            |a| == |b| && (a == b <==> HexNum(c, x, f) == HexNum(c, y, f)) &&
            (a == Zeros(|a|) <==> HexNum(c, x, f) == 0) &&
            (Compare(a, b) < 0 <==> HexNum(c, x, f) < HexNum(c, y, f)) &&
            (Compare(a, b) > 0 <==> HexNum(c, x, f) > HexNum(c, y, f))
  {
    hide *;
    Parts(c, x, f);
    Parts(c, y, f);
    HexNumIs(c, x, f);
    HexNumIs(c, y, f);
    SameNumbers(Part(c, x, f), Part(c, y, f));
    CompareIsOrder(Part(c, x, f), Part(c, y, f), 16);
  }

  lemma HexNumIs(c: Core, x: char, f: nat)
    ensures HexNum(c, x, f) == Value(Part(c, x, f), 16)
  {
    hide Part, Value;
  }

  lemma CondMeans(c: Core, q: Question, t: Cond, f: nat)
    requires Sound(c, f) && Sensible(q) && SameTest(t, CondOf(q, f))
    ensures CondOk(t) && CoreOk(c) && (Holds(c, t) <==> Answer(q, c, f))
  {
    NumbersCompare(c, q.x, q.y, f);
    SoundParts(c, f);
    hide CoreOk, HexNum, RegNamed, Compare, Zeros, FieldOf, Get;
  }

  lemma SoundParts(c: Core, f: nat)
    requires Sound(c, f)
    ensures CoreOk(c) && f < 19 && c.P < 16 && forall r: Reg :: |Get(c, r)| == 16
  {
  }

  /** The numbers that two nibbles, three or four stand for as displacements. */
  function Displacement(w: seq<int>, at: nat, n: nat): int
    requires at + n <= |w| && 1 <= n
  {
    var v := Value(w[at..at + n], 16);
    if w[at + n - 1] >= 8 then v - Pow(16, n) else v
  }

  /** Where a test that holds goes: back to the caller for a zero displacement, else on by the displacement. */
  function YesFlow(f: Flow, w: seq<int>, at: nat): Flow
    requires at + 2 <= |w|
  {
    if Value(w[at..at + 2], 16) == 0 then
      if f.stack == [] then f.(pc := 0)
      else f.(pc := f.stack[|f.stack| - 1], stack := f.stack[..|f.stack| - 1])
    else f.(pc := (f.pc + at + Displacement(w, at, 2)) % 0x100000)
  }

  lemma SignedIs(w: seq<int>, at: nat, n: nat)
    requires at + n <= |w| && 1 <= n <= 5 && Below(w, 16)
    ensures Signed(Imm(w, at, n), n) == Displacement(w, at, n)
  {
    var a := w[at..at + n];
    var p := Pow(16, n - 1);
    assert Pow(16, n) == 16 * p;
    ValueLast(a, 16);
    ValueBound(a[..n - 1], 16);
    var v, d := Value(a[..n - 1], 16), a[n - 1];
    assert Value(a, 16) == v + p * d;
    HalfRange(p, v, d);
    hide Value, Pow;
  }

  lemma HalfRange(p: int, v: int, d: int)
    requires 0 <= v < p && 0 <= d < 16
    ensures 2 * (v + p * d) >= 16 * p <==> d >= 8
  {
    if d >= 8 { MulMono(p, 8, d); } else { MulMono(p, d, 7); }
  }

  lemma BranchIs(f: Flow, w: seq<int>, at: nat)
    requires at + 2 <= |w| && Below(w, 16)
    ensures Branch(f, at, Imm(w, at, 2)) == YesFlow(f, w, at)
  {
    SignedIs(w, at, 2);
    hide Signed, Displacement, Value;
  }

  lemma FetchedTest(s: Saturn, w: seq<int>, t: Cond, at: nat)
    requires CoreOk(s.core) && Nibbles(w) && at + 2 <= WINDOW && CondOk(t)
    requires Fetch(s) == Opcode(Test(t, Imm(w, at, 2)), at + 2)
    ensures StepOf(s) ==
            (if Holds(s.core, t) then Saturn(s.core.(CARRY := 1), YesFlow(s.flow, w, at))
             else Saturn(s.core.(CARRY := 0), s.flow.(pc := s.flow.pc + at + 2)), false)
  {
    hide CoreOk, Fetch, Holds, Branch, YesFlow, Imm, Nibbles, CondOk, DataOk;
    AllBelow(w);
    BranchIs(s.flow, w, at);
    TestRuns(s, t, at, Imm(w, at, 2));
  }

  lemma AllBelow(w: seq<int>)
    requires Nibbles(w)
    ensures |w| == WINDOW && Below(w, 16)
  {
    hide Below;
  }

  lemma TestRuns(s: Saturn, t: Cond, at: nat, off: int)
    requires CoreOk(s.core) && CondOk(t)
    ensures InstrOk(Test(t, off))
    ensures Exec(s, Opcode(Test(t, off), at + 2)) ==
            if Holds(s.core, t) then Saturn(s.core.(CARRY := 1), Branch(s.flow, at, off))
            else Saturn(s.core.(CARRY := 0), s.flow.(pc := s.flow.pc + at + 2))
  {
    hide CoreOk, Holds, Branch, CondOk, DataOk, StoreRun, LoadDown, DataStep;
  }

  lemma QuestionDecodes(w: seq<int>)
    requires Nibbles(w) && Asks(w)
    ensures Sensible(QuestionOf(w)) && AskedField(w) < 16
    ensures DecodeAt(w).i.Test? && DecodeAt(w) == Opcode(Test(DecodeAt(w).i.c, Imm(w, 3, 2)), 5)
    ensures SameTest(DecodeAt(w).i.c, CondOf(QuestionOf(w), AskedField(w)))
  {
    EqualDecodes(w[2], AskedField(w));
    OrderDecodes(w[2], AskedField(w));
    SensibleTables(w[2]);
    hide EqualGroup, OrderGroup, CondOf, SameTest, Imm, Sensible;
  }

  lemma SensibleTables(k: nat)
    requires k < 16
    ensures Sensible(Question(OP_9_X[k % 4], IN_9[k / 4], if k >= 8 then '0' else OP_9_Y[k % 4]))
    ensures Sensible(Question(OP_9_X[k % 4], IN_9[k / 4 + 4], OP_9_Y[k % 4]))
  {
    Sixteen(k);
  }

  /** Every test answers the question that is listed for it, and goes on or jumps accordingly. */
  lemma QuestionsAnswered(s: Saturn, w: seq<int>)
    requires At(s, w) && Asks(w)
    ensures var yes := Answer(QuestionOf(w), s.core, AskedField(w));
            StepOf(s) ==
              (if yes then Saturn(s.core.(CARRY := 1), YesFlow(s.flow, w, 3))
               else Saturn(s.core.(CARRY := 0), s.flow.(pc := s.flow.pc + 5)), false)
  {
    AtNibbles(s, w);
    hide *;
    AtOk(s, w);
    QuestionDecodes(w);
    SoundHere(s, AskedField(w));
    CondMeans(s.core, QuestionOf(w), DecodeAt(w).i.c, AskedField(w));
    FetchedTest(s, w, DecodeAt(w).i.c, 3);
  }
}
