/**
 Transfers between registers, the status word, the pointers and the program counter, as loops
 over the nibbles or bits in place, each proved to be the function the processor model uses.
 */
module Transfers {
  import opened Digits
  import opened Fields
  import opened Instructions
  import opened Machine

  ghost predicate Nibs(r: array<int>)
    reads r
  {
    r.Length == 16 && Below(r[..], 16)
  }

  ghost predicate Flags(st: array<int>)
    reads st
  {
    st.Length == 16 && Below(st[..], 2)
  }

  /** Bit k of nibble j of the twelve status bits. */
  function BitAt(r: seq<int>, i: nat): int
    requires |r| == 16 && i < 12
  {
    Bit(r[i / 4], i % 4)
  }

  /** ST=C */
  method RegisterToStatus(st: array<int>, r: array<int>)
    requires Flags(st) && Nibs(r) && st != r
    modifies st
    ensures st[..] == Low(old(st[..]), StatusBits(r[..]))
  {
    for i := 0 to 12
      invariant forall k :: 0 <= k < 12 ==> st[k] == if k < i then BitAt(r[..], k) else old(st[k])
      invariant forall k :: 12 <= k < 16 ==> st[k] == old(st[k])
    {
      st[i] := Bit(r[i / 4], i % 4);
    }
  }

  /** Twelve bits placed one by one make the three nibbles. */
  lemma NibblesOfBits(r: seq<int>, st: seq<int>)
    requires |r| == 16 && Below(r, 16) && |st| == 16
    requires forall k :: 0 <= k < 12 ==> BitAt(r, k) == st[k]
    ensures r[..3] == StatusNibbles(st)
  {
    StatusNibbleIs(r, st, 0);
    StatusNibbleIs(r, st, 1);
    StatusNibbleIs(r, st, 2);
    hide BitAt, StatusNibble;
  }

  lemma StatusNibbleIs(r: seq<int>, st: seq<int>, j: nat)
    requires |r| == 16 && Below(r, 16) && |st| == 16 && j < 3
    requires BitAt(r, 4 * j) == st[4 * j] && BitAt(r, 4 * j + 1) == st[4 * j + 1]
    requires BitAt(r, 4 * j + 2) == st[4 * j + 2] && BitAt(r, 4 * j + 3) == st[4 * j + 3]
    ensures r[j] == StatusNibble(st, j)
  {
    BitsOfNibbleAt(r, j);
    hide BitAt;
  }

  lemma BitsOfNibbleAt(r: seq<int>, j: nat)
    requires |r| == 16 && Below(r, 16) && j < 3
    ensures r[j] == BitAt(r, 4 * j) + 2 * BitAt(r, 4 * j + 1) + 4 * BitAt(r, 4 * j + 2) + 8 * BitAt(r, 4 * j + 3)
  {
    BitsOfNibble(r[j]);
    assert 4 * j / 4 == j && (4 * j + 1) / 4 == j && (4 * j + 2) / 4 == j && (4 * j + 3) / 4 == j;
    hide Bit;
  }

  /** One bit put in its place: the others stay. */
  lemma PlaceBit(r: seq<int>, i: nat, v: int, k: nat)
    requires |r| == 16 && Below(r, 16) && i < 12 && k < 12 && 0 <= v <= 1
    ensures var r' := r[i / 4 := WithBit(r[i / 4], i % 4, v)];
            Below(r', 16) && BitAt(r', k) == if k == i then v else BitAt(r, k)
  {
    WithBitOk(r[i / 4], i % 4, v, k % 4);
    hide Bit, WithBit;
  }

  lemma PlaceBitAmongAll(r: seq<int>, i: nat, v: int)
    requires |r| == 16 && Below(r, 16) && i < 12 && 0 <= v <= 1
    ensures var r' := r[i / 4 := WithBit(r[i / 4], i % 4, v)];
            Below(r', 16) && forall k :: 0 <= k < 12 ==> BitAt(r', k) == if k == i then v else BitAt(r, k)
  {
    var r' := r[i / 4 := WithBit(r[i / 4], i % 4, v)];
    forall k | 0 <= k < 12 ensures Below(r', 16) && BitAt(r', k) == if k == i then v else BitAt(r, k) {
      PlaceBit(r, i, v, k);
    }
    PlaceBit(r, i, v, 0);
  }

  /** C=ST */
  method StatusToRegister(st: array<int>, r: array<int>)
    requires Flags(st) && Nibs(r) && st != r
    modifies r
    ensures r[..] == Low(old(r[..]), StatusNibbles(st[..]))
  {
    ghost var s := st[..];
    hide WithBit, Bit, BitAt, StatusNibbles, Low;
    for i := 0 to 12
      invariant Nibs(r) && st[..] == s
      invariant forall k :: 0 <= k < i ==> BitAt(r[..], k) == s[k]
      invariant forall k :: 3 <= k < 16 ==> r[k] == old(r[k])
    {
      ghost var q := r[..];
      PlaceBitAmongAll(q, i, s[i]);
      r[i / 4] := WithBit(r[i / 4], i % 4, st[i]);
      assert r[..] == q[i / 4 := WithBit(q[i / 4], i % 4, s[i])];
    }
    NibblesOfBits(r[..], s);
    LowIs(old(r[..]), r[..], StatusNibbles(s));
  }

  lemma LowIs(old_: seq<int>, r: seq<int>, v: seq<int>)
    requires |v| <= |r| == |old_| && r[..|v|] == v && forall k :: |v| <= k < |r| ==> r[k] == old_[k]
    ensures r == Low(old_, v)
  {
  }

  /** CSTEX */
  method SwapRegisterStatus(st: array<int>, r: array<int>)
    requires Flags(st) && Nibs(r) && st != r
    modifies st, r
    ensures st[..] == Low(old(st[..]), StatusBits(old(r[..])))
    ensures r[..] == Low(old(r[..]), StatusNibbles(old(st[..])))
  {
    ghost var s, t := st[..], r[..];
    for i := 0 to 12
      invariant Nibs(r) && Flags(st)
      invariant forall k :: 0 <= k < i ==> BitAt(r[..], k) == s[k] && st[k] == BitAt(t, k)
      invariant forall k :: i <= k < 12 ==> BitAt(r[..], k) == BitAt(t, k)
      invariant forall k :: i <= k < 16 ==> st[k] == s[k]
      invariant forall k :: 3 <= k < 16 ==> r[k] == t[k]
    {
      ghost var q := r[..];
      PlaceBitAmongAll(q, i, s[i]);
      var tmp := st[i];
      st[i] := Bit(r[i / 4], i % 4);
      assert st[i] == BitAt(q, i);
      hide WithBit, Bit, BitAt;
      r[i / 4] := WithBit(r[i / 4], i % 4, tmp);
      assert r[..] == q[i / 4 := WithBit(q[i / 4], i % 4, s[i])];
    }
    NibblesOfBits(r[..], s);
  }

  lemma SwapStrings(r: seq<int>, st: seq<int>)
    requires RegOk(r) && |st| == 16 && Below(st, 2)
    ensures var r', st' := Low(r, StatusNibbles(st)), Low(st, StatusBits(r));
            |r'| == |st'| == 16 && Low(r', StatusNibbles(st')) == r && Low(st', StatusBits(r')) == st
  {
    var r', st' := Low(r, StatusNibbles(st)), Low(st, StatusBits(r));
    forall i | 0 <= i < 12 ensures StatusBits(r')[i] == st[i] { BitOfStatus(r, st, i); }
    forall j | 0 <= j < 3 ensures StatusNibbles(st')[j] == r[j] { StatusOfBits(r, st', j); }
    hide Bit, StatusBits, StatusNibbles, StatusNibble;
  }

  /** Exchanging C and the status word twice restores both. */
  lemma SwapTwice(c: Core)
    requires CoreOk(c)
    ensures var d := StatusStep(c, SwapSt); CoreOk(d) && StatusStep(d, SwapSt) == c
  {
    StatusKeepsOk(c, SwapSt);
    SwapStrings(c.C, c.ST);
    hide Low, StatusBits, StatusNibbles;
  }

  lemma BitOfStatus(r: seq<int>, st: seq<int>, i: nat)
    requires |r| == 16 && |st| == 16 && Below(st, 2) && i < 12
    ensures BitAt(Low(r, StatusNibbles(st)), i) == st[i]
  {
    var j := i / 4;
    NibbleOfBits(st[4 * j], st[4 * j + 1], st[4 * j + 2], st[4 * j + 3]);
    hide Bit;
    assert i == 4 * j + i % 4;
  }

  lemma StatusOfBits(r: seq<int>, st: seq<int>, j: nat)
    requires |r| == 16 && Below(r, 16) && |st| == 16 && st[..12] == StatusBits(r) && j < 3
    ensures StatusNibble(st, j) == r[j]
  {
    BitsOfNibble(r[j]);
    var b := StatusBits(r);
    assert st[4 * j] == b[4 * j] && st[4 * j + 1] == b[4 * j + 1] && st[4 * j + 2] == b[4 * j + 2] &&
           st[4 * j + 3] == b[4 * j + 3];
    assert 4 * j / 4 == j && (4 * j + 1) / 4 == j && (4 * j + 2) / 4 == j && (4 * j + 3) / 4 == j;
  }

  /** LC and LA: digits go in from position P on, wrapping past the top of the register. */
  method LoadConstant(reg: array<int>, p0: nat, v: seq<int>)
    requires reg.Length == 16 && p0 < 16
    modifies reg
    ensures reg[..] == Wrap(old(reg[..]), p0, v)
  {
    var p := p0;
    ghost var r := reg[..];
    for i := 0 to |v|
      invariant p == (p0 + i) % 16 && reg[..] == Wrap(r, p0, v[..i])
    {
      assert v[..i + 1][..i] == v[..i];
      reg[p] := v[i];
      p := (p + 1) % 16;
    }
    assert v[..|v|] == v;
  }

  /** The address field as a number. */
  method DatToAddr(dat: array<int>) returns (addr: int)
    requires dat.Length >= 5
    ensures addr == Addr(dat[..])
  {
    addr := 0;
    var i := 5;
    hide Value;
    ValueNone(16);
    assert dat[5..5] == [];
    while i > 0
      invariant 0 <= i <= 5 && addr == Value(dat[i..5], 16)
    {
      i := i - 1;
      ValueCons(dat[i], dat[i + 1..5], 16);
      assert [dat[i]] + dat[i + 1..5] == dat[i..5];
      addr := addr * 16 + dat[i];
    }
    assert dat[0..5] == dat[..][..5];
  }

  /** The low five nibbles of an address into the address field. */
  method AddrToDat(addr0: int, dat: array<int>)
    requires dat.Length >= 5
    modifies dat
    ensures dat[..] == Low(old(dat[..]), Split(addr0, 16, 5))
  {
    var addr := addr0;
    ghost var full, done := Split(addr0, 16, 5), [];
    assert [] + full == full;
    hide Split;
    for i := 0 to 5
      invariant |done| == i && done + Split(addr, 16, 5 - i) == full
      invariant forall k :: 0 <= k < dat.Length ==> dat[k] == if k < i then done[k] else old(dat[k])
    {
      SplitNext(done, addr, 16, 5 - i);
      dat[i] := addr % 16;
      done := done + [addr % 16];
      addr := addr / 16;
    }
    SplitNone(addr, 16);
    assert done + [] == done;
  }
}
