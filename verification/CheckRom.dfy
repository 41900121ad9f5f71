/**
 The ROM check: per 0x80000-nibble block, a CRC over an interleaved walk (16 nibbles from the
 lower half, 16 from the upper, in turn) that must end in 0xffff.
 */
module CheckRom {
  import opened Crc

  const BLOCK := 0x80000
  const HALF := 0x40000

  /** Address visited at step `j` of the walk over block `b`. */
  function WalkAddr(b: nat, j: nat): (a: nat)
    requires j < BLOCK
    ensures b * BLOCK <= a < (b + 1) * BLOCK
  {
    b * BLOCK + j / 32 * 16 + (if j % 32 < 16 then j % 32 else HALF + j % 32 - 16)
  }

  /** The step at which the walk visits an address. */
  function WalkIndex(a: nat): (j: nat)
    ensures j < BLOCK
  {
    var o := a % BLOCK;
    if o < HALF then o / 16 * 32 + o % 16 else (o - HALF) / 16 * 32 + 16 + o % 16
  }

  lemma WalkInBlock(b: nat, j: nat)
    requires j < BLOCK
    ensures WalkAddr(b, j) % BLOCK == WalkAddr(0, j) && WalkAddr(b, j) / BLOCK == b
  {
  }

  lemma IndexOfAddr(b: nat, j: nat)
    requires j < BLOCK
    ensures WalkIndex(WalkAddr(b, j)) == j
  {
    WalkInBlock(b, j);
  }

  lemma AddrOfIndex(b: nat, a: nat)
    requires b * BLOCK <= a < (b + 1) * BLOCK
    ensures WalkAddr(b, WalkIndex(a)) == a
  {
    assert a - b * BLOCK == a % BLOCK;
  }

  /** The walk visits every nibble of its block exactly once. */
  lemma WalkVisitsOnce(b: nat, a: nat, j: nat)
    requires b * BLOCK <= a < (b + 1) * BLOCK && j < BLOCK
    ensures WalkAddr(b, j) == a <==> j == WalkIndex(a)
  {
    IndexOfAddr(b, j);
    AddrOfIndex(b, a);
    hide WalkAddr, WalkIndex;
  }

  /** The first `k` nibbles of the walk. */
  function Walk(rom: seq<bv16>, b: nat, k: nat): (w: seq<bv16>)
    requires k <= BLOCK && (b + 1) * BLOCK <= |rom|
    ensures |w| == k
  {
    seq(k, j requires 0 <= j < k => rom[WalkAddr(b, j)])
  }

  function BlockCrc(rom: seq<bv16>, b: nat): bv16
    requires (b + 1) * BLOCK <= |rom|
  {
    Fold(Step, 0, Walk(rom, b, BLOCK))
  }

  ghost predicate Passes(rom: seq<bv16>)
  {
    forall b :: 0 <= b < |rom| / BLOCK ==> BlockCrc(rom, b) == 0xffff
  }

  /** The device window is not part of the ROM. */
  function Cleared(rom: seq<bv16>): (r: seq<bv16>)
    requires 0x140 <= |rom|
    ensures |r| == |rom|
  {
    seq(|rom|, i requires 0 <= i < |rom| => if 0x100 <= i < 0x140 then 0 else rom[i])
  }

  lemma WalkNext(rom: seq<bv16>, b: nat, k: nat)
    requires k < BLOCK && (b + 1) * BLOCK <= |rom|
    ensures Fold(Step, 0, Walk(rom, b, k + 1)) == Step(Fold(Step, 0, Walk(rom, b, k)), rom[WalkAddr(b, k)])
  {
    assert Walk(rom, b, k + 1)[..k] == Walk(rom, b, k);
  }

  lemma WalkRun(b: nat, k: nat, i: nat)
    requires k % 16 == 0 && i < 16 && k + 16 <= BLOCK
    ensures WalkAddr(b, k + i) == WalkAddr(b, k) + i
  {
  }

  lemma WalkTurns(b: nat, q: nat)
    requires q <= 0x3fff
    ensures 32 * q + 32 <= BLOCK && 32 * q % 16 == (32 * q + 16) % 16 == 0
    ensures WalkAddr(b, 32 * q) == b * BLOCK + 16 * q
    ensures WalkAddr(b, 32 * q + 16) == b * BLOCK + HALF + 16 * q
  {
    DivMod32(q, 0);
    DivMod32(q, 16);
  }

  lemma DivMod32(q: nat, x: nat)
    requires x == 0 || x == 16
    ensures (32 * q + x) / 32 == q && (32 * q + x) % 32 == x && (32 * q + x) % 16 == 0
  {
    if x == 16 { assert 32 * q + x == 16 * (2 * q + 1); } else { assert 32 * q == 16 * (2 * q); }
  }

  /** Sixteen nibbles from one half. */
  method Run16(rom: array<bv16>, crc0: bv16, d: nat, ghost r: seq<bv16>, ghost b: nat, ghost k: nat)
    returns (crc: bv16)
    requires rom[..] == r && (b + 1) * BLOCK <= |r| && k % 16 == 0 && k + 16 <= BLOCK
    requires crc0 == Fold(Step, 0, Walk(r, b, k)) && d == WalkAddr(b, k)
    ensures crc == Fold(Step, 0, Walk(r, b, k + 16))
  {
    hide Step, Fold;
    crc := crc0;
    for i := 0 to 16
      invariant crc == Fold(Step, 0, Walk(r, b, k + i))
    {
      WalkRun(b, k, i);
      WalkNext(r, b, k + i);
      assert rom[d + i] == r[d + i];
      crc := Step(crc, rom[d + i]);
    }
  }

  /** The walk over one block. */
  method WalkBlock(rom: array<bv16>, D0: nat, D1: nat, ghost r: seq<bv16>, ghost b: nat) returns (crc: bv16)
    requires rom[..] == r && (b + 1) * BLOCK <= |r| && D0 == b * BLOCK && D1 == D0 + HALF
    ensures crc == BlockCrc(r, b)
  {
    crc := 0;
    var d0, d1, c := D0, D1, 0x3fff;
    ghost var q := 0;
    while c >= 0
      invariant -1 <= c <= 0x3fff && q == 0x3fff - c
      invariant d0 == D0 + 16 * q && d1 == D1 + 16 * q
      invariant crc == Fold(Step, 0, Walk(r, b, 32 * q))
    {
      WalkTurns(b, q);
      crc := Run16(rom, crc, d0, r, b, 32 * q);
      d0 := d0 + 16;
      crc := Run16(rom, crc, d1, r, b, 32 * q + 16);
      d1 := d1 + 16;
      c := c - 1;
      q := q + 1;
    }
  }

  /** The device window reads as zeros. */
  method ClearWindow(rom: array<bv16>)
    requires 0x140 <= rom.Length
    modifies rom
    ensures rom[..] == Cleared(old(rom[..]))
  {
    for i := 0x100 to 0x140
      invariant forall k :: 0 <= k < rom.Length ==> rom[k] == if 0x100 <= k < i then 0 else old(rom[k])
    {
      rom[i] := 0;
    }
  }

  method CheckRom(rom: array<bv16>) returns (fail: nat)
    requires 0x140 <= rom.Length
    modifies rom
    ensures rom[..] == Cleared(old(rom[..]))
    ensures fail == 0 <==> Passes(rom[..])
  {
    ClearWindow(rom);
    ghost var r := rom[..];
    fail := 0;
    var D0, D1, d, blocks := 0, HALF, 1, rom.Length / BLOCK;
    while d <= blocks
      invariant 1 <= d <= blocks + 1 && D0 == (d - 1) * BLOCK && D1 == D0 + HALF
      invariant rom[..] == r
      invariant fail == 0 <==> forall b :: 0 <= b < d - 1 ==> BlockCrc(r, b) == 0xffff
    {
      var crc := WalkBlock(rom, D0, D1, r, d - 1);
      D0, D1 := D0 + BLOCK, D1 + BLOCK;
      var bad := Bad(crc);
      if bad { fail := fail + 1; }
      d := d + 1;
    }
  }

  /** The register with its complement bits set, plus one, must vanish in 20 bits. */
  method Bad(crc: bv16) returns (bad: bool)
    ensures bad <==> crc != 0xffff
  {
    var a: bv20 := (crc as bv20 | 0xf0000) + 1;
    bad := a != 0;
  }

  // ------------------------------------------------------------------ detection

  /** `r` and `q` differ, in their low four bits, at some of the walk's steps from `j` to `j + k`, and nowhere else. */
  ghost predicate DifferWithin(r: seq<bv16>, q: seq<bv16>, b: nat, j: nat, k: nat)
    requires (b + 1) * BLOCK <= |r| == |q|
  {
    var v, w := Walk(r, b, BLOCK), Walk(q, b, BLOCK);
    j + k <= BLOCK && v[..j] == w[..j] && v[j + k..] == w[j + k..] && !AllSame(Same, v[j..j + k], w[j..j + k])
  }

  /** A change confined to at most four consecutive nibbles of a block's walk fails the check. */
  lemma BurstFails(r: seq<bv16>, q: seq<bv16>, b: nat, j: nat, k: nat)
    requires b < |r| / BLOCK && |q| == |r| && Passes(r)
    requires k <= 4 && DifferWithin(r, q, b, j, k)
    ensures !Passes(q)
  {
    var v, w := Walk(r, b, BLOCK), Walk(q, b, BLOCK);
    assert v == v[..j] + v[j..j + k] + v[j + k..];
    assert w == w[..j] + w[j..j + k] + w[j + k..];
    assert w == v[..j] + w[j..j + k] + v[j + k..];
    BurstDetected(0, v[..j], v[j..j + k], w[j..j + k], v[j + k..]);
    assert BlockCrc(r, b) == 0xffff && BlockCrc(q, b) == Fold(Step, 0, w);
  }

  lemma OneDifference(v: seq<bv16>, w: seq<bv16>, j: nat)
    requires j < |v| == |w| && !Same(v[j], w[j]) && forall i :: 0 <= i < |v| && i != j ==> v[i] == w[i]
    ensures v[..j] == w[..j] && v[j + 1..] == w[j + 1..] && !AllSame(Same, v[j..j + 1], w[j..j + 1])
  {
    hide Same;
    assert v[j..j + 1][0] == v[j] && w[j..j + 1][0] == w[j];
  }

  /** Changing any one nibble of the ROM, outside the device window, makes a passing ROM fail. */
  lemma OneNibbleFails(rom: seq<bv16>, a: nat, x: bv16)
    requires 0x140 <= |rom| && a < |rom| / BLOCK * BLOCK && !(0x100 <= a < 0x140)
    requires !Same(rom[a], x) && Passes(Cleared(rom))
    ensures !Passes(Cleared(rom[a := x]))
  {
    var r, q, b, j := Cleared(rom), Cleared(rom[a := x]), a / BLOCK, WalkIndex(a);
    var v, w := Walk(r, b, BLOCK), Walk(q, b, BLOCK);
    forall i | 0 <= i < BLOCK ensures v[i] == if i == j then rom[a] else w[i] { WalkVisitsOnce(b, a, i); }
    WalkVisitsOnce(b, a, j);
    OneDifference(v, w, j);
    BurstFails(r, q, b, j, 1);
  }
}
