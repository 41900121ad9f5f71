/**
 The nibble-wise CRC of the memory controller: one step equals four bit steps of the
 reflected register for x^16 + x^12 + x^5 + 1 (the generator of section 2 of ITU-T V.41).

 Bit-vector facts are stated about single steps; what follows for strings of nibbles is proved
 for any step function with those facts.
 */
module Crc {

  function Step(crc: bv16, nib: bv16): bv16
  {
    (crc >> 4) ^ (((crc ^ nib) & 0xf) * 0x1081)
  }

  /** One bit, low bit first, of the reflected polynomial division. */
  function BitStep(crc: bv16, bit: bv16): bv16
  {
    if (crc ^ bit) & 1 == 1 then (crc >> 1) ^ 0x8408 else crc >> 1
  }

  /** The bit step with a multiplication in place of the condition. */
  function Masked(crc: bv16, bit: bv16): bv16
  {
    (crc >> 1) ^ (((crc ^ bit) & 1) * 0x8408)
  }

  lemma ZeroOrOne(x: bv16)
    ensures x & 1 == 0 || x & 1 == 1
  {
  }

  lemma MaskedSet(crc: bv16, y: bv16)
    requires y == 1
    ensures (crc >> 1) ^ (y * 0x8408) == (crc >> 1) ^ 0x8408
  {
  }

  lemma MaskedClear(crc: bv16, y: bv16)
    requires y == 0
    ensures (crc >> 1) ^ (y * 0x8408) == crc >> 1
  {
  }

  lemma BitIsMasked(crc: bv16, bit: bv16)
    ensures BitStep(crc, bit) == Masked(crc, bit)
  {
    var y := (crc ^ bit) & 1;
    ZeroOrOne(crc ^ bit);
    if y == 1 { MaskedSet(crc, y); } else { MaskedClear(crc, y); }
  }

  lemma MaskedIsStep(crc: bv16, nib: bv16)
    ensures Masked(Masked(Masked(Masked(crc, nib), nib >> 1), nib >> 2), nib >> 3) == Step(crc, nib)
  {
  }

  lemma StepIsFourBits(crc: bv16, nib: bv16)
    ensures Step(crc, nib) ==
            BitStep(BitStep(BitStep(BitStep(crc, nib), nib >> 1), nib >> 2), nib >> 3)
  {
    hide *;
    var c1 := BitStep(crc, nib);
    var c2 := BitStep(c1, nib >> 1);
    var c3 := BitStep(c2, nib >> 2);
    BitIsMasked(crc, nib);
    BitIsMasked(c1, nib >> 1);
    BitIsMasked(c2, nib >> 2);
    BitIsMasked(c3, nib >> 3);
    MaskedIsStep(crc, nib);
  }

  lemma InjectiveInState(c: bv16, d: bv16, nib: bv16)
    requires Step(c, nib) == Step(d, nib)
    ensures c == d
  {
  }

  lemma InjectiveInNibble(c: bv16, m: bv16, n: bv16)
    requires Step(c, m) == Step(c, n)
    ensures m & 0xf == n & 0xf
  {
  }

  /** Only the low four bits of an input count. */
  predicate Same(m: bv16, n: bv16)
  {
    m & 0xf == n & 0xf
  }

  /** The difference of two states has at least `k` clear nibbles at the top. */
  predicate Close(k: nat, c: bv16, d: bv16)
  {
    Within(k, c ^ d)
  }

  /** Equal states are close; stepping back loses one nibble of closeness. */
  lemma EqualIsClose(k: nat, c: bv16)
    ensures Close(k, c, c)
  {
    assert c ^ c == 0;
  }

  /** A state difference with a clear top nibble comes from the same difference one nibble higher. */
  lemma BackDifference(c: bv16, d: bv16, m: bv16, n: bv16, before: bv16, after: bv16)
    requires before == c ^ d && after == Step(c, m) ^ Step(d, n)
    ensures after <= 0xff ==> before <= 0xfff
    ensures after <= 0xf ==> before <= 0xff
    ensures after == 0 ==> before <= 0xf
  {
  }

  predicate Within(k: nat, diff: bv16)
  {
    match k
    case 0 => true
    case 1 => diff <= 0xfff
    case 2 => diff <= 0xff
    case 3 => diff <= 0xf
    case _ => diff == 0
  }

  lemma BackStep(k: nat, c: bv16, d: bv16, m: bv16, n: bv16)
    requires 1 <= k <= 4 && Close(k, Step(c, m), Step(d, n))
    ensures Close(k - 1, c, d)
  {
    var before, after := c ^ d, Step(c, m) ^ Step(d, n);
    BackDifference(c, d, m, n, before, after);
    Retreat(k, before, after);
  }

  lemma Retreat(k: nat, before: bv16, after: bv16)
    requires 1 <= k <= 4 && Within(k, after)
    requires after <= 0xff ==> before <= 0xfff
    requires after <= 0xf ==> before <= 0xff
    requires after == 0 ==> before <= 0xf
    ensures Within(k - 1, before)
  {
  }

  lemma CloseTells(k: nat, c: bv16, m: bv16, n: bv16)
    requires 1 <= k <= 4 && Close(k, Step(c, m), Step(c, n))
    ensures Same(m, n) && Step(c, m) == Step(c, n)
  {
  }

  // ------------------------------------------------------- strings, for any step

  /** The state after a string of inputs. */
  function Fold<S, N>(step: (S, N) -> S, s: S, ns: seq<N>): S
  {
    if ns == [] then s else step(Fold(step, s, ns[..|ns| - 1]), ns[|ns| - 1])
  }

  lemma {:induction false} FoldAppend<S, N>(step: (S, N) -> S, s: S, a: seq<N>, b: seq<N>)
    ensures Fold(step, s, a + b) == Fold(step, Fold(step, s, a), b)
  {
    if b == [] {
      assert a + b == a;
    } else {
      var n := |b| - 1;
      assert (a + b)[..|a + b| - 1] == a + b[..n];
      FoldAppend(step, s, a, b[..n]);
    }
  }

  ghost predicate Injective<S(!new), N(!new)>(step: (S, N) -> S)
  {
    forall s, t, n :: step(s, n) == step(t, n) ==> s == t
  }

  lemma {:induction false} FoldInjective<S(!new), N(!new)>(step: (S, N) -> S, s: S, t: S, ns: seq<N>)
    requires Injective(step) && Fold(step, s, ns) == Fold(step, t, ns)
    ensures s == t
  {
    if ns != [] { FoldInjective(step, s, t, ns[..|ns| - 1]); }
  }

  ghost predicate Retreats<S(!new), N(!new)>(step: (S, N) -> S, close: (nat, S, S) -> bool)
  {
    forall k, s, t, m, n :: 1 <= k <= 4 && close(k, step(s, m), step(t, n)) ==> close(k - 1, s, t)
  }

  ghost predicate Tells<S(!new), N(!new)>(step: (S, N) -> S, close: (nat, S, S) -> bool, same: (N, N) -> bool)
  {
    forall k, s, m, n :: 1 <= k <= 4 && close(k, step(s, m), step(s, n)) ==> same(m, n) && step(s, m) == step(s, n)
  }

  ghost predicate AllSame<N>(same: (N, N) -> bool, a: seq<N>, b: seq<N>)
  {
    |a| == |b| && forall i :: 0 <= i < |a| ==> same(a[i], b[i])
  }

  /** From one state, at most four inputs that end in close states were the same inputs. */
  lemma {:induction false} ShortStrings<S(!new), N(!new)>(step: (S, N) -> S, close: (nat, S, S) -> bool,
      same: (N, N) -> bool, s: S, a: seq<N>, b: seq<N>)
    requires Retreats(step, close) && Tells(step, close, same)
    requires |a| == |b| <= 4 && close(|a|, Fold(step, s, a), Fold(step, s, b))
    ensures AllSame(same, a, b) && Fold(step, s, a) == Fold(step, s, b)
  {
    if a != [] {
      var n := |a| - 1;
      ShortStrings(step, close, same, s, a[..n], b[..n]);
      forall i | 0 <= i < |a| ensures same(a[i], b[i]) {
        if i < n { assert a[i] == a[..n][i] && b[i] == b[..n][i]; }
      }
    }
  }

  // ------------------------------------------------------------------ detection

  lemma StepFacts()
    ensures Injective(Step) && Retreats(Step, Close) && Tells(Step, Close, Same)
  {
    forall s, t, n | Step(s, n) == Step(t, n) ensures s == t { InjectiveInState(s, t, n); }
    forall k, s, t, m, n | 1 <= k <= 4 && Close(k, Step(s, m), Step(t, n)) ensures Close(k - 1, s, t) {
      BackStep(k, s, t, m, n);
    }
    forall k, s, m, n | 1 <= k <= 4 && Close(k, Step(s, m), Step(s, n))
      ensures Same(m, n) && Step(s, m) == Step(s, n)
    {
      CloseTells(k, s, m, n);
    }
  }

  /** A change confined to at most four consecutive nibbles of a string is always detected. */
  lemma BurstDetected(crc: bv16, pre: seq<bv16>, a: seq<bv16>, b: seq<bv16>, post: seq<bv16>)
    requires |a| == |b| <= 4 && !AllSame(Same, a, b)
    ensures Fold(Step, crc, pre + a + post) != Fold(Step, crc, pre + b + post)
  {
    StepFacts();
    FoldAppend(Step, crc, pre + a, post);
    FoldAppend(Step, crc, pre + b, post);
    FoldAppend(Step, crc, pre, a);
    FoldAppend(Step, crc, pre, b);
    if Fold(Step, crc, pre + a + post) == Fold(Step, crc, pre + b + post) {
      FoldInjective(Step, Fold(Step, crc, pre + a), Fold(Step, crc, pre + b), post);
      EqualIsClose(|a|, Fold(Step, crc, pre + a));
      ShortStrings(Step, Close, Same, Fold(Step, crc, pre), a, b);
    }
  }
}
