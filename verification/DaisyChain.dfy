/**
 The memory controllers' daisy chain: CONFIG gives the next address in line to the first
 controller that still wants one, UNCNFG resets the first controller based at an address.
 */
module DaisyChain {

  const NR_MCTL := 6

  /** Addresses each controller takes; the last controller is hard-wired. */
  const CONF_TAB: seq<nat> := [1, 2, 2, 2, 2, 0]

  datatype Ctl = Ctl(unconfigured: nat, config0: int, config1: int)

  const HARDWIRED := Ctl(0, 0, 0)

  function Blank(i: nat): Ctl
    requires i < NR_MCTL
  {
    Ctl(CONF_TAB[i], 0, 0)
  }

  function Reset(): (m: seq<Ctl>)
    ensures |m| == NR_MCTL
  {
    seq(NR_MCTL, i requires 0 <= i < NR_MCTL => Blank(i))
  }

  /** A controller takes the mask first, at index 1, and the base last, at index 0. */
  function Feed(c: Ctl, conf: int): Ctl
    requires 1 <= c.unconfigured <= 2
  {
    if c.unconfigured == 1 then Ctl(0, conf, c.config1) else Ctl(1, c.config0, conf)
  }

  ghost predicate Shape(m: seq<Ctl>)
  {
    |m| == NR_MCTL && forall i :: 0 <= i < NR_MCTL ==> m[i].unconfigured <= CONF_TAB[i]
  }

  function Configure(m: seq<Ctl>, conf: int, from: nat := 0): (m': seq<Ctl>)
    requires Shape(m) && from <= NR_MCTL
    ensures Shape(m')
    decreases NR_MCTL - from
  {
    if from == NR_MCTL then m
    else if m[from].unconfigured != 0 then m[from := Feed(m[from], conf)]
    else Configure(m, conf, from + 1)
  }

  function Unconfigure(m: seq<Ctl>, conf: int, from: nat := 0): (m': seq<Ctl>)
    requires |m| == NR_MCTL && from <= NR_MCTL
    ensures |m'| == NR_MCTL
    decreases NR_MCTL - from
  {
    if from == NR_MCTL then m
    else if m[from].config0 == conf then m[from := Blank(from)]
    else Unconfigure(m, conf, from + 1)
  }

  class Controllers {
    var mem_cntl: array<Ctl>

    ghost predicate Valid()
      reads this, mem_cntl
    {
      mem_cntl.Length == NR_MCTL && Shape(mem_cntl[..])
    }

    constructor ()
      ensures Valid() && fresh(mem_cntl) && mem_cntl[..] == Reset()
    {
      mem_cntl := new Ctl[NR_MCTL](i requires 0 <= i < NR_MCTL => Blank(i));
    }

    method DoReset()
      requires Valid()
      modifies mem_cntl
      ensures Valid() && mem_cntl[..] == Reset()
    {
      for i := 0 to NR_MCTL
        invariant forall k :: 0 <= k < i ==> mem_cntl[k] == Blank(k)
      {
        mem_cntl[i] := Blank(i);
      }
    }

    method DoConfigure(conf: int)
      requires Valid()
      modifies mem_cntl
      ensures Valid() && mem_cntl[..] == Configure(old(mem_cntl[..]), conf)
    {
      ghost var m := mem_cntl[..];
      for i := 0 to NR_MCTL
        invariant mem_cntl[..] == m && Configure(m, conf) == Configure(m, conf, i)
      {
        if mem_cntl[i].unconfigured != 0 {
          mem_cntl[i] := Feed(mem_cntl[i], conf);
          return;
        }
      }
    }

    method DoUnconfigure(conf: int)
      requires Valid()
      modifies mem_cntl
      ensures Valid() && mem_cntl[..] == Unconfigure(old(mem_cntl[..]), conf)
    {
      ghost var m := mem_cntl[..];
      for i := 0 to NR_MCTL
        invariant mem_cntl[..] == m && Unconfigure(m, conf) == Unconfigure(m, conf, i)
      {
        if mem_cntl[i].config0 == conf {
          mem_cntl[i] := Blank(i);
          return;
        }
      }
    }
  }

  // ------------------------------------------------------------- reachable chains

  /** What every chain reachable from RESET satisfies. */
  ghost predicate Inv(m: seq<Ctl>)
  {
    Shape(m) && m[0].config1 == 0 && m[5] == HARDWIRED &&
    forall i :: 0 <= i < NR_MCTL ==>
      (m[i].config0 != 0 ==> m[i].unconfigured == 0) &&
      (m[i].unconfigured == CONF_TAB[i] && i != 5 ==> m[i] == Blank(i))
  }

  lemma {:induction false} FirstUnconfigured(m: seq<Ctl>, conf: int, from: nat) returns (i: nat)
    requires Shape(m) && from <= NR_MCTL
    ensures from <= i <= NR_MCTL && forall k :: from <= k < i ==> m[k].unconfigured == 0
    ensures i == NR_MCTL ==> Configure(m, conf, from) == m
    ensures i < NR_MCTL ==> m[i].unconfigured != 0 && Configure(m, conf, from) == m[i := Feed(m[i], conf)]
    decreases NR_MCTL - from
  {
    if from == NR_MCTL || m[from].unconfigured != 0 { i := from; } else { i := FirstUnconfigured(m, conf, from + 1); }
  }

  lemma {:induction false} FirstBased(m: seq<Ctl>, conf: int, from: nat) returns (i: nat)
    requires |m| == NR_MCTL && from <= NR_MCTL
    ensures from <= i <= NR_MCTL && forall k :: from <= k < i ==> m[k].config0 != conf
    ensures i == NR_MCTL ==> Unconfigure(m, conf, from) == m
    ensures i < NR_MCTL ==> m[i].config0 == conf && Unconfigure(m, conf, from) == m[i := Blank(i)]
    decreases NR_MCTL - from
  {
    if from == NR_MCTL || m[from].config0 == conf { i := from; } else { i := FirstBased(m, conf, from + 1); }
  }

  datatype Cmd = ConfigCmd(conf: int) | UncnfgCmd(base: int) | ResetCmd

  function Apply(m: seq<Ctl>, c: Cmd): seq<Ctl>
    requires Shape(m)
  {
    match c
    case ConfigCmd(v) => Configure(m, v)
    case UncnfgCmd(b) => Unconfigure(m, b)
    case ResetCmd => Reset()
  }

  lemma CommandKeepsInv(m: seq<Ctl>, c: Cmd)
    requires Inv(m)
    ensures Inv(Apply(m, c))
  {
    match c
    case ConfigCmd(v) => var i := FirstUnconfigured(m, v, 0);
    case UncnfgCmd(b) => var i := FirstBased(m, b, 0);
    case ResetCmd =>
  }

  ghost predicate Reachable(m: seq<Ctl>, cs: seq<Cmd>)
    decreases |cs|
  {
    if cs == [] then m == Reset()
    else exists p :: Shape(p) && Reachable(p, cs[..|cs| - 1]) && m == Apply(p, cs[|cs| - 1])
  }

  /** After any commands, a controller with a base is completely configured. */
  lemma {:induction false} BaseMeansConfigured(m: seq<Ctl>, cs: seq<Cmd>)
    requires Reachable(m, cs)
    ensures Inv(m)
    decreases |cs|
  {
    if cs != [] {
      var p :| Shape(p) && Reachable(p, cs[..|cs| - 1]) && m == Apply(p, cs[|cs| - 1]);
      BaseMeansConfigured(p, cs[..|cs| - 1]);
      CommandKeepsInv(p, cs[|cs| - 1]);
    }
  }

  // ---------------------------------------------------------- outstanding addresses

  function Outstanding(m: seq<Ctl>): nat
  {
    if m == [] then 0 else Outstanding(m[..|m| - 1]) + m[|m| - 1].unconfigured
  }

  lemma {:induction false} OutstandingUpdate(m: seq<Ctl>, i: nat, c: Ctl)
    requires i < |m|
    ensures Outstanding(m[i := c]) == Outstanding(m) - m[i].unconfigured + c.unconfigured
  {
    var n := |m| - 1;
    if i == n {
      assert m[i := c][..n] == m[..n];
    } else {
      assert m[i := c][..n] == m[..n][i := c];
      OutstandingUpdate(m[..n], i, c);
    }
  }

  lemma {:induction false} NoneOutstanding(m: seq<Ctl>)
    ensures Outstanding(m) == 0 <==> forall i :: 0 <= i < |m| ==> m[i].unconfigured == 0
  {
    if m != [] {
      NoneOutstanding(m[..|m| - 1]);
      assert forall i :: 0 <= i < |m| - 1 ==> m[..|m| - 1][i] == m[i];
    }
  }

  /** RESET asks for nine addresses, and each CONFIG answers exactly one until none is left. */
  lemma ConfigCountsDown(m: seq<Ctl>, conf: int)
    requires Shape(m)
    ensures Outstanding(Configure(m, conf)) == if Outstanding(m) == 0 then 0 else Outstanding(m) - 1
  {
    NoneOutstanding(m);
    var i := FirstUnconfigured(m, conf, 0);
    if i < NR_MCTL { OutstandingUpdate(m, i, Feed(m[i], conf)); }
  }

  lemma ResetAsksForNine()
    ensures Outstanding(Reset()) == 9
  {
    var m := Reset();
    assert m == [Blank(0), Blank(1), Blank(2), Blank(3), Blank(4), Blank(5)];
    assert m[..5][..4] == m[..4] && m[..4][..3] == m[..3] && m[..3][..2] == m[..2] && m[..2][..1] == m[..1];
    assert m[..1][..0] == [];
    assert Outstanding(m[..1]) == 1 && Outstanding(m[..2]) == 3 && Outstanding(m[..3]) == 5;
    assert Outstanding(m[..4]) == 7 && Outstanding(m[..5]) == 9;
  }

  // --------------------------------------------------- taking devices out and back

  /** The controllers of `out` reset, the others as in `m`. */
  function TakenOut(m: seq<Ctl>, out: set<nat>): (r: seq<Ctl>)
    requires |m| == NR_MCTL
    ensures |r| == NR_MCTL
  {
    seq(NR_MCTL, i requires 0 <= i < NR_MCTL => if i in out then Blank(i) else m[i])
  }

  function UnconfigureAll(m: seq<Ctl>, bases: seq<int>): (r: seq<Ctl>)
    requires |m| == NR_MCTL
    ensures |r| == NR_MCTL
    decreases |bases|
  {
    if bases == [] then m else UnconfigureAll(Unconfigure(m, bases[0]), bases[1..])
  }

  function ConfigureAll(m: seq<Ctl>, vs: seq<int>): seq<Ctl>
    requires Shape(m)
    decreases |vs|
  {
    if vs == [] then m else ConfigureAll(Configure(m, vs[0]), vs[1..])
  }

  /** The addresses that put the controllers of `out` back, in chain order: mask, then base. */
  function Refill(m: seq<Ctl>, out: set<nat>, from: nat): seq<int>
    requires |m| == NR_MCTL && from <= NR_MCTL
    decreases NR_MCTL - from
  {
    if from == NR_MCTL then []
    else if from !in out || CONF_TAB[from] == 0 then Refill(m, out, from + 1)
    else if CONF_TAB[from] == 1 then [m[from].config0] + Refill(m, out, from + 1)
    else [m[from].config1, m[from].config0] + Refill(m, out, from + 1)
  }

  /** Un-configuring by nonzero bases only ever takes whole controllers out. */
  lemma {:induction false} UnconfigureTakesOut(m: seq<Ctl>, bases: seq<int>, out: set<nat>) returns (out': set<nat>)
    requires |m| == NR_MCTL && 0 !in bases
    ensures out <= out' && UnconfigureAll(TakenOut(m, out), bases) == TakenOut(m, out')
    decreases |bases|
  {
    if bases == [] {
      out' := out;
    } else {
      var t := TakenOut(m, out);
      assert bases[0] in bases && forall b :: b in bases[1..] ==> b in bases;
      var i := FirstBased(t, bases[0], 0);
      var out1 := if i < NR_MCTL then out + {i} else out;
      assert Unconfigure(t, bases[0]) == TakenOut(m, out1);
      out' := UnconfigureTakesOut(m, bases[1..], out1);
    }
  }

  lemma {:induction false} RefillRestores(m: seq<Ctl>, out: set<nat>, from: nat, t: seq<Ctl>)
    requires Inv(m) && Outstanding(m) == 0 && from <= NR_MCTL && |t| == NR_MCTL
    requires forall i :: 0 <= i < NR_MCTL ==> t[i] == if i < from || i !in out then m[i] else Blank(i)
    ensures Shape(t) && ConfigureAll(t, Refill(m, out, from)) == m
    decreases NR_MCTL - from
  {
    NoneOutstanding(m);
    if from == NR_MCTL {
      assert t == m;
    } else if from !in out || CONF_TAB[from] == 0 {
      RefillRestores(m, out, from + 1, t);
    } else {
      var c0, c1, rest := m[from].config0, m[from].config1, Refill(m, out, from + 1);
      var t' := t[from := Ctl(0, c0, c1)];
      assert t'[from] == m[from];
      RefillRestores(m, out, from + 1, t');
      if CONF_TAB[from] == 1 {
        ConfigureAt(t, c0, from);
        assert Feed(t[from], c0) == Ctl(0, c0, c1) && ([c0] + rest)[1..] == rest;
      } else {
        FillOne(t, from, c1, c0);
        ConfigureAllSplit(t, [c1, c0], rest);
      }
    }
  }

  /**
   The ROM dumper's manoeuvre: in a fully configured reachable chain, take any devices out by
   their bases, then feed masks and bases back in chain order; the map is as it was.
   */
  lemma TakeOutAndRestore(m: seq<Ctl>, bases: seq<int>) returns (out: set<nat>)
    requires Inv(m) && Outstanding(m) == 0 && 0 !in bases
    ensures var t := UnconfigureAll(m, bases);
            t == TakenOut(m, out) && Shape(t) && ConfigureAll(t, Refill(m, out, 0)) == m
  {
    assert TakenOut(m, {}) == m;
    out := UnconfigureTakesOut(m, bases, {});
    RefillRestores(m, out, 0, TakenOut(m, out));
  }

  // ----------------------------------------------------------------- filling from RESET

  lemma ConfigureAt(m: seq<Ctl>, conf: int, i: nat)
    requires Shape(m) && i < NR_MCTL && m[i].unconfigured != 0
    requires forall k :: 0 <= k < i ==> m[k].unconfigured == 0
    ensures Configure(m, conf) == m[i := Feed(m[i], conf)]
  {
    var j := FirstUnconfigured(m, conf, 0);
    assert j == i;
  }

  /** The first controller that wants two addresses takes its size, then its base. */
  lemma FillOne(m: seq<Ctl>, i: nat, v: int, w: int)
    requires Shape(m) && 1 <= i < NR_MCTL - 1 && m[i] == Blank(i)
    requires forall k :: 0 <= k < i ==> m[k].unconfigured == 0
    ensures ConfigureAll(m, [v, w]) == m[i := Ctl(0, w, v)]
  {
    var m1, m2 := m[i := Ctl(1, 0, v)], m[i := Ctl(0, w, v)];
    ConfigureAt(m, v, i);
    ConfigureAt(m1, w, i);
    assert Configure(m, v) == m1 && Configure(m1, w) == m2;
    assert [v, w][1..] == [w] && [w][1..] == [];
    assert ConfigureAll(m2, []) == m2;
    assert ConfigureAll(m1, [w]) == ConfigureAll(m2, [w][1..]);
  }

  lemma {:induction false} ConfigureAllSplit(m: seq<Ctl>, vs: seq<int>, ws: seq<int>)
    requires Shape(m)
    ensures Shape(ConfigureAll(m, vs)) && ConfigureAll(m, vs + ws) == ConfigureAll(ConfigureAll(m, vs), ws)
    decreases |vs|
  {
    if vs == [] {
      assert vs + ws == ws;
    } else {
      assert (vs + ws)[1..] == vs[1..] + ws;
      ConfigureAllSplit(Configure(m, vs[0]), vs[1..], ws);
    }
  }

  /** The chain with its first `n` controllers filled from the addresses given. */
  function Filled(vs: seq<int>, n: nat): (m: seq<Ctl>)
    requires 1 <= n < NR_MCTL && |vs| >= 2 * n - 1
    ensures |m| == NR_MCTL
  {
    seq(NR_MCTL, i requires 0 <= i < NR_MCTL =>
      if i >= n then Blank(i) else if i == 0 then Ctl(0, vs[0], 0) else Ctl(0, vs[2 * i], vs[2 * i - 1]))
  }

  lemma FilledOk(vs: seq<int>, n: nat)
    requires 1 <= n < NR_MCTL - 1 && |vs| >= 2 * n - 1
    ensures var m := Filled(vs, n);
            Shape(m) && m[n] == Blank(n) && forall k :: 0 <= k < n ==> m[k].unconfigured == 0
  {
  }

  lemma FilledNext(us: seq<int>, v: int, w: int, n: nat)
    requires 2 <= n < NR_MCTL && |us| == 2 * n - 3
    ensures Filled(us, n - 1)[n - 1 := Ctl(0, w, v)] == Filled(us + [v, w], n)
  {
  }

  /** After RESET the CONFIGs fill the chain from its head: one address, then size and base of each of four. */
  lemma {:induction false} FillsInOrder(vs: seq<int>, n: nat)
    requires 1 <= n < NR_MCTL && |vs| == 2 * n - 1
    ensures ConfigureAll(Reset(), vs) == Filled(vs, n)
  {
    if n == 1 {
      ConfigureAt(Reset(), vs[0], 0);
      assert vs[1..] == [];
    } else {
      var us, v, w := vs[..|vs| - 2], vs[|vs| - 2], vs[|vs| - 1];
      hide Configure, Shape;
      FillsInOrder(us, n - 1);
      assert vs == us + [v, w];
      ConfigureAllSplit(Reset(), us, [v, w]);
      FilledOk(us, n - 1);
      FillOne(Filled(us, n - 1), n - 1, v, w);
      hide ConfigureAll;
      FilledNext(us, v, w, n);
    }
  }
}
