/**
 Interrupt delivery: one level of masking, one pending keyboard interrupt, and a return
 instruction that chains into the pending one.
 */
module Interrupts {
  import opened ReturnStack

  const VECTOR := 0xf

  datatype Flow = Flow(pc: int, stack: seq<int>, enabled: bool, pending: bool)

  function KbdInt(f: Flow): Flow
  {
    if f.enabled then Flow(VECTOR, Push(f.stack, f.pc), false, f.pending) else f.(pending := true)
  }

  function Interrupt(f: Flow): Flow
  {
    if f.enabled then Flow(VECTOR, Push(f.stack, f.pc), false, f.pending) else f
  }

  function Rti(f: Flow): Flow
  {
    if f.pending then f.(pc := VECTOR, enabled := false, pending := false)
    else var (s, a) := Pop(f.stack); Flow(a, s, true, false)
  }

  /** SHUTDN re-arms the interrupt system when the OUT register is zero. */
  function Shutdown(f: Flow, outZero: bool): Flow
  {
    if outZero then f.(enabled := true, pending := false) else f
  }

  class Control {
    var PC: int
    const rstack: Stack
    var intenable: bool
    var int_pending: bool
    var kbd_ien: bool
    var interrupt_called: bool
    const rows: array<int>

    ghost predicate Valid()
      reads this, rstack
    {
      rstack.Valid() && rows.Length == 9 && rows as object != rstack.rstk
    }

    ghost function View(): Flow
      requires Valid()
      reads this, rstack, rstack.rstk
    {
      Flow(PC, rstack.Contents(), intenable, int_pending)
    }

    constructor ()
      ensures Valid() && View() == Flow(0, [], true, false)
    {
      PC, intenable, int_pending, kbd_ien, interrupt_called := 0, true, false, true, false;
      rstack := new Stack();
      rows := new int[9](_ => 0);
    }

    method DoKbdInt()
      requires Valid()
      modifies `PC, `intenable, `int_pending, `interrupt_called, rstack`rstkp, rstack.rstk
      ensures Valid() && View() == KbdInt(old(View())) && interrupt_called
    {
      interrupt_called := true;
      if intenable {
        rstack.PushReturnAddr(PC);
        PC := VECTOR;
        intenable := false;
      } else {
        int_pending := true;
      }
    }

    method DoInterrupt()
      requires Valid()
      modifies `PC, `intenable, `interrupt_called, rstack`rstkp, rstack.rstk
      ensures Valid() && View() == Interrupt(old(View())) && interrupt_called
    {
      interrupt_called := true;
      if intenable {
        rstack.PushReturnAddr(PC);
        PC := VECTOR;
        intenable := false;
      }
    }

    method DoReturnInterrupt()
      requires Valid()
      modifies `PC, `intenable, `int_pending, rstack`rstkp
      ensures Valid() && View() == Rti(old(View()))
    {
      if int_pending {
        int_pending := false;
        intenable := false;
        PC := VECTOR;
      } else {
        PC := rstack.PopReturnAddr();
        intenable := true;
      }
    }

    /** RSI: a key held down raises the keyboard interrupt again. */
    method DoResetInterruptSystem()
      requires Valid()
      modifies this, rstack`rstkp, rstack.rstk
      ensures Valid() && kbd_ien
      ensures View() == if exists i :: 0 <= i < 9 && old(rows[i]) != 0 then KbdInt(old(View())) else old(View())
    {
      kbd_ien := true;
      var gen := false;
      for i := 0 to 9
        invariant !gen && forall k :: 0 <= k < i ==> rows[k] == 0
      {
        if rows[i] != 0 {
          gen := true;
          break;
        }
      }
      if gen { DoKbdInt(); }
    }
  }

  // ------------------------------------------------------------------------ runs

  datatype Event =
    | Move(pc: int)
    | Kbd
    | Device
    | Gosub(ret: int, target: int)
    | Rtn
    | RtiOp
    | Shutdn(outZero: bool)

  function Do(f: Flow, e: Event): Flow
  {
    match e
    case Move(a) => f.(pc := a)
    case Kbd => KbdInt(f)
    case Device => Interrupt(f)
    case Gosub(r, t) => f.(pc := t, stack := Push(f.stack, r))
    case Rtn => var (s, a) := Pop(f.stack); f.(pc := a, stack := s)
    case RtiOp => Rti(f)
    case Shutdn(z) => Shutdown(f, z)
  }

  function RunEvents(f: Flow, es: seq<Event>): Flow
    decreases |es|
  {
    if es == [] then f else RunEvents(Do(f, es[0]), es[1..])
  }

  lemma {:induction false} RunAppend(f: Flow, a: seq<Event>, b: seq<Event>)
    ensures RunEvents(f, a + b) == RunEvents(RunEvents(f, a), b)
    decreases |a|
  {
    if a == [] {
      assert a + b == b;
    } else {
      assert (a + b)[1..] == a[1..] + b;
      RunAppend(Do(f, a[0]), a[1..], b);
    }
  }

  /** A pending interrupt is only ever remembered while interrupts are masked. */
  lemma {:induction false} PendingMeansMasked(f: Flow, es: seq<Event>)
    requires f.pending ==> !f.enabled
    ensures var g := RunEvents(f, es); g.pending ==> !g.enabled
    decreases |es|
  {
    if es != [] { PendingMeansMasked(Do(f, es[0]), es[1..]); }
  }

  predicate Quiet(e: Event)
  {
    e != RtiOp && e != Shutdn(true)
  }

  lemma {:induction false} StaysPending(f: Flow, es: seq<Event>)
    requires f.pending && !f.enabled && forall e :: e in es ==> Quiet(e)
    ensures var g := RunEvents(f, es); g.pending && !g.enabled
    decreases |es|
  {
    if es != [] {
      assert Quiet(es[0]);
      StaysPending(Do(f, es[0]), es[1..]);
    }
  }

  /**
   A keyboard interrupt that arrives while masked is delivered by the next RTI: control goes
   to the vector, nothing is popped, and interrupts stay masked for the second handler.
   */
  lemma PendingIsDelivered(f: Flow, es: seq<Event>)
    requires !f.enabled && forall e :: e in es ==> Quiet(e)
    ensures var g, h := RunEvents(f, [Kbd] + es), RunEvents(f, [Kbd] + es + [RtiOp]);
            h == Flow(VECTOR, g.stack, false, false)
  {
    RunAppend(f, [Kbd], es);
    assert RunEvents(f, [Kbd]) == RunEvents(Do(f, Kbd), [Kbd][1..]);
    StaysPending(KbdInt(f), es);
    RunAppend(f, [Kbd] + es, [RtiOp]);
    var g := RunEvents(f, [Kbd] + es);
    assert RunEvents(g, [RtiOp]) == RunEvents(Do(g, RtiOp), [RtiOp][1..]);
  }

  /** SHUTDN with OUT zero is the one way to lose it. */
  lemma ShutdownDiscards(f: Flow)
    requires !f.enabled
    ensures RunEvents(f, [Kbd, Shutdn(true)]) == f.(enabled := true, pending := false)
  {
    var es := [Kbd, Shutdn(true)];
    assert es[1..] == [Shutdn(true)] && es[1..][1..] == [];
    assert RunEvents(f, es) == RunEvents(Do(f, Kbd), es[1..]);
    assert RunEvents(Do(f, Kbd), es[1..]) == RunEvents(Do(Do(f, Kbd), Shutdn(true)), es[1..][1..]);
  }

  // -------------------------------------------------------- chains of handlers

  /** A handler body: calls and returns nest within `room` levels, `d` of them open; interrupts may arrive. */
  predicate Handler(es: seq<Event>, d: nat, room: nat)
  {
    if es == [] then d == 0
    else
      match es[0]
      case Move(_) => Handler(es[1..], d, room)
      case Kbd => Handler(es[1..], d, room)
      case Device => Handler(es[1..], d, room)
      case Gosub(_, _) => d < room && Handler(es[1..], d + 1, room)
      case Rtn => d > 0 && Handler(es[1..], d - 1, room)
      case _ => false
  }

  lemma {:induction false} HandlerIsBalanced(f: Flow, es: seq<Event>, bottom: seq<int>, room: nat)
    requires !f.enabled && bottom <= f.stack && |bottom| + room <= NR_RSTK
    requires |f.stack| - |bottom| <= room && Handler(es, |f.stack| - |bottom|, room)
    ensures var g := RunEvents(f, es);
            g.stack == bottom && !g.enabled && (g.pending <==> f.pending || Kbd in es)
    decreases |es|
  {
    if es != [] {
      var f' := Do(f, es[0]);
      assert bottom <= f'.stack;
      HandlerIsBalanced(f', es[1..], bottom, room);
      assert es == [es[0]] + es[1..];
    }
  }

  function Chain(hs: seq<seq<Event>>): seq<Event>
  {
    if hs == [] then [] else hs[0] + [RtiOp] + Chain(hs[1..])
  }

  /** Handlers that follow one another: a key arrives during each but the last. */
  predicate Chained(hs: seq<seq<Event>>, room: nat)
  {
    hs != [] && Handler(hs[0], 0, room) &&
    (if |hs| == 1 then Kbd !in hs[0] else Kbd in hs[0] && Chained(hs[1..], room))
  }

  lemma {:induction false} ChainUnwinds(f: Flow, hs: seq<seq<Event>>, bottom: seq<int>, pc: int, room: nat)
    requires Chained(hs, room) && f.stack == bottom + [pc] && !f.enabled && !f.pending
    requires |bottom| + 1 + room <= NR_RSTK
    ensures RunEvents(f, Chain(hs)) == Flow(pc, bottom, true, false)
    decreases |hs|
  {
    HandlerIsBalanced(f, hs[0], f.stack, room);
    var g := RunEvents(f, hs[0]);
    var h := Do(g, RtiOp);
    assert RunEvents(g, [RtiOp]) == RunEvents(h, [RtiOp][1..]);
    RunAppend(f, hs[0], [RtiOp]);
    RunAppend(f, hs[0] + [RtiOp], Chain(hs[1..]));
    if |hs| == 1 {
      assert h.stack == bottom;
    } else {
      assert h == Flow(VECTOR, bottom + [pc], false, false);
      ChainUnwinds(h, hs[1..], bottom, pc, room);
    }
  }

  /**
   However many keyboard interrupts arrive while earlier ones are being served, the chain
   occupies one return-stack slot, and the RTI that unmasks resumes the interrupted program.
   */
  lemma ChainUsesOneSlot(f: Flow, first: Event, hs: seq<seq<Event>>, room: nat)
    requires first == Kbd || first == Device
    requires f.enabled && !f.pending && Chained(hs, room) && |f.stack| + 1 + room <= NR_RSTK
    ensures RunEvents(f, [first] + Chain(hs)) == f
  {
    RunAppend(f, [first], Chain(hs));
    assert RunEvents(f, [first]) == RunEvents(Do(f, first), [first][1..]);
    ChainUnwinds(KbdInt(f), hs, f.stack, f.pc, room);
  }
}
