/**
 The interrupt protocol of the whole machine: every run of instructions and outside events is,
 as far as the flow of control goes, a run of the protocol's own events, so what is proved of
 those holds of the machine.
 */
module Handlers {
  import opened ReturnStack
  import opened Interrupts
  import opened Fields
  import opened Instructions
  import opened Memory
  import opened Machine
  import opened Step

  // ------------------------------------------------------- instructions as protocol events

  /** The interrupts that a run of stores raises. */
  function StoreEvents(s: Saturn, addr: int, v: seq<int>): seq<Interrupts.Event>
    requires CoreOk(s.core)
    decreases |v|
  {
    if v == [] then []
    else
      var n := |v| - 1;
      var p := StoreRun(s, addr, v[..n]);
      StoreEvents(s, addr, v[..n]) +
      (if Where(p, addr + n) == Cell.Device(CARD_CONTROL) && Bit(Nib(v[n]), 0) == 1 then [Interrupts.Device] else [])
  }

  /** A zero displacement returns. */
  function BranchEvents(f: Flow, base: int, off: int): seq<Interrupts.Event>
  {
    if off == 0 then [Rtn] else [Move(Branch(f, base, off).pc)]
  }

  function ExecEvents(s: Saturn, op: Opcode): seq<Interrupts.Event>
    requires CoreOk(s.core) && InstrOk(op.i)
  {
    var c, f := s.core, s.flow;
    var next := Advance(f, op.len);
    match op.i
    case Illegal => []
    case Return(_, _) => [Rtn]
    case ReturnInt => [RtiOp]
    case PushC => [Gosub(Addr(c.C), next.pc)]
    case PopC => [Rtn, Move(next.pc)]
    case Store(d, src, fld) => [Move(next.pc)] + StoreEvents(Saturn(c, next), GetD(c, d), FieldOf(c, src, fld))
    case StoreN(d, src, n) => [Move(next.pc)] + StoreEvents(Saturn(c, next), GetD(c, d), Get(c, src)[..n])
    case Jump(disp) => [Move(Goto(f, disp).pc)]
    case JumpTo(a) => [Move(a)]
    case Call(disp) => [Gosub(f.pc + op.len, Goto(f, disp).pc)]
    case CallTo(a) => [Gosub(f.pc + op.len, a)]
    case JumpCarry(on, off) => if c.CARRY == on then BranchEvents(f, 1, off) else [Move(next.pc)]
    case Test(t, off) => if Holds(c, t) then BranchEvents(f, op.len - 2, off) else [Move(next.pc)]
    case JumpInd(r) => [Move(Digits.Value(LoadDown(c.mem, Addr(Get(c, r)), 5).1, 16))]
    case JumpReg(r) => [Move(Addr(Get(c, r)))]
    case ExchPc(r) => [Move(Addr(Get(c, r)))]
    case ResetInt => [Move(next.pc)] + (if exists i :: 0 <= i < 9 && c.rows[i] != 0 then [Kbd] else [])
    case _ => [Move(next.pc)]
  }

  function EventsOf(s: Saturn, e: Step.Event): seq<Interrupts.Event>
    requires CoreOk(s.core)
  {
    match e
    case Tick => ExecEvents(s, Fetch(s))
    case KeyInt => [Kbd]
    case DeviceInt => [Interrupts.Device]
    case Wake => [Interrupts.Shutdn(Digits.Value(s.core.OUT, 16) == 0)]
    case _ => []
  }

  /** The protocol events of a run of the machine. */
  function Trace(s: Saturn, es: seq<Step.Event>): seq<Interrupts.Event>
    requires Ok(s)
    decreases |es|
  {
    if es == [] then []
    else
      var n := |es| - 1;
      Trace(s, es[..n]) + EventsOf(Step.Run(s, es[..n]), es[n])
  }

  // ------------------------------------------------------------------ the projection

  lemma RunOne(f: Flow, e: Interrupts.Event)
    ensures RunEvents(f, [e]) == Do(f, e)
  {
    assert [e][1..] == [] && RunEvents(Do(f, e), []) == Do(f, e);
  }

  lemma RunTwo(f: Flow, d: Interrupts.Event, e: Interrupts.Event)
    ensures RunEvents(f, [d, e]) == Do(Do(f, d), e)
  {
    assert [d, e][1..] == [e];
    RunOne(Do(f, d), e);
  }

  lemma {:induction false} StoreProjects(s: Saturn, addr: int, v: seq<int>)
    requires CoreOk(s.core)
    ensures RunEvents(s.flow, StoreEvents(s, addr, v)) == StoreRun(s, addr, v).flow
    decreases |v|
  {
    hide CoreOk, MemOk, Memory.Store, StoreCellOf, Bit, Interrupt, Do;
    if v != [] {
      var n := |v| - 1;
      var p := StoreRun(s, addr, v[..n]);
      StoreProjects(s, addr, v[..n]);
      StoreRunNext(s, addr, v);
      hide StoreRun;
      var last := StoreEvents(s, addr, v)[|StoreEvents(s, addr, v[..n])|..];
      RunAppend(s.flow, StoreEvents(s, addr, v[..n]), last);
      PutProjects(p, addr + n, v[n]);
      RunOne(p.flow, Interrupts.Device);
    }
  }

  lemma PutProjects(s: Saturn, addr: int, v: int)
    requires CoreOk(s.core)
    ensures PutNib(s, addr, v).flow ==
              if Where(s, addr) == Cell.Device(CARD_CONTROL) && Bit(Nib(v), 0) == 1
              then Do(s.flow, Interrupts.Device) else s.flow
  {
    CoreMem(s.core);
    hide CoreOk, MemOk, Memory.Store, StoreCellOf, Bit;
  }

  lemma BranchProjects(f: Flow, base: int, off: int)
    ensures RunEvents(f, BranchEvents(f, base, off)) == Branch(f, base, off)
  {
    RunOne(f, Rtn);
    RunOne(f, Move(Branch(f, base, off).pc));
  }

  /** Instructions that go on, jump or test. */
  predicate Moves(i: Instr)
  {
    i.Trap? || i.Nop? || i.Simple? || i.Jump? || i.JumpTo? || i.JumpInd? || i.JumpReg? || i.RegFromPc? || i.ExchPc?
  }

  lemma MoveProjects(s: Saturn, op: Opcode)
    requires CoreOk(s.core) && InstrOk(op.i) && Moves(op.i)
    ensures RunEvents(s.flow, ExecEvents(s, op)) == Exec(s, op).flow
  {
    assert forall r: Reg :: |Get(s.core, r)| == 16;
    hide CoreOk, DataStep, LoadDown, Set, Get, Low, Addr, Digits.Split, Digits.Value, RunEvents;
    RunOne(s.flow, Move(Exec(s, op).flow.pc));
  }

  lemma TestProjects(s: Saturn, op: Opcode)
    requires CoreOk(s.core) && InstrOk(op.i) && (op.i.JumpCarry? || op.i.Test?)
    ensures RunEvents(s.flow, ExecEvents(s, op)) == Exec(s, op).flow
  {
    hide CoreOk, Holds, Branch, BranchEvents, RunEvents;
    RunOne(s.flow, Move(s.flow.pc + op.len));
    match op.i
    case JumpCarry(_, off) => BranchProjects(s.flow, 1, off);
    case Test(_, off) => BranchProjects(s.flow, op.len - 2, off);
  }

  lemma StackProjects(s: Saturn, op: Opcode)
    requires CoreOk(s.core) && InstrOk(op.i)
    requires op.i.Return? || op.i.PushC? || op.i.PopC? || op.i.Call? || op.i.CallTo?
    ensures RunEvents(s.flow, ExecEvents(s, op)) == Exec(s, op).flow
  {
    var c, f := s.core, s.flow;
    var next := f.pc + op.len;
    assert |c.C| == 16;
    hide CoreOk, Low, Addr, Digits.Split, RunEvents;
    match op.i
    case Return(_, _) => RunOne(f, Rtn);
    case PushC => RunOne(f, Gosub(Addr(c.C), next));
    case PopC => RunTwo(f, Rtn, Move(next));
    case Call(disp) => RunOne(f, Gosub(next, Goto(f, disp).pc));
    case CallTo(a) => RunOne(f, Gosub(next, a));
  }

  lemma InterruptProjects(s: Saturn, op: Opcode)
    requires CoreOk(s.core) && InstrOk(op.i) && (op.i.Illegal? || op.i.ReturnInt? || op.i.ResetInt?)
    ensures RunEvents(s.flow, ExecEvents(s, op)) == Exec(s, op).flow
  {
    var f, next := s.flow, s.flow.pc + op.len;
    hide CoreOk;
    match op.i
    case Illegal =>
    case ReturnInt => RunOne(f, RtiOp);
    case ResetInt => RunOne(f, Move(next)); RunTwo(f, Move(next), Kbd);
  }

  lemma StoreOpProjects(s: Saturn, op: Opcode)
    requires CoreOk(s.core) && InstrOk(op.i) && (op.i.Store? || op.i.StoreN?)
    ensures RunEvents(s.flow, ExecEvents(s, op)) == Exec(s, op).flow
  {
    var c := s.core;
    assert c.P < 16 && |Get(c, op.i.src)| == 16;
    hide CoreOk, StoreRun, StoreEvents, FieldOf, Get, GetD, RunEvents;
    match op.i
    case Store(d, src, fld) => StoresProject(s, op, GetD(c, d), FieldOf(c, src, fld));
    case StoreN(d, src, n) => StoresProject(s, op, GetD(c, d), Get(c, src)[..n]);
  }

  lemma ExecProjects(s: Saturn, op: Opcode)
    requires CoreOk(s.core) && InstrOk(op.i)
    ensures RunEvents(s.flow, ExecEvents(s, op)) == Exec(s, op).flow
  {
    hide CoreOk, Exec, ExecEvents, RunEvents, InstrOk;
    var i := op.i;
    if Moves(i) { MoveProjects(s, op); }
    else if i.JumpCarry? || i.Test? { TestProjects(s, op); }
    else if i.Store? || i.StoreN? { StoreOpProjects(s, op); }
    else if i.Illegal? || i.ReturnInt? || i.ResetInt? { InterruptProjects(s, op); }
    else { StackProjects(s, op); }
  }

  lemma StoresProject(s: Saturn, op: Opcode, addr: int, v: seq<int>)
    requires CoreOk(s.core)
    ensures var t := Saturn(s.core, Advance(s.flow, op.len));
            RunEvents(s.flow, [Move(t.flow.pc)] + StoreEvents(t, addr, v)) == StoreRun(t, addr, v).flow
  {
    var t := Saturn(s.core, Advance(s.flow, op.len));
    hide CoreOk, StoreRun, StoreEvents;
    RunOne(s.flow, Move(t.flow.pc));
    RunAppend(s.flow, [Move(t.flow.pc)], StoreEvents(t, addr, v));
    StoreProjects(t, addr, v);
  }

  lemma HappenProjects(s: Saturn, e: Step.Event)
    requires CoreOk(s.core)
    ensures RunEvents(s.flow, EventsOf(s, e)) == Happen(s, e).flow
  {
    hide Exec, ExecEvents, Fetch;
    match e
    case Tick => ExecProjects(s, Fetch(s));
    case KeyInt => RunOne(s.flow, Kbd);
    case DeviceInt => RunOne(s.flow, Interrupts.Device);
    case Wake => RunOne(s.flow, Interrupts.Shutdn(Digits.Value(s.core.OUT, 16) == 0));
    case _ =>
  }

  /** A run of the machine drives the flow of control as its protocol events do. */
  lemma {:induction false} RunProjects(s: Saturn, es: seq<Step.Event>)
    requires Ok(s)
    ensures RunEvents(s.flow, Trace(s, es)) == Step.Run(s, es).flow
    decreases |es|
  {
    hide Ok, Happen, EventsOf;
    if es != [] {
      var n := |es| - 1;
      var t := Step.Run(s, es[..n]);
      RunProjects(s, es[..n]);
      OkCore(t);
      HappenProjects(t, es[n]);
      RunAppend(s.flow, Trace(s, es[..n]), EventsOf(t, es[n]));
    }
  }

  lemma OkCore(s: Saturn)
    requires Ok(s)
    ensures CoreOk(s.core)
  {
  }

  // ------------------------------------------------------------------------- results

  lemma DeliveredAfter(f: Flow, trace: seq<Interrupts.Event>)
    requires !f.enabled && forall e :: e in trace ==> Quiet(e)
    ensures var g := RunEvents(KbdInt(f), trace); Rti(g) == Flow(VECTOR, g.stack, false, false)
  {
    PendingIsDelivered(f, trace);
    RunOne(f, Kbd);
    RunAppend(f, [Kbd], trace);
    RunAppend(f, [Kbd] + trace, [RtiOp]);
    RunOne(RunEvents(KbdInt(f), trace), RtiOp);
  }

  /**
   A keyboard interrupt that arrives while masked is delivered by the next RTI the machine
   executes, whatever it does in between short of a SHUTDN with OUT zero: the RTI goes to the
   vector, pops nothing, and interrupts stay masked.
   */
  lemma PendingKeyIsDelivered(s: Saturn, es: seq<Step.Event>)
    requires Ok(s) && !s.flow.enabled
    requires forall e :: e in Trace(HappenOk(s, KeyInt), es) ==> Quiet(e)
    requires Fetch(Step.Run(HappenOk(s, KeyInt), es)).i.ReturnInt?
    ensures var t := Step.Run(HappenOk(s, KeyInt), es);
            StepOf(t).0.flow == Flow(VECTOR, t.flow.stack, false, false)
  {
    hide CoreOk, Fetch, Trace, Step.Run, RunEvents;
    var p := HappenOk(s, KeyInt);
    var t := Step.Run(p, es);
    RunProjects(p, es);
    DeliveredAfter(s.flow, Trace(p, es));
  }

  /**
   A chain of interrupts with stack-balanced handlers, as the machine runs it: one return-stack
   slot, and the interrupted program goes on where it was.
   */
  lemma ChainResumes(s: Saturn, es: seq<Step.Event>, first: Interrupts.Event, hs: seq<seq<Interrupts.Event>>, room: nat)
    requires Ok(s) && s.flow.enabled && !s.flow.pending && |s.flow.stack| + 1 + room <= NR_RSTK
    requires (first == Kbd || first == Interrupts.Device) && Chained(hs, room) && Trace(s, es) == [first] + Chain(hs)
    ensures Step.Run(s, es).flow == s.flow
  {
    RunProjects(s, es);
    ChainUsesOneSlot(s.flow, first, hs, room);
    hide CoreOk, Trace, Step.Run;
  }
}
