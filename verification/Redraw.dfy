/**
 The countdown from a change of the display's geometry to the redraw: the scheduler charges it
 with the instructions of a batch, and the check of the devices counts it down by one and
 redraws when it runs out.  A pending redraw can be lost between the two; when that happens is
 stated exactly, for any batch and for any run.
 */
module Redraw {
  import opened Digits

  const DISP_INSTR_OFF := 0x10
  const SCHED_NEVER := 0x7fffffff
  const SCHED_INSTR_ROLLOVER := 0x3fffffff

  /** The redraw that is due in `touched` checks, the scheduler's own countdown, and the flag that asks for a check. */
  datatype Pending = Pending(touched: int, sched: int, check: bool)

  /** Nothing has been asked for. */
  const IDLE := Pending(0, SCHED_NEVER, false)

  /** Start-up asks for one redraw, at the first check. */
  const STARTUP := Pending(1, SCHED_NEVER, false)

  /** The countdown charged with a batch of instructions. */
  function Charged(p: Pending, steps: int): int
  {
    if p.sched - steps > 0 || p.touched == 0 then p.touched
    else if p.touched - steps < 0 then 1 else p.touched - steps
  }

  predicate Redraws(p: Pending, steps: int) { p.check && Charged(p, steps) == 1 }

  /** A redraw was pending, none is any more, and none was done. */
  predicate Drops(p: Pending, steps: int)
  {
    p.touched != 0 && !Redraws(p, steps) && Batch(p, steps).touched == 0
  }

  /** A call of the scheduler, `steps` instructions after the last one. */
  function Batch(p: Pending, steps: int): Pending
  {
    if !p.check then p
    else
      var t := Charged(p, steps);
      var t' := if t > 0 then t - 1 else t;
      Pending(t', if t' != 0 && t' < SCHED_NEVER then t' - 1 else SCHED_NEVER, t' > 0)
  }

  /** A batch loses a pending redraw exactly when it is charged with as many instructions as it had left. */
  lemma DropsExactly(p: Pending, steps: nat)
    requires p.touched > 0
    ensures Drops(p, steps) <==> p.check && p.sched <= steps && p.touched == steps
  {
  }

  // ------------------------------------------------------------- along a run

  /**
   One instruction, as far as redraws are concerned: it may change the geometry, touch another
   device register, or be the SHUTDN that redraws at once, and other counters may make the
   scheduler run after it.
   */
  datatype Instr = Instr(geometry: bool, access: bool, shutdown: bool, due: bool)

  /** The countdown, with the number of instructions since the scheduler last ran. */
  datatype Clock = Clock(p: Pending, since: nat)

  /** The countdown as the instruction itself leaves it. */
  function Touch(p: Pending, i: Instr): Pending
  {
    Pending(if i.shutdown then 0 else if i.geometry then DISP_INSTR_OFF else p.touched, p.sched,
            p.check || i.geometry || i.access)
  }

  /**
   The scheduler runs when a device was accessed, when another counter is due, when this one
   is, and before the count of instructions rolls over.
   */
  predicate Calls(k: Clock, i: Instr)
  {
    i.geometry || i.access || i.due || k.since + 1 >= Max(1, k.p.sched) || k.since + 1 >= SCHED_INSTR_ROLLOVER
  }

  function Tick(k: Clock, i: Instr): Clock
  {
    if Calls(k, i) then Clock(Batch(Touch(k.p, i), k.since + 1), 0) else Clock(Touch(k.p, i), k.since + 1)
  }

  function At(p: Pending, run: seq<Instr>): Clock
    decreases |run|
  {
    if run == [] then Clock(p, 0) else Tick(At(p, run[..|run| - 1]), run[|run| - 1])
  }

  /** The instruction, or its batch, draws the screen anew. */
  predicate RedrawsAt(k: Clock, i: Instr)
  {
    (i.shutdown && (k.p.touched != 0 || i.geometry)) || (Calls(k, i) && Redraws(Touch(k.p, i), k.since + 1))
  }

  /** The instruction's batch loses a pending redraw. */
  predicate DropsAt(k: Clock, i: Instr) { Calls(k, i) && Drops(Touch(k.p, i), k.since + 1) }

  /** A redraw was lost and none has been done since. */
  predicate Lost(p: Pending, run: seq<Instr>)
    decreases |run|
  {
    run != [] &&
    var n := |run| - 1;
    var k := At(p, run[..n]);
    DropsAt(k, run[n]) || (Lost(p, run[..n]) && !RedrawsAt(k, run[n]))
  }

  lemma AtNext(p: Pending, run: seq<Instr>, i: Instr)
    ensures At(p, run + [i]) == Tick(At(p, run), i)
    ensures Lost(p, run + [i]) <==> DropsAt(At(p, run), i) || (Lost(p, run) && !RedrawsAt(At(p, run), i))
  {
    assert (run + [i])[..|run|] == run;
  }

  /** What holds between instructions. */
  predicate Reachable(k: Clock)
  {
    var (t, s) := (k.p.touched, k.p.sched);
    k.since < Max(1, s) && k.since < SCHED_INSTR_ROLLOVER &&
    if k.p.check then 0 <= s < DISP_INSTR_OFF - 1 && (t == 0 || t == s + 1)
    else s == SCHED_NEVER && (t == 0 || t == 1)
  }

  predicate Start(p: Pending) { p == IDLE || p == STARTUP }

  /** Between instructions at most fifteen checks are left, and the scheduler is in time for them. */
  lemma {:induction false} AtReachable(p: Pending, run: seq<Instr>)
    requires Start(p)
    ensures Reachable(At(p, run))
    decreases |run|
  {
    if run != [] { AtReachable(p, run[..|run| - 1]); }
  }

  /** The countdown stands at one with the scheduler's own already run out. */
  predicate Doomed(k: Clock) { k.p == Pending(1, 0, true) }

  /** The next instruction then loses the redraw, unless it asks for another or is SHUTDN. */
  lemma DropsAtDoomed(k: Clock, i: Instr)
    requires Reachable(k)
    ensures DropsAt(k, i) <==> Doomed(k) && !i.geometry && !i.shutdown
  {
  }

  /** An instruction that changes the geometry to be drawn. */
  predicate Changes(i: Instr) { i.geometry && !i.shutdown }

  /** A change whose own batch did not charge the new countdown. */
  predicate Fresh(k: Clock, i: Instr) { Changes(i) && k.p.sched > k.since + 1 }

  /** The scheduler last ran `d` instructions ago, after such a change. */
  predicate Waiting(k: Clock, d: nat) { k.p.check && k.p.sched == DISP_INSTR_OFF - 2 && k.since == d }

  lemma WaitingStep(k: Clock, i: Instr, d: nat)
    requires Reachable(k) && d < DISP_INSTR_OFF - 2
    ensures Waiting(Tick(k, i), d) <==>
              if d == 0 then Fresh(k, i) else Waiting(k, d - 1) && !i.geometry && !i.access && !i.due
  {
  }

  /** The instructions before place n, from the one after place m, leave the scheduler alone. */
  predicate Undisturbed(run: seq<Instr>, m: nat, n: nat)
    requires n <= |run|
  {
    forall j :: m < j < n ==> !run[j].geometry && !run[j].access && !run[j].due
  }

  lemma {:induction false} WaitingExactly(p: Pending, run: seq<Instr>, n: nat, d: nat)
    requires Start(p) && n <= |run| && d < DISP_INSTR_OFF - 2
    ensures Waiting(At(p, run[..n]), d) <==>
              n > d && Fresh(At(p, run[..n - d - 1]), run[n - d - 1]) && Undisturbed(run, n - d - 1, n)
    decreases d
  {
    if n > 0 {
      assert run[..n][..n - 1] == run[..n - 1];
      AtReachable(p, run[..n - 1]);
      WaitingStep(At(p, run[..n - 1]), run[n - 1], d);
      hide Fresh, Waiting, Tick;
      if d > 0 { WaitingExactly(p, run, n - 1, d - 1); }
    }
  }

  lemma DoomedStep(k: Clock, i: Instr)
    requires Reachable(k)
    ensures Doomed(Tick(k, i)) <==> Changes(i) && Waiting(k, DISP_INSTR_OFF - 3)
  {
  }

  /**
   When a redraw is lost: the geometry is changed, the scheduler is left alone for the next
   thirteen instructions, the one after them changes the geometry again, and the one after that
   neither changes it nor is SHUTDN.
   */
  lemma LostExactly(p: Pending, run: seq<Instr>, n: nat)
    requires Start(p) && n < |run|
    ensures DropsAt(At(p, run[..n]), run[n]) <==>
              n >= 15 && Fresh(At(p, run[..n - 15]), run[n - 15]) && Undisturbed(run, n - 15, n - 1) &&
              Changes(run[n - 1]) && !run[n].geometry && !run[n].shutdown
  {
    AtReachable(p, run[..n]);
    DropsAtDoomed(At(p, run[..n]), run[n]);
    if n > 0 {
      assert run[..n][..n - 1] == run[..n - 1];
      AtReachable(p, run[..n - 1]);
      DoomedStep(At(p, run[..n - 1]), run[n - 1]);
      WaitingExactly(p, run, n - 1, DISP_INSTR_OFF - 3);
    }
    hide DropsAt, Fresh, Changes, Undisturbed, Tick, Waiting, Reachable;
  }

  const CHANGE := Instr(true, true, false, false)
  const PLAIN := Instr(false, false, false, false)

  /** Sixteen instructions after start-up that leave a changed geometry undrawn for good. */
  lemma LostExample()
    ensures var run := [CHANGE] + seq(13, _ => PLAIN) + [CHANGE, PLAIN];
            Lost(IDLE, run) && At(IDLE, run) == Clock(IDLE, 0)
  {
    var run := [CHANGE] + seq(13, _ => PLAIN) + [CHANGE, PLAIN];
    assert run[..0] == [];
    assert At(IDLE, []) == Clock(IDLE, 0);
    LostExactly(IDLE, run, 15);
    assert run[..16] == run;
    AtReachable(IDLE, run[..15]);
    DropsAtDoomed(At(IDLE, run[..15]), run[15]);
  }

  // ------------------------------------------------------------- how long it takes

  /** The most instructions it takes to count `t` checks down to none. */
  function Left(t: int): int
  {
    if t <= 2 then 1 else t - 2 + Left(t - 1)
  }

  /** The most instructions until the countdown has run out, once it is being checked. */
  function Wait(k: Clock): int
  {
    if k.p.touched <= 0 || !k.p.check then 0 else Left(k.p.touched) - k.since
  }

  lemma {:induction false} LeftGrows(t: int)
    requires 1 <= t <= DISP_INSTR_OFF - 1
    ensures 1 <= t <= 15 && Max(1, t - 1) <= Left(t) <= Left(15) == 92
    decreases 15 - t
  {
    if t < 15 { LeftGrows(t + 1); }
  }

  /** Every instruction that changes nothing brings the end nearer, whenever the scheduler runs. */
  lemma WaitFalls(k: Clock, i: Instr)
    requires Reachable(k) && !i.geometry
    ensures 0 <= Wait(Tick(k, i)) <= Max(0, Wait(k) - 1) && 0 <= Wait(k) <= 92
    ensures Wait(k) == 0 <==> k.p.touched == 0 || !k.p.check
  {
    if 1 <= k.p.touched { LeftGrows(k.p.touched); }
    if 2 <= k.p.touched { LeftGrows(k.p.touched - 1); }
  }

  /** A pending redraw ends in a redraw or is lost; with none pending neither can happen. */
  lemma EndsOnce(k: Clock, i: Instr)
    requires Reachable(k) && !i.geometry
    ensures k.p.touched == 0 ==> Tick(k, i).p.touched == 0 && !DropsAt(k, i) && !RedrawsAt(k, i)
    ensures k.p.touched > 0 && Tick(k, i).p.touched == 0 ==> (RedrawsAt(k, i) <==> !DropsAt(k, i))
    ensures k.p.touched > 0 && Tick(k, i).p.touched > 0 ==> !DropsAt(k, i) && !RedrawsAt(k, i)
    ensures !Doomed(Tick(k, i)) && (k.p.check && Tick(k, i).p.touched > 0 ==> Tick(k, i).p.check)
  {
  }

  /** A change leaves a countdown that is being checked. */
  lemma ChangeIsPending(k: Clock, i: Instr)
    requires Reachable(k) && Changes(i)
    ensures Tick(k, i).p.touched > 0 && Tick(k, i).p.check
  {
  }

  /** The change at place m was the second of the two in LostExactly. */
  predicate LostAfter(p: Pending, run: seq<Instr>, m: nat)
    requires m < |run|
  {
    Doomed(At(p, run[..m + 1])) && m + 1 < |run| && !run[m + 1].shutdown
  }

  /**
   Ninety-two instructions after the last change nothing is pending, and the screen has been
   redrawn since, unless that change was the second of the two in LostExactly.
   */
  lemma RunsOut(p: Pending, run: seq<Instr>, m: nat)
    requires Start(p) && m < |run| && Changes(run[m]) && forall j :: m < j < |run| ==> !run[j].geometry
    ensures var k := At(p, run);
            (k.p.touched > 0 ==> k.p.check && |run| - m <= 92) &&
            (k.p.touched == 0 ==> (Lost(p, run) <==> LostAfter(p, run, m)))
  {
    RunsDown(p, run, m);
    AtReachable(p, run);
    WaitFalls(At(p, run), PLAIN);
    hide Wait, Lost, At, Doomed, Reachable;
  }

  lemma {:induction false} RunsDown(p: Pending, run: seq<Instr>, m: nat)
    requires Start(p) && m < |run| && Changes(run[m]) && forall j :: m < j < |run| ==> !run[j].geometry
    ensures var k := At(p, run);
            Wait(k) <= Max(0, 93 - (|run| - m)) &&
            (k.p.touched > 0 ==> k.p.check && !LostAfter(p, run, m)) &&
            (k.p.touched == 0 ==> (Lost(p, run) <==> LostAfter(p, run, m))) &&
            (|run| == m + 1 ==> k.p.touched > 0) && (Doomed(k) ==> |run| == m + 1)
    decreases |run|
  {
    var n := |run| - 1;
    var k, i := At(p, run[..n]), run[n];
    AtReachable(p, run[..n]);
    AtReachable(p, run);
    assert run[..n] + [i] == run;
    AtNext(p, run[..n], i);
    if n == m {
      assert run[..m + 1] == run;
      ChangeIsPending(k, i);
      WaitFalls(Tick(k, i), PLAIN);
      hide Tick, Lost, At, Reachable, Wait, Doomed;
    } else {
      assert run[..n][..m + 1] == run[..m + 1];
      RunsDown(p, run[..n], m);
      WaitFalls(k, i);
      EndsOnce(k, i);
      DropsAtDoomed(k, i);
      if n > m + 1 { assert run[..n][m + 1] == run[m + 1]; }
      hide Tick, Lost, At, Reachable, Wait, Doomed, DropsAt, RedrawsAt;
    }
  }
}
