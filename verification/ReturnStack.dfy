/**
 The eight-deep return stack: pushing onto a full stack drops the oldest address, popping an
 empty one answers 0.
 */
module ReturnStack {
  import opened Digits


  const NR_RSTK := 8

  function Push(s: seq<int>, addr: int): (r: seq<int>)
    ensures |s| <= NR_RSTK ==> |r| <= NR_RSTK
  {
    if |s| < NR_RSTK then s + [addr] else s[1..] + [addr]
  }

  function Pop(s: seq<int>): (r: (seq<int>, int))
    ensures |r.0| <= |s|
  {
    if s == [] then ([], 0) else (s[..|s| - 1], s[|s| - 1])
  }

  /** The stack as the emulator stores it: a fixed buffer and an index, -1 when empty. */
  class Stack {
    var rstk: array<int>
    var rstkp: int

    ghost predicate Valid()
      reads this
    {
      rstk.Length == NR_RSTK && -1 <= rstkp < NR_RSTK
    }

    ghost function Contents(): seq<int>
      requires Valid()
      reads this, rstk
    {
      rstk[..rstkp + 1]
    }

    constructor ()
      ensures Valid() && fresh(rstk) && Contents() == []
    {
      rstk := new int[NR_RSTK](_ => 0);
      rstkp := -1;
    }

    method PushReturnAddr(addr: int)
      requires Valid()
      modifies this`rstkp, rstk
      ensures Valid() && Contents() == Push(old(Contents()), addr)
    {
      ghost var was := Contents();
      rstkp := rstkp + 1;
      if rstkp >= NR_RSTK {
        for i := 1 to NR_RSTK
          invariant rstkp == NR_RSTK
          invariant forall k :: 0 <= k < i - 1 ==> rstk[k] == was[k + 1]
          invariant forall k :: i - 1 <= k < NR_RSTK ==> rstk[k] == was[k]
        {
          rstk[i - 1] := rstk[i];
        }
        rstkp := rstkp - 1;
      }
      rstk[rstkp] := addr;
      assert Contents() == Push(was, addr);
    }

    method PopReturnAddr() returns (addr: int)
      requires Valid()
      modifies this`rstkp
      ensures Valid() && (Contents(), addr) == Pop(old(Contents()))
    {
      if rstkp < 0 { return 0; }
      ghost var was := Contents();
      addr := rstk[rstkp];
      rstkp := rstkp - 1;
      assert Contents() == was[..|was| - 1];
    }
  }

  // ------------------------------------------------- refinement of an unbounded stack

  datatype Op = PushOp(addr: int) | PopOp

  function Unbounded(ops: seq<Op>): seq<int>
  {
    if ops == [] then []
    else
      var s := Unbounded(ops[..|ops| - 1]);
      match ops[|ops| - 1]
      case PushOp(a) => s + [a]
      case PopOp => Pop(s).0
  }

  function Bounded(ops: seq<Op>): seq<int>
  {
    if ops == [] then []
    else
      var s := Bounded(ops[..|ops| - 1]);
      match ops[|ops| - 1]
      case PushOp(a) => Push(s, a)
      case PopOp => Pop(s).0
  }

  /** How many outstanding addresses, counted from the oldest, have been dropped. */
  function Dropped(ops: seq<Op>): nat
  {
    if ops == [] then 0
    else
      var d, n := Dropped(ops[..|ops| - 1]), |Unbounded(ops)|;
      if d > n then n else if n - d > NR_RSTK then n - NR_RSTK else d
  }

  /** After any run the stack holds the most recent outstanding addresses, at most eight of them. */
  lemma {:induction false} BoundedIsSuffix(ops: seq<Op>)
    ensures Dropped(ops) <= |Unbounded(ops)|
    ensures Bounded(ops) == Unbounded(ops)[Dropped(ops)..] && |Bounded(ops)| <= NR_RSTK
  {
    if ops != [] {
      BoundedIsSuffix(ops[..|ops| - 1]);
    }
  }

  // ---------------------------------------------------------------- balanced runs

  /** Calls and matching returns: call with return address `addr`, run `body`, return, run `rest`. */
  datatype Run = Done | Call(addr: int, body: Run, rest: Run)

  function Depth(run: Run): nat
  {
    match run
    case Done => 0
    case Call(_, body, rest) => Max(1 + Depth(body), Depth(rest))
  }

  function Final(run: Run, s: seq<int>): seq<int>
  {
    match run
    case Done => s
    case Call(a, body, rest) => Final(rest, Pop(Final(body, Push(s, a))).0)
  }

  /** Every return finds the address its own call pushed. */
  predicate Matched(run: Run, s: seq<int>)
  {
    match run
    case Done => true
    case Call(a, body, rest) =>
      var s' := Final(body, Push(s, a));
      s' != [] && Pop(s').1 == a && Matched(body, Push(s, a)) && Matched(rest, Pop(s').0)
  }

  /** The entries of the caller a run of depth `d` costs, when `n` are on the stack. */
  function Lost(n: nat, d: nat): (l: nat)
    ensures l <= n
  {
    if n + d <= NR_RSTK then 0 else if d >= NR_RSTK then n else n + d - NR_RSTK
  }

  lemma CallLosesOldest(s: seq<int>, a: int, d: nat)
    requires |s| <= NR_RSTK
    ensures var s1 := Push(s, a); Pop(s1[Lost(|s1|, d)..]).0 == s[Lost(|s|, 1 + d)..]
  {
    var s1 := Push(s, a);
    if d < NR_RSTK {
      if |s| < NR_RSTK {
        assert Lost(|s1|, d) == Lost(|s|, 1 + d) <= |s|;
        assert s1[Lost(|s1|, d)..] == s[Lost(|s|, 1 + d)..] + [a];
      } else {
        assert s1[Lost(|s1|, d)..] == s[1 + d..] + [a];
      }
    }
  }

  lemma LostAdds(n: nat, d: nat, d': nat)
    ensures Lost(n, d) + Lost(n - Lost(n, d), d') == Lost(n, Max(d, d'))
  {
  }

  lemma Slices(s: seq<int>, l: nat, l': nat)
    requires l + l' <= |s|
    ensures s[l..][l'..] == s[l + l'..]
  {
  }

  /** A call loses what its body and what follows it lose between them. */
  lemma CallLoses(s: seq<int>, d: nat, d': nat, s3: seq<int>)
    requires s3 == s[Lost(|s|, 1 + d)..]
    ensures s3[Lost(|s3|, d')..] == s[Lost(|s|, Max(1 + d, d'))..]
  {
    LostAdds(|s|, 1 + d, d');
    hide Lost, Max;
    Slices(s, Lost(|s|, 1 + d), Lost(|s3|, d'));
  }

  lemma FinalOf(a: int, body: Run, rest: Run, s: seq<int>)
    ensures Final(Call(a, body, rest), s) == Final(rest, Pop(Final(body, Push(s, a))).0)
    ensures Depth(Call(a, body, rest)) == Max(1 + Depth(body), Depth(rest))
    ensures Final(Done, s) == s && Depth(Done) == 0
    ensures |s| <= NR_RSTK ==> |Push(s, a)| <= NR_RSTK && Lost(|s|, 0) == 0
  {
  }

  lemma {:induction false} FinalLosesOldest(run: Run, s: seq<int>)
    requires |s| <= NR_RSTK
    ensures Final(run, s) == s[Lost(|s|, Depth(run))..]
  {
    hide *;
    match run
    case Done => FinalOf(0, Done, Done, s);
    case Call(a, body, rest) =>
      var s1 := Push(s, a);
      var s3 := Pop(Final(body, s1)).0;
      FinalOf(a, body, rest, s);
      FinalLosesOldest(body, s1);
      CallLosesOldest(s, a, Depth(body));
      FinalLosesOldest(rest, s3);
      CallLoses(s, Depth(body), Depth(rest), s3);
  }

  lemma {:induction false} MatchedWithinEight(run: Run, s: seq<int>)
    requires |s| <= NR_RSTK
    ensures Matched(run, s) <==> Depth(run) <= NR_RSTK
  {
    match run
    case Done =>
    case Call(a, body, rest) =>
      var s1 := Push(s, a);
      FinalLosesOldest(body, s1);
      MatchedWithinEight(body, s1);
      if Depth(body) < NR_RSTK { assert Final(body, s1)[|Final(body, s1)| - 1] == s1[|s1| - 1]; }
      MatchedWithinEight(rest, Pop(Final(body, s1)).0);
  }

  /** A balanced run is transparent exactly when its depth fits the free slots. */
  lemma BalancedRun(run: Run, s: seq<int>)
    requires |s| <= NR_RSTK
    ensures Final(run, s) == s && Matched(run, s) <==> |s| + Depth(run) <= NR_RSTK
  {
    FinalLosesOldest(run, s);
    MatchedWithinEight(run, s);
  }
}
