/** The one-instruction countdown loop `jmp x--, self [d]` (and its Y twin).

The decrement works on all 32 bits but the branch looks at the low byte only, so the loop
leaves after (X mod 256) + 1 executions; that is the X + 1 of the instruction set exactly
when X is below 256. */
module Countdown {
  import opened Bits
  import opened Instructions
  import opened Locals
  import opened Machines
  import opened Stalling
  import opened Timing

  lemma LowByteVal(w: Word)
    ensures LowByteSet(w) <==> Val(w) % 256 != 0
  {
    ValSplit(w, 8);
    ValZero(w[..8]);
    LowValue(w);
    assert Pow2(8) == 256 by { assert Pow2(6) == 64; }
    var high := Val(w[8..]);
    assert Val(w) == Val(w[..8]) + 256 * high;
  }

  lemma WordBound(w: Word)
    ensures Val(w) < 0x1_0000_0000 && Pow2(32) == 0x1_0000_0000
  {
    ValBound(w);
    assert Pow2(8) == 256 by { assert Pow2(4) == 16; }
    assert Pow2(16) == 0x1_0000 by { assert Pow2(12) == 4096; }
    assert Pow2(24) == 0x100_0000 by { assert Pow2(20) == 0x10_0000; }
    assert Pow2(32) == 0x1_0000_0000 by { assert Pow2(28) == 0x1000_0000; }
  }

  /** The counter: Y when `y` is set, X otherwise. */
  function Counter(m: Machine, y: bool): Word { if y then m.y else m.x }

  function CountdownJmp(y: bool, self: Five): Instr { Jmp(if y then YDec else XDec, self) }

  function WithCounter(m: Machine, y: bool, w: Word): Machine {
    if y then m.(y := w) else m.(x := w)
  }

  /** The machine is about to execute the loop's only instruction. */
  ghost predicate AtLoop(m: Machine, y: bool, prog: seq<nat>) {
    && m.pc < 32 && !m.execPending && !m.stalled
    && Decode(Fetch(prog, m.pc)) == CountdownJmp(y, m.pc)
  }

  lemma LoopTick(r: Machine, env: Env, y: bool)
    requires env.Ok() && AtLoop(r, y, env.prog) && r.delay == 0
    ensures var r1 := WithCounter(r, y, Dec(Counter(r, y))).(delay := DelayField(Fetch(env.prog, r.pc)));
      && Exec(r, env, Current(r, env.prog)).flow == (if LowByteSet(Counter(r, y)) then Jumped else Next)
      && StepMachine(r, env).m == if LowByteSet(Counter(r, y)) then r1 else r1.(pc := NextPc(r))
  {
    hide LowByteSet, Dec, Decode;
  }

  lemma ModStep(n: nat, k: nat)
    requires k <= n % 256
    ensures (n - k) % 256 == n % 256 - k
  {
    assert n - k == 256 * (n / 256) + (n % 256 - k);
  }

  lemma CounterTick(w: Word, n: nat, k: nat)
    requires k <= n % 256 && Val(w) == n - k
    ensures LowByteSet(w) <==> k < n % 256
    ensures Val(Dec(w)) == if n == k then 0xFFFF_FFFF else n - k - 1
  {
    LowByteVal(w);
    WordBound(w);
    DecVal(w);
    ModStep(n, k);
  }

  /** `k` executions into the loop: the counter and the clock are exactly as counted. */
  ghost predicate Counting(m: Machine, y: bool, d: nat, b: Ledger, r: Machine) {
    var n, k := Val(Counter(m, y)), |b.done|;
    && k <= n % 256
    && r == WithCounter(m, y, Counter(r, y)).(tx := r.tx, rx := r.rx, enabled := r.enabled, delay := r.delay)
    && Val(Counter(r, y)) == n - k
    && b.waiting == 0
    && b.ticks + r.delay == Times(k, 1 + d)
  }

  lemma CountingStep(m: Machine, y: bool, b: Ledger, r: Machine, l: Local, prog: seq<nat>)
    requires Possible(r, l, prog) && AtLoop(m, y, prog) && StallOk(m, prog)
    requires Counting(m, y, DelayField(Fetch(prog, m.pc)), b, r)
    requires |Entry(b, r, l).done| <= Val(Counter(m, y)) % 256
    ensures Counting(m, y, DelayField(Fetch(prog, m.pc)), Entry(b, r, l), LocalStep(r, l, prog))
  {
    hide ExecDecoded, Decode, Dec, LowByteSet;
    if l.Tick? && r.enabled && r.delay == 0 {
      LoopTick(r, l.env, y);
      var d, k := DelayField(Fetch(prog, m.pc)), |b.done|;
      CounterTick(Counter(r, y), Val(Counter(m, y)), k);
    }
  }

  lemma {:induction false} CountdownProgress(m: Machine, y: bool, ls: seq<Local>, prog: seq<nat>)
    requires PossibleRun(m, ls, prog) && AtLoop(m, y, prog) && m.delay == 0
    requires |LedgerOf(m, ls, prog).done| <= Val(Counter(m, y)) % 256
    ensures Counting(m, y, DelayField(Fetch(prog, m.pc)), LedgerOf(m, ls, prog), LocalRun(m, ls, prog))
    decreases |ls|
  {
    if ls == [] {
    } else {
      var front := ls[..|ls| - 1];
      CountdownProgress(m, y, front, prog);
      CountingStep(m, y, LedgerOf(m, front, prog), LocalRun(m, front, prog), ls[|ls| - 1], prog);
    }
  }

  /** `k` executions with a delay field of `d`. */
  function LoopCycles(k: nat, d: nat): nat { k * (1 + d) }

  lemma LoopCyclesTimes(k: nat, d: nat)
    ensures LoopCycles(k, d) == Times(k, 1 + d)
  {
    TimesIsProduct(k, 1 + d);
  }

  // ---------------------------------------------------------------- leaving the loop

  /** Every execution of the run has jumped back. */
  ghost predicate InLoop(m: Machine, ls: seq<Local>, prog: seq<nat>)
    requires PossibleRun(m, ls, prog)
    decreases |ls|
  {
    ls != [] ==>
      var front, l := ls[..|ls| - 1], ls[|ls| - 1];
      var r := LocalRun(m, front, prog);
      InLoop(m, front, prog) && (Executes(r, l) ==> Exec(r, l.env, Current(r, prog)).flow == Jumped)
  }

  predicate Executes(r: Machine, l: Local) {
    l.Tick? && l.env.Ok() && r.enabled && r.delay == 0
  }

  /** After `ls` the machine is about to execute the loop's instruction and fall through, for
  the first time. */
  ghost predicate LeavesNext(m: Machine, ls: seq<Local>, env: Env)
    requires env.Ok() && PossibleRun(m, ls, env.prog)
  {
    var r := LocalRun(m, ls, env.prog);
    InLoop(m, ls, env.prog) && r.enabled && r.delay == 0 && Exec(r, env, Current(r, env.prog)).flow == Next
  }

  /** An execution while counting: it falls through exactly when the low byte is used up. */
  lemma CountingFlow(m: Machine, y: bool, b: Ledger, r: Machine, env: Env)
    requires env.Ok() && AtLoop(m, y, env.prog) && r.delay == 0
    requires Counting(m, y, DelayField(Fetch(env.prog, m.pc)), b, r)
    ensures Exec(r, env, Current(r, env.prog)).flow == if |b.done| < Val(Counter(m, y)) % 256 then Jumped else Next
  {
    hide ExecDecoded, Decode, Dec, LowByteSet, Exec;
    LoopTick(r, env, y);
    CounterTick(Counter(r, y), Val(Counter(m, y)), |b.done|);
  }

  /** While every execution jumps back there have been at most n mod 256. */
  lemma {:induction false} LoopBound(m: Machine, y: bool, ls: seq<Local>, prog: seq<nat>)
    requires PossibleRun(m, ls, prog) && AtLoop(m, y, prog) && m.delay == 0 && InLoop(m, ls, prog)
    ensures |LedgerOf(m, ls, prog).done| <= Val(Counter(m, y)) % 256
    decreases |ls|
  {
    hide Exec, Counting, AtLoop;
    if ls == [] {
    } else {
      var front, l := ls[..|ls| - 1], ls[|ls| - 1];
      var r := LocalRun(m, front, prog);
      LoopBound(m, y, front, prog);
      CountdownProgress(m, y, front, prog);
      if Executes(r, l) {
        CountingFlow(m, y, LedgerOf(m, front, prog), r, l.env);
      }
    }
  }

  /** Until (n mod 256) * (1 + d) cycles have been taken, every execution jumps back. */
  lemma {:induction false} LoopLasts(m: Machine, y: bool, ls: seq<Local>, prog: seq<nat>)
    requires PossibleRun(m, ls, prog) && AtLoop(m, y, prog) && m.delay == 0
    requires LedgerOf(m, ls, prog).ticks <= Times(Val(Counter(m, y)) % 256, 1 + DelayField(Fetch(prog, m.pc)))
    ensures InLoop(m, ls, prog) && |LedgerOf(m, ls, prog).done| <= Val(Counter(m, y)) % 256
    decreases |ls|
  {
    hide Exec, AtLoop, DelayField;
    if ls == [] {
    } else {
      var front, l := ls[..|ls| - 1], ls[|ls| - 1];
      var r, b := LocalRun(m, front, prog), LedgerOf(m, front, prog);
      LoopLasts(m, y, front, prog);
      CountdownProgress(m, y, front, prog);
      if Executes(r, l) {
        CountingFlow(m, y, b, r, l.env);
      }
    }
  }

  lemma CountingClock(m: Machine, y: bool, d: nat, b: Ledger, r: Machine)
    requires Counting(m, y, d, b, r)
    ensures r.pc == m.pc && b.ticks + r.delay == Times(|b.done|, 1 + d)
  {
  }

  lemma LeavingTakes(m: Machine, y: bool, ls: seq<Local>, env: Env, k: nat, d: nat, b: Ledger)
    requires env.Ok() && PossibleRun(m, ls, env.prog) && AtLoop(m, y, env.prog) && m.delay == 0
    requires k == Val(Counter(m, y)) % 256 && d == DelayField(Fetch(env.prog, m.pc)) && b == LedgerOf(m, ls, env.prog)
    requires LeavesNext(m, ls, env)
    ensures |b.done| == k && b.ticks == Times(k, 1 + d)
  {
    var r := LocalRun(m, ls, env.prog);
    LoopBound(m, y, ls, env.prog);
    CountdownProgress(m, y, ls, env.prog);
    CountingFlow(m, y, b, r, env);
    CountingClock(m, y, d, b, r);
    hide Exec, AtLoop, Counting, Times, LedgerOf, LocalRun, PossibleRun, InLoop;
  }

  lemma TakenLeaves(m: Machine, y: bool, ls: seq<Local>, env: Env, k: nat, d: nat, b: Ledger)
    requires env.Ok() && PossibleRun(m, ls, env.prog) && AtLoop(m, y, env.prog) && m.delay == 0
    requires k == Val(Counter(m, y)) % 256 && d == DelayField(Fetch(env.prog, m.pc)) && b == LedgerOf(m, ls, env.prog)
    requires LocalRun(m, ls, env.prog).enabled && b.ticks == Times(k, 1 + d)
    ensures LeavesNext(m, ls, env)
  {
    var r := LocalRun(m, ls, env.prog);
    LoopLasts(m, y, ls, env.prog);
    CountdownProgress(m, y, ls, env.prog);
    CountingClock(m, y, d, b, r);
    if |b.done| < k {
      TimesGrows(|b.done|, k, 1 + d);
    }
    assert |b.done| == k && r.delay == 0;
    CountingFlow(m, y, b, r, env);
    hide Exec, AtLoop, Counting, Times, LedgerOf, LocalRun, PossibleRun, InLoop;
  }

  /** The loop leaves with the next cycle if and only if exactly (n mod 256) * (1 + d) cycles
  have been taken, n being the initial counter: not earlier and not later. */
  lemma LeavesIff(m: Machine, y: bool, ls: seq<Local>, env: Env, n: nat, d: nat)
    requires env.Ok() && PossibleRun(m, ls, env.prog) && AtLoop(m, y, env.prog) && m.delay == 0
    requires n == Val(Counter(m, y)) && d == DelayField(Fetch(env.prog, m.pc)) && LocalRun(m, ls, env.prog).enabled
    ensures LeavesNext(m, ls, env) <==> LedgerOf(m, ls, env.prog).ticks == LoopCycles(n % 256, d)
  {
    var b := LedgerOf(m, ls, env.prog);
    LoopCyclesTimes(n % 256, d);
    if LeavesNext(m, ls, env) {
      LeavingTakes(m, y, ls, env, n % 256, d, b);
    } else if b.ticks == LoopCycles(n % 256, d) {
      TakenLeaves(m, y, ls, env, n % 256, d, b);
    }
    hide *;
  }

  /** An enabled machine left to itself for `n` cycles. */
  ghost function Alone(env: Env, n: nat): (ls: seq<Local>)
    ensures |ls| == n
  {
    seq(n, _ => Tick(env))
  }

  lemma {:induction false} AloneTicks(m: Machine, env: Env, n: nat)
    requires env.Ok() && m.enabled
    ensures PossibleRun(m, Alone(env, n), env.prog) && LocalRun(m, Alone(env, n), env.prog).enabled
    ensures LedgerOf(m, Alone(env, n), env.prog).ticks == n
  {
    if n == 0 {
    } else {
      var ls := Alone(env, n);
      assert ls[..|ls| - 1] == Alone(env, n - 1) && ls[|ls| - 1] == Tick(env);
      AloneTicks(m, env, n - 1);
      EnabledKept(LocalRun(m, Alone(env, n - 1), env.prog), env);
      hide StepMachine, Exec;
    }
  }

  lemma EnabledKept(m: Machine, env: Env)
    requires env.Ok()
    ensures StepMachine(m, env).m.enabled == m.enabled
  {
    AttemptFrame(m, env, Decode(Current(m, env.prog)));
    hide ExecDecoded, Decode;
  }

  /** So the loop does end: left to itself, an enabled machine leaves after exactly
  (n mod 256) * (1 + d) cycles. */
  lemma CountdownTerminates(m: Machine, y: bool, env: Env)
    requires env.Ok() && AtLoop(m, y, env.prog) && m.delay == 0 && m.enabled
    ensures var n, d := Val(Counter(m, y)), DelayField(Fetch(env.prog, m.pc));
      var ls := Alone(env, LoopCycles(n % 256, d));
      PossibleRun(m, ls, env.prog) && LeavesNext(m, ls, env)
  {
    var n, d := Val(Counter(m, y)), DelayField(Fetch(env.prog, m.pc));
    var count := LoopCycles(n % 256, d);
    AloneTicks(m, env, count);
    LeavesIff(m, y, Alone(env, count), env, n, d);
    hide *;
  }

  lemma LeavingTick(m: Machine, y: bool, b: Ledger, r: Machine, env: Env)
    requires env.Ok() && AtLoop(m, y, env.prog) && r.enabled && r.delay == 0
    requires Counting(m, y, DelayField(Fetch(env.prog, m.pc)), b, r) && |b.done| == Val(Counter(m, y)) % 256
    ensures var n, d := Val(Counter(m, y)), DelayField(Fetch(env.prog, m.pc));
      var r1, b1 := StepMachine(r, env).m, Entry(b, r, Tick(env));
      && |b1.done| == n % 256 + 1 && r1.pc == NextPc(m) && r1.delay == d
      && Val(Counter(r1, y)) == (if n == n % 256 then 0xFFFF_FFFF else n - n % 256 - 1)
      && b1.ticks + r1.delay == Times(n % 256 + 1, 1 + d)
  {
    hide ExecDecoded, Decode, Dec, LowByteSet;
    LoopTick(r, env, y);
    CounterTick(Counter(r, y), Val(Counter(m, y)), Val(Counter(m, y)) % 256);
  }

  /** The leaving execution is number (n mod 256) + 1: the PC has stayed and now moves on, the
  counter has lost one for each modulo 2^32, and each has taken 1 + d cycles, the last of
  which are still owed as delay. */
  lemma CountdownLeaves(m: Machine, y: bool, ls: seq<Local>, env: Env, n: nat, d: nat, b1: Ledger)
    requires env.Ok() && PossibleRun(m, ls, env.prog) && AtLoop(m, y, env.prog) && m.delay == 0
    requires n == Val(Counter(m, y)) && d == DelayField(Fetch(env.prog, m.pc)) && LeavesNext(m, ls, env)
    requires b1 == Entry(LedgerOf(m, ls, env.prog), LocalRun(m, ls, env.prog), Tick(env))
    ensures var r := LocalRun(m, ls, env.prog); var r1 := StepMachine(r, env).m;
      && r.pc == m.pc && r1.pc == NextPc(m) && r1.delay == d
      && Val(Counter(r1, y)) == (if n == n % 256 then 0xFFFF_FFFF else n - n % 256 - 1)
    ensures |b1.done| == n % 256 + 1 && b1.ticks + d == LoopCycles(n % 256 + 1, d)
  {
    var r, b := LocalRun(m, ls, env.prog), LedgerOf(m, ls, env.prog);
    LeavingTakes(m, y, ls, env, n % 256, d, b);
    CountdownProgress(m, y, ls, env.prog);
    CountingClock(m, y, d, b, r);
    LeavingTick(m, y, b, r, env);
    LoopCyclesTimes(n % 256 + 1, d);
    assert r.enabled && r.delay == 0;
    hide *;
  }

  /** The machine leaves with the instruction set's execution number n + 1, having taken its
  (n + 1) * (1 + d) cycles, if and only if the counter started below 256. */
  lemma IntendedCountIff(m: Machine, y: bool, ls: seq<Local>, env: Env, n: nat, d: nat, b1: Ledger)
    requires env.Ok() && PossibleRun(m, ls, env.prog) && AtLoop(m, y, env.prog) && m.delay == 0
    requires n == Val(Counter(m, y)) && d == DelayField(Fetch(env.prog, m.pc)) && LeavesNext(m, ls, env)
    requires b1 == Entry(LedgerOf(m, ls, env.prog), LocalRun(m, ls, env.prog), Tick(env))
    ensures |b1.done| == n + 1 <==> n < 256
    ensures b1.ticks + d == LoopCycles(n + 1, d) <==> n < 256
  {
    CountdownLeaves(m, y, ls, env, n, d, b1);
    LowCount(n, d);
    hide *;
  }

  lemma LowCount(n: nat, d: nat)
    ensures n % 256 == n <==> n < 256
    ensures LoopCycles(n % 256 + 1, d) == LoopCycles(n + 1, d) <==> n < 256
  {
    LoopCyclesTimes(n % 256 + 1, d);
    LoopCyclesTimes(n + 1, d);
    hide LoopCycles;
    if n >= 256 {
      TimesGrows(n % 256 + 1, n + 1, 1 + d);
    }
  }

  /** A counter of 256 leaves on the first execution instead of the 257th. */
  lemma CountdownOf256(m: Machine, env: Env, y: bool)
    requires env.Ok() && AtLoop(m, y, env.prog) && m.enabled && m.delay == 0 && Val(Counter(m, y)) == 256
    ensures LeavesNext(m, [], env) && StepMachine(m, env).m.pc == NextPc(m)
  {
    LeavesIff(m, y, [], env, 256, DelayField(Fetch(env.prog, m.pc)));
    CountdownLeaves(m, y, [], env, 256, DelayField(Fetch(env.prog, m.pc)), Entry(BLANK, m, Tick(env)));
  }
}
