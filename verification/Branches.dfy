/** What decides a JMP, a WAIT and an IRQ, in numbers, pin levels and flags, and what they leave;
and the one-instruction loop `jmp x!=y, self`. */
module Branches {
  import opened Bits
  import opened Values
  import opened DataPath
  import opened Instructions
  import opened Locals
  import opened Machines
  import opened Timing
  import C = Countdown

  // ---------------------------------------------------------------- JMP

  /** The condition of a JMP, as numbers compare and pins read. */
  predicate Holds(m: Machine, env: Env, cond: JmpCond) {
    match cond
    case Always => true
    case XZero => Val(m.x) == 0
    case XDec => Val(m.x) % 256 != 0
    case YZero => Val(m.y) == 0
    case YDec => Val(m.y) % 256 != 0
    case XNotY => Val(m.x) != Val(m.y)
    case PinHigh => DataPath.PinHigh(env, m.reg.JmpPin() + env.base)
    case OsrReached => m.osrCount >= m.reg.PullThreshold()
  }

  lemma TakenIfHolds(m: Machine, env: Env, cond: JmpCond)
    ensures JmpTaken(m, env, cond) <==> Holds(m, env, cond)
  {
    ValZero(m.x);
    ValZero(m.y);
    ValInjective(m.x, m.y);
    C.LowByteVal(m.x);
    C.LowByteVal(m.y);
    hide Val, LowByteSet, Regs.JmpPin, Regs.PullThreshold;
  }

  /** Counting down: X-- takes one off modulo 2^32. */
  lemma DecIsMinusOne(w: Word)
    ensures Val(Dec(w)) == if Val(w) == 0 then 0xFFFF_FFFF else Val(w) - 1
  {
    DecVal(w);
    C.WordBound(w);
  }

  /** JMP goes to its target if its condition holds and on otherwise; X-- and Y-- count down
  either way; everything else stays. */
  lemma JmpResult(m: Machine, env: Env, cond: JmpCond, target: Five)
    requires env.Ok() && m.delay == 0 && Decode(Current(m, env.prog)) == Jmp(cond, target)
    ensures var r := StepMachine(m, env).m;
      && r.pc == (if Holds(m, env, cond) then target else Successor(m))
      && (if cond == XDec then Val(r.x) == (if Val(m.x) == 0 then 0xFFFF_FFFF else Val(m.x) - 1) else r.x == m.x)
      && (if cond == YDec then Val(r.y) == (if Val(m.y) == 0 then 0xFFFF_FFFF else Val(m.y) - 1) else r.y == m.y)
      && r.isr == m.isr && r.osr == m.osr && r.isrCount == m.isrCount && r.osrCount == m.osrCount
      && r.tx == m.tx && r.rx == m.rx && r.stalled == m.stalled
    ensures StepMachine(m, env).fx == NO_EFFECTS
  {
    TakenIfHolds(m, env, cond);
    DecIsMinusOne(m.x);
    DecIsMinusOne(m.y);
    hide JmpTaken, Holds, Dec, Val, Decode, DelayField, Regs.WrapTop, Regs.WrapBottom;
  }

  // ---------------------------------------------------------------- jmp x!=y, self

  /** About to execute `jmp x!=y` with itself as the target. */
  ghost predicate AtCompare(m: Machine, prog: seq<nat>) {
    && m.pc < NUM_INSTRS_PER_BLOCK && !m.execPending && !m.stalled
    && Decode(Fetch(prog, m.pc)) == Jmp(XNotY, m.pc)
  }

  /** Nothing has been executed but the JMP, which always jumped. */
  ghost predicate Comparing(m: Machine, r: Machine) {
    r == m.(tx := r.tx, rx := r.rx, enabled := r.enabled, delay := r.delay)
  }

  lemma CompareTick(r: Machine, env: Env)
    requires env.Ok() && AtCompare(r, env.prog) && r.delay == 0
    ensures var r1, d := StepMachine(r, env).m, DelayField(Fetch(env.prog, r.pc));
      r1 == if Val(r.x) != Val(r.y) then r.(delay := d) else r.(delay := d, pc := Successor(r))
    ensures Exec(r, env, Current(r, env.prog)).flow == if Val(r.x) != Val(r.y) then Jumped else Next
  {
    ValInjective(r.x, r.y);
    hide Val, Decode, DelayField, Regs.WrapTop, Regs.WrapBottom;
  }

  /** Different: the loop never ends and changes nothing, in any local history. */
  lemma {:induction false} CompareStays(m: Machine, ls: seq<Local>, prog: seq<nat>)
    requires PossibleRun(m, ls, prog) && AtCompare(m, prog) && Val(m.x) != Val(m.y)
    ensures Comparing(m, LocalRun(m, ls, prog))
    decreases |ls|
  {
    if ls == [] {
    } else {
      var front, l := ls[..|ls| - 1], ls[|ls| - 1];
      var r := LocalRun(m, front, prog);
      CompareStays(m, front, prog);
      if l.Tick? && r.enabled && r.delay == 0 {
        CompareTick(r, l.env);
      }
      hide Exec, Decode, Val;
    }
  }

  /** Until the first execution nothing changes. */
  lemma {:induction false} CompareWaits(m: Machine, ls: seq<Local>, prog: seq<nat>)
    requires PossibleRun(m, ls, prog) && AtCompare(m, prog) && LedgerOf(m, ls, prog).done == []
    ensures Comparing(m, LocalRun(m, ls, prog))
    decreases |ls|
  {
    if ls == [] {
    } else {
      var front, l := ls[..|ls| - 1], ls[|ls| - 1];
      var r := LocalRun(m, front, prog);
      CompareWaits(m, front, prog);
      if l.Tick? && r.enabled && r.delay == 0 {
        CompareTick(r, l.env);
      }
      hide Exec, Decode, Val;
    }
  }

  lemma CompareAt(m: Machine, r: Machine, env: Env)
    requires env.Ok() && AtCompare(m, env.prog) && Comparing(m, r) && r.delay == 0
    ensures Exec(r, env, Current(r, env.prog)).flow == Next <==> Val(m.x) == Val(m.y)
    ensures StepMachine(r, env).m.pc == if Val(m.x) == Val(m.y) then Successor(m) else m.pc
  {
    hide Exec, Decode, Val, StepMachine, DelayField, Regs.WrapTop, Regs.WrapBottom;
    CompareTick(r, env);
  }

  /** The loop leaves with its first execution if and only if X and Y are equal numbers. */
  lemma CompareLeavesIff(m: Machine, ls: seq<Local>, env: Env, r: Machine)
    requires env.Ok() && PossibleRun(m, ls, env.prog) && AtCompare(m, env.prog)
    requires LedgerOf(m, ls, env.prog).done == [] && r == LocalRun(m, ls, env.prog) && r.delay == 0
    ensures Exec(r, env, Current(r, env.prog)).flow == Next <==> Val(m.x) == Val(m.y)
    ensures StepMachine(r, env).m.pc == if Val(m.x) == Val(m.y) then Successor(m) else m.pc
  {
    hide *;
    CompareWaits(m, ls, env.prog);
    CompareAt(m, r, env);
  }

  // ---------------------------------------------------------------- WAIT

  /** What WAIT looks at. */
  predicate Seen(m: Machine, env: Env, source: WaitSource, index: Five)
    requires env.Ok() && (source == WaitPin ==> m.reg.InBase() + index + env.base < 48)
  {
    match source
    case WaitGpio => DataPath.PinHigh(env, index + env.base)
    case WaitPin => DataPath.PinHigh(env, m.reg.InBase() + index + env.base)
    case WaitIrq =>
      var f := env.FlagOf(IrqModeOf(index / 8), index % 8);
      env.irq[f.block][f.index]
    case WaitJmpPin => DataPath.PinHigh(env, m.reg.JmpPin() + env.base)
  }

  lemma MetIfSeen(m: Machine, env: Env, polarity: bool, source: WaitSource, index: Five)
    requires env.Ok() && (source == WaitPin ==> m.reg.InBase() + index + env.base < 48)
    ensures WaitMet(m, env, polarity, source, index) <==> Seen(m, env, source, index) == polarity
    ensures source == WaitIrq ==> WaitFlag(env, index) == env.FlagOf(IrqModeOf(index / 8), index % 8)
  {
    var n := index % 8;
    assert n / 4 * 4 == if n >= 4 then 4 else 0;
    hide Regs.InBase, Regs.JmpPin;
  }

  /** WAIT goes on if and only if what it sees has its polarity, and stalls otherwise.  Waiting
  for a set flag clears that flag, and only then. */
  lemma WaitResult(m: Machine, env: Env, polarity: bool, source: WaitSource, index: Five)
    requires env.Ok() && m.delay == 0 && Decode(Current(m, env.prog)) == Wait(polarity, source, index)
    requires source == WaitPin ==> m.reg.InBase() + index + env.base < 48
    ensures var s := StepMachine(m, env); var met := Seen(m, env, source, index) == polarity;
      && s.m == m.(stalled := !met, pc := if met then Successor(m) else m.pc, delay := s.m.delay,
                   execPending := m.execPending && !met)
      && s.fx.writes == [] && s.fx.raise == None
      && s.fx.lower == (if met && polarity && source == WaitIrq
                        then Some(env.FlagOf(IrqModeOf(index / 8), index % 8)) else None)
  {
    MetIfSeen(m, env, polarity, source, index);
    hide WaitMet, WaitFlag, Seen, Decode, DelayField, Regs.InBase, Regs.WrapTop, Regs.WrapBottom;
  }

  // ---------------------------------------------------------------- IRQ

  /** IRQ that does not wait: one flag raised or lowered, and nothing else. */
  lemma IrqResult(m: Machine, env: Env, clear: bool, mode: IrqMode, index: FlagIndex)
    requires env.Ok() && m.delay == 0 && Decode(Current(m, env.prog)) == Irq(clear, false, mode, index)
    ensures var s := StepMachine(m, env);
      && s.m == m.(pc := Successor(m), delay := s.m.delay, execPending := false)
      && s.fx.writes == []
      && s.fx.raise == (if clear then None else Some(env.FlagOf(mode, index)))
      && s.fx.lower == (if clear then Some(env.FlagOf(mode, index)) else None)
  {
    hide Decode, DelayField, Regs.WrapTop, Regs.WrapBottom;
  }

  /** A block's own flag, the neighbours' flags, and the machine's relative flag, as numbers. */
  lemma FlagNumbers(b: Block, sm: Slot, index: FlagIndex)
    ensures FlagAt(b, sm, ThisBlock, index) == Flag(b, index)
    ensures FlagAt(b, sm, PrevBlock, index) == Flag((b + 2) % 3, index)
    ensures FlagAt(b, sm, NextBlock, index) == Flag((b + 1) % 3, index)
    ensures var f := FlagAt(b, sm, Relative, index);
      f.block == b && f.index / 4 == index / 4 && f.index % 4 == (index % 4 + sm) % 4
  {
  }
}
