/** The two-instruction loop that is meant to empty the OSR: `out null, c` and `jmp !osre, back`.

The chip jumps back while the OSR still holds bits, the emulator once it holds none.  So the
loop leaves after one OUT when more are needed, and never leaves when one would do: in no case
does it run the number of OUTs it was written for. */
module Drain {
  import opened Instructions
  import opened Locals
  import opened Machines
  import opened Timing

  /** The two instructions, at `at` and `at + 1`, without autopull. */
  ghost predicate DrainProgram(reg: Regs, prog: seq<nat>, at: nat, c: Count) {
    && at + 1 < NUM_INSTRS_PER_BLOCK && reg.WrapTop() != at && !reg.AutoPull()
    && Decode(Fetch(prog, at)) == Out(OutNull, c) && Decode(Fetch(prog, at + 1)) == Jmp(OsrReached, at)
  }

  /** At the start of the loop with a fresh OSR. */
  predicate AtDrain(m: Machine, at: nat) {
    m.pc == at && m.osrCount == 0 && !m.execPending && !m.stalled
  }

  lemma DrainOut(r: Machine, env: Env, at: nat, c: Count)
    requires env.Ok() && DrainProgram(r.reg, env.prog, at, c) && r.delay == 0 && r.pc == at && !r.execPending
    ensures Exec(r, env, Current(r, env.prog)).flow == Next
    ensures var r1 := StepMachine(r, env).m;
      && r1.pc == at + 1 && r1.osrCount == AddCount(r.osrCount, c) && r1.reg == r.reg
      && !r1.execPending && r1.stalled == r.stalled
  {
    hide OutData, OutRest, Decode, DelayField;
  }

  lemma DrainJmp(r: Machine, env: Env, at: nat, c: Count)
    requires env.Ok() && DrainProgram(r.reg, env.prog, at, c) && r.delay == 0 && r.pc == at + 1 && !r.execPending
    ensures var reached := r.osrCount >= r.reg.PullThreshold(); var r1 := StepMachine(r, env).m;
      && Exec(r, env, Current(r, env.prog)).flow == (if reached then Jumped else Next)
      && r1.pc == (if reached then at else NextPc(r))
      && r1.osrCount == r.osrCount && r1.reg == r.reg && !r1.execPending && r1.stalled == r.stalled
  {
    hide Decode, DelayField;
  }

  /** Up to the first JMP: nothing executed and no bit shifted, or one OUT and `c` bits. */
  ghost predicate FirstPass(m: Machine, at: nat, c: Count, b: Ledger, r: Machine) {
    && r.reg == m.reg && !r.execPending && !r.stalled
    && (if b.done == [] then r.pc == at && r.osrCount == 0 else r.pc == at + 1 && r.osrCount == c)
  }

  lemma FirstPassStep(m: Machine, at: nat, c: Count, b: Ledger, r: Machine, l: Local, prog: seq<nat>)
    requires Possible(r, l, prog) && DrainProgram(m.reg, prog, at, c) && FirstPass(m, at, c, b, r)
    requires |Entry(b, r, l).done| <= 1
    ensures FirstPass(m, at, c, Entry(b, r, l), LocalStep(r, l, prog))
  {
    if l.Tick? && r.enabled && r.delay == 0 {
      if b.done == [] {
        DrainOut(r, l.env, at, c);
      } else {
        DrainJmp(r, l.env, at, c);
      }
    }
    hide Exec, Decode, DrainProgram;
  }

  lemma {:induction false} FirstPassAlways(m: Machine, ls: seq<Local>, prog: seq<nat>, at: nat, c: Count)
    requires PossibleRun(m, ls, prog) && DrainProgram(m.reg, prog, at, c) && AtDrain(m, at)
    requires |LedgerOf(m, ls, prog).done| <= 1
    ensures FirstPass(m, at, c, LedgerOf(m, ls, prog), LocalRun(m, ls, prog))
    decreases |ls|
  {
    if ls == [] {
    } else {
      var front := ls[..|ls| - 1];
      EntryGrows(LedgerOf(m, front, prog), LocalRun(m, front, prog), ls[|ls| - 1]);
      FirstPassAlways(m, front, prog, at, c);
      FirstPassStep(m, at, c, LedgerOf(m, front, prog), LocalRun(m, front, prog), ls[|ls| - 1], prog);
      hide Entry, LocalStep, FirstPass, DrainProgram;
    }
  }

  lemma EntryGrows(b: Ledger, m: Machine, l: Local)
    requires l.Tick? ==> l.env.Ok()
    ensures |b.done| <= |Entry(b, m, l).done|
  {
  }

  /** After one OUT the loop leaves if and only if its count is below the pull threshold. */
  lemma LeavesAfterOneIff(m: Machine, ls: seq<Local>, env: Env, at: nat, c: Count)
    requires env.Ok() && PossibleRun(m, ls, env.prog) && DrainProgram(m.reg, env.prog, at, c) && AtDrain(m, at)
    requires |LedgerOf(m, ls, env.prog).done| == 1 && LocalRun(m, ls, env.prog).delay == 0
    ensures var r := LocalRun(m, ls, env.prog);
      && r.pc == at + 1
      && (Exec(r, env, Current(r, env.prog)).flow == Next <==> c < m.reg.PullThreshold())
      && (c < m.reg.PullThreshold() ==> StepMachine(r, env).m.pc == NextPc(r))
  {
    FirstPassAlways(m, ls, env.prog, at, c);
    DrainJmp(LocalRun(m, ls, env.prog), env, at, c);
    hide Exec, StepMachine, LocalRun, LedgerOf, PossibleRun, DrainProgram;
  }

  /** In the loop, and past an OUT only with the threshold reached. */
  predicate Draining(r: Machine, reg: Regs, at: nat) {
    && r.reg == reg && !r.execPending
    && (r.pc == at || (r.pc == at + 1 && r.osrCount >= reg.PullThreshold()))
  }

  lemma DrainingKept(r: Machine, l: Local, prog: seq<nat>, reg: Regs, at: nat, c: Count)
    requires Possible(r, l, prog) && DrainProgram(reg, prog, at, c) && c >= reg.PullThreshold()
    requires Draining(r, reg, at)
    ensures Draining(LocalStep(r, l, prog), reg, at)
  {
    if l.Tick? && r.enabled && r.delay == 0 {
      if r.pc == at {
        DrainOut(r, l.env, at, c);
      } else {
        DrainJmp(r, l.env, at, c);
      }
      hide Exec, StepMachine, DrainProgram, Regs.PullThreshold;
    }
  }

  /** With a count at or above the threshold the loop never ends, in any local history. */
  lemma {:induction false} NeverLeaves(m: Machine, ls: seq<Local>, prog: seq<nat>, at: nat, c: Count)
    requires PossibleRun(m, ls, prog) && DrainProgram(m.reg, prog, at, c) && AtDrain(m, at)
    requires c >= m.reg.PullThreshold()
    ensures Draining(LocalRun(m, ls, prog), m.reg, at)
    decreases |ls|
  {
    if ls == [] {
    } else {
      var front := ls[..|ls| - 1];
      NeverLeaves(m, front, prog, at, c);
      DrainingKept(LocalRun(m, front, prog), ls[|ls| - 1], prog, m.reg, at, c);
      hide LocalStep, Draining, DrainProgram;
    }
  }

  // ---------------------------------------------------------------- what the loop was written for

  /** Bits shifted out of a fresh OSR by `k` OUTs of `c`. */
  function ShiftedOut(k: nat, c: Count): nat {
    if k == 0 then 0 else AddCount(ShiftedOut(k - 1, c), c)
  }

  /** The chip leaves the loop after `k` OUTs: the first that reaches the threshold. */
  ghost predicate ChipLeavesAfter(k: nat, c: Count, threshold: Count) {
    k >= 1 && ShiftedOut(k, c) >= threshold && forall j :: 1 <= j < k ==> ShiftedOut(j, c) < threshold
  }

  /** The chip leaves after one OUT exactly when the emulator does not. */
  lemma ChipLeavesAfterOneIff(k: nat, c: Count, threshold: Count)
    requires ChipLeavesAfter(k, c, threshold)
    ensures k == 1 <==> c >= threshold
  {
    assert ShiftedOut(1, c) == c by { assert ShiftedOut(0, c) == 0; }
  }

  /** It always leaves. */
  lemma ChipLeaves(c: Count, threshold: Count) returns (k: nat)
    ensures ChipLeavesAfter(k, c, threshold)
  {
    k := 1;
    while ShiftedOut(k, c) < threshold
      invariant k >= 1 && ShiftedOut(k, c) >= (if k < 32 then k else 32)
      invariant forall j :: 1 <= j < k ==> ShiftedOut(j, c) < threshold
      decreases 32 - ShiftedOut(k, c)
    {
      k := k + 1;
    }
  }

  /** So whenever the emulator leaves after its one OUT, the chip would have run another. */
  lemma NeverAsIntended(m: Machine, ls: seq<Local>, env: Env, at: nat, c: Count, k: nat)
    requires env.Ok() && PossibleRun(m, ls, env.prog) && DrainProgram(m.reg, env.prog, at, c) && AtDrain(m, at)
    requires |LedgerOf(m, ls, env.prog).done| == 1 && LocalRun(m, ls, env.prog).delay == 0
    requires ChipLeavesAfter(k, c, m.reg.PullThreshold())
    ensures Exec(LocalRun(m, ls, env.prog), env, Current(LocalRun(m, ls, env.prog), env.prog)).flow == Next <==> k > 1
  {
    LeavesAfterOneIff(m, ls, env, at, c);
    ChipLeavesAfterOneIff(k, c, m.reg.PullThreshold());
    hide Exec, LocalRun, LedgerOf, PossibleRun, DrainProgram, ChipLeavesAfter;
  }
}
