/** OUT EXEC and MOV EXEC: the injected instruction takes the slot of the next one, runs at
once, completes exactly once, and then fetching resumes.

Two families escape this: an injected jump that is taken is never retired, and an EXEC
injected by an EXEC is dropped. */
module Injection {
  import opened Bits
  import opened Instructions
  import opened Locals
  import opened Machines
  import opened Stalling
  import opened Timing

  /** The instruction word an EXEC injects. */
  function InjectedWord(m: Machine, env: Env, i: Instr): nat
    requires env.Ok()
  {
    match i
    case Out(_, n) =>
      var osr := if PullDue(m) && !m.tx.Empty() then m.tx.items[0] else m.osr;
      Val(OutData(osr, n, m.reg.OutRight())[..16])
    case Mov(_, op, source) => Val(MovApply(op, MovInput(m, env, source))[..16])
    case _ => 0
  }

  /** A completed EXEC leaves its word as the very next instruction, with no delay. */
  lemma ExecInjects(m: Machine, env: Env)
    requires env.Ok() && StallOk(m, env.prog) && m.delay == 0 && !m.execPending
    requires IsExec(Decode(Current(m, env.prog))) && !StepMachine(m, env).m.stalled
    ensures var m1 := StepMachine(m, env).m;
      && m1.execPending && m1.delay == 0 && m1.pc == NextPc(m)
      && Current(m1, env.prog) == InjectedWord(m, env, Decode(Current(m, env.prog)))
  {
    var i := Decode(Current(m, env.prog));
    TickAttempt(m, env);
    AttemptFrame(m, env, i);
  }

  /** Instructions whose completion may write the PC. */
  predicate MayJump(i: Instr) {
    i.Jmp? || (i.Out? && i.outDest == OutPc) || (i.Mov? && i.movDest == MovPc)
  }

  lemma JumpedIff(m: Machine, env: Env, i: Instr)
    requires env.Ok()
    ensures ExecDecoded(m, env, i).flow == Jumped <==>
      MayJump(i) && (i.Jmp? ==> JmpTaken(m, env, i.cond)) && !ExecDecoded(m, env, i).flow.Stall?
  {
  }

  /** A completed injected instruction is retired if and only if it did not jump, whatever it
  was; in particular an EXEC injected by an EXEC is retired and its own word never runs. */
  lemma InjectedRetires(m: Machine, env: Env)
    requires env.Ok() && StallOk(m, env.prog) && m.delay == 0 && m.execPending
    requires !StepMachine(m, env).m.stalled
    ensures var i := Decode(m.execInstr); var m1 := StepMachine(m, env).m;
      && (m1.execPending <==> MayJump(i) && (i.Jmp? ==> JmpTaken(m, env, i.cond)))
      && (!m1.execPending ==> m1.pc == NextPc(m) && Current(m1, env.prog) == Fetch(env.prog, NextPc(m)))
      && (m1.execPending ==> m1.execInstr == m.execInstr)
  {
    hide ExecDecoded, Decode, JmpTaken;
    var i := Decode(m.execInstr);
    TickAttempt(m, env);
    AttemptFrame(m, env, i);
    JumpedIff(m, env, i);
  }

  /** An injected `jmp` that is taken runs again and again: the program is never resumed. */
  lemma {:induction false} InjectedJumpRepeats(m: Machine, ls: seq<Local>, prog: seq<nat>, target: Five)
    requires PossibleRun(m, ls, prog) && StallOk(m, prog) && !m.stalled
    requires m.execPending && Decode(m.execInstr) == Jmp(Always, target)
    ensures var r := LocalRun(m, ls, prog); r.execPending && r.execInstr == m.execInstr && !r.stalled
    decreases |ls|
  {
    if ls == [] {
    } else {
      var front, l := ls[..|ls| - 1], ls[|ls| - 1];
      InjectedJumpRepeats(m, front, prog, target);
    }
  }

  /** The life of an injected instruction: until it completes it stays next, without a delay
  gap; it completes once; what follows is fetched from instruction memory. */
  ghost predicate InjectedLife(m: Machine, prog: seq<nat>, b: Ledger, r: Machine) {
    && r.reg == m.reg
    && (|b.done| == 0 ==>
          r.execPending && r.execInstr == m.execInstr && r.delay == 0 && r.pc == m.pc && b.ticks == b.waiting)
    && (|b.done| == 1 ==> !r.execPending && r.pc == NextPc(m))
    && (|b.done| >= 1 ==> b.done[0].instr == m.execInstr)
    && (|b.done| >= 2 ==> b.done[1].instr == Fetch(prog, NextPc(m)))
  }

  lemma InjectedLifeStep(m: Machine, prog: seq<nat>, b: Ledger, r: Machine, l: Local)
    requires Possible(r, l, prog) && StallOk(r, prog) && !MayJump(Decode(m.execInstr))
    requires InjectedLife(m, prog, b, r)
    ensures InjectedLife(m, prog, Entry(b, r, l), LocalStep(r, l, prog))
  {
    StallKept(r, l, prog);
    if l.Tick? && r.enabled && r.delay == 0 {
      TickAttempt(r, l.env);
      var r1 := StepMachine(r, l.env).m;
      if |b.done| == 0 && !r1.stalled {
        InjectedRetires(r, l.env);
      }
    }
  }

  /** Over any run, an injected instruction that neither jumps nor is an EXEC starts at once,
  completes exactly once however long it stalls, and then hands back to the program. */
  lemma {:induction false} ExecRunsOnce(m: Machine, ls: seq<Local>, prog: seq<nat>)
    requires PossibleRun(m, ls, prog) && StallOk(m, prog) && m.delay == 0 && m.execPending
    requires !MayJump(Decode(m.execInstr))
    ensures InjectedLife(m, prog, LedgerOf(m, ls, prog), LocalRun(m, ls, prog))
    decreases |ls|
  {
    if ls == [] {
    } else {
      var front := ls[..|ls| - 1];
      ExecRunsOnce(m, front, prog);
      StallAlways(m, front, prog);
      InjectedLifeStep(m, prog, LedgerOf(m, front, prog), LocalRun(m, front, prog), ls[|ls| - 1]);
    }
  }
}
