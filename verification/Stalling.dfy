/** Stalls: a stalled machine retries the instruction that stalled, with the cause still
present, and a retry that stalls again changes nothing and does nothing. */
module Stalling {
  import opened Bits
  import opened Instructions
  import opened Machines
  import opened Locals

  /** The part of a stall condition that only the machine itself can change. */
  predicate StallCause(m: Machine, i: Instr) {
    match i
    case Wait(_, _, _) => true
    case In(_, _) => PushDue(m)
    case Out(_, _) => PullDue(m)
    case Pull(ifEmpty, block) => block && ShouldPull(m, ifEmpty)
    case Push(ifFull, block) => block && ShouldPush(m, ifFull)
    case Irq(clear, wait, _, _) => !clear && wait
    case _ => false
  }

  /** `stalled` means: no delay is running and the next instruction is the one that stalled. */
  predicate StallOk(m: Machine, prog: seq<nat>) {
    m.stalled ==> m.delay == 0 && StallCause(m, Decode(Current(m, prog)))
  }

  /** An attempt ends stalled exactly when the stall flag ends up set, and then keeps
  everything but what an IN has shifted; a repeated stall changes nothing at all. */
  ghost predicate StallsCleanly(m: Machine, o: Outcome, i: Instr) {
    && (o.flow == Stall <==> o.m.stalled)
    && (o.flow == Stall ==> StallCause(o.m, i) && o.m == m.(isr := o.m.isr, isrCount := o.m.isrCount, stalled := true))
    && (o.flow == Stall && m.stalled ==> o.m == m && o.fx == NO_EFFECTS)
  }

  lemma InStalls(m: Machine, env: Env, source: InSource, n: Count)
    requires m.stalled ==> PushDue(m)
    ensures StallsCleanly(m, ExecIn(m, env, source, n), In(source, n))
  {
  }

  lemma OutStalls(m: Machine, env: Env, dest: OutDest, n: Count)
    requires m.stalled ==> PullDue(m)
    ensures StallsCleanly(m, ExecOut(m, env, dest, n), Out(dest, n))
  {
    if PullDue(m) && !m.tx.Empty() {
      OutNeverStalls(PullOsr(m), env, dest, n);
    } else {
      OutNeverStalls(m, env, dest, n);
    }
  }

  lemma OutNeverStalls(m: Machine, env: Env, dest: OutDest, n: Count)
    ensures OutNow(m, env, dest, n).flow != Stall && OutNow(m, env, dest, n).m.stalled == m.stalled
  {
  }

  lemma MovStalls(m: Machine, env: Env, dest: MovDest, op: MovOp, source: MovSource)
    requires env.Ok() && !m.stalled
    ensures StallsCleanly(m, ExecMov(m, env, dest, op, source), Mov(dest, op, source))
  {
  }

  lemma PullStalls(m: Machine, ifEmpty: bool, block: bool)
    requires m.stalled ==> block && ShouldPull(m, ifEmpty)
    ensures StallsCleanly(m, ExecPull(m, ifEmpty, block), Pull(ifEmpty, block))
  {
  }

  lemma PushStalls(m: Machine, ifFull: bool, block: bool)
    requires m.stalled ==> block && ShouldPush(m, ifFull)
    ensures StallsCleanly(m, ExecPush(m, ifFull, block), Push(ifFull, block))
  {
  }

  lemma Attempt(m: Machine, env: Env, i: Instr)
    requires env.Ok() && (m.stalled ==> StallCause(m, i))
    ensures StallsCleanly(m, ExecDecoded(m, env, i), i)
  {
    hide ExecOut, ExecMov, ExecIn, ExecPush, ExecPull;
    match i
    case In(source, n) => InStalls(m, env, source, n);
    case Out(dest, n) => OutStalls(m, env, dest, n);
    case Mov(dest, op, source) => MovStalls(m, env, dest, op, source);
    case Push(ifFull, block) => PushStalls(m, ifFull, block);
    case Pull(ifEmpty, block) => PullStalls(m, ifEmpty, block);
    case _ =>
  }

  /** What no instruction changes, and what only EXEC and jumps change. */
  ghost predicate Framed(m: Machine, o: Outcome, exec: bool) {
    && o.m.reg == m.reg && o.m.enabled == m.enabled && o.m.delay == m.delay
    && (o.flow != Jumped ==> o.m.pc == m.pc)
    && (!o.noDelay ==> o.m.execPending == m.execPending && o.m.execInstr == m.execInstr)
    && (o.noDelay ==> o.flow == Next && o.m.execPending && o.m.execInstr < 0x1_0000)
    && (o.noDelay <==> o.flow == Next && exec)
  }

  /** An instruction uses its own FIFOs only, at most once, and only from its own side. */
  ghost predicate OwnFifosOnly(m: Machine, o: Outcome) {
    && (o.m.rx == m.rx || (!m.rx.Full() && exists w :: o.m.rx == m.rx.Push(w)))
    && (o.m.tx == m.tx || (!m.tx.Empty() && o.m.tx == m.tx.Pop()))
  }

  lemma OutFramed(m: Machine, env: Env, dest: OutDest, n: Count)
    ensures Framed(m, ExecOut(m, env, dest, n), dest == OutExec)
    ensures OwnFifosOnly(m, ExecOut(m, env, dest, n))
  {
    var m1 := if PullDue(m) && !m.tx.Empty() then PullOsr(m) else m;
    LowValue(OutData(m1.osr, n, m1.reg.OutRight()));
  }

  lemma MovFramed(m: Machine, env: Env, dest: MovDest, op: MovOp, source: MovSource)
    requires env.Ok()
    ensures Framed(m, ExecMov(m, env, dest, op, source), dest == MovExec)
    ensures OwnFifosOnly(m, ExecMov(m, env, dest, op, source))
  {
    LowValue(MovApply(op, MovInput(m, env, source)));
  }

  lemma InFramed(m: Machine, env: Env, source: InSource, n: Count)
    ensures Framed(m, ExecIn(m, env, source, n), false)
    ensures OwnFifosOnly(m, ExecIn(m, env, source, n))
  {
    var m1 := if m.stalled then m else Shifted(m, env, source, n);
    assert !m1.rx.Full() ==> PushIsr(m1).rx == m.rx.Push(m1.isr);
  }

  lemma PushFramed(m: Machine, ifFull: bool, block: bool)
    ensures Framed(m, ExecPush(m, ifFull, block), false)
    ensures OwnFifosOnly(m, ExecPush(m, ifFull, block))
  {
    assert !m.rx.Full() ==> PushIsr(m).rx == m.rx.Push(m.isr);
  }

  lemma PullFramed(m: Machine, ifEmpty: bool, block: bool)
    ensures Framed(m, ExecPull(m, ifEmpty, block), false)
    ensures OwnFifosOnly(m, ExecPull(m, ifEmpty, block))
  {
  }

  lemma JmpFramed(m: Machine, env: Env, cond: JmpCond, target: Five)
    ensures Framed(m, ExecJmp(m, env, cond, target), false)
    ensures OwnFifosOnly(m, ExecJmp(m, env, cond, target))
  {
  }

  lemma WaitFramed(m: Machine, env: Env, polarity: bool, source: WaitSource, index: Five)
    requires env.Ok()
    ensures Framed(m, ExecWait(m, env, polarity, source, index), false)
    ensures OwnFifosOnly(m, ExecWait(m, env, polarity, source, index))
  {
  }

  lemma IrqFramed(m: Machine, env: Env, clear: bool, wait: bool, f: Flag)
    requires env.Ok()
    ensures Framed(m, ExecIrq(m, env, clear, wait, f), false)
    ensures OwnFifosOnly(m, ExecIrq(m, env, clear, wait, f))
  {
  }

  lemma SetFramed(m: Machine, env: Env, dest: SetDest, data: Five)
    ensures Framed(m, ExecSet(m, env, dest, data), false)
    ensures OwnFifosOnly(m, ExecSet(m, env, dest, data))
  {
  }

  lemma IdleFramed(m: Machine)
    ensures Framed(m, Done(m), false) && OwnFifosOnly(m, Done(m))
  {
  }

  lemma AttemptFrame(m: Machine, env: Env, i: Instr)
    requires env.Ok()
    ensures Framed(m, ExecDecoded(m, env, i), IsExec(i))
    ensures OwnFifosOnly(m, ExecDecoded(m, env, i))
  {
    hide ExecOut, ExecMov, ExecIn, ExecPush, ExecPull, ExecJmp, ExecWait, ExecIrq, ExecSet, Framed, OwnFifosOnly;
    match i
    case Jmp(cond, target) => JmpFramed(m, env, cond, target);
    case Wait(polarity, source, index) => WaitFramed(m, env, polarity, source, index);
    case In(source, n) => InFramed(m, env, source, n);
    case Out(dest, n) => OutFramed(m, env, dest, n);
    case Push(ifFull, block) => PushFramed(m, ifFull, block);
    case Pull(ifEmpty, block) => PullFramed(m, ifEmpty, block);
    case RxFifoMove => IdleFramed(m);
    case Mov(dest, op, source) => MovFramed(m, env, dest, op, source);
    case Irq(clear, wait, mode, index) => IrqFramed(m, env, clear, wait, env.FlagOf(mode, index));
    case Set(dest, data) => SetFramed(m, env, dest, data);
  }

  /** OUT EXEC and MOV EXEC. */
  predicate IsExec(i: Instr) {
    (i.Out? && i.outDest == OutExec) || (i.Mov? && i.movDest == MovExec)
  }

  lemma LowValue(w: Word)
    ensures Val(w[..16]) < 0x1_0000 && Val(w[..8]) < 256 && Val(w[..5]) < 32
  {
    ValBound(w[..16]);
    ValBound(w[..8]);
    ValBound(w[..5]);
    assert Pow2(4) == 16;
    assert Pow2(8) == 256 by { assert Pow2(6) == 64; }
    assert Pow2(12) == 4096 by { assert Pow2(10) == 1024; }
    assert Pow2(16) == 0x1_0000 by { assert Pow2(14) == 16384; }
  }

  /** A tick that executes (rather than delays): what becomes of the machine. */
  lemma TickAttempt(m: Machine, env: Env)
    requires env.Ok() && m.delay == 0 && StallOk(m, env.prog)
    ensures var o := Exec(m, env, Current(m, env.prog)); var r := StepMachine(m, env);
      && r.fx == o.fx
      && (o.flow == Stall <==> r.m.stalled)
      && (o.flow == Stall ==> StallOk(r.m, env.prog) && Current(r.m, env.prog) == Current(m, env.prog)
                              && r.m == m.(isr := r.m.isr, isrCount := r.m.isrCount, stalled := true))
      && (o.flow == Stall && m.stalled ==> r == Step(m, NO_EFFECTS))
      && (o.flow != Stall ==>
            r.m.delay == if IsExec(Decode(Current(m, env.prog))) then 0 else DelayField(Current(m, env.prog)))
      && r.m.reg == m.reg && r.m.enabled == m.enabled
  {
    var i := Decode(Current(m, env.prog));
    Attempt(m, env, i);
    AttemptFrame(m, env, i);
    var o := ExecDecoded(m, env, i);
    assert o.flow == Jumped ==> !IsExec(i);
  }

  /** Every event keeps the stall invariant. */
  lemma StallKept(m: Machine, l: Local, prog: seq<nat>)
    requires Possible(m, l, prog) && StallOk(m, prog)
    ensures StallOk(LocalStep(m, l, prog), prog)
    ensures LocalStep(m, l, prog).reg == m.reg
  {
    if l.Tick? && m.enabled && m.delay == 0 {
      TickAttempt(m, l.env);
    }
  }

  /** In every reachable state a stalled machine is about to retry what stalled it. */
  lemma {:induction false} StallAlways(m: Machine, ls: seq<Local>, prog: seq<nat>)
    requires PossibleRun(m, ls, prog) && StallOk(m, prog)
    ensures StallOk(LocalRun(m, ls, prog), prog)
    ensures LocalRun(m, ls, prog).reg == m.reg
    decreases |ls|
  {
    if ls == [] {
    } else {
      StallAlways(m, ls[..|ls| - 1], prog);
      StallKept(LocalRun(m, ls[..|ls| - 1], prog), ls[|ls| - 1], prog);
    }
  }

  /** The machine is stalled at the start and after each event of the run. */
  ghost predicate HeldStalled(m: Machine, ls: seq<Local>, prog: seq<nat>)
    requires PossibleRun(m, ls, prog)
    decreases |ls|
  {
    LocalRun(m, ls, prog).stalled && (ls != [] ==> HeldStalled(m, ls[..|ls| - 1], prog))
  }

  /** All effects of a run, one entry per event. */
  ghost function Effected(m: Machine, ls: seq<Local>, prog: seq<nat>): (fx: seq<Effects>)
    requires PossibleRun(m, ls, prog)
    ensures |fx| == |ls|
    decreases |ls|
  {
    if ls == [] then []
    else Effected(m, ls[..|ls| - 1], prog) + [LocalFx(LocalRun(m, ls[..|ls| - 1], prog), ls[|ls| - 1])]
  }

  /** However long it stalls and whatever happens to its FIFOs meanwhile, a stalled machine
  keeps its registers and has no effect on anything. */
  lemma {:induction false} FrozenWhileStalled(m: Machine, ls: seq<Local>, prog: seq<nat>)
    requires PossibleRun(m, ls, prog) && StallOk(m, prog) && HeldStalled(m, ls, prog)
    ensures var r := LocalRun(m, ls, prog);
      r == m.(tx := r.tx, rx := r.rx, enabled := r.enabled)
    ensures forall k :: 0 <= k < |ls| ==> Effected(m, ls, prog)[k] == NO_EFFECTS
    decreases |ls|
  {
    if ls == [] {
    } else {
      var front, l := ls[..|ls| - 1], ls[|ls| - 1];
      var m1 := LocalRun(m, front, prog);
      FrozenWhileStalled(m, front, prog);
      StallAlways(m, front, prog);
      if l.Tick? && m1.enabled {
        TickAttempt(m1, l.env);
      }
    }
  }

  /** IN shifts exactly once: the word finally pushed is the word built by the first attempt,
  from the inputs sampled then, however long the push has to wait. */
  lemma InShiftsOnce(m: Machine, env: Env, ls: seq<Local>, env2: Env, source: InSource, n: Count)
    requires env.Ok() && env2.Ok() && env2.prog == env.prog
    requires m.enabled && m.delay == 0 && !m.stalled && Decode(Current(m, env.prog)) == In(source, n)
    requires PossibleRun(StepMachine(m, env).m, ls, env.prog) && HeldStalled(StepMachine(m, env).m, ls, env.prog)
    ensures var m2 := LocalRun(StepMachine(m, env).m, ls, env.prog); var m3 := StepMachine(m2, env2).m;
      && m2.isr == ShiftIn(m.isr, InData(m, env, source, n), n, m.reg.InRight())
      && (m3.stalled <==> m2.rx.Full())
      && (!m3.stalled ==> m3.rx == m2.rx.Push(m2.isr) && m3.isr == ZERO && m3.isrCount == 0)
  {
    var m1 := StepMachine(m, env).m;
    TickAttempt(m, env);
    FirstStalled(m1, ls, env.prog);
    FrozenWhileStalled(m1, ls, env.prog);
    var m2 := LocalRun(m1, ls, env.prog);
    StallAlways(m1, ls, env.prog);
    TickAttempt(m2, env2);
    assert Current(m2, env.prog) == Current(m, env.prog);
  }

  lemma {:induction false} FirstStalled(m: Machine, ls: seq<Local>, prog: seq<nat>)
    requires PossibleRun(m, ls, prog) && HeldStalled(m, ls, prog)
    ensures m.stalled
    decreases |ls|
  {
    if ls == [] {
    } else {
      FirstStalled(m, ls[..|ls| - 1], prog);
    }
  }

  lemma RetriesSame(m: Machine, ls: seq<Local>, prog: seq<nat>, m2: Machine)
    requires PossibleRun(m, ls, prog) && StallOk(m, prog) && HeldStalled(m, ls, prog) && m2 == LocalRun(m, ls, prog)
    ensures m2.stalled && m2.delay == 0 && Current(m2, prog) == Current(m, prog)
    ensures forall k :: 0 <= k < |ls| ==> Effected(m, ls, prog)[k] == NO_EFFECTS
  {
    FirstStalled(m, ls, prog);
    FrozenWhileStalled(m, ls, prog);
  }

  lemma IrqAttempt(m: Machine, env: Env, mode: IrqMode, index: FlagIndex)
    requires env.Ok() && m.delay == 0 && Decode(Current(m, env.prog)) == Irq(false, true, mode, index)
    ensures var r := StepMachine(m, env); var f := env.FlagOf(mode, index);
      && r.fx == (if m.stalled then NO_EFFECTS else Effects([], Some(f), None))
      && (r.m.stalled <==> !m.stalled || env.Raised(f))
  {
  }

  /** `irq wait` raises its flag exactly once, on the first attempt, and completes exactly
  when a retry sees the flag clear: `m1` is the machine after the first attempt and `m2`
  after any number of stalled retries. */
  lemma IrqWaitRaisesOnce(m: Machine, env: Env, m1: Machine, ls: seq<Local>, m2: Machine, env2: Env, mode: IrqMode,
                          index: FlagIndex)
    requires env.Ok() && env2.Ok() && env2.prog == env.prog && env2.block == env.block && env2.sm == env.sm
    requires m.delay == 0 && !m.stalled && Decode(Current(m, env.prog)) == Irq(false, true, mode, index)
    requires m1 == StepMachine(m, env).m
    requires PossibleRun(m1, ls, env.prog) && HeldStalled(m1, ls, env.prog) && m2 == LocalRun(m1, ls, env.prog)
    ensures StepMachine(m, env).fx == Effects([], Some(env.FlagOf(mode, index)), None)
    ensures forall k :: 0 <= k < |ls| ==> Effected(m1, ls, env.prog)[k] == NO_EFFECTS
    ensures StepMachine(m2, env2).fx == NO_EFFECTS
    ensures StepMachine(m2, env2).m.stalled <==> env2.Raised(env.FlagOf(mode, index))
  {
    IrqAttempt(m, env, mode, index);
    assert StallOk(m1, env.prog) && Current(m1, env.prog) == Current(m, env.prog) by {
      FirstStalled(m1, ls, env.prog);
      TickAttempt(m, env);
    }
    RetriesSame(m1, ls, env.prog, m2);
    IrqAttempt(m2, env2, mode, index);
  }

  /** FIFO conservation: whatever the machine, the host and DMA do, every word ever put into
  one of the machine's FIFOs has been taken out or is still there, in order. */
  ghost predicate QueuesOk(m: Machine) {
    m.tx.Ok() && m.rx.Ok()
  }

  lemma QueuesKept(m: Machine, l: Local, prog: seq<nat>)
    requires Possible(m, l, prog) && QueuesOk(m)
    ensures QueuesOk(LocalStep(m, l, prog))
  {
    if l.Tick? && m.enabled && m.delay == 0 {
      AttemptFrame(m, l.env, Decode(Current(m, prog)));
      hide ExecDecoded;
    }
  }

  lemma {:induction false} QueuesAlways(m: Machine, ls: seq<Local>, prog: seq<nat>)
    requires PossibleRun(m, ls, prog) && QueuesOk(m)
    ensures QueuesOk(LocalRun(m, ls, prog))
    decreases |ls|
  {
    if ls == [] {
    } else {
      QueuesAlways(m, ls[..|ls| - 1], prog);
      QueuesKept(LocalRun(m, ls[..|ls| - 1], prog), ls[|ls| - 1], prog);
    }
  }
}
