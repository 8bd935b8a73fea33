/** Time: delays and stalls cost cycles and nothing else.

The ledger charges every executed instruction its stalls, one cycle and its delay field,
and accounts for every clock tick.  Erasing the idle ticks of a run gives a run of a machine
that has no delays at all, with the same registers and the same effects. */
module Timing {
  import opened Instructions
  import opened Locals
  import opened Machines
  import opened Stalling

  /** A completed instruction, the cycles it stalled, and the delay it is charged. */
  datatype Executed = Executed(instr: nat, stalls: nat, delay: nat)

  datatype Ledger = Ledger(done: seq<Executed>, waiting: nat, ticks: nat)

  const BLANK := Ledger([], 0, 0)

  /** EXEC instructions ignore their delay field. */
  function OwnDelay(instr: nat): nat {
    if IsExec(Decode(instr)) then 0 else DelayField(instr)
  }

  ghost function Entry(b: Ledger, m: Machine, l: Local): Ledger
    requires l.Tick? ==> l.env.Ok()
  {
    if !l.Tick? || !m.enabled then b
    else if m.delay > 0 then b.(ticks := b.ticks + 1)
    else
      var instr := Current(m, l.env.prog);
      if Exec(m, l.env, instr).flow == Stall then b.(waiting := b.waiting + 1, ticks := b.ticks + 1)
      else Ledger(b.done + [Executed(instr, b.waiting, OwnDelay(instr))], 0, b.ticks + 1)
  }

  ghost function LedgerOf(m: Machine, ls: seq<Local>, prog: seq<nat>): Ledger
    requires PossibleRun(m, ls, prog)
    decreases |ls|
  {
    if ls == [] then BLANK
    else Entry(LedgerOf(m, ls[..|ls| - 1], prog), LocalRun(m, ls[..|ls| - 1], prog), ls[|ls| - 1])
  }

  function Cost(done: seq<Executed>): nat
    decreases |done|
  {
    if done == [] then 0
    else
      var e := done[|done| - 1];
      Cost(done[..|done| - 1]) + e.stalls + 1 + e.delay
  }

  /** At every moment the clock ticks equal what the completed instructions are charged, plus
  the stalls of the current one, less the delay still to run. */
  lemma {:induction false} LedgerBalances(m: Machine, ls: seq<Local>, prog: seq<nat>)
    requires PossibleRun(m, ls, prog) && StallOk(m, prog) && m.delay == 0 && !m.stalled
    ensures var b := LedgerOf(m, ls, prog); var r := LocalRun(m, ls, prog);
      && b.ticks + r.delay == Cost(b.done) + b.waiting
      && (r.stalled <==> b.waiting > 0)
    decreases |ls|
  {
    if ls == [] {
    } else {
      var front, l := ls[..|ls| - 1], ls[|ls| - 1];
      var m1 := LocalRun(m, front, prog);
      var b := LedgerOf(m, front, prog);
      LedgerBalances(m, front, prog);
      StallAlways(m, front, prog);
      LedgerStep(b, m1, l, prog);
      hide Entry, LocalStep, Cost;
    }
  }

  lemma LedgerStep(b: Ledger, m: Machine, l: Local, prog: seq<nat>)
    requires Possible(m, l, prog) && StallOk(m, prog)
    requires b.ticks + m.delay == Cost(b.done) + b.waiting && (m.stalled <==> b.waiting > 0)
    ensures var b1, r := Entry(b, m, l), LocalStep(m, l, prog);
      b1.ticks + r.delay == Cost(b1.done) + b1.waiting && (r.stalled <==> b1.waiting > 0)
  {
    if l.Tick? && m.enabled && m.delay == 0 {
      TickAttempt(m, l.env);
      var instr := Current(m, prog);
      CostAppend(b.done, Executed(instr, b.waiting, OwnDelay(instr)));
      hide ExecDecoded, Decode, DelayField, Cost;
    }
  }

  lemma CostAppend(done: seq<Executed>, e: Executed)
    ensures Cost(done + [e]) == Cost(done) + e.stalls + 1 + e.delay
  {
    assert (done + [e])[..|done|] == done;
  }

  /** Between two instruction boundaries the cycles taken are exactly the sum over the
  executed instructions of their stalls, one, and their delay field. */
  lemma CyclesAreCharged(m: Machine, ls: seq<Local>, prog: seq<nat>)
    requires PossibleRun(m, ls, prog) && StallOk(m, prog) && m.delay == 0 && !m.stalled
    requires LocalRun(m, ls, prog).delay == 0 && !LocalRun(m, ls, prog).stalled
    ensures LedgerOf(m, ls, prog).ticks == Cost(LedgerOf(m, ls, prog).done)
  {
    LedgerBalances(m, ls, prog);
  }

  // ---------------------------------------------------------------- erasure

  /** Instructions whose first stalled cycle has done part of the work: IN has shifted, and
  `irq wait` has raised its flag. */
  predicate TwoPhase(i: Instr) {
    i.In? || i.Irq?
  }

  /** A tick that only passes time: disabled, delaying, or stalled without having begun. */
  ghost predicate Idle(m: Machine, l: Local) {
    && l.Tick? && l.env.Ok()
    && (|| !m.enabled
        || m.delay > 0
        || (StepMachine(m, l.env).m.stalled && (m.stalled || !TwoPhase(Decode(Current(m, l.env.prog))))))
  }

  ghost function WithoutIdle(m: Machine, ls: seq<Local>, prog: seq<nat>): seq<Local>
    requires PossibleRun(m, ls, prog)
    decreases |ls|
  {
    if ls == [] then []
    else
      var front, l := ls[..|ls| - 1], ls[|ls| - 1];
      WithoutIdle(m, front, prog) + (if Idle(LocalRun(m, front, prog), l) then [] else [l])
  }

  /** A machine with the non-empty effects it has had so far. */
  datatype Traced = Traced(m: Machine, fx: seq<Effects>)

  function Visible(fx: Effects): seq<Effects> {
    if fx == NO_EFFECTS then [] else [fx]
  }

  ghost function TimedRun(m: Machine, ls: seq<Local>, prog: seq<nat>): (t: Traced)
    requires PossibleRun(m, ls, prog)
    ensures t.m == LocalRun(m, ls, prog)
    decreases |ls|
  {
    if ls == [] then Traced(m, [])
    else
      var t := TimedRun(m, ls[..|ls| - 1], prog);
      Traced(LocalStep(t.m, ls[|ls| - 1], prog), t.fx + Visible(LocalFx(t.m, ls[|ls| - 1])))
  }

  /** The machine with its delay forgotten, and its stall too unless it is halfway through an
  instruction of two phases. */
  function Bare(m: Machine, prog: seq<nat>): Machine {
    m.(delay := 0, stalled := m.stalled && TwoPhase(Decode(Current(m, prog))))
  }

  /** The machine without delays: every tick executes. */
  ghost function BareRun(m: Machine, ls: seq<Local>, prog: seq<nat>): Option<Traced>
    decreases |ls|
  {
    if ls == [] then Some(Traced(m, []))
    else
      var l := ls[|ls| - 1];
      match BareRun(m, ls[..|ls| - 1], prog)
      case None => None
      case Some(t) =>
        if Possible(t.m, l, prog) then
          Some(Traced(Bare(LocalStep(t.m, l, prog), prog), t.fx + Visible(LocalFx(t.m, l))))
        else None
  }

  /** A stall that is not of two phases leaves everything but the stall flag. */
  lemma PlainStall(m: Machine, env: Env, i: Instr)
    requires env.Ok() && !TwoPhase(i)
    ensures var o := ExecDecoded(m, env, i);
      o.flow == Stall ==> o.m == m.(stalled := true) && o.fx == NO_EFFECTS
  {
    hide OutNow, ExecMov;
    match i
    case Out(dest, n) =>
      OutNeverStalls(m, env, dest, n);
      if PullDue(m) && !m.tx.Empty() {
        OutNeverStalls(PullOsr(m), env, dest, n);
      }
    case Mov(dest, op, source) => MovNeverStalls(m, env, dest, op, source);
    case _ =>
  }

  lemma MovNeverStalls(m: Machine, env: Env, dest: MovDest, op: MovOp, source: MovSource)
    requires env.Ok()
    ensures ExecMov(m, env, dest, op, source).flow != Stall
  {
  }

  lemma IdleStep(m: Machine, l: Local, prog: seq<nat>)
    requires Possible(m, l, prog) && StallOk(m, prog) && Idle(m, l)
    ensures Bare(LocalStep(m, l, prog), prog) == Bare(m, prog) && LocalFx(m, l) == NO_EFFECTS
  {
    if m.enabled && m.delay == 0 {
      var i := Decode(Current(m, prog));
      TickAttempt(m, l.env);
      if !TwoPhase(i) {
        PlainStall(m, l.env, i);
      }
      hide ExecDecoded, Decode;
    }
  }

  /** The stall flag does not matter to an instruction of one phase that is about to succeed. */
  lemma FlagIgnored(m: Machine, env: Env, i: Instr)
    requires env.Ok() && !TwoPhase(i) && m.stalled && StallCause(m, i) && ExecDecoded(m, env, i).flow != Stall
    ensures ExecDecoded(m.(stalled := false), env, i) == ExecDecoded(m, env, i)
  {
    hide OutNow;
    match i
    case Out(dest, n) =>
      assert PullOsr(m.(stalled := false)) == PullOsr(m);
    case _ =>
  }

  lemma BusyTick(m: Machine, env: Env, prog: seq<nat>)
    requires env.Ok() && env.prog == prog && StallOk(m, prog) && m.delay == 0 && !Idle(m, Tick(env))
    ensures StepMachine(Bare(m, prog), env) == StepMachine(m, env)
  {
    var i := Decode(Current(m, prog));
    assert Current(Bare(m, prog), prog) == Current(m, prog);
    TickAttempt(m, env);
    if m.stalled && !TwoPhase(i) {
      assert Bare(m, prog) == m.(stalled := false);
      FlagIgnored(m, env, i);
    } else {
      assert Bare(m, prog) == m;
    }
    hide ExecDecoded, Decode;
  }

  lemma BusyStep(m: Machine, l: Local, prog: seq<nat>)
    requires Possible(m, l, prog) && StallOk(m, prog) && !Idle(m, l)
    ensures Possible(Bare(m, prog), l, prog)
    ensures Bare(LocalStep(Bare(m, prog), l, prog), prog) == Bare(LocalStep(m, l, prog), prog)
    ensures LocalFx(Bare(m, prog), l) == LocalFx(m, l)
  {
    if l.Tick? && m.enabled {
      BusyTick(m, l.env, prog);
    }
    hide StepMachine, Decode;
  }

  lemma BareAppend(m: Machine, ls: seq<Local>, l: Local, prog: seq<nat>, t: Traced)
    requires BareRun(m, ls, prog) == Some(t) && Possible(t.m, l, prog)
    ensures BareRun(m, ls + [l], prog)
         == Some(Traced(Bare(LocalStep(t.m, l, prog), prog), t.fx + Visible(LocalFx(t.m, l))))
  {
    assert (ls + [l])[..|ls + [l]| - 1] == ls;
  }

  /** Delay and stall cycles are invisible: without them the delay-free machine goes through
  the same registers, FIFOs and effects. */
  lemma {:induction false} ErasureRefines(m: Machine, ls: seq<Local>, prog: seq<nat>)
    requires PossibleRun(m, ls, prog) && StallOk(m, prog)
    ensures var t := TimedRun(m, ls, prog);
      BareRun(Bare(m, prog), WithoutIdle(m, ls, prog), prog) == Some(Traced(Bare(t.m, prog), t.fx))
    decreases |ls|
  {
    if ls == [] {
    } else {
      var front, l := ls[..|ls| - 1], ls[|ls| - 1];
      ErasureRefines(m, front, prog);
      StallAlways(m, front, prog);
      var m1 := LocalRun(m, front, prog);
      var busy := WithoutIdle(m, front, prog);
      if Idle(m1, l) {
        IdleStep(m1, l, prog);
        assert WithoutIdle(m, ls, prog) == busy;
        assert TimedRun(m, ls, prog).fx == TimedRun(m, front, prog).fx;
      } else {
        BusyStep(m1, l, prog);
        BareAppend(Bare(m, prog), busy, l, prog, Traced(Bare(m1, prog), TimedRun(m, front, prog).fx));
      }
      hide LocalStep, LocalFx, Idle, Bare;
    }
  }

  /** Without delays and stalls every tick of an enabled machine that is left does its work:
  it completes an instruction, or it is the first phase of an IN or of an `irq wait`. */
  lemma BusyTicksWork(m: Machine, l: Local, prog: seq<nat>)
    requires Possible(m, l, prog) && StallOk(m, prog) && l.Tick? && !Idle(m, l)
    ensures m.enabled && m.delay == 0
    ensures Exec(m, l.env, Current(m, prog)).flow == Stall ==> !m.stalled && TwoPhase(Decode(Current(m, prog)))
  {
    if m.enabled && m.delay == 0 {
      TickAttempt(m, l.env);
    }
  }
}
