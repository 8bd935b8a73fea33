/** PULL and PUSH case by case, and the loop that a non-blocking PULL exists for: X keeps the
last word sent until a new one comes. */
module PullPush {
  import opened Bits
  import opened DataPath
  import opened Instructions
  import opened Locals
  import opened Machines

  /** PULL skips below the threshold if it is an `ifempty` or a barrier for autopull. */
  predicate PullSkips(m: Machine, ifEmpty: bool) {
    m.osrCount < m.reg.PullThreshold() && (ifEmpty || m.reg.AutoPull())
  }

  /** PULL: skip; take the oldest word of TX; stall; or, not blocking, copy X. */
  lemma PullResult(m: Machine, env: Env, ifEmpty: bool, block: bool)
    requires env.Ok() && m.delay == 0 && Decode(Current(m, env.prog)) == Pull(ifEmpty, block)
    ensures var s := StepMachine(m, env); var r := s.m;
      && s.fx == NO_EFFECTS
      && r.x == m.x && r.y == m.y && r.isr == m.isr && r.isrCount == m.isrCount && r.rx == m.rx
      && (if PullSkips(m, ifEmpty) then
            r.osr == m.osr && r.osrCount == m.osrCount && r.tx == m.tx && r.stalled == m.stalled && r.pc == Successor(m)
          else if m.tx.items != [] then
            && r.osr == m.tx.items[0] && r.osrCount == 0 && r.tx.items == m.tx.items[1..]
            && !r.stalled && r.pc == Successor(m)
          else if block then
            r.osr == m.osr && r.osrCount == m.osrCount && r.tx == m.tx && r.stalled && r.pc == m.pc
          else
            r.osr == m.x && r.osrCount == 0 && r.tx == m.tx && !r.stalled && r.pc == Successor(m))
  {
    hide Decode, DelayField, Regs.WrapTop, Regs.WrapBottom, Regs.PullThreshold, Regs.AutoPull;
  }

  /** PUSH: skip below the threshold if `iffull`; append the ISR to RX and clear it; stall; or,
  not blocking, lose the ISR's word and go on. */
  lemma PushResult(m: Machine, env: Env, ifFull: bool, block: bool)
    requires env.Ok() && m.delay == 0 && Decode(Current(m, env.prog)) == Push(ifFull, block)
    ensures var s := StepMachine(m, env); var r := s.m;
      && s.fx == NO_EFFECTS
      && r.x == m.x && r.y == m.y && r.osr == m.osr && r.osrCount == m.osrCount && r.tx == m.tx
      && (if ifFull && m.isrCount < m.reg.PushThreshold() then
            r.isr == m.isr && r.isrCount == m.isrCount && r.rx == m.rx && r.stalled == m.stalled && r.pc == Successor(m)
          else if |m.rx.items| < 4 then
            && Val(r.isr) == 0 && r.isrCount == 0 && r.rx.items == m.rx.items + [m.isr]
            && !r.stalled && r.pc == Successor(m)
          else if block then
            r.isr == m.isr && r.isrCount == m.isrCount && r.rx == m.rx && r.stalled && r.pc == m.pc
          else
            Val(r.isr) == 0 && r.isrCount == 0 && r.rx == m.rx && r.stalled == m.stalled && r.pc == Successor(m))
  {
    ValZero(ZERO);
    hide Decode, DelayField, Regs.WrapTop, Regs.WrapBottom, Regs.PushThreshold, Val;
  }

  // ---------------------------------------------------------------- the last word sent

  /** `pull noblock` and then X from the OSR, by `out x, 32` or `mov x, osr`, looped. */
  ghost predicate KeepProgram(reg: Regs, prog: seq<nat>, at: nat) {
    && at + 1 < NUM_INSTRS_PER_BLOCK && reg.WrapBottom() == at && reg.WrapTop() == at + 1 && !reg.AutoPull()
    && Decode(Fetch(prog, at)) == Pull(false, false)
    && Decode(Fetch(prog, at + 1)) in {Out(OutX, 32), Mov(MovX, Copy, FromOsr)}
  }

  /** The last word taken since `g0`, or `x0` if none was. */
  function LastTaken(g0: seq<Word>, got: seq<Word>, x0: Word): Word {
    if |got| > |g0| then got[|got| - 1] else x0
  }

  /** At the start X is the last word taken; in between it is on its way in the OSR. */
  ghost predicate Keeping(m: Machine, r: Machine, at: nat) {
    && r.reg == m.reg && !r.execPending && !r.stalled && m.tx.got <= r.tx.got
    && ((r.pc == at && r.x == LastTaken(m.tx.got, r.tx.got, m.x))
        || (r.pc == at + 1 && r.osr == LastTaken(m.tx.got, r.tx.got, m.x)))
  }

  /** Nobody else takes words from TX. */
  predicate LeavesTx(l: Local) {
    !l.GetTx?
  }

  lemma PullTick(r: Machine, env: Env)
    requires env.Ok() && r.delay == 0 && !r.reg.AutoPull() && !r.execPending
    requires Decode(Fetch(env.prog, r.pc)) == Pull(false, false)
    ensures var n := StepMachine(r, env).m;
      && n.reg == r.reg && !n.execPending && n.pc == Successor(r) && !n.stalled
      && n.osr == (if r.tx.Empty() then r.x else r.tx.items[0])
      && n.tx == (if r.tx.Empty() then r.tx else r.tx.Pop())
  {
    hide Decode, DelayField, Regs.WrapTop, Regs.WrapBottom, Regs.PullThreshold;
  }

  lemma TakeTick(r: Machine, env: Env)
    requires env.Ok() && r.delay == 0 && !r.reg.AutoPull() && !r.execPending && !r.stalled
    requires Decode(Fetch(env.prog, r.pc)) in {Out(OutX, 32), Mov(MovX, Copy, FromOsr)}
    ensures var n := StepMachine(r, env).m;
      && n.reg == r.reg && !n.execPending && !n.stalled && n.pc == Successor(r) && n.x == r.osr && n.tx == r.tx
  {
    assert OutData(r.osr, 32, true) == r.osr && OutData(r.osr, 32, false) == r.osr;
    hide Decode, DelayField, Regs.WrapTop, Regs.WrapBottom, Regs.PullThreshold, OutData, OutRest;
  }

  lemma KeepStep(m: Machine, r: Machine, l: Local, prog: seq<nat>, at: nat)
    requires Possible(r, l, prog) && LeavesTx(l) && KeepProgram(m.reg, prog, at) && Keeping(m, r, at)
    ensures Keeping(m, LocalStep(r, l, prog), at)
  {
    if l.Tick? && r.enabled && r.delay == 0 {
      if r.pc == at {
        PullTick(r, l.env);
      } else {
        TakeTick(r, l.env);
      }
      hide StepMachine, Decode;
    }
  }

  /** Over every local history of the loop, X at each start of the loop is the last word taken
  from TX, or what it was at the beginning if none was. */
  lemma {:induction false} LastWordKept(m: Machine, ls: seq<Local>, prog: seq<nat>, at: nat)
    requires PossibleRun(m, ls, prog) && KeepProgram(m.reg, prog, at) && forall k :: 0 <= k < |ls| ==> LeavesTx(ls[k])
    requires m.pc == at && !m.execPending && !m.stalled
    ensures Keeping(m, LocalRun(m, ls, prog), at)
    decreases |ls|
  {
    if ls == [] {
    } else {
      var front := ls[..|ls| - 1];
      LastWordKept(m, front, prog, at);
      KeepStep(m, LocalRun(m, front, prog), ls[|ls| - 1], prog, at);
      hide LocalStep, Keeping, KeepProgram;
    }
  }

  // ---------------------------------------------------------------- the last word lost

  /** `push noblock` against a full RX: the word is lost, RX keeps its four, and the machine
  never stalls, however often it is repeated. */
  lemma {:induction false} FullPushesLost(m: Machine, ls: seq<Local>, prog: seq<nat>)
    requires PossibleRun(m, ls, prog) && m.rx.Full() && !m.execPending && !m.stalled && m.pc < NUM_INSTRS_PER_BLOCK
    requires Decode(Fetch(prog, m.pc)) == Push(false, false) && m.reg.WrapTop() == m.pc && m.reg.WrapBottom() == m.pc
    requires forall k :: 0 <= k < |ls| ==> !ls[k].GetRx?
    ensures var r := LocalRun(m, ls, prog);
      && r.rx == m.rx && !r.stalled && !r.execPending && r.pc == m.pc && r.reg == m.reg
      && ((r.isr == m.isr && r.isrCount == m.isrCount) || (r.isr == ZERO && r.isrCount == 0))
    decreases |ls|
  {
    if ls == [] {
    } else {
      var front, l := ls[..|ls| - 1], ls[|ls| - 1];
      FullPushesLost(m, front, prog);
      var r := LocalRun(m, front, prog);
      if l.Tick? && r.enabled && r.delay == 0 {
        LostTick(r, l.env);
      }
      hide Decode, DelayField;
    }
  }

  lemma LostTick(r: Machine, env: Env)
    requires env.Ok() && r.delay == 0 && r.rx.Full() && !r.execPending
    requires Decode(Fetch(env.prog, r.pc)) == Push(false, false)
    requires r.reg.WrapTop() == r.pc && r.reg.WrapBottom() == r.pc
    ensures var n := StepMachine(r, env).m; n == r.(isr := ZERO, isrCount := 0, delay := n.delay)
  {
    hide Decode, DelayField, Regs.WrapTop, Regs.WrapBottom;
  }
}
