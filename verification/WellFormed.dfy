/** Well-formedness is kept by every event, and for programs that stay within their wrap
bounds and use no reserved encoding no assertion of the emulator ever fires. */
module WellFormed {
  import opened Bits
  import opened Dma
  import opened Fifos
  import opened Gpios
  import opened Instructions
  import opened Machines
  import opened System
  import opened Parallel
  import opened Runs
  import opened Pipeline
  import opened Stalling
  import L = Locals
  import O = Ownership

  // ---------------------------------------------------------------- one machine

  predicate CountersOk(m: Machine) {
    m.isrCount <= 32 && m.osrCount <= 32 && m.delay <= 31 && m.pc < 256 && m.execInstr < 0x1_0000
  }

  /** No reserved encoding, no EXEC, no computed PC, and every jump stays below the wrap. */
  predicate InstrTame(reg: Regs, base: Base, i: Instr) {
    && InstrSafe(reg, base, i)
    && !IsExec(i) && !(i.Out? && i.outDest == OutPc) && !(i.Mov? && i.movDest == MovPc)
    && (i.Jmp? ==> i.target <= reg.WrapTop())
  }

  predicate ProgramTame(reg: Regs, base: Base, prog: seq<nat>) {
    && |prog| == NUM_INSTRS_PER_BLOCK && reg.WrapBottom() <= reg.WrapTop()
    && forall pc: nat :: pc <= reg.WrapTop() ==> InstrTame(reg, base, Decode(Fetch(prog, pc)))
  }

  predicate WithinWrap(m: Machine) {
    !m.execPending && m.pc <= m.reg.WrapTop()
  }

  lemma OutCounters(m: Machine, env: Env, dest: OutDest, n: Count)
    requires CountersOk(m)
    ensures CountersOk(OutNow(m, env, dest, n).m)
  {
    LowValue(OutData(m.osr, n, m.reg.OutRight()));
    hide OutData, OutRest;
  }

  lemma MovCounters(m: Machine, env: Env, dest: MovDest, op: MovOp, source: MovSource)
    requires env.Ok() && CountersOk(m)
    ensures CountersOk(ExecMov(m, env, dest, op, source).m)
  {
    LowValue(MovApply(op, MovInput(m, env, source)));
    hide MovApply, MovInput;
  }

  lemma ExecCounters(m: Machine, env: Env, i: Instr)
    requires env.Ok() && CountersOk(m)
    ensures CountersOk(ExecDecoded(m, env, i).m)
  {
    hide OutNow, ExecMov, ShiftIn, InData;
    match i
    case Out(dest, n) =>
      OutCounters(m, env, dest, n);
      if PullDue(m) && !m.tx.Empty() {
        OutCounters(PullOsr(m), env, dest, n);
      }
    case Mov(dest, op, source) => MovCounters(m, env, dest, op, source);
    case _ =>
  }

  lemma StepCounters(m: Machine, env: Env)
    requires env.Ok() && CountersOk(m)
    ensures CountersOk(StepMachine(m, env).m)
  {
    if m.delay == 0 {
      ExecCounters(m, env, Decode(Current(m, env.prog)));
      hide ExecDecoded, Decode;
    }
  }

  lemma JumpTarget(m: Machine, env: Env, i: Instr)
    requires env.Ok() && !(i.Out? && i.outDest == OutPc) && !(i.Mov? && i.movDest == MovPc)
    ensures ExecDecoded(m, env, i).flow == Jumped ==> i.Jmp? && ExecDecoded(m, env, i).m.pc == i.target
  {
    hide OutData, OutRest, MovApply, MovInput;
  }

  lemma StepWithin(m: Machine, env: Env)
    requires env.Ok() && ProgramTame(m.reg, env.base, env.prog) && WithinWrap(m)
    ensures WithinWrap(StepMachine(m, env).m) && StepSafe(m, env) && StepMachine(m, env).m.reg == m.reg
  {
    var i := Decode(Fetch(env.prog, m.pc));
    assert InstrTame(m.reg, env.base, i);
    JumpTarget(m, env, i);
    AttemptFrame(m, env, i);
    hide ExecDecoded, Decode;
  }

  // ---------------------------------------------------------------- the emulator

  predicate BankOk(q: IrqBank) {
    q.toSet == ZERO && q.toClear == ZERO && forall k :: 8 <= k < 32 ==> !q.flags[k]
  }

  predicate ChannelOk(ch: Channel) {
    ch.setup ==>
      ch.mode in {8, 16, 32} && ch.readDelay <= ch.readCycles < 256 && ch.writeDelay <= ch.writeCycles < 256
  }

  ghost predicate MachinesOk(st: State)
    requires st.Shape()
  {
    forall i: Index :: CountersOk(st.sm[i]) && QueuesOk(st.sm[i]) && StallOk(st.sm[i], st.prog[BlockOf(i)])
  }

  ghost predicate BanksOk(st: State)
    requires st.Shape()
  {
    forall b: Block :: BankOk(st.irq[b])
  }

  ghost predicate ChannelsOk(st: State)
    requires st.Shape()
  {
    forall k :: 0 <= k < NUM_DMA_CHANNELS ==> ChannelOk(st.dma[k])
  }

  /** An address being read was taken from its machine's RX FIFO. */
  ghost predicate AddressesTaken(st: State)
    requires st.Shape()
  {
    forall k :: 0 <= k < NUM_DMA_CHANNELS && st.dma[k].setup && st.dma[k].readDelay > 0 ==>
      st.dma[k].readAddr in st.sm[st.dma[k].Source()].rx.got
  }

  ghost predicate WellFormed(st: State)
    requires st.Shape()
  {
    MachinesOk(st) && BanksOk(st) && ChannelsOk(st) && AddressesTaken(st) && st.gpio.Ok()
      && st.cycles < CYCLE_COUNT_LIMIT
  }

  lemma {:induction false} CountersAlways(m: Machine, ls: seq<L.Local>, prog: seq<nat>)
    requires L.PossibleRun(m, ls, prog) && CountersOk(m)
    ensures CountersOk(L.LocalRun(m, ls, prog))
    decreases |ls|
  {
    if ls == [] {
    } else {
      var front, l := ls[..|ls| - 1], ls[|ls| - 1];
      CountersAlways(m, front, prog);
      if l.Tick? {
        StepCounters(L.LocalRun(m, front, prog), l.env);
      }
      hide StepMachine;
    }
  }

  lemma MachinesKept(st: State, e: Event)
    requires st.Shape() && Legal(st, e) && MachinesOk(st)
    ensures MachinesOk(Apply(st, e))
  {
    ConfigKept(st, e);
    forall i: Index
      ensures var m := Apply(st, e).sm[i]; CountersOk(m) && QueuesOk(m) && StallOk(m, st.prog[BlockOf(i)])
    {
      var m, ls, prog := st.sm[i], LocalsOf(st, e, i), st.prog[BlockOf(i)];
      EventIsLocal(st, e, i);
      CountersAlways(m, ls, prog);
      QueuesAlways(m, ls, prog);
      StallAlways(m, ls, prog);
    }
  }

  lemma CommitOk(q: IrqBank)
    requires forall k :: 8 <= k < 32 ==> !q.flags[k] && !q.toSet[k]
    ensures BankOk(CommitBank(q))
  {
  }

  lemma BanksKept(st: State, e: Event)
    requires st.Shape() && Legal(st, e) && BanksOk(st)
    ensures BanksOk(Apply(st, e))
  {
    if e.Tick? {
      forall b: Block ensures BankOk(Cycle(st).irq[b]) {
        assert BankOk(st.irq[b]);
        BankKept(st, b);
      }
      hide Cycle, BankOk;
    }
  }

  lemma BankKept(st: State, b: Block)
    requires st.Shape() && BankOk(st.irq[b])
    ensures BankOk(Cycle(st).irq[b])
  {
    var st0 := StepOrder(st, ASCENDING);
    AscendingDistinct();
    SequentialIsSimultaneous(st, ASCENDING);
    DmaKeepsRest(Commit(st0), NUM_DMA_CHANNELS);
    CommitOk(st0.irq[b]);
    hide StepOrder, DmaSteps, MachinesStepped, WritesOf, Raised, Lowered, BankOk, CommitBank;
  }

  lemma ChannelStepOk(ch: Channel, sram: seq<Byte>, rx: Queue, tx: Queue)
    requires ch.setup && ChannelOk(ch)
    ensures ChannelOk(ch.Step(sram, rx, tx))
  {
    hide Load;
  }

  lemma {:induction false} ChannelsKept(st: State, n: nat)
    requires st.Shape() && n <= NUM_DMA_CHANNELS && ChannelsOk(st)
    ensures ChannelsOk(DmaSteps(st, n))
  {
    if n == 0 {
    } else {
      ChannelsKept(st, n - 1);
      var st1 := DmaSteps(st, n - 1);
      var ch := st1.dma[n - 1];
      if ch.setup {
        ChannelStepOk(ch, st1.sram, st1.sm[ch.Source()].rx, st1.sm[ch.Target()].tx);
      }
      hide Channel.Step, Channel.StepRx, Channel.StepTx, ChannelOk;
    }
  }

  /** One channel's turn keeps every pending address among the words taken. */
  lemma TakenByStep(ch: Channel, sram: seq<Byte>, rx: Queue, tx: Queue)
    requires ch.readDelay > 0 ==> ch.readAddr in rx.got
    ensures ch.Step(sram, rx, tx).readDelay > 0 ==> ch.Step(sram, rx, tx).readAddr in ch.StepRx(sram, rx, tx).got
    ensures forall w :: w in rx.got ==> w in ch.StepRx(sram, rx, tx).got
  {
    hide Load;
  }

  lemma TakenOne(st: State, n: nat)
    requires st.Shape() && n < NUM_DMA_CHANNELS && AddressesTaken(st)
    ensures AddressesTaken(DmaStep(st, n))
  {
    var ch := st.dma[n];
    if ch.setup {
      TakenByStep(ch, st.sram, st.sm[ch.Source()].rx, st.sm[ch.Target()].tx);
      hide Channel.Step, Channel.StepRx, Channel.StepTx;
      var r := DmaStep(st, n);
      assert SameRoute(r.dma[n], ch) by { RouteKept(st, n, n); }
      forall k | 0 <= k < NUM_DMA_CHANNELS && r.dma[k].setup && r.dma[k].readDelay > 0
        ensures r.dma[k].readAddr in r.sm[r.dma[k].Source()].rx.got
      {
      }
    }
  }

  lemma {:induction false} TakenAll(st: State, n: nat)
    requires st.Shape() && n <= NUM_DMA_CHANNELS && AddressesTaken(st)
    ensures AddressesTaken(DmaSteps(st, n))
  {
    hide DmaStep, AddressesTaken;
    if n == 0 {
    } else {
      TakenAll(st, n - 1);
      TakenOne(DmaSteps(st, n - 1), n - 1);
    }
  }

  lemma TakenKept(st: State, e: Event)
    requires st.Shape() && Legal(st, e) && ChannelsOk(st) && AddressesTaken(st)
    ensures ChannelsOk(Apply(st, e)) && AddressesTaken(Apply(st, e))
  {
    if e.Tick? {
      var st1 := Commit(StepOrder(st, ASCENDING));
      forall i: Index ensures st1.sm[i].rx.got == st.sm[i].rx.got {
        PassStepsEach(st, i);
        OwnStep(st, i);
      }
      PassKeepsChannel(st, 0);
      hide StepOrder, Commit, DmaSteps;
      ChannelsKept(st1, NUM_DMA_CHANNELS);
      TakenAll(st1, NUM_DMA_CHANNELS);
    } else {
      HostTaken(st, e);
      hide Apply, Legal, ChannelsOk, AddressesTaken;
    }
  }

  lemma HostTaken(st: State, e: Event)
    requires st.Shape() && Legal(st, e) && !e.Tick? && ChannelsOk(st) && AddressesTaken(st)
    ensures ChannelsOk(Apply(st, e)) && AddressesTaken(Apply(st, e))
  {
    assert Apply(st, e).dma == st.dma;
    assert forall k: Index, w :: w in st.sm[k].rx.got ==> w in Apply(st, e).sm[k].rx.got;
    hide Apply, ChannelOk;
  }

  lemma PinsKept(st: State, e: Event)
    requires st.Shape() && Legal(st, e) && st.gpio.Ok()
    ensures Apply(st, e).gpio.Ok()
  {
    if e.Tick? {
      TickPins(st);
      hide Cycle, Gpio.Ok;
    }
    hide Cycle;
  }

  lemma TickPins(st: State)
    requires st.Shape() && st.gpio.Ok()
    ensures Cycle(st).gpio.Ok()
  {
    CyclePins(st);
    ApplyAllOk(st.gpio, WritesOf(st, ASCENDING));
    hide Cycle, WritesOf, Gpio.Ok, Gpio.ApplyAll;
  }

  /** Every event, a clock cycle or a host call, keeps the emulator well formed. */
  lemma WellFormedKept(st: State, e: Event)
    requires st.Shape() && Legal(st, e) && WellFormed(st)
    ensures WellFormed(Apply(st, e))
  {
    MachinesKept(st, e);
    BanksKept(st, e);
    TakenKept(st, e);
    PinsKept(st, e);
    CyclesBounded(st, e);
    hide MachinesOk, BanksOk, ChannelsOk, AddressesTaken, Apply, Legal;
  }

  lemma CyclesBounded(st: State, e: Event)
    requires st.Shape() && Legal(st, e) && st.cycles < CYCLE_COUNT_LIMIT
    ensures Apply(st, e).cycles < CYCLE_COUNT_LIMIT
    ensures Apply(st, e).cycles ==
      if e.Tick? then (st.cycles + 1) % CYCLE_COUNT_LIMIT else if e.ResetCycles? then 0 else st.cycles
  {
    CycleCounted(st);
    hide Cycle;
  }

  lemma {:induction false} WellFormedAlways(st: State, es: seq<Event>)
    requires st.Shape() && LegalRun(st, es) && WellFormed(st)
    ensures WellFormed(Run(st, es))
    decreases |es|
  {
    hide WellFormed, Apply, Legal;
    if es == [] {
    } else {
      WellFormedAlways(st, es[..|es| - 1]);
      WellFormedKept(Run(st, es[..|es| - 1]), es[|es| - 1]);
    }
  }

  // ---------------------------------------------------------------- no assertion fires

  /** Machine `i` may run: it is enabled, or the host will enable it. */
  predicate Awake(st: State, es: seq<Event>, i: Index)
    requires st.Shape()
  {
    st.sm[i].enabled || EnableSm(i) in es
  }

  ghost predicate MachineTame(st: State, i: Index)
    requires st.Shape()
  {
    ProgramTame(st.sm[i].reg, st.base[BlockOf(i)], st.prog[BlockOf(i)]) && WithinWrap(st.sm[i])
  }

  /** Every machine that may run during `es` has a tame program and stands within its wrap. */
  ghost predicate ProgramsTame(st: State, es: seq<Event>)
    requires st.Shape()
  {
    forall i: Index :: Awake(st, es, i) ==> MachineTame(st, i)
  }

  lemma {:induction false} WithinAlways(m: Machine, ls: seq<L.Local>, base: Base, prog: seq<nat>)
    requires L.PossibleRun(m, ls, prog) && ProgramTame(m.reg, base, prog) && WithinWrap(m)
    requires forall k :: 0 <= k < |ls| && ls[k].Tick? ==> ls[k].env.base == base
    ensures WithinWrap(L.LocalRun(m, ls, prog)) && L.LocalRun(m, ls, prog).reg == m.reg
    decreases |ls|
  {
    if ls == [] {
    } else {
      var front, l := ls[..|ls| - 1], ls[|ls| - 1];
      WithinAlways(m, front, base, prog);
      if l.Tick? {
        StepWithin(L.LocalRun(m, front, prog), l.env);
      }
      hide StepMachine, ProgramTame;
    }
  }

  lemma {:induction false} DmaNeverTicks(st: State, i: Index, n: nat)
    requires st.Shape() && n <= NUM_DMA_CHANNELS
    ensures forall k :: 0 <= k < |DmaLocals(st, i, n)| ==>
      var l := DmaLocals(st, i, n)[k]; !l.Tick? && !l.Enable?
  {
    hide DmaSteps;
    if n == 0 {
    } else {
      DmaNeverTicks(st, i, n - 1);
    }
  }

  lemma TameKept(st: State, e: Event, i: Index)
    requires st.Shape() && Legal(st, e) && MachineTame(st, i)
    ensures MachineTame(Apply(st, e), i)
  {
    ConfigKept(st, e);
    var ls := LocalsOf(st, e, i);
    EventIsLocal(st, e, i);
    if e.Tick? {
      DmaNeverTicks(Commit(StepOrder(st, ASCENDING)), i, NUM_DMA_CHANNELS);
    }
    hide Apply, DmaLocals, StepOrder, ProgramTame;
    assert forall k :: 0 <= k < |ls| && ls[k].Tick? ==> ls[k].env.base == st.base[BlockOf(i)];
    WithinAlways(st.sm[i], ls, st.base[BlockOf(i)], st.prog[BlockOf(i)]);
  }

  /** A tame program stays within its wrap bounds in every run. */
  lemma {:induction false} TameAlways(st: State, es: seq<Event>, i: Index)
    requires st.Shape() && LegalRun(st, es) && MachineTame(st, i)
    ensures MachineTame(Run(st, es), i)
    decreases |es|
  {
    hide MachineTame, Apply, Legal;
    if es == [] {
    } else {
      TameAlways(st, es[..|es| - 1], i);
      TameKept(Run(st, es[..|es| - 1]), es[|es| - 1], i);
    }
  }

  lemma EnabledBy(st: State, e: Event, i: Index)
    requires st.Shape() && Legal(st, e) && Apply(st, e).sm[i].enabled
    ensures st.sm[i].enabled || e == EnableSm(i)
  {
    if e.Tick? {
      EventIsLocal(st, e, i);
      DmaNeverTicks(Commit(StepOrder(st, ASCENDING)), i, NUM_DMA_CHANNELS);
      NeverEnabled(st.sm[i], LocalsOf(st, e, i), st.prog[BlockOf(i)]);
      hide Cycle, DmaLocals, StepOrder;
    } else {
      HostEnables(st, e, i);
      hide Apply, Legal;
    }
  }

  lemma HostEnables(st: State, e: Event, i: Index)
    requires st.Shape() && Legal(st, e) && !e.Tick? && Apply(st, e).sm[i].enabled
    ensures st.sm[i].enabled || e == EnableSm(i)
  {
  }

  lemma {:induction false} NeverEnabled(m: Machine, ls: seq<L.Local>, prog: seq<nat>)
    requires L.PossibleRun(m, ls, prog) && forall k :: 0 <= k < |ls| ==> !ls[k].Enable?
    ensures L.LocalRun(m, ls, prog).enabled ==> m.enabled
    decreases |ls|
  {
    hide StepMachine;
    if ls == [] {
    } else {
      NeverEnabled(m, ls[..|ls| - 1], prog);
    }
  }

  /** Only the host enables a machine. */
  lemma {:induction false} EnabledIsAwake(st: State, es: seq<Event>, i: Index)
    requires st.Shape() && LegalRun(st, es) && Run(st, es).sm[i].enabled
    ensures Awake(st, es, i)
    decreases |es|
  {
    hide Apply, Legal;
    if es == [] {
    } else {
      var front := es[..|es| - 1];
      EnabledBy(Run(st, front), es[|es| - 1], i);
      if Run(st, front).sm[i].enabled {
        EnabledIsAwake(st, front, i);
      }
    }
  }

  /** Every word ever pushed to a DMA source is an address the channel may read. */
  ghost predicate AddressesValid(st: State)
    requires st.Shape()
  {
    forall k, w :: 0 <= k < NUM_DMA_CHANNELS && st.dma[k].setup && w in st.sm[st.dma[k].Source()].rx.put ==>
      st.dma[k].mode in {8, 16, 32} && AddressOk(Val(w), st.dma[k].mode / 8)
  }

  /** In every reachable state, if the machines that run have tame programs and the DMA
  addresses are valid, the next cycle trips no assertion. */
  lemma NoAssertionFires(st: State, es: seq<Event>)
    requires st.Shape() && LegalRun(st, es) && WellFormed(st) && ProgramsTame(st, es)
    requires AddressesValid(Run(st, es))
    ensures CycleSafe(Run(st, es))
  {
    WellFormedAlways(st, es);
    var r := Run(st, es);
    hide Run, LegalRun;
    forall i: Index | r.sm[i].enabled ensures StepSafe(r.sm[i], EnvOf(r, i)) {
      EnabledIsAwake(st, es, i);
      TameAlways(st, es, i);
      StepWithin(r.sm[i], EnvOf(r, i));
    }
    forall k | 0 <= k < NUM_DMA_CHANNELS && r.dma[k].setup ensures r.dma[k].Safe() {
      if r.dma[k].readDelay == 1 {
        var q := r.sm[r.dma[k].Source()].rx;
        assert r.dma[k].readAddr in q.got;
        assert QueuesOk(r.sm[r.dma[k].Source()]);
        assert r.dma[k].readAddr in q.put;
      }
    }
  }

  // ---------------------------------------------------------------- the initial state

  /** Base case of every run invariant. */
  lemma InitialStateOk()
    ensures WellFormed(InitialState()) && InitialState().gpio.Owned() && O.ForcingOk(InitialState().gpio)
  {
  }
}
