/** Interrupt rendezvous: a machine looping `irq wait f` and a machine looping `wait 1 irq f`
strictly alternate, whatever the delays, blocks and order of the two machines. */
module Rendezvous {
  import opened Instructions
  import opened Machines
  import opened System
  import opened Parallel
  import opened Runs
  import opened Stalling

  /** A one-instruction loop: the PC wraps onto itself. */
  predicate SelfLoop(m: Machine) {
    !m.execPending && m.reg.WrapTop() == m.pc && m.reg.WrapBottom() == m.pc
  }

  predicate IsProducer(m: Machine, env: Env, f: Flag) {
    var i := Decode(Fetch(env.prog, m.pc));
    SelfLoop(m) && (m.stalled ==> m.delay == 0) && i.Irq? && !i.clear && i.wait && env.FlagOf(i.mode, i.index) == f
  }

  predicate IsConsumer(m: Machine, env: Env, f: Flag) {
    var i := Decode(Fetch(env.prog, m.pc));
    SelfLoop(m) && i.Wait? && i.polarity && i.waitSource == WaitIrq && WaitFlag(env, i.waitIndex) == f
  }

  lemma ProducerTick(m: Machine, env: Env, f: Flag)
    requires env.Ok() && IsProducer(m, env, f)
    ensures var r := StepMachine(m, env);
      && IsProducer(r.m, env, f)
      && r.fx == (if m.delay == 0 && !m.stalled then Effects([], Some(f), None) else NO_EFFECTS)
      && (r.m.stalled <==> m.delay == 0 && (!m.stalled || env.Raised(f)))
  {
  }

  lemma ConsumerTick(m: Machine, env: Env, f: Flag)
    requires env.Ok() && IsConsumer(m, env, f)
    ensures var r := StepMachine(m, env);
      && IsConsumer(r.m, env, f)
      && r.fx == (if m.delay == 0 && env.Raised(f) then Effects([], None, Some(f)) else NO_EFFECTS)
      && (m.delay == 0 ==> (r.m.stalled <==> !env.Raised(f)))
  {
  }

  /** Machine `i` completes an instruction in this cycle. */
  predicate Completes(st: State, i: Index)
    requires st.Shape()
  {
    st.sm[i].enabled && st.sm[i].delay == 0 && !StepOf(st, i).m.stalled
  }

  ghost function Completions(st: State, es: seq<Event>, i: Index): nat
    requires st.Shape() && LegalRun(st, es)
    decreases |es|
  {
    if es == [] then 0
    else
      var r := Run(st, es[..|es| - 1]);
      Completions(st, es[..|es| - 1], i) + if es[|es| - 1].Tick? && Completes(r, i) then 1 else 0
  }

  predicate FlagSet(st: State, f: Flag)
    requires st.Shape()
  {
    st.irq[f.block].flags[f.index]
  }

  /** No deferred set or clear of `f` is outstanding. */
  predicate Settled(st: State, f: Flag)
    requires st.Shape()
  {
    !st.irq[f.block].toSet[f.index] && !st.irq[f.block].toClear[f.index]
  }

  /** In this cycle no third machine, and in this event not the host, touches flag `f`. */
  ghost predicate Undisturbed(st: State, e: Event, i: Index, j: Index, f: Flag)
    requires st.Shape()
  {
    match e
    case Tick => forall k: Index :: k != i && k != j ==>
      StepOf(st, k).fx.raise != Some(f) && StepOf(st, k).fx.lower != Some(f)
    case RaiseIrq(g) => g != f
    case LowerIrq(g) => g != f
    case _ => true
  }

  ghost predicate UndisturbedRun(st: State, es: seq<Event>, i: Index, j: Index, f: Flag)
    requires st.Shape() && LegalRun(st, es)
    decreases |es|
  {
    es != [] ==>
      && UndisturbedRun(st, es[..|es| - 1], i, j, f)
      && Undisturbed(Run(st, es[..|es| - 1]), es[|es| - 1], i, j, f)
  }

  ghost predicate Paired(st: State, i: Index, j: Index, f: Flag)
    requires st.Shape()
  {
    i != j && IsProducer(st.sm[i], EnvOf(st, i), f) && IsConsumer(st.sm[j], EnvOf(st, j), f) && Settled(st, f)
  }

  /** Three phases: idle, flag raised, flag consumed but not yet noticed by the producer. */
  ghost predicate InStep(st: State, i: Index, f: Flag, produced: nat, consumed: nat)
    requires st.Shape()
  {
    && (!st.sm[i].stalled ==> !FlagSet(st, f))
    && consumed == produced + if st.sm[i].stalled && !FlagSet(st, f) then 1 else 0
  }

  lemma {:induction false} DmaKeepsMachine(st: State, n: nat, i: Index)
    requires st.Shape() && n <= NUM_DMA_CHANNELS
    ensures var m := DmaSteps(st, n).sm[i]; m == st.sm[i].(tx := m.tx, rx := m.rx)
  {
    if n == 0 {
    } else {
      DmaKeepsMachine(st, n - 1, i);
      OneDmaKeepsMachine(DmaSteps(st, n - 1), n - 1, i);
      hide DmaStep;
    }
  }

  lemma OneDmaKeepsMachine(st: State, k: nat, i: Index)
    requires st.Shape() && k < NUM_DMA_CHANNELS
    ensures var m := DmaStep(st, k).sm[i]; m == st.sm[i].(tx := m.tx, rx := m.rx)
  {
    hide DmaSteps;
  }

  /** A flag after a cycle: cleared if someone clears it, set if someone sets it. */
  lemma FlagAfterCycle(st: State, f: Flag)
    requires st.Shape() && Settled(st, f)
    ensures Settled(Cycle(st), f)
    ensures FlagSet(Cycle(st), f) <==>
      (FlagSet(st, f) && !Lowered(st, ASCENDING, f)) || Raised(st, ASCENDING, f)
  {
    AscendingDistinct();
    SequentialIsSimultaneous(st, ASCENDING);
    var st0 := StepOrder(st, ASCENDING);
    DmaKeepsRest(Commit(st0), NUM_DMA_CHANNELS);
    hide StepOrder, DmaSteps, Raised, Lowered, WritesOf, MachinesStepped;
    assert f == Flag(f.block, f.index);
    assert Cycle(st).irq[f.block] == CommitBank(st0.irq[f.block]);
  }

  /** A machine after a cycle is its own step, up to its FIFOs. */
  lemma MachineAfterCycle(st: State, i: Index)
    requires st.Shape()
    ensures var m := Cycle(st).sm[i]; m == StepOf(st, i).m.(tx := m.tx, rx := m.rx)
  {
    PassStepsEach(st, i);
    DmaKeepsMachine(Commit(StepOrder(st, ASCENDING)), NUM_DMA_CHANNELS, i);
  }

  lemma FlagSeen(st: State, k: Index, f: Flag)
    requires st.Shape()
    ensures EnvOf(st, k).Raised(f) == FlagSet(st, f)
  {
  }

  lemma OnlyTwo(st: State, i: Index, j: Index, f: Flag)
    requires st.Shape() && Undisturbed(st, Tick, i, j, f)
    ensures Raised(st, ASCENDING, f) <==> StepOf(st, i).fx.raise == Some(f) || StepOf(st, j).fx.raise == Some(f)
    ensures Lowered(st, ASCENDING, f) <==> StepOf(st, i).fx.lower == Some(f) || StepOf(st, j).fx.lower == Some(f)
  {
    AllAscending(i);
    AllAscending(j);
    hide StepOf;
  }

  /** Being producer or consumer depends on registers, PC and program only. */
  lemma RolesKept(m: Machine, env: Env, m1: Machine, env1: Env, f: Flag)
    requires m1 == m.(tx := m1.tx, rx := m1.rx, enabled := m1.enabled)
    requires env1.block == env.block && env1.sm == env.sm && env1.prog == env.prog
    ensures IsProducer(m1, env1, f) == IsProducer(m, env, f)
    ensures IsConsumer(m1, env1, f) == IsConsumer(m, env, f)
  {
  }

  lemma PairStep(st: State, i: Index, j: Index, f: Flag)
    requires st.Shape() && Paired(st, i, j, f)
    ensures var si, sj := StepOf(st, i), StepOf(st, j); var mi, mj := st.sm[i], st.sm[j];
      && IsProducer(si.m, EnvOf(st, i), f) && IsConsumer(sj.m, EnvOf(st, j), f)
      && (si.fx.raise == Some(f) <==> mi.enabled && mi.delay == 0 && !mi.stalled) && si.fx.lower == None
      && (sj.fx.lower == Some(f) <==> mj.enabled && mj.delay == 0 && FlagSet(st, f)) && sj.fx.raise == None
      && (Completes(st, i) <==> mi.enabled && mi.stalled && !FlagSet(st, f))
      && (Completes(st, j) <==> mj.enabled && mj.delay == 0 && FlagSet(st, f))
      && (si.m.stalled <==> if mi.enabled then mi.delay == 0 && (!mi.stalled || FlagSet(st, f)) else mi.stalled)
  {
    hide StepMachine;
    FlagSeen(st, i, f);
    FlagSeen(st, j, f);
    ProducerTick(st.sm[i], EnvOf(st, i), f);
    ConsumerTick(st.sm[j], EnvOf(st, j), f);
  }

  lemma CycleInStep(st: State, i: Index, j: Index, f: Flag, produced: nat, consumed: nat)
    requires st.Shape() && Paired(st, i, j, f) && Undisturbed(st, Tick, i, j, f) && InStep(st, i, f, produced, consumed)
    ensures Paired(Cycle(st), i, j, f)
    ensures InStep(Cycle(st), i, f, produced + (if Completes(st, i) then 1 else 0),
                   consumed + if Completes(st, j) then 1 else 0)
  {
    PairStep(st, i, j, f);
    OnlyTwo(st, i, j, f);
    FlagAfterCycle(st, f);
    MachineAfterCycle(st, i);
    PairedKept(st, i, j, f);
    hide Cycle, StepOf, IsProducer, IsConsumer, Raised, Lowered, Undisturbed, Completes;
  }

  lemma PairedKept(st: State, i: Index, j: Index, f: Flag)
    requires st.Shape() && Paired(st, i, j, f)
    ensures Paired(Cycle(st), i, j, f)
  {
    PairStep(st, i, j, f);
    FlagAfterCycle(st, f);
    MachineAfterCycle(st, i);
    MachineAfterCycle(st, j);
    ConfigKept(st, Tick);
    hide Cycle, StepOf, IsProducer, IsConsumer, Raised, Lowered, Completes;
    var r := Cycle(st);
    assert Apply(st, Tick) == r;
    RolesKept(StepOf(st, i).m, EnvOf(st, i), r.sm[i], EnvOf(r, i), f);
    RolesKept(StepOf(st, j).m, EnvOf(st, j), r.sm[j], EnvOf(r, j), f);
  }

  /** A host call changes a machine's FIFOs and whether it is enabled, at most. */
  lemma HostKeepsMachine(st: State, e: Event, k: Index)
    requires st.Shape() && Legal(st, e) && !e.Tick?
    ensures var m := Apply(st, e).sm[k]; m == st.sm[k].(tx := m.tx, rx := m.rx, enabled := m.enabled)
    ensures Apply(st, e).prog == st.prog && Apply(st, e).base == st.base
  {
  }

  lemma HostKeepsFlag(st: State, e: Event, i: Index, j: Index, f: Flag)
    requires st.Shape() && Legal(st, e) && !e.Tick? && Undisturbed(st, e, i, j, f)
    ensures FlagSet(Apply(st, e), f) == FlagSet(st, f) && (Settled(st, f) ==> Settled(Apply(st, e), f))
  {
  }

  lemma HostInStep(st: State, e: Event, i: Index, j: Index, f: Flag, produced: nat, consumed: nat)
    requires st.Shape() && Legal(st, e) && !e.Tick? && Undisturbed(st, e, i, j, f)
    requires Paired(st, i, j, f) && InStep(st, i, f, produced, consumed)
    ensures Paired(Apply(st, e), i, j, f) && InStep(Apply(st, e), i, f, produced, consumed)
  {
    var r := Apply(st, e);
    HostKeepsMachine(st, e, i);
    HostKeepsMachine(st, e, j);
    HostKeepsFlag(st, e, i, j, f);
    hide IsProducer, IsConsumer, Apply, Legal, FlagSet, Settled;
    RolesKept(st.sm[i], EnvOf(st, i), r.sm[i], EnvOf(r, i), f);
    RolesKept(st.sm[j], EnvOf(st, j), r.sm[j], EnvOf(r, j), f);
  }

  lemma {:induction false} RunInStep(st: State, es: seq<Event>, i: Index, j: Index, f: Flag)
    requires st.Shape() && LegalRun(st, es) && Paired(st, i, j, f) && UndisturbedRun(st, es, i, j, f)
    requires !st.sm[i].stalled && !FlagSet(st, f)
    ensures Paired(Run(st, es), i, j, f)
    ensures InStep(Run(st, es), i, f, Completions(st, es, i), Completions(st, es, j))
    decreases |es|
  {
    if es == [] {
    } else {
      var front, e := es[..|es| - 1], es[|es| - 1];
      RunSplits(st, es, i, j, f);
      hide Run, LegalRun, UndisturbedRun, Completions, Paired, Undisturbed, Completes, Apply, Legal, InStep, FlagSet;
      RunInStep(st, front, i, j, f);
      EventInStep(Run(st, front), e, i, j, f, Completions(st, front, i), Completions(st, front, j));
    }
  }

  /** A run, its legality and its counts, taken apart at the last event. */
  lemma RunSplits(st: State, es: seq<Event>, i: Index, j: Index, f: Flag)
    requires st.Shape() && LegalRun(st, es) && UndisturbedRun(st, es, i, j, f) && es != []
    ensures var front, e := es[..|es| - 1], es[|es| - 1];
      && LegalRun(st, front) && Legal(Run(st, front), e) && Run(st, es) == Apply(Run(st, front), e)
      && UndisturbedRun(st, front, i, j, f) && Undisturbed(Run(st, front), e, i, j, f)
      && CountedOn(st, front, e, i, Completions(st, es, i)) && CountedOn(st, front, e, j, Completions(st, es, j))
  {
    hide Undisturbed, Completes, Apply, Legal;
  }

  ghost predicate CountedOn(st: State, front: seq<Event>, e: Event, i: Index, n: nat)
    requires st.Shape() && LegalRun(st, front)
  {
    n == Completions(st, front, i) + if e.Tick? && Completes(Run(st, front), i) then 1 else 0
  }

  lemma EventInStep(st: State, e: Event, i: Index, j: Index, f: Flag, produced: nat, consumed: nat)
    requires st.Shape() && Legal(st, e) && Paired(st, i, j, f) && Undisturbed(st, e, i, j, f)
    requires InStep(st, i, f, produced, consumed)
    ensures Paired(Apply(st, e), i, j, f)
    ensures InStep(Apply(st, e), i, f, produced + (if e.Tick? && Completes(st, i) then 1 else 0),
                   consumed + if e.Tick? && Completes(st, j) then 1 else 0)
  {
    if e.Tick? {
      CycleInStep(st, i, j, f, produced, consumed);
      hide Cycle, Paired, Undisturbed, Completes, InStep;
    } else {
      HostInStep(st, e, i, j, f, produced, consumed);
      hide Apply, Legal, Paired, Undisturbed, Completes, InStep;
    }
  }

  /** Strict alternation: at every moment of every run the consumer has completed as often as
  the producer, or once more; and it is ahead exactly while the producer, still stalled, has
  yet to see the flag gone. */
  lemma StrictAlternation(st: State, es: seq<Event>, i: Index, j: Index, f: Flag)
    requires st.Shape() && LegalRun(st, es) && Paired(st, i, j, f) && UndisturbedRun(st, es, i, j, f)
    requires !st.sm[i].stalled && !FlagSet(st, f)
    ensures var r := Run(st, es); var ahead := Completions(st, es, j) - Completions(st, es, i);
      && 0 <= ahead <= 1
      && (ahead == 1 <==> r.sm[i].stalled && !FlagSet(r, f))
      && (FlagSet(r, f) ==> r.sm[i].stalled)
  {
    RunInStep(st, es, i, j, f);
  }

  // ---------------------------------------------------------------- progress

  /** Producer and consumer, both running. */
  ghost predicate Running(st: State, i: Index, j: Index, f: Flag)
    requires st.Shape()
  {
    Paired(st, i, j, f) && st.sm[i].enabled && st.sm[j].enabled
  }

  ghost predicate QuietFor(st: State, i: Index, j: Index, f: Flag, n: nat)
    requires st.Shape()
  {
    forall k: nat :: k < n ==> Undisturbed(Cycles(st, k), Tick, i, j, f)
  }

  lemma DelayTick(m: Machine, env: Env)
    requires env.Ok()
    ensures m.delay > 0 ==> StepMachine(m, env).m == m.(delay := m.delay - 1)
    ensures StepMachine(m, env).m.enabled == m.enabled
  {
    if m.delay == 0 {
      AttemptFrame(m, env, Decode(Current(m, env.prog)));
    }
    hide ExecDecoded, Decode;
  }

  lemma ConsumerWaits(m: Machine, env: Env, f: Flag)
    requires env.Ok() && IsConsumer(m, env, f) && m.delay == 0 && !env.Raised(f)
    ensures StepMachine(m, env).m.delay == 0
  {
  }

  /** One undisturbed cycle of the two: the flag. */
  lemma PairFlag(st: State, i: Index, j: Index, f: Flag)
    requires st.Shape() && Running(st, i, j, f) && Undisturbed(st, Tick, i, j, f)
    ensures FlagSet(Cycle(st), f) <==>
      (FlagSet(st, f) && st.sm[j].delay > 0) || (st.sm[i].delay == 0 && !st.sm[i].stalled)
  {
    PairStep(st, i, j, f);
    OnlyTwo(st, i, j, f);
    FlagAfterCycle(st, f);
    hide Cycle, StepOf, IsProducer, IsConsumer, Raised, Lowered, Undisturbed, Completes;
  }

  /** And the machines. */
  lemma PairMachines(st: State, i: Index, j: Index, f: Flag)
    requires st.Shape() && Running(st, i, j, f)
    ensures var r, mi, mj := Cycle(st), st.sm[i], st.sm[j];
      && Running(r, i, j, f)
      && (r.sm[i].stalled <==> mi.delay == 0 && (!mi.stalled || FlagSet(st, f)))
      && (mi.delay > 0 ==> r.sm[i].delay == mi.delay - 1)
      && (mj.delay > 0 ==> r.sm[j].delay == mj.delay - 1)
      && (mj.delay == 0 && !FlagSet(st, f) ==> r.sm[j].delay == 0)
  {
    PairStep(st, i, j, f);
    MachineAfterCycle(st, i);
    MachineAfterCycle(st, j);
    PairedKept(st, i, j, f);
    DelayTick(st.sm[i], EnvOf(st, i));
    DelayTick(st.sm[j], EnvOf(st, j));
    FlagSeen(st, j, f);
    if st.sm[j].delay == 0 && !FlagSet(st, f) {
      ConsumerWaits(st.sm[j], EnvOf(st, j), f);
    }
    hide Cycle, StepMachine, IsProducer, IsConsumer, Completes, FlagSet;
  }

  /** Nothing happens while the producer counts down its delay. */
  lemma {:induction false} StillIdle(st: State, i: Index, j: Index, f: Flag, k: nat)
    requires st.Shape() && Running(st, i, j, f) && QuietFor(st, i, j, f, k)
    requires !st.sm[i].stalled && !FlagSet(st, f) && k <= st.sm[i].delay
    ensures var r := Cycles(st, k);
      && Running(r, i, j, f) && !r.sm[i].stalled && !FlagSet(r, f)
      && r.sm[i].delay == st.sm[i].delay - k && r.sm[j].delay <= st.sm[j].delay
    decreases k
  {
    hide Cycle, Running, FlagSet, Undisturbed;
    if k == 0 {
    } else {
      StillIdle(st, i, j, f, k - 1);
      PairFlag(Cycles(st, k - 1), i, j, f);
      PairMachines(Cycles(st, k - 1), i, j, f);
    }
  }

  /** Nothing happens while the consumer counts down its delay with the flag up. */
  lemma {:induction false} StillRaised(st: State, i: Index, j: Index, f: Flag, k: nat)
    requires st.Shape() && Running(st, i, j, f) && QuietFor(st, i, j, f, k)
    requires st.sm[i].stalled && FlagSet(st, f) && k <= st.sm[j].delay
    ensures var r := Cycles(st, k);
      && Running(r, i, j, f) && r.sm[i].stalled && FlagSet(r, f) && r.sm[j].delay == st.sm[j].delay - k
    decreases k
  {
    hide Cycle, Running, FlagSet, Undisturbed;
    if k == 0 {
    } else {
      StillRaised(st, i, j, f, k - 1);
      ProducerHeld(Cycles(st, k - 1), i, j, f);
      PairFlag(Cycles(st, k - 1), i, j, f);
      PairMachines(Cycles(st, k - 1), i, j, f);
    }
  }

  lemma ProducerHeld(st: State, i: Index, j: Index, f: Flag)
    requires st.Shape() && Running(st, i, j, f) && st.sm[i].stalled
    ensures st.sm[i].delay == 0
  {
  }

  /** An idle producer raises the flag in exactly its remaining delay plus one cycles. */
  lemma RaisesOnTime(st: State, i: Index, j: Index, f: Flag, n: nat)
    requires st.Shape() && Running(st, i, j, f) && n == st.sm[i].delay + 1 && QuietFor(st, i, j, f, n)
    requires !st.sm[i].stalled && !FlagSet(st, f)
    ensures var r := Cycles(st, n);
      Running(r, i, j, f) && r.sm[i].stalled && FlagSet(r, f) && r.sm[j].delay <= st.sm[j].delay
    ensures forall k: nat :: k < n ==> !FlagSet(Cycles(st, k), f)
  {
    hide Cycle, Running, FlagSet, Undisturbed;
    forall k: nat | k < n ensures !FlagSet(Cycles(st, k), f) {
      StillIdle(st, i, j, f, k);
    }
    StillIdle(st, i, j, f, n - 1);
    PairFlag(Cycles(st, n - 1), i, j, f);
    PairMachines(Cycles(st, n - 1), i, j, f);
  }

  /** A raised flag is consumed in exactly the consumer's remaining delay plus one cycles. */
  lemma ConsumesOnTime(st: State, i: Index, j: Index, f: Flag, n: nat)
    requires st.Shape() && Running(st, i, j, f) && n == st.sm[j].delay + 1 && QuietFor(st, i, j, f, n)
    requires st.sm[i].stalled && FlagSet(st, f)
    ensures var r := Cycles(st, n); Running(r, i, j, f) && r.sm[i].stalled && !FlagSet(r, f)
    ensures Completes(Cycles(st, n - 1), j)
  {
    hide Cycle, Running, FlagSet, Undisturbed, Completes;
    StillRaised(st, i, j, f, n - 1);
    var r := Cycles(st, n - 1);
    ProducerHeld(r, i, j, f);
    PairFlag(r, i, j, f);
    PairMachines(r, i, j, f);
    CompletesNow(r, i, j, f);
  }

  lemma CompletesNow(st: State, i: Index, j: Index, f: Flag)
    requires st.Shape() && Running(st, i, j, f)
    ensures Completes(st, i) <==> st.sm[i].stalled && !FlagSet(st, f)
    ensures Completes(st, j) <==> st.sm[j].delay == 0 && FlagSet(st, f)
  {
    PairStep(st, i, j, f);
    hide Completes, StepOf, FlagSet;
  }

  /** A consumed flag is noticed in the next cycle. */
  lemma NoticesAtOnce(st: State, i: Index, j: Index, f: Flag)
    requires st.Shape() && Running(st, i, j, f) && st.sm[i].stalled && !FlagSet(st, f)
    ensures Completes(st, i)
  {
    CompletesNow(st, i, j, f);
  }

  lemma QuietLater(st: State, i: Index, j: Index, f: Flag, a: nat, n: nat)
    requires st.Shape() && QuietFor(st, i, j, f, a + n)
    ensures QuietFor(Cycles(st, a), i, j, f, n)
  {
    hide Cycle, Cycles, Undisturbed;
    forall k: nat | k < n ensures Undisturbed(Cycles(Cycles(st, a), k), Tick, i, j, f) {
      CyclesAdd(st, a, k);
    }
  }

  /** The rendezvous goes on: from the idle phase both machines complete once within the two
  remaining delays and three cycles. */
  lemma RoundCompletes(st: State, i: Index, j: Index, f: Flag) returns (took: nat, gave: nat)
    requires st.Shape() && Running(st, i, j, f) && !st.sm[i].stalled && !FlagSet(st, f)
    requires QuietFor(st, i, j, f, st.sm[i].delay + st.sm[j].delay + 2)
    ensures took < gave <= st.sm[i].delay + st.sm[j].delay + 2
    ensures Completes(Cycles(st, took), j) && Completes(Cycles(st, gave), i)
  {
    hide Cycle, Cycles, Running, FlagSet, Undisturbed, Completes;
    var a := st.sm[i].delay + 1;
    RaisesOnTime(st, i, j, f, a);
    var r := Cycles(st, a);
    var b := r.sm[j].delay + 1;
    QuietLater(st, i, j, f, a, b);
    ConsumesOnTime(r, i, j, f, b);
    NoticesAtOnce(Cycles(r, b), i, j, f);
    took, gave := a + (b - 1), a + b;
    CyclesAdd(st, a, b - 1);
    CyclesAdd(st, a, b);
  }
}
