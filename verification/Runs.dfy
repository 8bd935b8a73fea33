/** Runs of the whole emulator: clock cycles interleaved with calls from the host.  Programs,
registers, GPIOBASE and DMA channels stay fixed during a run. */
module Runs {
  import opened Bits
  import opened Dma
  import opened Gpios
  import opened Instructions
  import opened Machines
  import opened System
  import opened Parallel
  import L = Locals

  datatype Event =
    | Tick
    | PushTx(i: Index, word: Word)
    | PopTx(i: Index)
    | PushRx(i: Index, word: Word)
    | PopRx(i: Index)
    | EnableSm(i: Index)
    | DisableSm(i: Index)
    | RaiseIrq(flag: Flag)
    | LowerIrq(flag: Flag)
    | DriveGpios(gpios: Mask, level: Mask)
    | InputLevel(pin: Pin, high: bool)
    | InvertInput(pin: Pin, on: bool)
    | ForceInputLow(pin: Pin, on: bool)
    | ForceInputHigh(pin: Pin, on: bool)
    | GrantPin(pin: Pin, block: Block)
    | RevokePin(pin: Pin, block: Block)
    | MakeOutput(pin: Pin)
    | MakeInput(pin: Pin)
    | OutputLevel(pin: Pin, high: bool)
    | ResetCycles

  predicate NarrowMask(m: Mask) {
    forall p :: NUM_GPIOS <= p < 64 ==> !m[p]
  }

  /** The host call trips no assertion. */
  predicate Legal(st: State, e: Event)
    requires st.Shape()
  {
    match e
    case PushTx(i, _) => !st.sm[i].tx.Full()
    case PopTx(i) => !st.sm[i].tx.Empty()
    case PushRx(i, _) => !st.sm[i].rx.Full()
    case PopRx(i) => !st.sm[i].rx.Empty()
    case DriveGpios(gpios, level) => NarrowMask(gpios) && NarrowMask(level)
    case InvertInput(p, on) => on ==> !st.gpio.forceLow[p] && !st.gpio.forceHigh[p]
    case ForceInputLow(p, on) => on ==> !st.gpio.forceHigh[p] && !st.gpio.inverted[p]
    case ForceInputHigh(p, on) => on ==> !st.gpio.forceLow[p] && !st.gpio.inverted[p]
    case GrantPin(p, _) => forall b: Block :: !st.gpio.control[b][p]
    case _ => true
  }

  function SetFlag(irq: seq<IrqBank>, f: Flag, on: bool): (r: seq<IrqBank>)
    requires |irq| == NUM_PIO_BLOCKS
    ensures |r| == NUM_PIO_BLOCKS
  {
    irq[f.block := irq[f.block].(flags := irq[f.block].flags[f.index := on])]
  }

  function Apply(st: State, e: Event): (r: State)
    requires st.Shape() && Legal(st, e)
    ensures r.Shape()
  {
    match e
    case Tick => Cycle(st)
    case PushTx(i, w) => st.(sm := st.sm[i := st.sm[i].(tx := st.sm[i].tx.Push(w))])
    case PopTx(i) => st.(sm := st.sm[i := st.sm[i].(tx := st.sm[i].tx.Pop())])
    case PushRx(i, w) => st.(sm := st.sm[i := st.sm[i].(rx := st.sm[i].rx.Push(w))])
    case PopRx(i) => st.(sm := st.sm[i := st.sm[i].(rx := st.sm[i].rx.Pop())])
    case EnableSm(i) => st.(sm := st.sm[i := st.sm[i].(enabled := true)])
    case DisableSm(i) => st.(sm := st.sm[i := st.sm[i].(enabled := false)])
    case RaiseIrq(f) => st.(irq := SetFlag(st.irq, f, true))
    case LowerIrq(f) => st.(irq := SetFlag(st.irq, f, false))
    case DriveGpios(gpios, level) => st.(gpio := st.gpio.DriveExternally(gpios, level))
    case InputLevel(p, v) => st.(gpio := st.gpio.SetInputLevel(p, v))
    case InvertInput(p, on) => st.(gpio := st.gpio.SetInverted(p, on))
    case ForceInputLow(p, on) => st.(gpio := st.gpio.SetForceLow(p, on))
    case ForceInputHigh(p, on) => st.(gpio := st.gpio.SetForceHigh(p, on))
    case GrantPin(p, b) => st.(gpio := st.gpio.SetControl(p, b))
    case RevokePin(p, b) => st.(gpio := st.gpio.ClearControl(p, b))
    case MakeOutput(p) => st.(gpio := st.gpio.Apply(PinWrite.Drive(p)))
    case MakeInput(p) => st.(gpio := st.gpio.Apply(PinWrite.Release(p)))
    case OutputLevel(p, v) => st.(gpio := st.gpio.Apply(PinWrite.SetLevel(p, v)))
    case ResetCycles => st.(cycles := 0)
  }

  predicate LegalRun(st: State, es: seq<Event>)
    requires st.Shape()
    decreases |es|, 0
  {
    es == [] || (LegalRun(st, es[..|es| - 1]) && Legal(Run(st, es[..|es| - 1]), es[|es| - 1]))
  }

  function Run(st: State, es: seq<Event>): (r: State)
    requires st.Shape() && LegalRun(st, es)
    ensures r.Shape()
    decreases |es|, 1
  {
    if es == [] then st else Apply(Run(st, es[..|es| - 1]), es[|es| - 1])
  }

  // ---------------------------------------------------------------- DMA, seen from one machine

  /** What channel `k` does to machine `i` this cycle. */
  function ChannelLocals(st: State, i: Index, k: nat): seq<L.Local>
    requires st.Shape() && k < NUM_DMA_CHANNELS
  {
    var ch := st.dma[k];
    if !ch.setup then []
    else
      var rx, tx := st.sm[ch.Source()].rx, st.sm[ch.Target()].tx;
      (if ch.Target() == i && ch.Pushes(tx) then [L.PutTx(ch.readValue)] else []) +
      (if ch.Source() == i && ch.WriteStage(tx).ReadStage(st.sram).Pops(rx) then [L.GetRx] else [])
  }

  function DmaLocals(st: State, i: Index, n: nat): seq<L.Local>
    requires st.Shape() && n <= NUM_DMA_CHANNELS
  {
    if n == 0 then [] else DmaLocals(st, i, n - 1) + ChannelLocals(DmaSteps(st, n - 1), i, n - 1)
  }

  lemma ChannelIsLocal(st: State, i: Index, k: nat, prog: seq<nat>)
    requires st.Shape() && k < NUM_DMA_CHANNELS
    ensures L.PossibleRun(st.sm[i], ChannelLocals(st, i, k), prog)
    ensures L.LocalRun(st.sm[i], ChannelLocals(st, i, k), prog) == DmaStep(st, k).sm[i]
  {
    var ch := st.dma[k];
    if ch.setup {
      var rx, tx := st.sm[ch.Source()].rx, st.sm[ch.Target()].tx;
      var put := ch.Target() == i && ch.Pushes(tx);
      var get := ch.Source() == i && ch.WriteStage(tx).ReadStage(st.sram).Pops(rx);
      PutAndGet(st.sm[i], put, ch.readValue, get, prog);
      hide L.LocalRun, L.PossibleRun, Channel.WriteStage, Channel.ReadStage;
    }
  }

  /** At most one word put into TX, then at most one taken from RX, as a local history. */
  lemma PutAndGet(m: Machine, put: bool, w: Word, get: bool, prog: seq<nat>)
    requires (put ==> !m.tx.Full()) && (get ==> !m.rx.Empty())
    ensures var ls := (if put then [L.PutTx(w)] else []) + (if get then [L.GetRx] else []);
      && L.PossibleRun(m, ls, prog)
      && L.LocalRun(m, ls, prog) == m.(tx := if put then m.tx.Push(w) else m.tx, rx := if get then m.rx.Pop() else m.rx)
  {
    var puts := if put then [L.PutTx(w)] else [];
    var gets := if get then [L.GetRx] else [];
    L.RunEmpty(m, prog);
    L.RunSingle(m, L.PutTx(w), prog);
    var m1 := if put then m.(tx := m.tx.Push(w)) else m;
    L.RunEmpty(m1, prog);
    L.RunSingle(m1, L.GetRx, prog);
    hide L.LocalRun, L.PossibleRun;
    L.RunConcat(m, puts, gets, prog);
  }

  lemma {:induction false} DmaIsLocal(st: State, i: Index, n: nat, prog: seq<nat>)
    requires st.Shape() && n <= NUM_DMA_CHANNELS
    ensures L.PossibleRun(st.sm[i], DmaLocals(st, i, n), prog)
    ensures L.LocalRun(st.sm[i], DmaLocals(st, i, n), prog) == DmaSteps(st, n).sm[i]
    decreases n
  {
    hide DmaStep, ChannelLocals, L.LocalRun, L.PossibleRun;
    L.RunEmpty(st.sm[i], prog);
    if n == 0 {
    } else {
      var st1 := DmaSteps(st, n - 1);
      DmaIsLocal(st, i, n - 1, prog);
      ChannelIsLocal(st1, i, n - 1, prog);
      L.RunConcat(st.sm[i], DmaLocals(st, i, n - 1), ChannelLocals(st1, i, n - 1), prog);
    }
  }

  /** What event `e` does to machine `i`. */
  function LocalsOf(st: State, e: Event, i: Index): seq<L.Local>
    requires st.Shape()
  {
    match e
    case Tick => [L.Tick(EnvOf(st, i))] + DmaLocals(Commit(StepOrder(st, ASCENDING)), i, NUM_DMA_CHANNELS)
    case PushTx(j, w) => if i == j then [L.PutTx(w)] else []
    case PopTx(j) => if i == j then [L.GetTx] else []
    case PushRx(j, w) => if i == j then [L.PutRx(w)] else []
    case PopRx(j) => if i == j then [L.GetRx] else []
    case EnableSm(j) => if i == j then [L.Enable] else []
    case DisableSm(j) => if i == j then [L.Disable] else []
    case _ => []
  }

  lemma AllAscending(i: Index)
    ensures i in ASCENDING
  {
    assert ASCENDING[i] == i;
  }

  /** After the pass over the machines, each machine has taken its own step. */
  lemma PassStepsEach(st: State, i: Index)
    requires st.Shape()
    ensures Commit(StepOrder(st, ASCENDING)).sm[i] == StepOf(st, i).m
  {
    AllAscending(i);
    AscendingDistinct();
    hide StepOf, WritesOf, FlagsDeferred;
    SequentialIsSimultaneous(st, ASCENDING);
  }

  lemma TickIsLocal(st: State, i: Index)
    requires st.Shape()
    ensures L.PossibleRun(st.sm[i], LocalsOf(st, Tick, i), st.prog[BlockOf(i)])
    ensures L.LocalRun(st.sm[i], LocalsOf(st, Tick, i), st.prog[BlockOf(i)]) == Cycle(st).sm[i]
  {
    var prog, env, st1 := st.prog[BlockOf(i)], EnvOf(st, i), Commit(StepOrder(st, ASCENDING));
    PassStepsEach(st, i);
    L.RunSingle(st.sm[i], L.Tick(env), prog);
    DmaIsLocal(st1, i, NUM_DMA_CHANNELS, prog);
    L.RunConcat(st.sm[i], [L.Tick(env)], DmaLocals(st1, i, NUM_DMA_CHANNELS), prog);
  }

  lemma EventIsLocal(st: State, e: Event, i: Index)
    requires st.Shape() && Legal(st, e)
    ensures L.PossibleRun(st.sm[i], LocalsOf(st, e, i), st.prog[BlockOf(i)])
    ensures L.LocalRun(st.sm[i], LocalsOf(st, e, i), st.prog[BlockOf(i)]) == Apply(st, e).sm[i]
  {
    if e.Tick? {
      TickIsLocal(st, i);
      hide Cycle, LocalsOf, L.LocalRun, L.PossibleRun;
    } else if LocalsOf(st, e, i) != [] {
      L.RunSingle(st.sm[i], LocalsOf(st, e, i)[0], st.prog[BlockOf(i)]);
      assert LocalsOf(st, e, i) == [LocalsOf(st, e, i)[0]];
    }
  }

  lemma {:induction false} DmaKeepsRest(st: State, n: nat)
    requires st.Shape() && n <= NUM_DMA_CHANNELS
    ensures var r := DmaSteps(st, n); r == st.(sm := r.sm, dma := r.dma)
  {
    if n == 0 {
    } else {
      DmaKeepsRest(st, n - 1);
    }
  }

  /** Programs, GPIOBASE and SRAM stay fixed. */
  lemma ConfigKept(st: State, e: Event)
    requires st.Shape() && Legal(st, e)
    ensures Apply(st, e).prog == st.prog && Apply(st, e).base == st.base && Apply(st, e).sram == st.sram
  {
    if e.Tick? {
      AscendingDistinct();
      SequentialIsSimultaneous(st, ASCENDING);
      DmaKeepsRest(Commit(StepOrder(st, ASCENDING)), NUM_DMA_CHANNELS);
    }
  }

  /** All that happens to machine `i` in a run of the emulator. */
  ghost function Projected(st: State, es: seq<Event>, i: Index): seq<L.Local>
    requires st.Shape() && LegalRun(st, es)
    decreases |es|
  {
    if es == [] then []
    else Projected(st, es[..|es| - 1], i) + LocalsOf(Run(st, es[..|es| - 1]), es[|es| - 1], i)
  }

  /** Every run of the emulator is, for each machine, a local history of that machine: what
  is proved of one machine over all local histories holds in every run of the whole. */
  lemma {:induction false} RunIsLocal(st: State, es: seq<Event>, i: Index)
    requires st.Shape() && LegalRun(st, es)
    ensures L.PossibleRun(st.sm[i], Projected(st, es, i), st.prog[BlockOf(i)])
    ensures L.LocalRun(st.sm[i], Projected(st, es, i), st.prog[BlockOf(i)]) == Run(st, es).sm[i]
    ensures Run(st, es).prog == st.prog && Run(st, es).base == st.base && Run(st, es).sram == st.sram
    decreases |es|
  {
    if es == [] {
    } else {
      var front, e := es[..|es| - 1], es[|es| - 1];
      RunIsLocal(st, front, i);
      var st1 := Run(st, front);
      EventIsLocal(st1, e, i);
      ConfigKept(st1, e);
      L.RunConcat(st.sm[i], Projected(st, front, i), LocalsOf(st1, e, i), st.prog[BlockOf(i)]);
    }
  }
}
