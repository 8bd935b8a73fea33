/** The whole emulator: twelve state machines in three blocks, their interrupt flags, the
GPIOs and sixteen DMA channels, advanced one clock cycle at a time. */
module System {
  import opened Bits
  import opened Dma
  import opened Gpios
  import opened Instructions
  import opened Machines

  type Index = n: nat | n < NUM_MACHINES

  function BlockOf(i: Index): Block { i / NUM_SMS_PER_BLOCK }

  function SlotOf(i: Index): Slot { i % NUM_SMS_PER_BLOCK }

  /** One block's flags, with the sets and clears deferred to the end of the cycle. */
  datatype IrqBank = IrqBank(flags: Word, toSet: Word, toClear: Word)

  datatype State = State(
    sm: seq<Machine>,
    prog: seq<seq<nat>>,
    base: seq<Base>,
    irq: seq<IrqBank>,
    gpio: Gpio,
    dma: seq<Channel>,
    sram: seq<Byte>,
    cycles: nat)
  {
    ghost predicate Shape() {
      && |sm| == NUM_MACHINES
      && |prog| == |base| == |irq| == |gpio.control| == NUM_PIO_BLOCKS
      && |dma| == NUM_DMA_CHANNELS
      && |sram| == SRAM_SIZE
      && forall b :: 0 <= b < NUM_PIO_BLOCKS ==> |prog[b]| == NUM_INSTRS_PER_BLOCK
    }
  }

  function Flags(irq: seq<IrqBank>): (f: seq<Word>)
    ensures |f| == |irq|
  {
    seq(|irq|, b requires 0 <= b < |irq| => irq[b].flags)
  }

  function EnvOf(st: State, i: Index): (env: Env)
    requires st.Shape()
    ensures env.Ok()
  {
    var b := BlockOf(i);
    Env(b, SlotOf(i), st.base[b], st.prog[b], st.gpio.input, st.gpio.inverted, st.gpio.control[b], Flags(st.irq))
  }

  /** What machine `i` does this cycle; a disabled machine does nothing. */
  function StepOf(st: State, i: Index): Step
    requires st.Shape()
  {
    if st.sm[i].enabled then StepMachine(st.sm[i], EnvOf(st, i)) else Step(st.sm[i], NO_EFFECTS)
  }

  function Defer(irq: seq<IrqBank>, fx: Effects): (r: seq<IrqBank>)
    requires |irq| == NUM_PIO_BLOCKS
    ensures |r| == NUM_PIO_BLOCKS
  {
    var irq1 := if fx.raise.Some? then
        var f := fx.raise.value;
        irq[f.block := irq[f.block].(toSet := irq[f.block].toSet[f.index := true])]
      else irq;
    if fx.lower.Some? then
      var f := fx.lower.value;
      irq1[f.block := irq1[f.block].(toClear := irq1[f.block].toClear[f.index := true])]
    else irq1
  }

  /** Step one machine in place: everything it does is visible to the machines stepped after it. */
  function StepSm(st: State, i: Index): (r: State)
    requires st.Shape()
  {
    var s := StepOf(st, i);
    st.(sm := st.sm[i := s.m], gpio := st.gpio.ApplyAll(s.fx.writes), irq := Defer(st.irq, s.fx))
  }

  lemma StepSmShape(st: State, i: Index)
    requires st.Shape()
    ensures StepSm(st, i).Shape()
  {
    ApplyAllFrame(st.gpio, StepOf(st, i).fx.writes);
  }

  /** Step the machines of `order`, one after another. */
  function StepOrder(st: State, order: seq<Index>): (r: State)
    requires st.Shape()
    ensures r.Shape()
    decreases |order|
  {
    if order == [] then st
    else
      var st1 := StepOrder(st, order[..|order| - 1]);
      StepSmShape(st1, order[|order| - 1]);
      StepSm(st1, order[|order| - 1])
  }

  const ASCENDING: seq<Index> := [0, 1, 2, 3, 4, 5, 6, 7, 8, 9, 10, 11]

  /** Clears first, then sets, so a set wins over a clear in the same cycle. */
  function CommitBank(q: IrqBank): IrqBank {
    IrqBank(Or(Without(q.flags, q.toClear), q.toSet), ZERO, ZERO)
  }

  function Commit(st: State): (r: State)
    requires st.Shape()
    ensures r.Shape()
  {
    st.(irq := seq(NUM_PIO_BLOCKS, b requires 0 <= b < NUM_PIO_BLOCKS => CommitBank(st.irq[b])))
  }

  /** One cycle of DMA channel `k`. */
  function DmaStep(st: State, k: nat): (r: State)
    requires st.Shape() && k < NUM_DMA_CHANNELS
    ensures r.Shape()
  {
    var ch := st.dma[k];
    if !ch.setup then st
    else
      var rx, tx := st.sm[ch.Source()].rx, st.sm[ch.Target()].tx;
      var sm1 := st.sm[ch.Target() := st.sm[ch.Target()].(tx := ch.StepTx(tx))];
      var sm2 := sm1[ch.Source() := sm1[ch.Source()].(rx := ch.StepRx(st.sram, rx, tx))];
      st.(sm := sm2, dma := st.dma[k := ch.Step(st.sram, rx, tx)])
  }

  /** The first `n` channels, in ascending order. */
  function DmaSteps(st: State, n: nat): (r: State)
    requires st.Shape() && n <= NUM_DMA_CHANNELS
    ensures r.Shape()
  {
    if n == 0 then st else DmaStep(DmaSteps(st, n - 1), n - 1)
  }

  /** The emulator as `epio_init` returns it. */
  ghost function InitialState(): (st: State)
    ensures st.Shape()
  {
    State(
      seq(NUM_MACHINES, _ => INITIAL_MACHINE),
      seq(NUM_PIO_BLOCKS, _ => seq(NUM_INSTRS_PER_BLOCK, _ => 0)),
      [0, 0, 0],
      seq(NUM_PIO_BLOCKS, _ => IrqBank(ZERO, ZERO, ZERO)),
      InitialGpio(),
      seq(NUM_DMA_CHANNELS, _ => INITIAL_CHANNEL),
      seq(SRAM_SIZE, _ => Zeros(8)),
      0)
  }

  /** No assertion of the emulator fires during the next cycle: every enabled machine can be
  stepped and every address about to be read is a valid one. */
  ghost predicate CycleSafe(st: State)
    requires st.Shape()
  {
    && (forall i: Index :: st.sm[i].enabled ==> StepSafe(st.sm[i], EnvOf(st, i)))
    && (forall k :: 0 <= k < NUM_DMA_CHANNELS && st.dma[k].setup ==> st.dma[k].Safe())
  }

  const CYCLE_COUNT_LIMIT := 0x1_0000_0000_0000_0000

  function Counted(st: State): (r: State)
    ensures st.Shape() ==> r.Shape()
  {
    st.(cycles := (st.cycles + 1) % CYCLE_COUNT_LIMIT)
  }

  /** Machines, then interrupt commit, then DMA, then the 64-bit cycle counter. */
  function Cycle(st: State): (r: State)
    requires st.Shape()
    ensures r.Shape()
  {
    Counted(DmaSteps(Commit(StepOrder(st, ASCENDING)), NUM_DMA_CHANNELS))
  }

  function Cycles(st: State, n: nat): (r: State)
    requires st.Shape()
    ensures r.Shape()
  {
    if n == 0 then st else Cycle(Cycles(st, n - 1))
  }

  lemma CyclesBy(st: State, n: nat)
    requires st.Shape()
    ensures Cycles(st, 0) == st && Cycles(st, n + 1) == Cycle(Cycles(st, n))
  {
    hide Cycle;
  }

  /** Stepping a cycles and then b cycles is stepping a + b cycles. */
  lemma {:induction false} CyclesAdd(st: State, a: nat, b: nat)
    requires st.Shape()
    ensures Cycles(st, a + b) == Cycles(Cycles(st, a), b)
    decreases b
  {
    hide Cycle;
    if b == 0 {
      assert a + b == a;
    } else {
      CyclesAdd(st, a, b - 1);
      CyclesAddOne(st, a, b - 1);
      assert b - 1 + 1 == b;
    }
  }

  lemma CyclesAddOne(st: State, a: nat, b: nat)
    requires st.Shape() && Cycles(st, a + b) == Cycles(Cycles(st, a), b)
    ensures Cycles(st, a + (b + 1)) == Cycles(Cycles(st, a), b + 1)
  {
    CyclesBy(st, a + b);
    CyclesBy(Cycles(st, a), b);
    hide *;
    assert a + (b + 1) == a + b + 1;
  }

  /** The cycle counter counts the cycles, modulo 2^64. */
  lemma {:induction false} CyclesCounted(st: State, n: nat)
    requires st.Shape() && st.cycles < CYCLE_COUNT_LIMIT
    ensures Cycles(st, n).cycles == (st.cycles + n) % CYCLE_COUNT_LIMIT
  {
    hide Cycle;
    if n == 0 {
    } else {
      CyclesCounted(st, n - 1);
      CountOneMore(st, n - 1);
      assert n - 1 + 1 == n;
    }
  }

  lemma CountOneMore(st: State, n: nat)
    requires st.Shape() && Cycles(st, n).cycles == (st.cycles + n) % CYCLE_COUNT_LIMIT
    ensures Cycles(st, n + 1).cycles == (st.cycles + (n + 1)) % CYCLE_COUNT_LIMIT
  {
    hide Cycle, Cycles;
    CycleCounted(Cycles(st, n));
    CyclesBy(st, n);
    WrapOn(st.cycles, n, Cycles(st, n).cycles, Cycles(st, n + 1).cycles);
  }

  lemma WrapOn(c: nat, n: nat, a: nat, b: nat)
    requires a == (c + n) % CYCLE_COUNT_LIMIT && b == (a + 1) % CYCLE_COUNT_LIMIT
    ensures b == (c + (n + 1)) % CYCLE_COUNT_LIMIT
  {
    AddWraps(c, n);
  }

  lemma AddWraps(c: nat, n: nat)
    ensures ((c + n) % CYCLE_COUNT_LIMIT + 1) % CYCLE_COUNT_LIMIT == (c + (n + 1)) % CYCLE_COUNT_LIMIT
  {
  }

  lemma CycleCounted(st: State)
    requires st.Shape()
    ensures Cycle(st).cycles == (st.cycles + 1) % CYCLE_COUNT_LIMIT
  {
    var st1 := Commit(StepOrder(st, ASCENDING));
    OrderKeepsCount(st, ASCENDING);
    DmaKeepsCount(st1, NUM_DMA_CHANNELS);
    hide StepOrder, DmaSteps, State.Shape;
  }

  lemma {:induction false} OrderKeepsCount(st: State, order: seq<Index>)
    requires st.Shape()
    ensures StepOrder(st, order).cycles == st.cycles
    decreases |order|
  {
    if order == [] {
    } else {
      OrderKeepsCount(st, order[..|order| - 1]);
    }
  }

  lemma {:induction false} DmaKeepsCount(st: State, n: nat)
    requires st.Shape() && n <= NUM_DMA_CHANNELS
    ensures DmaSteps(st, n).cycles == st.cycles
  {
    if n == 0 {
    } else {
      DmaKeepsCount(st, n - 1);
    }
  }
}
