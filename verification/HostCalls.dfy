/** What a host call changes and what comes of it: flags, FIFOs, inputs as the machines and the
host see them, ownership; and what a freshly initialised emulator shows. */
module HostCalls {
  import opened Bits
  import opened DataPath
  import opened Dma
  import opened Gpios
  import opened Instructions
  import opened Machines
  import opened System
  import opened Runs

  /** A flag call sets or clears its own flag at once and leaves every other flag. */
  lemma FlagCall(st: State, on: bool, f: Flag, g: Flag)
    requires st.Shape()
    ensures var r := Apply(st, if on then RaiseIrq(f) else LowerIrq(f));
      && r.irq[g.block].flags[g.index] == (if g == f then on else st.irq[g.block].flags[g.index])
      && r.irq[g.block].toSet == st.irq[g.block].toSet && r.irq[g.block].toClear == st.irq[g.block].toClear
      && r == st.(irq := r.irq)
  {
    assert f == Flag(f.block, f.index) && g == Flag(g.block, g.index);
  }

  /** A word pushed is the newest of its own FIFO; the oldest is popped; all other FIFOs stay. */
  lemma FifoCall(st: State, i: Index, j: Index, w: Word)
    requires st.Shape()
    ensures |st.sm[i].tx.items| < 4 ==>
      Legal(st, PushTx(i, w)) && var r := Apply(st, PushTx(i, w));
      && r.sm[i].tx.items == st.sm[i].tx.items + [w] && r.sm[i].rx == st.sm[i].rx && (j != i ==> r.sm[j] == st.sm[j])
    ensures |st.sm[i].rx.items| < 4 ==>
      Legal(st, PushRx(i, w)) && var r := Apply(st, PushRx(i, w));
      && r.sm[i].rx.items == st.sm[i].rx.items + [w] && r.sm[i].tx == st.sm[i].tx && (j != i ==> r.sm[j] == st.sm[j])
    ensures st.sm[i].tx.items != [] ==>
      Legal(st, PopTx(i)) && var r := Apply(st, PopTx(i));
      && r.sm[i].tx.items == st.sm[i].tx.items[1..] && r.sm[i].rx == st.sm[i].rx && (j != i ==> r.sm[j] == st.sm[j])
    ensures st.sm[i].rx.items != [] ==>
      Legal(st, PopRx(i)) && var r := Apply(st, PopRx(i));
      && r.sm[i].rx.items == st.sm[i].rx.items[1..] && r.sm[i].tx == st.sm[i].tx && (j != i ==> r.sm[j] == st.sm[j])
  {
  }

  /** An enabled machine steps, a disabled one does not; the calls affect no other machine. */
  lemma EnableCall(st: State, i: Index, j: Index, on: bool)
    requires st.Shape()
    ensures var r := Apply(st, if on then EnableSm(i) else DisableSm(i));
      && r.sm[j].enabled == (if i == j then on else st.sm[j].enabled)
      && (!on ==> StepOf(r, i) == Step(r.sm[i], NO_EFFECTS))
      && (on ==> StepOf(r, i) == StepMachine(st.sm[i].(enabled := true), EnvOf(st, i)))
  {
    hide StepMachine;
    assert EnvOf(Apply(st, EnableSm(i)), i) == EnvOf(st, i);
  }

  /** The pins as a machine reads them. */
  predicate Sees(st: State, p: Pin)
    requires st.Shape()
  {
    st.gpio.input[p] != st.gpio.inverted[p]
  }

  /** A level set from outside is seen, unless the pin is forced, and inverted if it is. */
  lemma InputCall(st: State, p: Pin, q: Pin, high: bool)
    requires st.Shape()
    ensures var g, r := st.gpio, Apply(st, InputLevel(p, high));
      && (g.forceHigh[p] ==> r.gpio.input[p])
      && (g.forceLow[p] && !g.forceHigh[p] ==> !r.gpio.input[p])
      && (!g.forceLow[p] && !g.forceHigh[p] ==> (Sees(r, p) <==> high != g.inverted[p]))
      && (q != p ==> (Sees(r, q) <==> Sees(st, q)))
      && r.gpio.output == g.output && r.gpio.direction == g.direction
  {
  }

  /** Forcing shows its level at once and holds against later levels; released, the pin is
  pulled up. */
  lemma ForceCall(st: State, p: Pin, low: bool, high: bool)
    requires st.Shape() && var e := if low then ForceInputLow(p, true) else ForceInputHigh(p, true); Legal(st, e)
    ensures var r := Apply(st, if low then ForceInputLow(p, true) else ForceInputHigh(p, true));
      && (Sees(r, p) <==> !low) && Legal(r, InputLevel(p, high))
      && (Sees(Apply(r, InputLevel(p, high)), p) <==> !low)
      && Sees(Apply(r, if low then ForceInputLow(p, false) else ForceInputHigh(p, false)), p)
  {
  }

  /** Inverting a pin turns what is seen on it, and on no other, and turning back restores it. */
  lemma InvertCall(st: State, p: Pin, q: Pin)
    requires st.Shape() && Legal(st, InvertInput(p, true)) && !st.gpio.inverted[p]
    ensures var r := Apply(st, InvertInput(p, true));
      && (Sees(r, p) <==> !Sees(st, p)) && (q != p ==> (Sees(r, q) <==> Sees(st, q)))
      && Apply(r, InvertInput(p, false)).gpio.inverted == st.gpio.inverted
  {
  }

  /** Driving from outside: a driven pin shows its level, forcing permitting; the mask of driven
  pins is remembered. */
  lemma DriveCall(st: State, gpios: Mask, level: Mask, p: Pin)
    requires st.Shape() && Legal(st, DriveGpios(gpios, level)) && !st.gpio.forceLow[p] && !st.gpio.forceHigh[p]
    ensures var r := Apply(st, DriveGpios(gpios, level));
      && (gpios[p] ==> (r.gpio.input[p] <==> level[p])) && (!gpios[p] ==> r.gpio.input[p])
      && r.gpio.extDriven == gpios && r.gpio.output == st.gpio.output && r.gpio.direction == st.gpio.direction
  {
  }

  /** A pin granted belongs to its block and a pin revoked to no block, and nothing else moves. */
  lemma OwnerCall(st: State, p: Pin, b: Block, c: Block, q: Pin)
    requires st.Shape()
    ensures Legal(st, GrantPin(p, b)) ==> var r := Apply(st, GrantPin(p, b));
      r.gpio.control[c][q] == (st.gpio.control[c][q] || (c == b && q == p))
    ensures var r := Apply(st, RevokePin(p, b));
      r.gpio.control[c][q] == (st.gpio.control[c][q] && !(c == b && q == p))
  {
  }

  /** What the host reads back: an output's own level, an input's level as the machines see it,
  and an output through its inversion; the pins above 47 read low. */
  lemma PinStatesShow(g: Gpio, p: Pin, q: nat)
    requires NUM_GPIOS <= q < 64
    ensures g.direction[p] ==> (g.PinStates()[p] <==> g.output[p] != g.inverted[p])
    ensures !g.direction[p] ==> (g.PinStates()[p] <==> g.input[p] != g.inverted[p])
    ensures !g.PinStates()[q]
  {
  }

  /** Where machine `i` sits and what it sees: its block's program, GPIOBASE and pins, its own
  number for relative flags, and every block's flags. */
  lemma MachineSeat(st: State, i: Index, f: Flag, index: FlagIndex)
    requires st.Shape()
    ensures var env := EnvOf(st, i);
      && env.block == i / 4 && env.sm == i % 4 && env.base == st.base[i / 4] && env.prog == st.prog[i / 4]
      && env.level == st.gpio.input && env.inverted == st.gpio.inverted && env.control == st.gpio.control[i / 4]
      && env.irq[f.block][f.index] == st.irq[f.block].flags[f.index]
      && env.FlagOf(Relative, index) == Flag(i / 4, index / 4 * 4 + (index % 4 + i % 4) % 4)
  {
    assert (index + i % 4) % 4 == (index % 4 + i % 4) % 4;
  }

  /** A channel takes addresses from the RX FIFO of its read machine and gives words to the TX
  FIFO of its write machine, and steps in every cycle only if it was set up. */
  lemma ChannelEnds(st: State, c: nat)
    requires st.Shape() && c < 16
    ensures !st.dma[c].setup ==> DmaStep(st, c) == st
    ensures var ch, r := st.dma[c], DmaStep(st, c);
      var a, b := ch.readBlock * 4 + ch.readSm, ch.writeBlock * 4 + ch.writeSm;
      ch.setup ==>
        && r.sm[a].rx == ch.StepRx(st.sram, st.sm[a].rx, st.sm[b].tx) && r.sm[b].tx == ch.StepTx(st.sm[b].tx)
        && r.dma[c] == ch.Step(st.sram, st.sm[a].rx, st.sm[b].tx)
  {
    hide Channel.Step, Channel.StepRx, Channel.StepTx;
  }

  /** The emulator's measures. */
  lemma InitialMeasures(b: Block)
    ensures var st := InitialState();
      && |st.sm| == 12 && |st.dma| == 16 && |st.sram| == 532480 && |st.prog| == 3 && |st.prog[b]| == 32
      && |st.gpio.control| == 3 && st.cycles == 0 && st.base[b] == 0
      && forall c :: 0 <= c < 16 ==> !st.dma[c].setup
  {
  }

  /** The cycle counter has 64 bits. */
  lemma CounterWraps(st: State)
    requires st.Shape() && st.cycles == 0xFFFF_FFFF_FFFF_FFFF
    ensures Cycle(st).cycles == 0
  {
    CycleCounted(st);
    hide Cycle;
  }

  /** After initialisation every pin reads high to the machines and to the host, nothing is
  driven, owned, forced or inverted. */
  lemma InitialPins(p: Pin, b: Block)
    ensures var st := InitialState(); var g := st.gpio;
      && Sees(st, p) && g.PinStates()[p] && !g.direction[p] && g.output[p]
      && !g.control[b][p] && !g.forceLow[p] && !g.forceHigh[p] && !g.inverted[p] && !g.extDriven[p]
  {
  }

  /** A machine fresh from initialisation, whatever its registers: X, Y and the shift registers
  are zero, the ISR counts as empty, the OSR as used up, so that the first OUT with autopull
  asks for a word at any threshold; and it starts at address 0. */
  lemma InitialMachineFresh(m: Machine, reg: Regs)
    requires m == INITIAL_MACHINE.(reg := reg)
    ensures Val(m.x) == Val(m.y) == Val(m.isr) == Val(m.osr) == 0 && m.isrCount == 0 && m.pc == 0
    ensures Refills(m) <==> reg.AutoPull()
    ensures m.tx.items == m.rx.items == [] && !m.enabled && !m.stalled && !m.execPending && m.delay == 0
  {
    ValZero(ZERO);
    hide Val, Regs.AutoPull;
  }
}
