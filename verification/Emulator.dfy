/** The emulator itself: objects for the machines, interrupt lines, pins, SRAM and DMA
channels, stepped in place by nested loops.  Its abstract value is a `System.State`, and each
method is proved to do to that value exactly what the specification says. */
module Emulators {
  import opened Bits
  import opened Dma
  import opened DmaEngine
  import opened Gpios
  import opened Instructions
  import opened PinBanks
  import opened StateMachines
  import opened System
  import opened Parallel
  import opened Runs
  import M = Machines
  import W = WellFormed

  ghost function Parts(m: StateMachine): set<object> {
    {m, m.tx, m.rx, m.tx.buf, m.rx.buf}
  }

  /** Machines with separate storage, each as `epio_init_sm` leaves it. */
  method NewMachines(n: nat) returns (ms: seq<StateMachine>)
    ensures |ms| == n
    ensures forall i :: 0 <= i < n ==> ms[i].Valid() && ms[i].Abs() == M.INITIAL_MACHINE
    ensures forall i, o :: 0 <= i < n && o in Parts(ms[i]) ==> fresh(o)
    ensures forall i, j :: 0 <= i < j < n ==> Parts(ms[i]) !! Parts(ms[j])
  {
    ms := [];
    while |ms| < n
      invariant |ms| <= n
      invariant forall i :: 0 <= i < |ms| ==> ms[i].Valid() && ms[i].Abs() == M.INITIAL_MACHINE
      invariant forall i, o :: 0 <= i < |ms| && o in Parts(ms[i]) ==> fresh(o)
      invariant forall i, j :: 0 <= i < j < |ms| ==> Parts(ms[i]) !! Parts(ms[j])
    {
      var m := new StateMachine();
      ms := ms + [m];
    }
  }

  method NewChannels(n: nat) returns (cs: seq<DmaChannel>)
    ensures |cs| == n
    ensures forall i :: 0 <= i < n ==> cs[i].Abs() == INITIAL_CHANNEL && fresh(cs[i])
    ensures forall i, j :: 0 <= i < j < n ==> cs[i] != cs[j]
  {
    cs := [];
    while |cs| < n
      invariant |cs| <= n
      invariant forall i :: 0 <= i < |cs| ==> cs[i].Abs() == INITIAL_CHANNEL && fresh(cs[i])
      invariant forall i, j :: 0 <= i < j < |cs| ==> cs[i] != cs[j]
    {
      var c := new DmaChannel();
      cs := cs + [c];
    }
  }

  method NewPrograms(n: nat) returns (ps: seq<array<nat>>)
    ensures |ps| == n
    ensures forall i :: 0 <= i < n ==> ps[i].Length == NUM_INSTRS_PER_BLOCK && fresh(ps[i])
    ensures forall i :: 0 <= i < n ==> ps[i][..] == seq(NUM_INSTRS_PER_BLOCK, _ => 0)
    ensures forall i, j :: 0 <= i < j < n ==> ps[i] != ps[j]
  {
    ps := [];
    while |ps| < n
      invariant |ps| <= n
      invariant forall i :: 0 <= i < |ps| ==> ps[i].Length == NUM_INSTRS_PER_BLOCK && fresh(ps[i])
      invariant forall i :: 0 <= i < |ps| ==> ps[i][..] == seq(NUM_INSTRS_PER_BLOCK, _ => 0)
      invariant forall i, j :: 0 <= i < j < |ps| ==> ps[i] != ps[j]
    {
      var p := new nat[NUM_INSTRS_PER_BLOCK](_ => 0);
      assert p[..] == seq(NUM_INSTRS_PER_BLOCK, _ => 0);
      ps := ps + [p];
    }
  }

  method NewLines() returns (ls: seq<IrqLines>)
    ensures Separate(ls) && Banks(ls) == seq(NUM_PIO_BLOCKS, _ => IrqBank(ZERO, ZERO, ZERO))
    ensures forall i :: 0 <= i < |ls| ==> fresh(ls[i])
  {
    var a := new IrqLines();
    var b := new IrqLines();
    var c := new IrqLines();
    ls := [a, b, c];
  }

  class Emulator {
    const sms: seq<StateMachine>
    const lines: seq<IrqLines>
    const pins: PinBank
    const chans: seq<DmaChannel>
    const mem: Sram
    const prog: seq<array<nat>>
    var base: seq<Base>
    var cycles: nat

    /** The object graph: every part has its own storage. */
    ghost predicate Built() {
      && |sms| == NUM_MACHINES && |prog| == NUM_PIO_BLOCKS && |chans| == NUM_DMA_CHANNELS
      && Separate(lines) && mem.Valid()
      && (forall b :: 0 <= b < NUM_PIO_BLOCKS ==> prog[b].Length == NUM_INSTRS_PER_BLOCK)
      && (forall i, j :: 0 <= i < j < NUM_MACHINES ==> Parts(sms[i]) !! Parts(sms[j]))
      && (forall a, b :: 0 <= a < b < NUM_PIO_BLOCKS ==> prog[a] != prog[b])
      && (forall i, b :: 0 <= i < NUM_MACHINES && 0 <= b < NUM_PIO_BLOCKS ==> prog[b] as object !in Parts(sms[i]))
      && (forall i :: 0 <= i < NUM_MACHINES ==> mem.bytes as object !in Parts(sms[i]))
      && (forall i, j :: 0 <= i < j < NUM_DMA_CHANNELS ==> chans[i] != chans[j])
    }

    /** Put the parts together. */
    constructor (ms: seq<StateMachine>, ps: seq<array<nat>>, cs: seq<DmaChannel>, ls: seq<IrqLines>, p: PinBank,
                 s: Sram)
      ensures sms == ms && prog == ps && chans == cs && lines == ls && pins == p && mem == s
      ensures base == [0, 0, 0] && cycles == 0
    {
      sms, prog, chans, lines, pins, mem := ms, ps, cs, ls, p, s;
      base, cycles := [0, 0, 0], 0;
    }

    ghost function Storage(): set<object>
    {
      (set i, o | 0 <= i < |sms| && o in Parts(sms[i]) :: o) +
      (set b | 0 <= b < |prog| :: prog[b] as object) +
      (set k | 0 <= k < |lines| :: lines[k] as object) +
      (set k | 0 <= k < |chans| :: chans[k] as object) +
      {pins as object, mem.bytes}
    }

    ghost predicate Valid()
      reads this, Storage()
    {
      && Built() && |base| == NUM_PIO_BLOCKS && pins.Valid()
      && forall i :: 0 <= i < NUM_MACHINES ==> sms[i].Valid()
    }

    ghost function MachinesAbs(): (r: seq<M.Machine>)
      reads this, Storage()
      requires Valid()
      ensures |r| == NUM_MACHINES
    {
      seq(NUM_MACHINES, i requires 0 <= i < NUM_MACHINES && Valid() reads this, Storage() => sms[i].Abs())
    }

    ghost function Programs(): (r: seq<seq<nat>>)
      reads this, Storage()
      requires Valid()
      ensures |r| == NUM_PIO_BLOCKS
      ensures forall b :: 0 <= b < NUM_PIO_BLOCKS ==> |r[b]| == NUM_INSTRS_PER_BLOCK
    {
      seq(NUM_PIO_BLOCKS, b requires 0 <= b < NUM_PIO_BLOCKS && Valid() reads this, Storage() => prog[b][..])
    }

    ghost function ChannelsAbs(): (r: seq<Channel>)
      reads this, Storage()
      requires Valid()
      ensures |r| == NUM_DMA_CHANNELS
    {
      seq(NUM_DMA_CHANNELS, k requires 0 <= k < NUM_DMA_CHANNELS && Valid() reads this, Storage() => chans[k].Abs())
    }

    ghost function Abs(): (st: State)
      reads this, Storage()
      requires Valid()
      ensures st.Shape()
    {
      State(MachinesAbs(), Programs(), base, Banks(lines), pins.Abs(), ChannelsAbs(), mem.bytes[..], cycles)
    }

    function SeatOf(i: Index): Seat
      reads this
      requires |base| == NUM_PIO_BLOCKS
    {
      Seat(BlockOf(i), SlotOf(i), base[BlockOf(i)])
    }

    /** Step one enabled machine. */
    method StepSm(i: Index)
      requires Valid() && sms[i].enabled && M.StepSafe(Abs().sm[i], EnvOf(Abs(), i))
      modifies Parts(sms[i]), pins`output, pins`direction, lines
      ensures Valid() && Abs() == System.StepSm(old(Abs()), i)
    {
      ghost var st := Abs();
      ghost var env := EnvOf(st, i);
      hide M.StepMachine, M.StepSafe;
      sms[i].Step(pins, lines, SeatOf(i), prog[BlockOf(i)], env);
      assert MachinesAbs() == st.sm[i := M.StepMachine(st.sm[i], env).m];
      assert Programs() == st.prog;
      assert ChannelsAbs() == st.dma;
    }

    /** Visit the machines block by block in ascending order, stepping the enabled ones. */
    method StepMachines()
      requires Valid() && CycleSafe(Abs())
      modifies Storage()
      ensures Valid() && Abs() == StepOrder(old(Abs()), ASCENDING)
    {
      ghost var st := Abs();
      assert StepOrder(st, ASCENDING[..0]) == st;
      assert ASCENDING[..12] == ASCENDING;
      hide CycleSafe, StepOrder, Valid, Abs, Storage;
      var block := 0;
      while block < NUM_PIO_BLOCKS
        invariant 0 <= block <= NUM_PIO_BLOCKS && Valid()
        invariant Abs() == StepOrder(st, ASCENDING[..4 * block])
      {
        StepBlock(block, st);
        block := block + 1;
      }
    }

    /** The machines of one block; `st` is the state the pass began in. */
    method StepBlock(block: Block, ghost st: State)
      requires st.Shape() && CycleSafe(st) && Valid() && Abs() == StepOrder(st, ASCENDING[..4 * block])
      modifies Storage()
      ensures Valid() && Abs() == StepOrder(st, ASCENDING[..4 * block + 4])
    {
      hide CycleSafe, System.StepSm, StepOrder, Valid, Abs, Storage;
      var sm := 0;
      while sm < NUM_SMS_PER_BLOCK
        invariant 0 <= sm <= NUM_SMS_PER_BLOCK && Valid()
        invariant Abs() == StepOrder(st, ASCENDING[..4 * block + sm])
      {
        var i := block * NUM_SMS_PER_BLOCK + sm;
        PassNext(st, i);
        StepIfEnabled(i);
        sm := sm + 1;
      }
    }

    method StepIfEnabled(i: Index)
      requires Valid() && (Abs().sm[i].enabled ==> M.StepSafe(Abs().sm[i], EnvOf(Abs(), i)))
      modifies Storage()
      ensures Valid() && Abs() == System.StepSm(old(Abs()), i)
    {
      if sms[i].enabled {
        StepSm(i);
      } else {
        DisabledIdle(Abs(), i);
      }
    }

    /** Apply what the machines deferred: clears, then sets. */
    method FinishStep()
      requires Valid()
      modifies lines
      ensures Valid() && Abs() == Commit(old(Abs()))
    {
      ghost var st := Abs();
      var b := 0;
      while b < NUM_PIO_BLOCKS
        invariant 0 <= b <= NUM_PIO_BLOCKS
        invariant forall k :: 0 <= k < NUM_PIO_BLOCKS ==>
          lines[k].Abs() == if k < b then CommitBank(st.irq[k]) else st.irq[k]
      {
        lines[b].Commit();
        b := b + 1;
      }
      assert Banks(lines) == Commit(st).irq;
      assert MachinesAbs() == st.sm && Programs() == st.prog && ChannelsAbs() == st.dma;
    }

    /** One cycle of channel `k`. */
    method StepChannel(k: nat)
      requires Valid() && k < NUM_DMA_CHANNELS && chans[k].setup && chans[k].Abs().Safe()
      modifies chans[k], Parts(sms[chans[k].Abs().Source()]), Parts(sms[chans[k].Abs().Target()])
      ensures Valid() && Abs() == DmaStep(old(Abs()), k)
    {
      ghost var st := Abs();
      var a := chans[k].readBlock * NUM_SMS_PER_BLOCK + chans[k].readSm;
      var b := chans[k].writeBlock * NUM_SMS_PER_BLOCK + chans[k].writeSm;
      hide Channel.Step, Channel.StepRx, Channel.StepTx, Channel.Safe, DmaStep;
      MoveWords(k, a, b);
      ChannelStepped(st, k, MachinesAbs());
      assert Programs() == st.prog;
      assert ChannelsAbs() == st.dma[k := st.dma[k].Step(st.sram, st.sm[a].rx, st.sm[b].tx)];
    }

    /** Channel `k` takes addresses from machine `a` and gives words to machine `b`. */
    method MoveWords(k: nat, a: Index, b: Index)
      requires Valid() && k < NUM_DMA_CHANNELS && chans[k].Abs().Safe()
      modifies chans[k], sms[a].rx, sms[a].rx.buf, sms[b].tx, sms[b].tx.buf
      ensures Valid()
      ensures chans[k].Abs() == old(chans[k].Abs()).Step(mem.bytes[..], old(sms[a].rx.Abs()), old(sms[b].tx.Abs()))
      ensures forall j :: 0 <= j < NUM_MACHINES ==> sms[j].Abs() == old(sms[j].Abs()).(
        rx := if j == a
              then old(chans[k].Abs()).StepRx(mem.bytes[..], old(sms[a].rx.Abs()), old(sms[b].tx.Abs()))
              else old(sms[j].rx.Abs()),
        tx := if j == b then old(chans[k].Abs()).StepTx(old(sms[b].tx.Abs())) else old(sms[j].tx.Abs()))
    {
      hide Channel.Step, Channel.StepRx, Channel.StepTx, Channel.Safe;
      chans[k].Step(mem, sms[a].rx, sms[b].tx);
      forall j | 0 <= j < NUM_MACHINES ensures sms[j].Valid() {
      }
    }

    /** The DMA channels that have been set up, in ascending order. */
    method StepDma()
      requires Valid() && ChannelsSafe(Abs())
      modifies Storage()
      ensures Valid() && Abs() == DmaSteps(old(Abs()), NUM_DMA_CHANNELS)
    {
      ghost var st := Abs();
      hide DmaStep;
      var k := 0;
      while k < NUM_DMA_CHANNELS
        invariant 0 <= k <= NUM_DMA_CHANNELS && Valid() && Abs() == DmaSteps(st, k)
      {
        ChannelAwaitsTurn(st, k, k);
        StepChannelIfSetUp(k, Abs());
        k := k + 1;
      }
    }

    method StepChannelIfSetUp(k: nat, ghost st: State)
      requires Valid() && st == Abs() && k < NUM_DMA_CHANNELS && (st.dma[k].setup ==> st.dma[k].Safe())
      modifies Storage()
      ensures Valid() && Abs() == DmaStep(st, k)
    {
      if chans[k].setup {
        StepChannel(k);
      }
    }

    method CountCycle()
      requires Valid()
      modifies this`cycles
      ensures Valid() && Abs() == Counted(old(Abs()))
    {
      ghost var st := Abs();
      cycles := (cycles + 1) % CYCLE_COUNT_LIMIT;
      assert MachinesAbs() == st.sm && Programs() == st.prog && ChannelsAbs() == st.dma;
    }

    /** One clock cycle. */
    method StepCycle()
      requires Valid() && CycleSafe(Abs())
      modifies this, Storage()
      ensures Valid() && Abs() == Cycle(old(Abs()))
    {
      PassKeepsChannels(Abs());
      hide CycleSafe, ChannelsSafe, Counted, StepOrder, Commit, DmaSteps, Valid, Abs, Storage;
      StepMachines();
      FinishStep();
      StepDma();
      CountCycle();
    }

    /** The emulator is `k` cycles past `st`. */
    ghost predicate Reached(st: State, k: nat)
      reads this, Storage()
    {
      st.Shape() && Valid() && Abs() == Cycles(st, k)
    }

    /** `n` clock cycles, each of which must be safe when it is reached. */
    method StepCycles(n: nat)
      requires Valid() && n > 0 && SafeFor(Abs(), n)
      modifies this, Storage()
      ensures Valid() && Abs() == Cycles(old(Abs()), n)
    {
      ghost var st := Abs();
      hide *;
      Begin();
      var done := 0;
      while done < n
        invariant 0 <= done <= n && Reached(st, done)
      {
        NextIsSafe(st, n, done);
        StepOneOf(st, done);
        done := done + 1;
      }
      assert done == n;
      Finish(st, done);
    }

    lemma Begin()
      requires Valid()
      ensures Reached(Abs(), 0)
    {
    }

    lemma Finish(st: State, k: nat)
      requires st.Shape() && Reached(st, k)
      ensures Valid() && Abs() == Cycles(st, k)
    {
    }

    /** Step until there is a word in machine `i`'s TX FIFO, for at most `count` cycles; -1
    waits for as long as it takes, and the call returns only if a word arrives. */
    method WaitTxFifo(i: Index, count: int) returns (steps: int)
      requires Valid()
      requires count == -1 ==> Comes(Abs(), i)
      requires SafeWait(Abs(), i, count)
      modifies this, Storage()
      ensures Valid() && Waited(old(Abs()), i, count, steps, Abs())
    {
      ghost var st := Abs();
      hide *;
      ghost var limit := WaitBegins(i, count);
      steps := 0;
      while count == -1 || steps < count
        invariant 0 <= steps <= limit && Waiting(i, st, count, limit, steps)
        decreases limit - steps
      {
        var arrived := WaitCycle(i, st, count, limit, steps);
        if arrived {
          assert Waited(st, i, count, steps, Abs());
          return;
        }
        steps := steps + 1;
      }
      WaitGivesUp(i, st, count, limit, steps);
      steps := -1;
      assert Waited(st, i, count, steps, Abs());
    }

    /** After `k` cycles of waiting there has been no word yet; `limit` bounds the wait. */
    ghost predicate Waiting(i: Index, st: State, count: int, limit: nat, k: nat)
      reads this, Storage()
    {
      && Reached(st, k) && NoneBefore(st, i, k) && SafeWait(st, i, count)
      && if count == -1 then Arrived(st, i, limit) else count <= limit && (k == 0 || k <= count)
    }

    lemma WaitBegins(i: Index, count: int) returns (limit: nat)
      requires Valid() && SafeWait(Abs(), i, count) && (count == -1 ==> Comes(Abs(), i))
      ensures Waiting(i, Abs(), count, limit, 0)
    {
      var st := Abs();
      if count == -1 {
        limit :| Arrived(st, i, limit);
      } else {
        limit := if count > 0 then count else 0;
      }
    }

    lemma WaitGivesUp(i: Index, st: State, count: int, limit: nat, k: nat)
      requires Waiting(i, st, count, limit, k) && count != -1 && count <= k
      ensures st.Shape() && Valid() && Waited(st, i, count, -1, Abs())
    {
      hide Cycle, Cycles, Arrived, SafeWait;
    }

    /** Stop if there is a word, else step. */
    method WaitCycle(i: Index, ghost st: State, ghost count: int, ghost limit: nat, ghost k: nat)
      returns (arrived: bool)
      requires Waiting(i, st, count, limit, k) && (count == -1 || k < count)
      modifies this, Storage()
      ensures if arrived then st.Shape() && Valid() && Waited(st, i, count, k, Abs())
              else k < limit && Waiting(i, st, count, limit, k + 1)
    {
      hide Cycle, CycleSafe, Arrived, Storage;
      arrived := HasWord(i, st, k);
      if !arrived {
        WaitOn(st, i, count, k);
        StepOneOf(st, k);
      }
    }

    method HasWord(i: Index, ghost st: State, ghost k: nat) returns (b: bool)
      requires Reached(st, k)
      ensures st.Shape() && b == Arrived(st, i, k)
    {
      b := sms[i].tx.count > 0;
      assert Abs().sm[i].tx == sms[i].tx.Abs();
    }

    /** Cycle `k` of a run that began in `st`. */
    method StepOneOf(ghost st: State, ghost k: nat)
      requires st.Shape() && Reached(st, k) && CycleSafe(Cycles(st, k))
      modifies this, Storage()
      ensures Reached(st, k + 1)
    {
      CyclesBy(st, k);
      hide CycleSafe, Cycle, Cycles, Valid, Abs, Storage;
      StepCycle();
    }

    // ---------------------------------------------------------------- calls from the host

    /** Only machine `i` has changed since `st`. */
    lemma OneMachine(st: State, i: Index, m: M.Machine)
      requires st.Shape() && Valid() && sms[i].Abs() == m
      requires forall j :: 0 <= j < NUM_MACHINES && j != i ==> sms[j].Abs() == st.sm[j]
      requires forall b :: 0 <= b < NUM_PIO_BLOCKS ==> prog[b][..] == st.prog[b]
      requires forall k :: 0 <= k < NUM_DMA_CHANNELS ==> chans[k].Abs() == st.dma[k]
      requires base == st.base && Banks(lines) == st.irq && pins.Abs() == st.gpio && mem.bytes[..] == st.sram
        && cycles == st.cycles
      ensures Abs() == st.(sm := st.sm[i := m])
    {
      assert MachinesAbs() == st.sm[i := m] && Programs() == st.prog && ChannelsAbs() == st.dma;
    }

    /** No machine, program or channel has changed since `st`. */
    lemma OnlyShared(st: State)
      requires st.Shape() && Valid()
      requires forall j :: 0 <= j < NUM_MACHINES ==> sms[j].Abs() == st.sm[j]
      requires forall b :: 0 <= b < NUM_PIO_BLOCKS ==> prog[b][..] == st.prog[b]
      requires forall k :: 0 <= k < NUM_DMA_CHANNELS ==> chans[k].Abs() == st.dma[k]
      ensures MachinesAbs() == st.sm && Programs() == st.prog && ChannelsAbs() == st.dma
    {
    }

    method PushTx(i: Index, word: Word)
      requires Valid() && Legal(Abs(), Event.PushTx(i, word))
      modifies sms[i].tx, sms[i].tx.buf
      ensures Valid() && Abs() == Apply(old(Abs()), Event.PushTx(i, word))
    {
      ghost var st := Abs();
      sms[i].tx.Push(word);
      OneMachine(st, i, st.sm[i].(tx := st.sm[i].tx.Push(word)));
    }

    method PopTx(i: Index) returns (word: Word)
      requires Valid() && Legal(Abs(), Event.PopTx(i))
      modifies sms[i].tx, sms[i].tx.buf
      ensures Valid() && Abs() == Apply(old(Abs()), Event.PopTx(i))
      ensures word == old(Abs()).sm[i].tx.items[0]
    {
      ghost var st := Abs();
      word := sms[i].tx.Pop();
      OneMachine(st, i, st.sm[i].(tx := st.sm[i].tx.Pop()));
    }

    method PushRx(i: Index, word: Word)
      requires Valid() && Legal(Abs(), Event.PushRx(i, word))
      modifies sms[i].rx, sms[i].rx.buf
      ensures Valid() && Abs() == Apply(old(Abs()), Event.PushRx(i, word))
    {
      ghost var st := Abs();
      sms[i].rx.Push(word);
      OneMachine(st, i, st.sm[i].(rx := st.sm[i].rx.Push(word)));
    }

    method PopRx(i: Index) returns (word: Word)
      requires Valid() && Legal(Abs(), Event.PopRx(i))
      modifies sms[i].rx, sms[i].rx.buf
      ensures Valid() && Abs() == Apply(old(Abs()), Event.PopRx(i))
      ensures word == old(Abs()).sm[i].rx.items[0]
    {
      ghost var st := Abs();
      word := sms[i].rx.Pop();
      OneMachine(st, i, st.sm[i].(rx := st.sm[i].rx.Pop()));
    }

    method EnableSm(i: Index)
      requires Valid()
      modifies sms[i]
      ensures Valid() && Abs() == Apply(old(Abs()), Event.EnableSm(i))
    {
      ghost var st := Abs();
      sms[i].enabled := true;
      OneMachine(st, i, st.sm[i].(enabled := true));
    }

    method DisableSm(i: Index)
      requires Valid()
      modifies sms[i]
      ensures Valid() && Abs() == Apply(old(Abs()), Event.DisableSm(i))
    {
      ghost var st := Abs();
      sms[i].enabled := false;
      OneMachine(st, i, st.sm[i].(enabled := false));
    }

    method RaiseIrq(flag: M.Flag)
      requires Valid()
      modifies lines[flag.block]
      ensures Valid() && Abs() == Apply(old(Abs()), Event.RaiseIrq(flag))
    {
      ghost var st := Abs();
      lines[flag.block].SetNow(flag.index, true);
      assert Banks(lines) == SetFlag(st.irq, flag, true);
      OnlyShared(st);
    }

    method LowerIrq(flag: M.Flag)
      requires Valid()
      modifies lines[flag.block]
      ensures Valid() && Abs() == Apply(old(Abs()), Event.LowerIrq(flag))
    {
      ghost var st := Abs();
      lines[flag.block].SetNow(flag.index, false);
      assert Banks(lines) == SetFlag(st.irq, flag, false);
      OnlyShared(st);
    }

    method DriveGpios(gpios: Mask, level: Mask)
      requires Valid() && Legal(Abs(), Event.DriveGpios(gpios, level))
      modifies pins`input, pins`extDriven
      ensures Valid() && Abs() == Apply(old(Abs()), Event.DriveGpios(gpios, level))
    {
      ghost var st := Abs();
      pins.DriveExternally(gpios, level);
      OnlyShared(st);
    }

    method InputLevel(pin: Pin, high: bool)
      requires Valid() && Legal(Abs(), Event.InputLevel(pin, high))
      modifies pins`input
      ensures Valid() && Abs() == Apply(old(Abs()), Event.InputLevel(pin, high))
    {
      ghost var st := Abs();
      pins.SetInputLevel(pin, high);
      OnlyShared(st);
    }

    method InvertInput(pin: Pin, on: bool)
      requires Valid() && Legal(Abs(), Event.InvertInput(pin, on))
      modifies pins`inverted
      ensures Valid() && Abs() == Apply(old(Abs()), Event.InvertInput(pin, on))
    {
      ghost var st := Abs();
      pins.SetInverted(pin, on);
      OnlyShared(st);
    }

    method ForceInputLow(pin: Pin, on: bool)
      requires Valid() && Legal(Abs(), Event.ForceInputLow(pin, on))
      modifies pins`forceLow, pins`input
      ensures Valid() && Abs() == Apply(old(Abs()), Event.ForceInputLow(pin, on))
    {
      ghost var st := Abs();
      pins.SetForceLow(pin, on);
      OnlyShared(st);
    }

    method ForceInputHigh(pin: Pin, on: bool)
      requires Valid() && Legal(Abs(), Event.ForceInputHigh(pin, on))
      modifies pins`forceHigh, pins`input
      ensures Valid() && Abs() == Apply(old(Abs()), Event.ForceInputHigh(pin, on))
    {
      ghost var st := Abs();
      pins.SetForceHigh(pin, on);
      OnlyShared(st);
    }

    method GrantPin(pin: Pin, block: Block)
      requires Valid() && Legal(Abs(), Event.GrantPin(pin, block))
      modifies pins`control
      ensures Valid() && Abs() == Apply(old(Abs()), Event.GrantPin(pin, block))
    {
      ghost var st := Abs();
      pins.SetControl(pin, block);
      OnlyShared(st);
    }

    method RevokePin(pin: Pin, block: Block)
      requires Valid() && Legal(Abs(), Event.RevokePin(pin, block))
      modifies pins`control
      ensures Valid() && Abs() == Apply(old(Abs()), Event.RevokePin(pin, block))
    {
      ghost var st := Abs();
      pins.ClearControl(pin, block);
      OnlyShared(st);
    }

    method MakeOutput(pin: Pin)
      requires Valid()
      modifies pins`direction
      ensures Valid() && Abs() == Apply(old(Abs()), Event.MakeOutput(pin))
    {
      ghost var st := Abs();
      pins.SetOutput(pin);
      OnlyShared(st);
    }

    method MakeInput(pin: Pin)
      requires Valid()
      modifies pins`direction, pins`output
      ensures Valid() && Abs() == Apply(old(Abs()), Event.MakeInput(pin))
    {
      ghost var st := Abs();
      pins.SetInput(pin);
      OnlyShared(st);
    }

    method OutputLevel(pin: Pin, high: bool)
      requires Valid()
      modifies pins`output
      ensures Valid() && Abs() == Apply(old(Abs()), Event.OutputLevel(pin, high))
    {
      ghost var st := Abs();
      pins.SetOutputLevel(pin, high);
      OnlyShared(st);
    }

    method ResetCycles()
      requires Valid()
      modifies this`cycles
      ensures Valid() && Abs() == Apply(old(Abs()), Event.ResetCycles)
    {
      ghost var st := Abs();
      cycles := 0;
      OnlyShared(st);
    }

    // ---------------------------------------------------------------- set-up

    method SetInstr(block: Block, at: nat, word: nat)
      requires Valid() && at < NUM_INSTRS_PER_BLOCK
      modifies prog[block]
      ensures Valid() && Abs() == old(Abs()).(prog := WithInstr(old(Abs()).prog, block, at, word))
    {
      ghost var st := Abs();
      prog[block][at] := word;
      assert Programs() == WithInstr(st.prog, block, at, word);
      assert MachinesAbs() == st.sm && ChannelsAbs() == st.dma;
    }

    method SetReg(i: Index, reg: Regs)
      requires Valid()
      modifies sms[i]
      ensures Valid() && Abs() == old(Abs()).(sm := old(Abs()).sm[i := old(Abs()).sm[i].(reg := reg)])
    {
      ghost var st := Abs();
      sms[i].reg := reg;
      OneMachine(st, i, st.sm[i].(reg := reg));
    }

    method SetGpioBase(block: Block, b: Base)
      requires Valid()
      modifies this`base
      ensures Valid() && Abs() == old(Abs()).(base := old(base)[block := b])
    {
      ghost var st := Abs();
      base := base[block := b];
      OnlyShared(st);
    }

    method SetUpDma(k: nat, rb: Block, rs: Slot, rc: nat, wb: Block, ws: Slot, wc: nat, mode: nat)
      requires Valid() && k < NUM_DMA_CHANNELS && rc < 256 && wc < 256 && mode in {8, 16, 32}
      modifies chans[k]
      ensures Valid()
      ensures Abs() == old(Abs()).(dma := old(Abs()).dma[k := Channel(true, rb, rs, rc, wb, ws, wc, 0, 0, mode, ZERO,
        ZERO)])
    {
      ghost var st := Abs();
      chans[k].SetUp(rb, rs, rc, wb, ws, wc, mode);
      assert ChannelsAbs() == st.dma[k := chans[k].Abs()];
      assert MachinesAbs() == st.sm && Programs() == st.prog;
    }
  }

  function WithInstr(progs: seq<seq<nat>>, b: nat, at: nat, word: nat): seq<seq<nat>>
    requires b < |progs| && at < |progs[b]|
  {
    var p: seq<nat> := progs[b][at := word];
    progs[b := p]
  }

  /** Machine `i` has a word to pull after exactly `k` cycles. */
  ghost predicate Arrived(st: State, i: Index, k: nat)
    requires st.Shape()
  {
    !Cycles(st, k).sm[i].tx.Empty()
  }

  /** A word comes some day. */
  ghost predicate Comes(st: State, i: Index)
    requires st.Shape()
  {
    exists k: nat :: Arrived(st, i, k)
  }

  ghost predicate NoneBefore(st: State, i: Index, n: int)
    requires st.Shape()
  {
    forall j: nat :: j < n ==> !Arrived(st, i, j)
  }

  /** What a wait promises: the least number of cycles after which there is a word, or -1 after
  exactly `count` cycles without one. */
  ghost predicate Waited(st: State, i: Index, count: int, steps: int, r: State)
    requires st.Shape()
  {
    if steps >= 0 then
      (count == -1 || steps < count) && Arrived(st, i, steps) && NoneBefore(st, i, steps) && r == Cycles(st, steps)
    else
      steps == -1 && count != -1 && NoneBefore(st, i, count) && r == Cycles(st, if count > 0 then count else 0)
  }

  lemma WaitOn(st: State, i: Index, count: int, k: nat)
    requires st.Shape() && SafeWait(st, i, count) && (count == -1 || k < count)
    requires NoneBefore(st, i, k) && !Arrived(st, i, k)
    ensures CycleSafe(Cycles(st, k)) && NoneBefore(st, i, k + 1)
  {
    hide CycleSafe, Cycle, Cycles, Arrived;
    assert Waits(st, i, k, count);
  }

  /** A wait of `count` cycles is still going on after `k` cycles. */
  ghost predicate Waits(st: State, i: Index, k: nat, count: int)
    requires st.Shape()
  {
    (count == -1 || k < count) && forall j: nat :: j <= k ==> !Arrived(st, i, j)
  }

  /** Each of the next `n` cycles is safe. */
  ghost predicate SafeFor(st: State, n: nat)
    requires st.Shape()
  {
    forall k: nat :: k < n ==> CycleSafe(Cycles(st, k))
  }

  function Ticks(n: nat): seq<Event> { seq(n, _ => Tick) }

  /** Cycles are runs in which the host stays silent. */
  lemma {:induction false} CyclesAreRuns(st: State, n: nat)
    requires st.Shape()
    ensures LegalRun(st, Ticks(n)) && Run(st, Ticks(n)) == Cycles(st, n)
  {
    hide Cycle;
    if n == 0 {
    } else {
      CyclesAreRuns(st, n - 1);
      assert Ticks(n)[..|Ticks(n)| - 1] == Ticks(n - 1);
    }
  }

  lemma SilenceIsTame(st: State, n: nat)
    requires st.Shape() && W.ProgramsTame(st, [])
    ensures W.ProgramsTame(st, Ticks(n))
  {
    hide W.MachineTame;
    forall i: Index | W.Awake(st, Ticks(n), i) ensures W.MachineTame(st, i) {
      assert W.Awake(st, [], i);
    }
  }

  /** Tame programs with valid DMA addresses can be stepped any number of cycles. */
  lemma TameIsSafe(st: State, n: nat)
    requires st.Shape() && W.WellFormed(st) && W.ProgramsTame(st, [])
    requires forall k: nat :: k < n ==> W.AddressesValid(Cycles(st, k))
    ensures SafeFor(st, n)
  {
    hide Cycle, CycleSafe, W.WellFormed, W.ProgramsTame, W.AddressesValid;
    forall k: nat | k < n ensures CycleSafe(Cycles(st, k)) {
      CyclesAreRuns(st, k);
      assert W.ProgramsTame(st, Ticks(k)) by { SilenceIsTame(st, k); }
      W.NoAssertionFires(st, Ticks(k));
    }
  }

  lemma NextIsSafe(st: State, n: nat, k: nat)
    requires st.Shape() && SafeFor(st, n) && k < n
    ensures CycleSafe(Cycles(st, k))
  {
  }

  /** Every cycle spent waiting is safe. */
  ghost predicate SafeWait(st: State, i: Index, count: int)
    requires st.Shape()
  {
    forall k: nat :: Waits(st, i, k, count) ==> CycleSafe(Cycles(st, k))
  }

  /** No channel changes before its turn. */
  lemma {:induction false} ChannelAwaitsTurn(st: State, k: nat, n: nat)
    requires st.Shape() && n <= k < NUM_DMA_CHANNELS
    ensures DmaSteps(st, n).dma[k] == st.dma[k]
  {
    if n == 0 {
    } else {
      ChannelAwaitsTurn(st, k, n - 1);
      hide Channel.Step, Channel.StepRx, Channel.StepTx;
    }
  }

  ghost predicate ChannelsSafe(st: State)
    requires st.Shape()
  {
    forall k :: 0 <= k < NUM_DMA_CHANNELS && st.dma[k].setup ==> st.dma[k].Safe()
  }

  /** The machines leave the channels alone. */
  lemma PassKeepsChannels(st: State)
    requires st.Shape() && CycleSafe(st)
    ensures ChannelsSafe(Commit(StepOrder(st, ASCENDING)))
  {
    AscendingDistinct();
    SequentialIsSimultaneous(st, ASCENDING);
  }

  lemma ChannelStepped(st: State, k: nat, sm: seq<M.Machine>)
    requires st.Shape() && k < NUM_DMA_CHANNELS && st.dma[k].setup && |sm| == NUM_MACHINES
    requires var ch := st.dma[k]; var a, b := ch.Source(), ch.Target(); var rx, tx := st.sm[a].rx, st.sm[b].tx;
      forall j :: 0 <= j < NUM_MACHINES ==>
        sm[j] == st.sm[j].(rx := if j == a then ch.StepRx(st.sram, rx, tx) else st.sm[j].rx,
                           tx := if j == b then ch.StepTx(tx) else st.sm[j].tx)
    ensures var ch := st.dma[k];
      var r := ch.Step(st.sram, st.sm[ch.Source()].rx, st.sm[ch.Target()].tx);
      DmaStep(st, k) == st.(sm := sm, dma := st.dma[k := r])
  {
    hide Channel.Step, Channel.StepRx, Channel.StepTx;
  }

  lemma DisabledIdle(st: State, i: Index)
    requires st.Shape() && !st.sm[i].enabled
    ensures System.StepSm(st, i) == st
  {
    assert st.sm[i := st.sm[i]] == st.sm;
  }

  /** In the middle of a safe pass the next machine can be stepped. */
  lemma PassNext(st: State, i: Index)
    requires st.Shape() && CycleSafe(st)
    ensures var st1 := StepOrder(st, ASCENDING[..i]);
      && (st1.sm[i].enabled ==> M.StepSafe(st1.sm[i], EnvOf(st1, i)))
      && StepOrder(st, ASCENDING[..i + 1]) == System.StepSm(st1, i)
  {
    var front := ASCENDING[..i];
    AscendingPrefix(i);
    SequentialIsSimultaneous(st, front);
    var st1 := StepOrder(st, front);
    SameEnv(st, front, st1, i);
    StepOrderSnoc(st, front, i);
    hide StepOrder, StepOf, System.StepSm, M.StepSafe, FlagsDeferred, WritesOf, EnvOf;
  }

  /** All machines disabled, all GPIOs pulled-up inputs, everything else zero. */
  method Init() returns (e: Emulator)
    ensures fresh(e) && e.Valid() && e.Abs() == InitialState()
  {
    var ms := NewMachines(NUM_MACHINES);
    var ps := NewPrograms(NUM_PIO_BLOCKS);
    var cs := NewChannels(NUM_DMA_CHANNELS);
    var ls := NewLines();
    var pins := new PinBank();
    var mem := new Sram();
    e := new Emulator(ms, ps, cs, ls, pins, mem);
    assert e.Built();
    assert e.Valid();
    hide Emulator.Built;
    assert e.MachinesAbs() == InitialState().sm;
    assert e.Programs() == InitialState().prog;
    assert e.ChannelsAbs() == InitialState().dma;
  }
}
