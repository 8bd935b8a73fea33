/** One PIO state machine and the effect of one clock cycle on it.

A step reads only the machine itself and an `Env`: what the rest of the emulator showed at
the start of the cycle.  Everything it does to the outside is returned as `Effects`. */
module Machines {
  import opened Bits
  import opened Fifos
  import opened Gpios
  import opened Instructions

  datatype Option<+T> = None | Some(value: T)

  /** An interrupt flag: a block and one of its eight flags. */
  datatype Flag = Flag(block: Block, index: FlagIndex)

  datatype Machine = Machine(
    reg: Regs,
    x: Word,
    y: Word,
    isr: Word,
    osr: Word,
    isrCount: nat,
    osrCount: nat,
    pc: nat,
    delay: nat,
    stalled: bool,
    enabled: bool,
    execPending: bool,
    execInstr: nat,
    tx: Queue,
    rx: Queue)

  /** The machine as `epio_init_sm` leaves it; an empty OSR counts 32 bits shifted out. */
  const INITIAL_MACHINE := Machine(
    Regs(0, 0, 0), ZERO, ZERO, ZERO, ZERO, 0, 32, 0, 0, false, false, false, 0, EMPTY_QUEUE, EMPTY_QUEUE)

  /** The flag machine `sm` of `block` means by `index` in each addressing mode. */
  function FlagAt(block: Block, sm: Slot, mode: IrqMode, index: FlagIndex): Flag {
    match mode
    case ThisBlock => Flag(block, index)
    case PrevBlock => Flag(if block == 0 then NUM_PIO_BLOCKS - 1 else block - 1, index)
    case Relative => Flag(block, index / 4 * 4 + (index + sm) % 4)
    case NextBlock => Flag((block + 1) % NUM_PIO_BLOCKS, index)
  }

  /** The `i`-th pin from `first`, wrapping within the 32 pins a block sees from `base`. */
  function PinOf(first: nat, i: nat, base: Base): Pin {
    (first + i) % 32 + base
  }

  /** What a machine can see of the rest of the emulator during a cycle. */
  datatype Env = Env(
    block: Block,
    sm: Slot,
    base: Base,
    prog: seq<nat>,
    level: Mask,
    inverted: Mask,
    control: Mask,
    irq: seq<Word>)
  {
    predicate Ok() { |irq| == NUM_PIO_BLOCKS }

    predicate Reads(pin: nat) {
      pin < NUM_GPIOS && level[pin] != inverted[pin]
    }

    predicate Raised(f: Flag)
      requires Ok()
    {
      irq[f.block][f.index]
    }

    function PinAt(first: nat, i: nat): Pin {
      PinOf(first, i, base)
    }

    function FlagOf(mode: IrqMode, index: FlagIndex): Flag {
      FlagAt(block, sm, mode, index)
    }
  }

  datatype Effects = Effects(writes: seq<PinWrite>, raise: Option<Flag>, lower: Option<Flag>)

  const NO_EFFECTS := Effects([], None, None)

  /** How an instruction ends: fall through, PC already set, or retry next cycle. */
  datatype Flow = Next | Jumped | Stall

  datatype Outcome = Outcome(m: Machine, flow: Flow, noDelay: bool, fx: Effects)

  function Done(m: Machine): Outcome { Outcome(m, Next, false, NO_EFFECTS) }

  function Stalled(m: Machine): Outcome { Outcome(m.(stalled := true), Stall, false, NO_EFFECTS) }

  // ---------------------------------------------------------------- JMP

  predicate LowByteSet(w: Word) {
    w[..8] != Zeros(8)
  }

  predicate JmpTaken(m: Machine, env: Env, cond: JmpCond) {
    match cond
    case Always => true
    case XZero => m.x == ZERO
    case XDec => LowByteSet(m.x)
    case YZero => m.y == ZERO
    case YDec => LowByteSet(m.y)
    case XNotY => m.x != m.y
    case PinHigh => env.Reads(m.reg.JmpPin() + env.base)
    case OsrReached => m.osrCount >= m.reg.PullThreshold()
  }

  function ExecJmp(m: Machine, env: Env, cond: JmpCond, target: Five): Outcome {
    var m1 := match cond
      case XDec => m.(x := Dec(m.x))
      case YDec => m.(y := Dec(m.y))
      case _ => m;
    if JmpTaken(m, env, cond) then Outcome(m1.(pc := target), Jumped, false, NO_EFFECTS) else Done(m1)
  }

  // ---------------------------------------------------------------- WAIT

  /** WAIT takes its flag apart itself, without the code that IRQ and MOV STATUS share. */
  function WaitFlag(env: Env, index: Five): Flag {
    var n := index % 8;
    match index / 8
    case 0 => Flag(env.block, n)
    case 1 => Flag(if env.block == 0 then NUM_PIO_BLOCKS - 1 else env.block - 1, n)
    case 2 => Flag(env.block, (if n >= 4 then 4 else 0) + (n + env.sm) % 4)
    case _ => Flag((env.block + 1) % NUM_PIO_BLOCKS, n)
  }

  predicate WaitMet(m: Machine, env: Env, polarity: bool, source: WaitSource, index: Five)
    requires env.Ok()
  {
    match source
    case WaitGpio => env.Reads(index + env.base) == polarity
    case WaitPin => env.Reads(m.reg.InBase() + index + env.base) == polarity
    case WaitIrq => env.Raised(WaitFlag(env, index)) == polarity
    case WaitJmpPin => env.Reads(m.reg.JmpPin() + env.base) == polarity
  }

  function ExecWait(m: Machine, env: Env, polarity: bool, source: WaitSource, index: Five): Outcome
    requires env.Ok()
  {
    if !WaitMet(m, env, polarity, source, index) then Stalled(m)
    else
      var lower := if source == WaitIrq && polarity then Some(WaitFlag(env, index)) else None;
      Outcome(m.(stalled := false), Next, false, Effects([], None, lower))
  }

  // ---------------------------------------------------------------- IN

  /** The first `n` pins from `first`, as the low bits of a word. */
  function PinsIn(env: Env, first: nat, n: nat): Word {
    seq(32, i requires 0 <= i < 32 => i < n && env.Reads(env.PinAt(first, i)))
  }

  function InData(m: Machine, env: Env, source: InSource, count: Count): Word {
    match source
    case InPins => PinsIn(env, m.reg.InBase(), count)
    case InX => m.x
    case InY => m.y
    case InNull => ZERO
    case InIsr => m.isr
    case InOsr => m.osr
    case InReserved => ZERO
  }

  /** Shift `n` bits of `data` into `isr` from the top (right shift) or the bottom. */
  function ShiftIn(isr: Word, data: Word, n: Count, right: bool): Word {
    if right then Or(Shr(isr, n), Shl(data, 32 - n)) else Or(Shl(isr, n), Low(data, n))
  }

  /** The C code's special cases for a count of 32 agree with shifting by the full width. */
  lemma ShiftInCases(isr: Word, data: Word, n: Count)
    ensures ShiftIn(isr, data, n, true) == Or(if n == 32 then ZERO else Shr(isr, n), Shl(data, 32 - n))
    ensures ShiftIn(isr, data, n, false) == Or(if n == 32 then ZERO else Shl(isr, n), Low(data, n))
  {
    assert Shr(isr, 32) == ZERO == Shl(isr, 32);
  }

  /** Bit counters saturate at 32. */
  function AddCount(count: nat, n: Count): nat {
    if count + n > 32 then 32 else count + n
  }

  function Shifted(m: Machine, env: Env, source: InSource, n: Count): Machine {
    m.(isr := ShiftIn(m.isr, InData(m, env, source, n), n, m.reg.InRight()), isrCount := AddCount(m.isrCount, n))
  }

  predicate PushDue(m: Machine) {
    m.reg.AutoPush() && m.isrCount >= m.reg.PushThreshold()
  }

  function PushIsr(m: Machine): Machine
    requires !m.rx.Full()
  {
    m.(rx := m.rx.Push(m.isr), isr := ZERO, isrCount := 0, stalled := false)
  }

  /** A stalled IN has already shifted; only its autopush is retried. */
  function ExecIn(m: Machine, env: Env, source: InSource, n: Count): Outcome {
    var m1 := if m.stalled then m else Shifted(m, env, source, n);
    if PushDue(m1) then (if m1.rx.Full() then Stalled(m1) else Done(PushIsr(m1))) else Done(m1)
  }

  // ---------------------------------------------------------------- OUT

  function OutData(osr: Word, n: Count, right: bool): Word {
    if right then Low(osr, n) else Shr(osr, 32 - n)
  }

  function OutRest(osr: Word, n: Count, right: bool): Word {
    if right then Shr(osr, n) else Shl(osr, n)
  }

  lemma ShiftOutCases(osr: Word, n: Count)
    ensures OutRest(osr, n, true) == if n == 32 then ZERO else Shr(osr, n)
    ensures OutRest(osr, n, false) == if n == 32 then ZERO else Shl(osr, n)
  {
    assert Shr(osr, 32) == ZERO == Shl(osr, 32);
  }

  /** The write, if any, that gives `pin` a level: only pins the block owns are driven. */
  function LevelWrite(env: Env, pin: Pin, level: bool): seq<PinWrite> {
    if env.control[pin] then [SetLevel(pin, level)] else []
  }

  /** The write, if any, that gives `pin` a direction.  OUT and MOV release a pin without
  asking who owns it, SET asks. */
  function DirectionWrite(env: Env, pin: Pin, outward: bool, ask: bool): seq<PinWrite> {
    if outward then (if env.control[pin] then [Drive(pin)] else [])
    else if !ask || env.control[pin] then [Release(pin)]
    else []
  }

  function LevelWrites(env: Env, first: nat, data: Word, n: nat): seq<PinWrite>
    requires n <= 32
  {
    if n == 0 then []
    else LevelWrites(env, first, data, n - 1) + LevelWrite(env, env.PinAt(first, n - 1), data[n - 1])
  }

  function DirectionWrites(env: Env, first: nat, data: Word, n: nat, ask: bool): seq<PinWrite>
    requires n <= 32
  {
    if n == 0 then []
    else
      DirectionWrites(env, first, data, n - 1, ask) +
      DirectionWrite(env, env.PinAt(first, n - 1), data[n - 1], ask)
  }

  predicate PullDue(m: Machine) {
    m.reg.AutoPull() && m.osrCount >= m.reg.PullThreshold()
  }

  function PullOsr(m: Machine): Machine
    requires !m.tx.Empty()
  {
    m.(tx := m.tx.Pop(), osr := m.tx.items[0], osrCount := 0, stalled := false)
  }

  function Written(writes: seq<PinWrite>): Effects {
    Effects(writes, None, None)
  }

  /** OUT once the OSR holds data. */
  function OutNow(m: Machine, env: Env, dest: OutDest, n: Count): Outcome {
    var data := OutData(m.osr, n, m.reg.OutRight());
    var m1 := m.(osr := OutRest(m.osr, n, m.reg.OutRight()), osrCount := AddCount(m.osrCount, n));
    match dest
    case OutPins => Outcome(m1, Next, false, Written(LevelWrites(env, m.reg.OutBase(), data, n)))
    case OutX => Done(m1.(x := data))
    case OutY => Done(m1.(y := data))
    case OutNull => Done(m1)
    case OutPindirs => Outcome(m1, Next, false, Written(DirectionWrites(env, m.reg.OutBase(), data, n, false)))
    case OutPc => Outcome(m1.(pc := Val(data[..8])), Jumped, false, NO_EFFECTS)
    case OutIsr => Done(m1.(isr := data, isrCount := n))
    case OutExec => Outcome(m1.(execInstr := Val(data[..16]), execPending := true), Next, true, NO_EFFECTS)
  }

  function ExecOut(m: Machine, env: Env, dest: OutDest, n: Count): Outcome {
    if !PullDue(m) then OutNow(m, env, dest, n)
    else if m.tx.Empty() then Stalled(m)
    else OutNow(PullOsr(m), env, dest, n)
  }

  // ---------------------------------------------------------------- PUSH and PULL

  predicate ShouldPull(m: Machine, ifEmpty: bool) {
    m.osrCount >= m.reg.PullThreshold() || (!ifEmpty && !m.reg.AutoPull())
  }

  function ExecPull(m: Machine, ifEmpty: bool, block: bool): Outcome {
    if !ShouldPull(m, ifEmpty) then Done(m)
    else if !m.tx.Empty() then Done(PullOsr(m))
    else if block then Stalled(m)
    else Done(m.(osr := m.x, osrCount := 0, stalled := false))
  }

  predicate ShouldPush(m: Machine, ifFull: bool) {
    !ifFull || m.isrCount >= m.reg.PushThreshold()
  }

  function ExecPush(m: Machine, ifFull: bool, block: bool): Outcome {
    if !ShouldPush(m, ifFull) then Done(m)
    else if !m.rx.Full() then Done(PushIsr(m))
    else if block then Stalled(m)
    else Done(m.(isr := ZERO, isrCount := 0))
  }

  // ---------------------------------------------------------------- MOV

  function AllIf(b: bool): Word {
    if b then Ones(32) else ZERO
  }

  function StatusFlag(m: Machine, env: Env): Flag {
    env.FlagOf(IrqModeOf(m.reg.StatusN() / 8), m.reg.StatusN() % 8)
  }

  function Status(m: Machine, env: Env): Word
    requires env.Ok()
  {
    match m.reg.StatusSel()
    case 0 => AllIf(|m.tx.items| < m.reg.StatusN())
    case 1 => AllIf(|m.rx.items| < m.reg.StatusN())
    case 2 => AllIf(env.Raised(StatusFlag(m, env)))
    case _ => ZERO
  }

  function MovInput(m: Machine, env: Env, source: MovSource): Word
    requires env.Ok()
  {
    match source
    case FromPins => PinsIn(env, m.reg.InBase(), m.reg.InCount())
    case FromX => m.x
    case FromY => m.y
    case FromNull => ZERO
    case FromReserved => ZERO
    case FromStatus => Status(m, env)
    case FromIsr => m.isr
    case FromOsr => m.osr
  }

  function MovApply(op: MovOp, v: Word): Word {
    match op
    case Copy => v
    case Invert => Not(v)
    case BitReverse => Reverse(v)
    case OpReserved => v
  }

  function ExecMov(m: Machine, env: Env, dest: MovDest, op: MovOp, source: MovSource): Outcome
    requires env.Ok()
  {
    var v := MovApply(op, MovInput(m, env, source));
    match dest
    case MovPins => Outcome(m, Next, false, Written(LevelWrites(env, m.reg.OutBase(), v, m.reg.OutCount())))
    case MovX => Done(m.(x := v))
    case MovY => Done(m.(y := v))
    case MovPindirs =>
      Outcome(m, Next, false, Written(DirectionWrites(env, m.reg.OutBase(), v, m.reg.OutCount(), false)))
    case MovExec => Outcome(m.(execInstr := Val(v[..16]), execPending := true), Next, true, NO_EFFECTS)
    case MovPc => Outcome(m.(pc := Val(v[..5])), Jumped, false, NO_EFFECTS)
    case MovIsr => Done(m.(isr := v, isrCount := 0))
    case MovOsr => Done(m.(osr := v, osrCount := 0))
  }

  // ---------------------------------------------------------------- IRQ and SET

  /** `irq wait` raises its flag on the first attempt only, then waits for it to clear. */
  function ExecIrq(m: Machine, env: Env, clear: bool, wait: bool, f: Flag): Outcome
    requires env.Ok()
  {
    if clear then Outcome(m, Next, false, Effects([], None, Some(f)))
    else if !wait then Outcome(m, Next, false, Effects([], Some(f), None))
    else if !m.stalled then Stalled(m).(fx := Effects([], Some(f), None))
    else if env.Raised(f) then Stalled(m)
    else Done(m.(stalled := false))
  }

  function ExecSet(m: Machine, env: Env, dest: SetDest, data: Five): Outcome {
    var v: Word := ToBits(data, 32);
    match dest
    case SetPins => Outcome(m, Next, false, Written(LevelWrites(env, m.reg.SetBase(), v, m.reg.SetCount())))
    case SetX => Done(m.(x := v))
    case SetY => Done(m.(y := v))
    case SetPindirs =>
      Outcome(m, Next, false, Written(DirectionWrites(env, m.reg.SetBase(), v, m.reg.SetCount(), true)))
    case SetReserved => Done(m)
  }

  // ---------------------------------------------------------------- one instruction, one cycle

  function ExecDecoded(m: Machine, env: Env, i: Instr): Outcome
    requires env.Ok()
  {
    match i
    case Jmp(cond, target) => ExecJmp(m, env, cond, target)
    case Wait(polarity, source, index) => ExecWait(m, env, polarity, source, index)
    case In(source, n) => ExecIn(m, env, source, n)
    case Out(dest, n) => ExecOut(m, env, dest, n)
    case Push(ifFull, block) => ExecPush(m, ifFull, block)
    case Pull(ifEmpty, block) => ExecPull(m, ifEmpty, block)
    case RxFifoMove => Done(m)
    case Mov(dest, op, source) => ExecMov(m, env, dest, op, source)
    case Irq(clear, wait, mode, index) => ExecIrq(m, env, clear, wait, env.FlagOf(mode, index))
    case Set(dest, data) => ExecSet(m, env, dest, data)
  }

  /** The delay an outcome leaves: none of its own while stalled, zero after an EXEC. */
  function DelayAfter(o: Outcome, instr: nat): nat {
    if o.flow == Stall then o.m.delay else if o.noDelay then 0 else DelayField(instr)
  }

  function Exec(m: Machine, env: Env, instr: nat): Outcome
    requires env.Ok()
  {
    var o := ExecDecoded(m, env, Decode(instr));
    o.(m := o.m.(delay := DelayAfter(o, instr)))
  }

  /** Out of range the C reads past the instruction array; the model reads 0. */
  function Fetch(prog: seq<nat>, pc: nat): nat {
    if pc < |prog| then prog[pc] else 0
  }

  /** The instruction the machine works on next. */
  function Current(m: Machine, prog: seq<nat>): nat {
    if m.execPending then m.execInstr else Fetch(prog, m.pc)
  }

  function NextPc(m: Machine): nat {
    if m.pc == m.reg.WrapTop() then m.reg.WrapBottom() else (m.pc + 1) % 256
  }

  /** Leave a completed instruction: retire an injected one, then advance or wrap. */
  function Retire(m: Machine, wasInjected: bool): Machine {
    m.(execPending := m.execPending && !wasInjected, pc := NextPc(m))
  }

  datatype Step = Step(m: Machine, fx: Effects)

  /** One clock cycle of an enabled machine. */
  function StepMachine(m: Machine, env: Env): Step
    requires env.Ok()
  {
    if m.delay > 0 then Step(m.(delay := m.delay - 1), NO_EFFECTS)
    else
      var o := Exec(m, env, Current(m, env.prog));
      Step(if o.flow == Next then Retire(o.m, m.execPending) else o.m, o.fx)
  }

  // ---------------------------------------------------------------- assertions

  predicate Reserved(i: Instr) {
    || (i.In? && i.inSource == InReserved)
    || i.RxFifoMove?
    || (i.Mov? && (i.movSource == FromReserved || i.movOp == OpReserved))
    || (i.Set? && i.setDest == SetReserved)
  }

  /** Exactly when executing `i` trips no assertion of the emulator. */
  predicate InstrSafe(reg: Regs, base: Base, i: Instr) {
    && !Reserved(i)
    && (i.Mov? && i.movSource == FromStatus ==> reg.StatusSel() != 3)
    && (i.Wait? && i.waitSource == WaitPin ==> reg.InBase() + i.waitIndex + base < NUM_GPIOS)
  }

  /** Exactly when stepping an enabled machine trips no assertion and fetches in bounds. */
  predicate StepSafe(m: Machine, env: Env) {
    && (m.execPending || m.pc < |env.prog|)
    && (m.delay == 0 ==> InstrSafe(m.reg, env.base, Decode(Current(m, env.prog))))
  }
}
