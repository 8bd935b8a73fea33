/** Instruction words and state-machine registers, decoded the way the emulator decodes
them.  Instruction words are numbers below 2^16 and registers numbers below 2^32. */
module Instructions {

  const NUM_PIO_BLOCKS := 3
  const NUM_SMS_PER_BLOCK := 4
  const NUM_MACHINES := 12
  const NUM_INSTRS_PER_BLOCK := 32
  const NUM_DMA_CHANNELS := 16
  const NUM_GPIOS := 48

  type Five = n: nat | n < 32
  type Count = n: nat | 1 <= n <= 32 witness 1
  type Block = n: nat | n < NUM_PIO_BLOCKS
  type Slot = n: nat | n < NUM_SMS_PER_BLOCK
  type FlagIndex = n: nat | n < 8
  type Base = n: nat | n == 0 || n == 16

  datatype JmpCond = Always | XZero | XDec | YZero | YDec | XNotY | PinHigh | OsrReached
  datatype WaitSource = WaitGpio | WaitPin | WaitIrq | WaitJmpPin
  datatype InSource = InPins | InX | InY | InNull | InIsr | InOsr | InReserved
  datatype OutDest = OutPins | OutX | OutY | OutNull | OutPindirs | OutPc | OutIsr | OutExec
  datatype MovDest = MovPins | MovX | MovY | MovPindirs | MovExec | MovPc | MovIsr | MovOsr
  datatype MovSource = FromPins | FromX | FromY | FromNull | FromReserved | FromStatus | FromIsr | FromOsr
  datatype MovOp = Copy | Invert | BitReverse | OpReserved
  datatype SetDest = SetPins | SetX | SetY | SetPindirs | SetReserved
  datatype IrqMode = ThisBlock | PrevBlock | Relative | NextBlock

  datatype Instr =
    | Jmp(cond: JmpCond, target: Five)
    | Wait(polarity: bool, waitSource: WaitSource, waitIndex: Five)
    | In(inSource: InSource, inCount: Count)
    | Out(outDest: OutDest, outCount: Count)
    | Push(ifFull: bool, pushBlock: bool)
    | Pull(ifEmpty: bool, pullBlock: bool)
    | RxFifoMove
    | Mov(movDest: MovDest, movOp: MovOp, movSource: MovSource)
    | Irq(clear: bool, wait: bool, mode: IrqMode, index: FlagIndex)
    | Set(setDest: SetDest, data: Five)

  function Bit(n: nat, unit: nat): bool
    requires unit > 0
  {
    (n / unit) % 2 == 1
  }

  function Field5(n: nat, unit: nat): (f: Five)
    requires unit > 0
  {
    (n / unit) % 32
  }

  function CountOf(n: Five): Count {
    if n == 0 then 32 else n
  }

  function IrqModeOf(n: nat): IrqMode
    requires n < 4
  {
    if n == 0 then ThisBlock else if n == 1 then PrevBlock else if n == 2 then Relative else NextBlock
  }

  function DelayField(instr: nat): Five {
    Field5(instr, 256)
  }

  function DecodeJmp(sel: nat, low: Five): Instr
    requires sel < 8
  {
    Jmp(
      match sel
      case 0 => Always
      case 1 => XZero
      case 2 => XDec
      case 3 => YZero
      case 4 => YDec
      case 5 => XNotY
      case 6 => PinHigh
      case _ => OsrReached,
      low)
  }

  function DecodeWait(instr: nat, low: Five): Instr {
    Wait(
      Bit(instr, 128),
      match (instr / 32) % 4
      case 0 => WaitGpio
      case 1 => WaitPin
      case 2 => WaitIrq
      case _ => WaitJmpPin,
      low)
  }

  function DecodeIn(sel: nat, low: Five): Instr
    requires sel < 8
  {
    In(
      match sel
      case 0 => InPins
      case 1 => InX
      case 2 => InY
      case 3 => InNull
      case 6 => InIsr
      case 7 => InOsr
      case _ => InReserved,
      CountOf(low))
  }

  function DecodeOut(sel: nat, low: Five): Instr
    requires sel < 8
  {
    Out(
      match sel
      case 0 => OutPins
      case 1 => OutX
      case 2 => OutY
      case 3 => OutNull
      case 4 => OutPindirs
      case 5 => OutPc
      case 6 => OutIsr
      case _ => OutExec,
      CountOf(low))
  }

  function DecodePushPull(instr: nat): Instr {
    if Bit(instr, 8) then RxFifoMove
    else if Bit(instr, 128) then Pull(Bit(instr, 64), Bit(instr, 32))
    else Push(Bit(instr, 64), Bit(instr, 32))
  }

  function DecodeMov(instr: nat, sel: nat): Instr
    requires sel < 8
  {
    Mov(
      match sel
      case 0 => MovPins
      case 1 => MovX
      case 2 => MovY
      case 3 => MovPindirs
      case 4 => MovExec
      case 5 => MovPc
      case 6 => MovIsr
      case _ => MovOsr,
      match (instr / 8) % 4
      case 0 => Copy
      case 1 => Invert
      case 2 => BitReverse
      case _ => OpReserved,
      match instr % 8
      case 0 => FromPins
      case 1 => FromX
      case 2 => FromY
      case 3 => FromNull
      case 4 => FromReserved
      case 5 => FromStatus
      case 6 => FromIsr
      case _ => FromOsr)
  }

  function DecodeSet(sel: nat, low: Five): Instr
    requires sel < 8
  {
    Set(
      match sel
      case 0 => SetPins
      case 1 => SetX
      case 2 => SetY
      case 4 => SetPindirs
      case _ => SetReserved,
      low)
  }

  function Decode(instr: nat): Instr {
    var low: Five := instr % 32;
    var sel := (instr / 32) % 8;
    match (instr / 8192) % 8
    case 0 => DecodeJmp(sel, low)
    case 1 => DecodeWait(instr, low)
    case 2 => DecodeIn(sel, low)
    case 3 => DecodeOut(sel, low)
    case 4 => DecodePushPull(instr)
    case 5 => DecodeMov(instr, sel)
    case 6 => Irq(Bit(instr, 64), Bit(instr, 32), IrqModeOf((instr / 8) % 4), instr % 8)
    case _ => DecodeSet(sel, low)
  }

  function Threshold(n: Five): Count {
    if n == 0 then 32 else n
  }

  /** The configuration registers of one state machine. */
  datatype Regs = Regs(execctrl: nat, shiftctrl: nat, pinctrl: nat) {

    function JmpPin(): Five { Field5(execctrl, 0x100_0000) }

    function StatusSel(): (s: nat)
      ensures s < 4
    {
      (execctrl / 32) % 4
    }

    function StatusN(): Five { execctrl % 32 }

    function WrapTop(): Five { Field5(execctrl, 4096) }

    function WrapBottom(): Five { Field5(execctrl, 128) }

    predicate AutoPull() { Bit(shiftctrl, 0x2_0000) }

    predicate AutoPush() { Bit(shiftctrl, 0x1_0000) }

    function InCount(): Five { shiftctrl % 32 }

    predicate InRight() { Bit(shiftctrl, 0x4_0000) }

    predicate OutRight() { Bit(shiftctrl, 0x8_0000) }

    function PushThreshold(): Count { Threshold(Field5(shiftctrl, 0x10_0000)) }

    function PullThreshold(): Count { Threshold(Field5(shiftctrl, 0x200_0000)) }

    function InBase(): Five { Field5(pinctrl, 0x8000) }

    function OutCount(): Five { Field5(pinctrl, 0x10_0000) }

    function SetCount(): Five { Field5(pinctrl, 0x400_0000) }

    function SetBase(): Five { Field5(pinctrl, 32) }

    function OutBase(): Five { pinctrl % 32 }
  }
}
