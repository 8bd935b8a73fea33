/** The instruction set as tables of opcodes and selectors, written the way an assembler
would use them: an independent reading of the encodings that `Instructions.Decode` undoes.
Also, which interrupt flags the addressing modes of different machines have in common. */
module Encoding {
  import opened Instructions
  import opened Machines

  function Number(b: bool): nat { if b then 1 else 0 }

  function JmpSelector(c: JmpCond): nat {
    match c
    case Always => 0
    case XZero => 1
    case XDec => 2
    case YZero => 3
    case YDec => 4
    case XNotY => 5
    case PinHigh => 6
    case OsrReached => 7
  }

  function WaitSelector(s: WaitSource): nat {
    match s
    case WaitGpio => 0
    case WaitPin => 1
    case WaitIrq => 2
    case WaitJmpPin => 3
  }

  function InSelector(s: InSource): nat {
    match s
    case InPins => 0
    case InX => 1
    case InY => 2
    case InNull => 3
    case InReserved => 4
    case InIsr => 6
    case InOsr => 7
  }

  function OutSelector(d: OutDest): nat {
    match d
    case OutPins => 0
    case OutX => 1
    case OutY => 2
    case OutNull => 3
    case OutPindirs => 4
    case OutPc => 5
    case OutIsr => 6
    case OutExec => 7
  }

  function MovDestSelector(d: MovDest): nat {
    match d
    case MovPins => 0
    case MovX => 1
    case MovY => 2
    case MovPindirs => 3
    case MovExec => 4
    case MovPc => 5
    case MovIsr => 6
    case MovOsr => 7
  }

  function MovOpSelector(op: MovOp): nat {
    match op
    case Copy => 0
    case Invert => 1
    case BitReverse => 2
    case OpReserved => 3
  }

  function MovSourceSelector(s: MovSource): nat {
    match s
    case FromPins => 0
    case FromX => 1
    case FromY => 2
    case FromNull => 3
    case FromReserved => 4
    case FromStatus => 5
    case FromIsr => 6
    case FromOsr => 7
  }

  function SetSelector(d: SetDest): nat {
    match d
    case SetPins => 0
    case SetX => 1
    case SetY => 2
    case SetReserved => 3
    case SetPindirs => 4
  }

  function ModeSelector(m: IrqMode): nat {
    match m
    case ThisBlock => 0
    case PrevBlock => 1
    case Relative => 2
    case NextBlock => 3
  }

  function Opcode(i: Instr): nat {
    match i
    case Jmp(_, _) => 0
    case Wait(_, _, _) => 1
    case In(_, _) => 2
    case Out(_, _) => 3
    case Push(_, _) => 4
    case Pull(_, _) => 4
    case RxFifoMove => 4
    case Mov(_, _, _) => 5
    case Irq(_, _, _, _) => 6
    case Set(_, _) => 7
  }

  /** Bits 7 to 5. */
  function Selector(i: Instr): nat {
    match i
    case Jmp(c, _) => JmpSelector(c)
    case Wait(polarity, s, _) => 4 * Number(polarity) + WaitSelector(s)
    case In(s, _) => InSelector(s)
    case Out(d, _) => OutSelector(d)
    case Push(ifFull, block) => 2 * Number(ifFull) + Number(block)
    case Pull(ifEmpty, block) => 4 + 2 * Number(ifEmpty) + Number(block)
    case RxFifoMove => 0
    case Mov(d, _, _) => MovDestSelector(d)
    case Irq(clear, wait, _, _) => 2 * Number(clear) + Number(wait)
    case Set(d, _) => SetSelector(d)
  }

  /** Bits 4 to 0; a count of 32 is written 0. */
  function Operand(i: Instr): nat {
    match i
    case Jmp(_, target) => target
    case Wait(_, _, index) => index
    case In(_, n) => n % 32
    case Out(_, n) => n % 32
    case Push(_, _) => 0
    case Pull(_, _) => 0
    case RxFifoMove => 8
    case Mov(_, op, s) => 8 * MovOpSelector(op) + MovSourceSelector(s)
    case Irq(_, _, mode, index) => 8 * ModeSelector(mode) + index
    case Set(_, data) => data
  }

  function Encode(i: Instr, delay: Five): nat {
    8192 * Opcode(i) + 256 * delay + 32 * Selector(i) + Operand(i)
  }

  /** `w` is laid out as opcode, delay, selector and operand. */
  ghost predicate Layout(w: nat, op: nat, d: nat, sel: nat, low: nat) {
    op < 8 && d < 32 && sel < 8 && low < 32 && w == 8192 * op + 256 * d + 32 * sel + low
  }

  lemma WideFields(w: nat, op: nat, d: nat, sel: nat, low: nat)
    requires Layout(w, op, d, sel, low)
    ensures w < 0x1_0000 && (w / 8192) % 8 == op && (w / 256) % 32 == d && (w / 32) % 8 == sel && w % 32 == low
  {
    assert w / 32 == 256 * op + 8 * d + sel;
    assert w / 256 == 32 * op + d;
    assert w / 8192 == op;
  }

  lemma SelectorBits(w: nat, op: nat, d: nat, sel: nat, low: nat)
    requires Layout(w, op, d, sel, low)
    ensures (w / 32) % 4 == sel % 4 && (w / 128) % 2 == sel / 4 && (w / 64) % 2 == sel / 2 % 2
    ensures (w / 32) % 2 == sel % 2
  {
    assert w / 32 == 256 * op + 8 * d + sel;
    assert w / 64 == 128 * op + 4 * d + sel / 2;
    assert w / 128 == 64 * op + 2 * d + sel / 4;
  }

  lemma OperandBits(w: nat, op: nat, d: nat, sel: nat, low: nat)
    requires Layout(w, op, d, sel, low)
    ensures (w / 8) % 4 == low / 8 && w % 8 == low % 8 && (w / 8) % 2 == low / 8 % 2
  {
    assert w / 8 == 1024 * op + 32 * d + 4 * sel + low / 8;
  }

  /** Decoding inverts the encoding of every instruction, its delay included, so no two
  instructions share a word and every branch of the decoder is reached. */
  lemma DecodeEncoded(i: Instr, delay: Five)
    ensures Encode(i, delay) < 0x1_0000
    ensures Decode(Encode(i, delay)) == i && DelayField(Encode(i, delay)) == delay
  {
    var w := Encode(i, delay);
    OperandBound(i);
    WideFields(w, Opcode(i), delay, Selector(i), Operand(i));
    SelectorBits(w, Opcode(i), delay, Selector(i), Operand(i));
    OperandBits(w, Opcode(i), delay, Selector(i), Operand(i));
    DecodeParts(w, i);
    hide Encode, Decode;
  }

  lemma OperandBound(i: Instr)
    ensures Opcode(i) < 8 && Selector(i) < 8 && Operand(i) < 32
  {
  }

  /** Everything the decoder looks at. */
  ghost predicate Parts(w: nat, i: Instr) {
    && (w / 8192) % 8 == Opcode(i) && (w / 32) % 8 == Selector(i) && w % 32 == Operand(i)
    && (w / 32) % 4 == Selector(i) % 4 && (w / 128) % 2 == Selector(i) / 4
    && (w / 64) % 2 == Selector(i) / 2 % 2 && (w / 32) % 2 == Selector(i) % 2
    && (w / 8) % 4 == Operand(i) / 8 && w % 8 == Operand(i) % 8 && (w / 8) % 2 == Operand(i) / 8 % 2
  }

  lemma DecodeParts(w: nat, i: Instr)
    requires Parts(w, i)
    ensures Decode(w) == i
  {
    if i.Mov? {
      MovParts(w, i);
    } else if i.In? || i.Out? || i.Jmp? || i.Set? {
      SelectorParts(w, i);
    } else {
      BitParts(w, i);
    }
    hide Parts, Decode;
  }

  lemma MovParts(w: nat, i: Instr)
    requires i.Mov? && Parts(w, i)
    ensures Decode(w) == i
  {
  }

  lemma SelectorParts(w: nat, i: Instr)
    requires (i.In? || i.Out? || i.Jmp? || i.Set?) && Parts(w, i)
    ensures Decode(w) == i
  {
  }

  lemma BitParts(w: nat, i: Instr)
    requires (i.Wait? || i.Push? || i.Pull? || i.RxFifoMove? || i.Irq?) && Parts(w, i)
    ensures Decode(w) == i
  {
    if i.Wait? {
      WaitParts(w, i);
    } else if i.Irq? {
      IrqParts(w, i);
    } else {
      PushPullParts(w, i);
    }
    hide Parts, Decode;
  }

  lemma WaitParts(w: nat, i: Instr)
    requires i.Wait? && Parts(w, i)
    ensures Decode(w) == i
  {
  }

  lemma IrqParts(w: nat, i: Instr)
    requires i.Irq? && Parts(w, i)
    ensures Decode(w) == i
  {
  }

  lemma PushPullParts(w: nat, i: Instr)
    requires (i.Push? || i.Pull? || i.RxFifoMove?) && Parts(w, i)
    ensures Decode(w) == i
  {
  }

  /** The words the emulator refuses: IN and SET selectors without a meaning, the MOVs to and from
  the RX FIFO, and MOV with source 4 or operation 3. */
  lemma ReservedWords(w: nat)
    ensures var op, sel := (w / 8192) % 8, (w / 32) % 8;
      Reserved(Decode(w)) <==>
        || (op == 2 && (sel == 4 || sel == 5))
        || (op == 4 && (w / 8) % 2 == 1)
        || (op == 5 && (w % 8 == 4 || (w / 8) % 4 == 3))
        || (op == 7 && (sel == 3 || sel >= 5))
  {
  }

  /** And, of the others, those it refuses under the registers at hand: MOV STATUS with a
  STATUS_SEL of 3, and WAIT PIN beyond GPIO 47. */
  lemma RefusedWords(w: nat, reg: Regs, base: Base)
    ensures var op, sel := (w / 8192) % 8, (w / 32) % 8;
      InstrSafe(reg, base, Decode(w)) <==>
        && !Reserved(Decode(w))
        && (op == 5 && w % 8 == 5 ==> (reg.execctrl / 32) % 4 != 3)
        && (op == 1 && sel % 4 == 1 ==> (reg.pinctrl / 0x8000) % 32 + w % 32 + base <= 47)
  {
    assert (w / 32) % 4 == (w / 32) % 8 % 4;
    hide Reserved;
  }

  // ---------------------------------------------------------------- interrupt flags

  /** Two neighbouring blocks, and only they, mean the same flag by "next" and "previous". */
  lemma NeighboursMeet(a: Block, s: Slot, b: Block, t: Slot, index: FlagIndex)
    ensures FlagAt(a, s, NextBlock, index) == FlagAt(b, t, ThisBlock, index) <==>
      FlagAt(b, t, PrevBlock, index) == FlagAt(a, s, ThisBlock, index)
    ensures a == b ==> FlagAt(a, s, NextBlock, index) != FlagAt(a, t, PrevBlock, index)
  {
  }

  /** The machines of a block mean four different flags by one relative index, all of them
  in the same half of the eight. */
  lemma RelativeFlagsDistinct(b: Block, s: Slot, t: Slot, index: FlagIndex)
    ensures FlagAt(b, s, Relative, index) == FlagAt(b, t, Relative, index) <==> s == t
    ensures FlagAt(b, s, Relative, index).index / 4 == index / 4
    ensures FlagAt(b, 0, Relative, index) == Flag(b, index)
  {
  }

  /** WAIT, which takes its five-bit operand apart itself, and IRQ, which goes through the code
  it shares with MOV STATUS, mean the same flag by the same five bits. */
  lemma WaitMeansIrq(env: Env, operand: Five)
    ensures WaitFlag(env, operand) == env.FlagOf(IrqModeOf(operand / 8), operand % 8)
    ensures forall mode, index: FlagIndex :: operand == 8 * ModeSelector(mode) + index ==>
      WaitFlag(env, operand) == env.FlagOf(mode, index)
  {
    var n := operand % 8;
    assert n / 4 * 4 == if n >= 4 then 4 else 0;
  }
}
