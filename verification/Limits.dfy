/** Register fields, pin numbers and program counters the emulator treats differently from the
chip, each with the exact condition under which the two agree and an input on which they do
not. */
module Limits {
  import opened Bits
  import opened Instructions
  import opened Gpios
  import opened Machines
  import opened Stalling

  // ---------------------------------------------------------------- counts

  /** OUT_COUNT has six bits and is read as five: it is read right if and only if it is not 32
  or more. */
  lemma OutCountIff(r: Regs)
    ensures r.OutCount() == (r.pinctrl / 0x10_0000) % 64 <==> (r.pinctrl / 0x10_0000) % 64 < 32
  {
    FiveOfSix(r.pinctrl / 0x10_0000);
  }

  lemma FiveOfSix(f: nat)
    ensures f % 32 == f % 64 <==> f % 64 < 32
  {
    SplitAt32(f / 64, f % 64, f);
  }

  lemma SplitAt32(q: nat, g: nat, f: nat)
    requires g < 64 && f == 64 * q + g
    ensures f % 32 == if g < 32 then g else g - 32
  {
    if g < 32 {
      assert f == 32 * (2 * q) + g;
    } else {
      assert f == 32 * (2 * q + 1) + (g - 32);
    }
  }

  /** With an OUT_COUNT of 32 no MOV to pins or pin directions writes any pin. */
  lemma OutCountOf32(m: Machine, env: Env, dest: MovDest, op: MovOp, source: MovSource)
    requires env.Ok() && m.reg.pinctrl == 0x200_0000 && (dest == MovPins || dest == MovPindirs)
    ensures (m.reg.pinctrl / 0x10_0000) % 64 == 32 && ExecMov(m, env, dest, op, source).fx.writes == []
  {
    assert m.reg.OutCount() == 0;
    hide MovApply, MovInput;
  }

  /** SET_COUNT has three bits and is read as five: it is read right if and only if the two
  bits above it, which belong to the side-set count, are clear. */
  lemma SetCountIff(r: Regs)
    ensures r.SetCount() == (r.pinctrl / 0x400_0000) % 8 <==> (r.pinctrl / 0x2000_0000) % 4 == 0
  {
    var f := r.pinctrl / 0x400_0000;
    assert r.pinctrl / 0x2000_0000 == f / 8;
    assert f == 32 * (f / 32) + f % 32;
    assert f % 32 == f % 8 + 8 * (f / 8 % 4);
  }

  /** One SET pin beside one side-set pin reads as nine SET pins. */
  lemma SetCountWithSideSet(r: Regs)
    requires r.pinctrl == 0x2400_0000
    ensures (r.pinctrl / 0x400_0000) % 8 == 1 && r.SetCount() == 9
  {
  }

  /** An IN_COUNT field of 0 means 32 pins to the chip. */
  function ChipInCount(r: Regs): nat {
    if r.InCount() == 0 then 32 else r.InCount()
  }

  /** What one pin shows, the others low. */
  function OnlyHigh(base: Base, p: Pin): (env: Env)
    ensures env.Ok() && env.base == base
    ensures forall q: nat :: env.Reads(q) <==> q == p
  {
    var none: Mask := Zeros(64);
    Env(0, 0, base, [], none[p := true], none, none, [ZERO, ZERO, ZERO])
  }

  /** MOV from pins reads the pins the chip would read, in every environment, if and only if
  IN_COUNT is not 0. */
  lemma InCountIff(m: Machine, base: Base)
    ensures (forall env: Env :: env.Ok() && env.base == base ==>
               MovInput(m, env, FromPins) == PinsIn(env, m.reg.InBase(), ChipInCount(m.reg)))
            <==> m.reg.InCount() != 0
  {
    if m.reg.InCount() == 0 {
      var p := PinOf(m.reg.InBase(), 0, base);
      var env := OnlyHigh(base, p);
      assert env.PinAt(m.reg.InBase(), 0) == p;
      assert PinsIn(env, m.reg.InBase(), 32)[0] && !MovInput(m, env, FromPins)[0];
    }
  }

  /** With reset registers and the pins as they are after initialisation, all pulled up, `mov`
  reads no pin at all. */
  lemma ResetReadsNothing(m: Machine, env: Env)
    requires env.Ok() && m.reg == Regs(0, 0, 0) && env.level == LowMask() && env.inverted == Zeros(64)
    ensures MovInput(m, env, FromPins) == ZERO && PinsIn(env, m.reg.InBase(), ChipInCount(m.reg)) == Ones(32)
  {
    assert m.reg.InCount() == 0;
    hide Regs.InCount;
  }

  // ---------------------------------------------------------------- WAIT PIN

  /** WAIT PIN waits for the pin IN would read, in every environment, if and only if base plus
  index stay below 32. */
  lemma WaitPinIff(m: Machine, base: Base, polarity: bool, index: Five)
    ensures (forall env: Env :: env.Ok() && env.base == base ==>
               (WaitMet(m, env, polarity, WaitPin, index) <==>
                env.Reads(env.PinAt(m.reg.InBase(), index)) == polarity))
            <==> m.reg.InBase() + index < 32
  {
    var p := PinOf(m.reg.InBase(), index, base);
    var env := OnlyHigh(base, p);
    assert env.PinAt(m.reg.InBase(), index) == p;
    if m.reg.InBase() + index >= 32 {
      assert WaitMet(m, env, polarity, WaitPin, index) <==> (false == polarity);
    }
  }

  /** `wait 1 pin 1` with an IN_BASE of 31: the pin is GPIO 0, it is high, and the machine
  stalls. */
  lemma WaitPinMisses(m: Machine, env: Env)
    requires m.reg.pinctrl == 0xF_8000 && env == OnlyHigh(0, 0)
    ensures m.reg.InBase() == 31 && env.Reads(env.PinAt(31, 1)) && ExecWait(m, env, true, WaitPin, 1).flow == Stall
  {
    assert m.reg.InBase() == 31;
    hide Regs.InBase, OnlyHigh;
  }

  // ---------------------------------------------------------------- the program counter

  /** OUT PC keeps eight bits of data: the PC stays inside instruction memory if and only if
  bits 5 to 7 are clear. */
  lemma OutPcIff(m: Machine, env: Env, n: Count)
    ensures var d := OutData(m.osr, n, m.reg.OutRight());
      OutNow(m, env, OutPc, n).m.pc < NUM_INSTRS_PER_BLOCK <==> !d[5] && !d[6] && !d[7]
  {
    var d := OutData(m.osr, n, m.reg.OutRight());
    var b := d[..8];
    ByteBelow32(b);
    hide OutData, OutRest, Val;
  }

  lemma ByteBelow32(b: Bits)
    requires |b| == 8
    ensures Val(b) < 32 <==> !b[5] && !b[6] && !b[7]
  {
    ValSplit(b, 5);
    ValBound(b[..5]);
    ValZero(b[5..]);
    assert Pow2(5) == 32 by { assert Pow2(3) == 8; }
    var high := Val(b[5..]);
    assert Val(b) == Val(b[..5]) + 32 * high;
    assert b[5..] == Zeros(3) <==> !b[5] && !b[6] && !b[7] by {
      assert b[5..] == [b[5], b[6], b[7]];
    }
  }

  /** An OUT PC that has data, with one of bits 5 to 7 set. */
  predicate OutPcBeyond(m: Machine, i: Instr) {
    && i.Out? && i.outDest == OutPc && !(PullDue(m) && m.tx.Empty())
    && var osr := if PullDue(m) then m.tx.items[0] else m.osr;
       var d := OutData(osr, i.outCount, m.reg.OutRight());
       d[5] || d[6] || d[7]
  }

  /** Where a jump goes. */
  lemma JumpBeyond(m: Machine, env: Env, i: Instr)
    requires env.Ok()
    ensures var o := ExecDecoded(m, env, i);
      && (o.flow == Jumped ==> (o.m.pc >= NUM_INSTRS_PER_BLOCK <==> OutPcBeyond(m, i)))
      && (OutPcBeyond(m, i) ==> o.flow == Jumped)
  {
    hide OutData, OutRest, MovApply, MovInput;
    match i
    case Out(dest, n) =>
      OutPcIff(m, env, n);
      if PullDue(m) && !m.tx.Empty() {
        OutPcIff(PullOsr(m), env, n);
      }
    case Mov(dest, op, source) => LowValue(MovApply(op, MovInput(m, env, source)));
    case _ =>
  }

  lemma NextPcIff(m: Machine)
    requires m.pc < NUM_INSTRS_PER_BLOCK
    ensures NextPc(m) >= NUM_INSTRS_PER_BLOCK <==> m.pc == NUM_INSTRS_PER_BLOCK - 1 && m.reg.WrapTop() != m.pc
  {
  }

  /** The PC leaves instruction memory in a cycle if and only if the machine executes, at
  address 31 with a wrap_top elsewhere, something that falls through, or executes an OUT PC
  with one of bits 5 to 7 set. */
  lemma PcLeavesIff(m: Machine, env: Env)
    requires env.Ok() && m.pc < NUM_INSTRS_PER_BLOCK
    ensures var i := Decode(Current(m, env.prog));
      StepMachine(m, env).m.pc >= NUM_INSTRS_PER_BLOCK <==>
        && m.delay == 0
        && (|| (m.pc == NUM_INSTRS_PER_BLOCK - 1 && m.reg.WrapTop() != m.pc && ExecDecoded(m, env, i).flow == Next)
            || OutPcBeyond(m, i))
  {
    var i := Decode(Current(m, env.prog));
    AttemptFrame(m, env, i);
    JumpBeyond(m, env, i);
    NextPcIff(m);
    hide ExecDecoded, Decode, OutPcBeyond, Regs.WrapTop;
  }

  /** `jmp 31` and `set x, 0`. */
  const JUMP_TO_LAST: nat := 0x001F
  const SET_X_ZERO: nat := 0xE020

  lemma LastWordsDecode()
    ensures Decode(JUMP_TO_LAST) == Jmp(Always, 31) && DelayField(JUMP_TO_LAST) == 0
    ensures Decode(SET_X_ZERO) == Set(SetX, 0)
  {
  }

  /** A machine with reset registers runs off the end: it jumps to address 31, whose
  instruction falls through, and its next fetch is at 32. */
  lemma RunsOffTheEnd(m: Machine, env: Env)
    requires m == INITIAL_MACHINE.(enabled := true) && env.Ok() && |env.prog| == NUM_INSTRS_PER_BLOCK
    requires env.prog[0] == JUMP_TO_LAST && env.prog[31] == SET_X_ZERO
    ensures StepMachine(m, env).m == m.(pc := 31)
    ensures StepMachine(m.(pc := 31), env).m.pc == 32
  {
    LastWordsDecode();
    assert m.reg.WrapTop() == 0;
    hide Decode, DelayField, Regs.WrapTop, ToBits;
  }

  /** `out pc, 8` with 0x20 in the OSR goes to 32. */
  lemma OutPcGoesTo32(m: Machine, env: Env)
    requires m.osr == ZERO[5 := true] && m.reg.OutRight()
    ensures OutNow(m, env, OutPc, 8).m.pc == 32
  {
    var d := OutData(m.osr, 8, true);
    var b := d[..8];
    assert b == Zeros(8)[5 := true];
    ValSplit(b, 5);
    ValZero(b[..5]);
    assert b[..5] == Zeros(5) && b[5..] == [true, false, false];
    assert Pow2(5) == 32 by { assert Pow2(3) == 8; }
    One();
    hide OutData, OutRest, Val;
  }

  /** `out pc, 8` */
  const OUT_PC: nat := 0x60A8

  lemma OutPcDecodes()
    ensures Decode(OUT_PC) == Out(OutPc, 8)
  {
  }

  /** As a machine: shifting right, 0x20 in the OSR, `out pc, 8` at address 0. */
  lemma OutPcLeaves(m: Machine, env: Env)
    requires m == INITIAL_MACHINE.(enabled := true, reg := Regs(0, 0x8_0000, 0), osr := ZERO[5 := true], osrCount := 0)
    requires env.Ok() && |env.prog| == NUM_INSTRS_PER_BLOCK && env.prog[0] == OUT_PC
    ensures StepMachine(m, env).m.pc == 32
  {
    OutPcDecodes();
    assert m.reg.OutRight() && !m.reg.AutoPull();
    OutPcGoesTo32(m, env);
    hide Decode, DelayField, OutNow, Regs.OutRight, Regs.AutoPull;
    assert OutNow(m, env, OutPc, 8).flow == Jumped by { JumpsNow(m, env); }
  }

  lemma JumpsNow(m: Machine, env: Env)
    ensures OutNow(m, env, OutPc, 8).flow == Jumped
  {
  }

  lemma One()
    ensures Val([true, false, false]) == 1
  {
    ValZero([false, false]);
    assert [true, false, false][1..] == [false, false] == Zeros(2);
  }
}
