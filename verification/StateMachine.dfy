/** The state machine as the emulator runs it: fields updated in place, one method for each
opcode.  Every method is proved against the step function of `Machines`. */
module StateMachines {
  import opened Bits
  import opened Fifos
  import opened Instructions
  import opened PinBanks
  import opened System
  import M = Machines

  /** One block's interrupt flags. */
  class IrqLines {
    var flags: Word
    var toSet: Word
    var toClear: Word

    ghost function Abs(): IrqBank
      reads this
    {
      IrqBank(flags, toSet, toClear)
    }

    constructor ()
      ensures Abs() == IrqBank(ZERO, ZERO, ZERO)
    {
      flags, toSet, toClear := ZERO, ZERO, ZERO;
    }

    method Commit()
      modifies this
      ensures Abs() == CommitBank(old(Abs()))
    {
      flags := Without(flags, toClear);
      toClear := ZERO;
      flags := Or(flags, toSet);
      toSet := ZERO;
    }

    /** The host sets or clears a flag at once. */
    method SetNow(index: FlagIndex, on: bool)
      modifies this`flags
      ensures Abs() == old(Abs()).(flags := old(flags)[index := on])
    {
      flags := flags[index := on];
    }
  }


  /** Three different objects. */
  ghost predicate Separate(lines: seq<IrqLines>) {
    |lines| == NUM_PIO_BLOCKS && forall a, b :: 0 <= a < b < |lines| ==> lines[a] != lines[b]
  }

  ghost function Banks(lines: seq<IrqLines>): (r: seq<IrqBank>)
    reads set k | 0 <= k < |lines| :: lines[k]
    ensures |r| == |lines|
  {
    seq(|lines|, k requires 0 <= k < |lines| reads set j | 0 <= j < |lines| :: lines[j] => lines[k].Abs())
  }

  /** Where a machine sits: its block, its number there, and the block's GPIOBASE. */
  datatype Seat = Seat(block: Block, sm: Slot, base: Base) {
    function FlagOf(mode: IrqMode, index: FlagIndex): M.Flag {
      M.FlagAt(block, sm, mode, index)
    }

    ghost predicate Of(env: M.Env) {
      env.block == block && env.sm == sm && env.base == base
    }
  }

  method DeferSet(lines: seq<IrqLines>, f: M.Flag)
    requires Separate(lines)
    modifies lines
    ensures Banks(lines) == Defer(old(Banks(lines)), M.Effects([], M.Some(f), M.None))
  {
    var q := lines[f.block];
    q.toSet := q.toSet[f.index := true];
  }

  method DeferClear(lines: seq<IrqLines>, f: M.Flag)
    requires Separate(lines)
    modifies lines
    ensures Banks(lines) == Defer(old(Banks(lines)), M.Effects([], M.None, M.Some(f)))
  {
    var q := lines[f.block];
    q.toClear := q.toClear[f.index := true];
  }

  /** WAIT's own reading of its operand. */
  method WaitFlag(seat: Seat, index: Five, ghost env: M.Env) returns (f: M.Flag)
    requires seat.Of(env)
    ensures f == M.WaitFlag(env, index)
  {
    var bits := index / 8;
    var block, number := seat.block, index % 8;
    if bits == 1 {
      block := if block == 0 then NUM_PIO_BLOCKS - 1 else block - 1;
    } else if bits == 2 {
      number := (if number >= 4 then 4 else 0) + (number + seat.sm) % 4;
    } else if bits == 3 {
      block := (block + 1) % NUM_PIO_BLOCKS;
    }
    f := M.Flag(block, number);
  }

  class StateMachine {
    var reg: Regs
    var x: Word
    var y: Word
    var isr: Word
    var osr: Word
    var isrCount: nat
    var osrCount: nat
    var pc: nat
    var delay: nat
    var stalled: bool
    var enabled: bool
    var execPending: bool
    var execInstr: nat
    const tx: Fifo
    const rx: Fifo

    ghost predicate Valid()
      reads this, tx, tx.buf, rx, rx.buf
    {
      tx.Valid() && rx.Valid() && tx != rx && tx.buf != rx.buf
    }

    ghost function Abs(): M.Machine
      reads this, tx, tx.buf, rx, rx.buf
      requires Valid()
    {
      M.Machine(reg, x, y, isr, osr, isrCount, osrCount, pc, delay, stalled, enabled, execPending, execInstr,
        tx.Abs(), rx.Abs())
    }

    constructor ()
      ensures Valid() && Abs() == M.INITIAL_MACHINE
      ensures fresh(tx) && fresh(rx) && fresh(tx.buf) && fresh(rx.buf)
    {
      reg, x, y, isr, osr := Regs(0, 0, 0), ZERO, ZERO, ZERO, ZERO;
      isrCount, osrCount, pc, delay := 0, 32, 0, 0;
      stalled, enabled, execPending, execInstr := false, false, false, 0;
      tx := new Fifo();
      rx := new Fifo();
    }

    method Jmp(pins: PinBank, seat: Seat, cond: JmpCond, target: Five, ghost env: M.Env) returns (hold: bool)
      requires Valid() && pins.Valid() && pins.Shown(env) && seat.Of(env)
      modifies this
      ensures Valid() && M.ExecJmp(old(Abs()), env, cond, target)
                         == M.Outcome(Abs(), if hold then M.Jumped else M.Next, false, M.NO_EFFECTS)
    {
      hide M.LowByteSet, Dec, Regs.JmpPin;
      hold := false;
      match cond {
      case Always => hold := true;
      case XZero => hold := x == ZERO;
      case XDec =>
        hold := M.LowByteSet(x);
        x := Dec(x);
      case YZero => hold := y == ZERO;
      case YDec =>
        hold := M.LowByteSet(y);
        y := Dec(y);
      case XNotY => hold := x != y;
      case PinHigh => hold := pins.Reads(reg.JmpPin() + seat.base);
      case OsrReached => hold := osrCount >= reg.PullThreshold();
      }
      if hold {
        pc := target;
      }
    }

    method Wait(pins: PinBank, lines: seq<IrqLines>, seat: Seat, polarity: bool, source: WaitSource, index: Five,
                ghost env: M.Env)
      returns (hold: bool)
      requires Valid() && pins.Valid() && pins.Shown(env) && seat.Of(env)
      requires Separate(lines) && env.irq == Flags(Banks(lines))
      requires source == WaitPin ==> reg.InBase() + index + seat.base < NUM_GPIOS
      modifies this, lines
      ensures Valid() && var o := M.ExecWait(old(Abs()), env, polarity, source, index);
        && o == M.Outcome(Abs(), if hold then M.Stall else M.Next, false, o.fx) && o.fx.writes == []
        && Banks(lines) == Defer(old(Banks(lines)), o.fx)
    {
      hide M.WaitFlag;
      var met := false;
      match source {
      case WaitGpio => met := pins.Reads(index + seat.base) == polarity;
      case WaitPin => met := pins.Reads(reg.InBase() + index + seat.base) == polarity;
      case WaitIrq =>
        var f := WaitFlag(seat, index, env);
        met := lines[f.block].flags[f.index] == polarity;
        if met && polarity {
          DeferClear(lines, f);
        }
      case WaitJmpPin => met := pins.Reads(reg.JmpPin() + seat.base) == polarity;
      }
      hold := !met;
      stalled := !met;
    }

    method InData(pins: PinBank, seat: Seat, source: InSource, n: Count, ghost env: M.Env) returns (data: Word)
      requires Valid() && pins.Valid() && pins.Shown(env) && seat.Of(env)
      ensures data == M.InData(Abs(), env, source, n)
    {
      data := ZERO;
      match source {
      case InPins => data := pins.ReadPins(reg.InBase(), seat.base, n, env);
      case InX => data := x;
      case InY => data := y;
      case InNull =>
      case InIsr => data := isr;
      case InOsr => data := osr;
      case InReserved =>
      }
    }

    method ShiftIn(data: Word, n: Count)
      requires Valid()
      modifies this`isr, this`isrCount
      ensures Valid() && isr == M.ShiftIn(old(isr), data, n, reg.InRight()) && isrCount == M.AddCount(old(isrCount), n)
    {
      M.ShiftInCases(isr, data, n);
      hide M.ShiftIn;
      if reg.InRight() {
        var shifted := if n == 32 then ZERO else Shr(isr, n);
        isr := Or(shifted, Shl(data, 32 - n));
      } else {
        var shifted := if n == 32 then ZERO else Shl(isr, n);
        isr := Or(shifted, Low(data, n));
      }
      isrCount := isrCount + n;
      if isrCount > 32 {
        isrCount := 32;
      }
    }

    /** IN: shift first, unless only the autopush is being retried. */
    method In(pins: PinBank, seat: Seat, source: InSource, n: Count, ghost env: M.Env) returns (hold: bool)
      requires Valid() && pins.Valid() && pins.Shown(env) && seat.Of(env)
      modifies this, rx, rx.buf
      ensures Valid() && M.ExecIn(old(Abs()), env, source, n)
                         == M.Outcome(Abs(), if hold then M.Stall else M.Next, false, M.NO_EFFECTS)
    {
      hide M.ShiftIn, M.InData, M.PushDue, Regs.InRight;
      if !stalled {
        var data := InData(pins, seat, source, n, env);
        ShiftIn(data, n);
      }
      hold := AutoPush();
    }

    /** Push the ISR if it is due; without room, stall. */
    method AutoPush() returns (hold: bool)
      requires Valid()
      modifies this`isr, this`isrCount, this`stalled, rx, rx.buf
      ensures Valid() && var m := old(Abs());
        && (hold <==> M.PushDue(m) && m.rx.Full())
        && Abs() == if hold then m.(stalled := true) else if M.PushDue(m) then M.PushIsr(m) else m
    {
      hide Regs.PushThreshold, Regs.AutoPush;
      hold := false;
      if reg.AutoPush() && isrCount >= reg.PushThreshold() {
        if rx.count < MAX_FIFO_DEPTH {
          rx.Push(isr);
          isr, isrCount, stalled := ZERO, 0, false;
        } else {
          stalled, hold := true, true;
        }
      }
    }

    /** OUT: pull first if the OSR is used up; without data, stall and do nothing else. */
    method Out(pins: PinBank, seat: Seat, dest: OutDest, n: Count, ghost env: M.Env)
      returns (hold: bool, delays: bool, noDelay: bool)
      requires Valid() && pins.Valid() && pins.Shown(env) && seat.Of(env)
      modifies this, tx, tx.buf, pins`output, pins`direction
      ensures Valid() && pins.Valid() && (delays || hold) && var o := M.ExecOut(old(Abs()), env, dest, n);
        && o == M.Outcome(Abs(), if !delays then M.Stall else if hold then M.Jumped else M.Next,
                          noDelay, M.Written(o.fx.writes))
        && pins.Abs() == old(pins.Abs()).ApplyAll(o.fx.writes)
    {
      hide M.OutNow, M.PullDue;
      hold, delays, noDelay := false, true, false;
      var ready := AutoPull();
      if !ready {
        hold, delays := true, false;
        return;
      }
      hold, noDelay := OutData(pins, seat, dest, n, env);
    }

    /** Refill the OSR if that is due; without data, stall. */
    method AutoPull() returns (ready: bool)
      requires Valid()
      modifies this`osr, this`osrCount, this`stalled, tx, tx.buf
      ensures Valid() && var m := old(Abs());
        && (ready <==> !(M.PullDue(m) && m.tx.Empty()))
        && Abs() == if !ready then m.(stalled := true) else if M.PullDue(m) then M.PullOsr(m) else m
    {
      hide Regs.PullThreshold, Regs.AutoPull;
      ready := true;
      if reg.AutoPull() && osrCount >= reg.PullThreshold() {
        if tx.count > 0 {
          var w := tx.Pop();
          osr, osrCount, stalled := w, 0, false;
        } else {
          stalled, ready := true, false;
        }
      }
    }

    method ShiftOut(n: Count) returns (data: Word)
      requires Valid()
      modifies this`osr, this`osrCount
      ensures Valid() && data == M.OutData(old(osr), n, reg.OutRight())
      ensures osr == M.OutRest(old(osr), n, reg.OutRight()) && osrCount == M.AddCount(old(osrCount), n)
    {
      M.ShiftOutCases(osr, n);
      if reg.OutRight() {
        data := Low(osr, n);
        osr := if n == 32 then ZERO else Shr(osr, n);
      } else {
        data := Shr(osr, 32 - n);
        osr := if n == 32 then ZERO else Shl(osr, n);
      }
      osrCount := osrCount + n;
      if osrCount > 32 {
        osrCount := 32;
      }
    }

    /** The second half of OUT, with data in the OSR. */
    method OutData(pins: PinBank, seat: Seat, dest: OutDest, n: Count, ghost env: M.Env)
      returns (hold: bool, noDelay: bool)
      requires Valid() && pins.Valid() && pins.Shown(env) && seat.Of(env)
      modifies this, pins`output, pins`direction
      ensures Valid() && pins.Valid() && var o := M.OutNow(old(Abs()), env, dest, n);
        && o == M.Outcome(Abs(), if hold then M.Jumped else M.Next, noDelay, M.Written(o.fx.writes))
        && pins.Abs() == old(pins.Abs()).ApplyAll(o.fx.writes)
    {
      hide M.OutData, M.OutRest;
      hold, noDelay := false, false;
      var data := ShiftOut(n);
      match dest {
      case OutPins => pins.WriteLevels(seat.block, reg.OutBase(), seat.base, data, n, env);
      case OutX => x := data;
      case OutY => y := data;
      case OutNull =>
      case OutPindirs => pins.WriteDirections(seat.block, reg.OutBase(), seat.base, data, n, false, env);
      case OutPc => pc, hold := Val(data[..8]), true;
      case OutIsr => isr, isrCount := data, n;
      case OutExec => execInstr, execPending, noDelay := Val(data[..16]), true, true;
      }
    }

    method Push(ifFull: bool, block: bool) returns (hold: bool)
      requires Valid()
      modifies this, rx, rx.buf
      ensures Valid() && M.ExecPush(old(Abs()), ifFull, block)
                         == M.Outcome(Abs(), if hold then M.Stall else M.Next, false, M.NO_EFFECTS)
    {
      hold := false;
      var should := true;
      if ifFull && isrCount < reg.PushThreshold() {
        should := false;
      }
      if should {
        if rx.count < MAX_FIFO_DEPTH {
          rx.Push(isr);
          isr, isrCount, stalled := ZERO, 0, false;
        } else if block {
          stalled, hold := true, true;
        } else {
          isr, isrCount := ZERO, 0;
        }
      }
    }

    method Pull(ifEmpty: bool, block: bool) returns (hold: bool)
      requires Valid()
      modifies this, tx, tx.buf
      ensures Valid() && M.ExecPull(old(Abs()), ifEmpty, block)
                         == M.Outcome(Abs(), if hold then M.Stall else M.Next, false, M.NO_EFFECTS)
    {
      hold := false;
      var should := true;
      if ifEmpty && osrCount < reg.PullThreshold() {
        should := false;
      }
      if reg.AutoPull() && osrCount < reg.PullThreshold() {
        should := false;
      }
      if should {
        if tx.count > 0 {
          var w := tx.Pop();
          osr, osrCount, stalled := w, 0, false;
        } else if block {
          stalled, hold := true, true;
        } else {
          osr, osrCount, stalled := x, 0, false;
        }
      }
    }

    method MovInput(pins: PinBank, lines: seq<IrqLines>, seat: Seat, source: MovSource, ghost env: M.Env)
      returns (v: Word)
      requires Valid() && pins.Valid() && pins.Shown(env) && seat.Of(env)
      requires Separate(lines) && env.irq == Flags(Banks(lines))
      ensures v == M.MovInput(Abs(), env, source)
    {
      v := ZERO;
      match source {
      case FromPins => v := pins.ReadPins(reg.InBase(), seat.base, reg.InCount(), env);
      case FromX => v := x;
      case FromY => v := y;
      case FromNull =>
      case FromReserved =>
      case FromStatus =>
        var sel, n := reg.StatusSel(), reg.StatusN();
        if sel == 0 {
          v := if tx.count < n then Ones(32) else ZERO;
        } else if sel == 1 {
          v := if rx.count < n then Ones(32) else ZERO;
        } else if sel == 2 {
          var f := seat.FlagOf(IrqModeOf(n / 8), n % 8);
          v := if lines[f.block].flags[f.index] then Ones(32) else ZERO;
        }
      case FromIsr => v := isr;
      case FromOsr => v := osr;
      }
    }

    /** MOV's operation; the reversal goes bit by bit. */
    method MovApply(op: MovOp, v: Word) returns (r: Word)
      ensures r == M.MovApply(op, v)
    {
      match op {
      case Copy => r := v;
      case Invert => r := Not(v);
      case BitReverse =>
        r := ZERO;
        var i := 0;
        while i < 32
          invariant 0 <= i <= 32
          invariant forall k :: 0 <= k < 32 ==> r[k] == (31 - k < i && v[31 - k])
        {
          if v[i] {
            r := r[31 - i := true];
          }
          i := i + 1;
        }
        assert r == Reverse(v);
      case OpReserved => r := v;
      }
    }

    method Mov(pins: PinBank, lines: seq<IrqLines>, seat: Seat, dest: MovDest, op: MovOp, source: MovSource,
               ghost env: M.Env)
      returns (hold: bool, noDelay: bool)
      requires Valid() && pins.Valid() && pins.Shown(env) && seat.Of(env)
      requires Separate(lines) && env.irq == Flags(Banks(lines))
      modifies this, pins`output, pins`direction
      ensures Valid() && pins.Valid() && var o := M.ExecMov(old(Abs()), env, dest, op, source);
        && o == M.Outcome(Abs(), if hold then M.Jumped else M.Next, noDelay, M.Written(o.fx.writes))
        && pins.Abs() == old(pins.Abs()).ApplyAll(o.fx.writes)
    {
      hide M.MovInput, M.MovApply, M.LevelWrites, M.DirectionWrites, Regs.OutBase, Regs.OutCount;
      hold, noDelay := false, false;
      var input := MovInput(pins, lines, seat, source, env);
      var v := MovApply(op, input);
      match dest {
      case MovPins => pins.WriteLevels(seat.block, reg.OutBase(), seat.base, v, reg.OutCount(), env);
      case MovX => x := v;
      case MovY => y := v;
      case MovPindirs => pins.WriteDirections(seat.block, reg.OutBase(), seat.base, v, reg.OutCount(), false, env);
      case MovExec => execInstr, execPending, noDelay := Val(v[..16]), true, true;
      case MovPc => pc, hold := Val(v[..5]), true;
      case MovIsr => isr, isrCount := v, 0;
      case MovOsr => osr, osrCount := v, 0;
      }
    }

    method Irq(lines: seq<IrqLines>, clear: bool, wait: bool, f: M.Flag, ghost env: M.Env) returns (hold: bool)
      requires Valid() && Separate(lines) && env.irq == Flags(Banks(lines))
      modifies this, lines
      ensures Valid() && var o := M.ExecIrq(old(Abs()), env, clear, wait, f);
        && o == M.Outcome(Abs(), if hold then M.Stall else M.Next, false, o.fx) && o.fx.writes == []
        && Banks(lines) == Defer(old(Banks(lines)), o.fx)
    {
      hold := false;
      if clear {
        DeferClear(lines, f);
      } else if !wait {
        DeferSet(lines, f);
      } else if stalled {
        if lines[f.block].flags[f.index] {
          hold := true;
        } else {
          stalled := false;
        }
      } else {
        DeferSet(lines, f);
        stalled, hold := true, true;
      }
    }

    method SetInstr(pins: PinBank, seat: Seat, dest: SetDest, data: Five, ghost env: M.Env)
      requires Valid() && pins.Valid() && pins.Shown(env) && seat.Of(env)
      modifies this, pins`output, pins`direction
      ensures Valid() && pins.Valid() && var o := M.ExecSet(old(Abs()), env, dest, data);
        && o == M.Outcome(Abs(), M.Next, false, M.Written(o.fx.writes))
        && pins.Abs() == old(pins.Abs()).ApplyAll(o.fx.writes)
    {
      var v: Word := ToBits(data, 32);
      match dest {
      case SetPins => pins.WriteLevels(seat.block, reg.SetBase(), seat.base, v, reg.SetCount(), env);
      case SetX => x := v;
      case SetY => y := v;
      case SetPindirs => pins.WriteDirections(seat.block, reg.SetBase(), seat.base, v, reg.SetCount(), true, env);
      case SetReserved =>
      }
    }

    /** One decoded instruction: whether the PC is held, whether its delay counts, and whether
    that delay is overridden to zero. */
    method Dispatch(pins: PinBank, lines: seq<IrqLines>, seat: Seat, i: Instr, ghost env: M.Env)
      returns (hold: bool, delays: bool, noDelay: bool)
      requires Valid() && pins.Valid() && pins.Shown(env) && seat.Of(env)
      requires Separate(lines) && env.irq == Flags(Banks(lines))
      requires M.InstrSafe(reg, seat.base, i)
      modifies this, tx, tx.buf, rx, rx.buf, pins`output, pins`direction, lines
      ensures Valid() && pins.Valid() && (delays || hold) && var o := M.ExecDecoded(old(Abs()), env, i);
        && o == M.Outcome(Abs(), if !delays then M.Stall else if hold then M.Jumped else M.Next, noDelay, o.fx)
        && pins.Abs() == old(pins.Abs()).ApplyAll(o.fx.writes)
        && Banks(lines) == Defer(old(Banks(lines)), o.fx)
    {
      hide M.ExecJmp, M.ExecWait, M.ExecIn, M.ExecOut, M.ExecPush, M.ExecPull, M.ExecMov, M.ExecIrq, M.ExecSet;
      hold, delays, noDelay := false, true, false;
      match i {
      case Jmp(cond, target) => hold := Jmp(pins, seat, cond, target, env);
      case Wait(polarity, source, index) =>
        hold := Wait(pins, lines, seat, polarity, source, index, env);
        delays := !hold;
      case In(source, n) =>
        hold := In(pins, seat, source, n, env);
        delays := !hold;
      case Out(dest, n) => hold, delays, noDelay := Out(pins, seat, dest, n, env);
      case Push(ifFull, block) =>
        hold := Push(ifFull, block);
        delays := !hold;
      case Pull(ifEmpty, block) =>
        hold := Pull(ifEmpty, block);
        delays := !hold;
      case RxFifoMove =>
      case Mov(dest, op, source) => hold, noDelay := Mov(pins, lines, seat, dest, op, source, env);
      case Irq(clear, wait, mode, index) =>
        hold := Irq(lines, clear, wait, seat.FlagOf(mode, index), env);
        delays := !hold;
      case Set(dest, data) => SetInstr(pins, seat, dest, data, env);
      }
    }

    /** One instruction word, and the delay it leaves. */
    method Exec(pins: PinBank, lines: seq<IrqLines>, seat: Seat, instr: nat, ghost env: M.Env) returns (hold: bool)
      requires Valid() && pins.Valid() && pins.Shown(env) && seat.Of(env)
      requires Separate(lines) && env.irq == Flags(Banks(lines))
      requires M.InstrSafe(reg, seat.base, Decode(instr))
      modifies this, tx, tx.buf, rx, rx.buf, pins`output, pins`direction, lines
      ensures Valid() && pins.Valid() && var o := M.Exec(old(Abs()), env, instr);
        && Abs() == o.m && (hold <==> o.flow != M.Next)
        && pins.Abs() == old(pins.Abs()).ApplyAll(o.fx.writes)
        && Banks(lines) == Defer(old(Banks(lines)), o.fx)
    {
      hide M.ExecDecoded, M.InstrSafe, Decode, Defer;
      var newDelay := DelayField(instr);
      var delays, noDelay;
      hold, delays, noDelay := Dispatch(pins, lines, seat, Decode(instr), env);
      if noDelay {
        newDelay := 0;
      }
      if delays {
        delay := newDelay;
      }
    }

    /** One clock cycle of an enabled machine. */
    method Step(pins: PinBank, lines: seq<IrqLines>, seat: Seat, prog: array<nat>, ghost env: M.Env)
      requires Valid() && enabled && pins.Valid() && pins.Shown(env) && seat.Of(env)
      requires Separate(lines) && env.irq == Flags(Banks(lines)) && env.prog == prog[..]
      requires M.StepSafe(Abs(), env)
      modifies this, tx, tx.buf, rx, rx.buf, pins`output, pins`direction, lines
      ensures Valid() && pins.Valid() && var s := M.StepMachine(old(Abs()), env);
        && Abs() == s.m
        && pins.Abs() == old(pins.Abs()).ApplyAll(s.fx.writes)
        && Banks(lines) == Defer(old(Banks(lines)), s.fx)
    {
      hide M.Exec, M.InstrSafe, Decode;
      var instr := if execPending then execInstr else prog[pc];
      var wasPending := execPending;
      var hold := true;
      if delay > 0 {
        delay := delay - 1;
      } else {
        hold := Exec(pins, lines, seat, instr, env);
      }
      if !hold {
        if wasPending {
          execPending := false;
        }
        if pc == reg.WrapTop() {
          pc := reg.WrapBottom();
        } else {
          pc := (pc + 1) % 256;
        }
      }
    }
  }
}
