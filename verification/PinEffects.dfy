/** What OUT, SET and MOV do to the pins: which pin gets which level or direction, after one
instruction and after a cycle of the whole emulator. */
module PinEffects {
  import opened Bits
  import opened Values
  import opened DataPath
  import opened Gpios
  import opened Instructions
  import opened Machines
  import opened System
  import opened Parallel

  predicate WritesLevels(i: Instr) {
    (i.Out? && i.outDest == OutPins) || (i.Mov? && i.movDest == MovPins) || (i.Set? && i.setDest == SetPins)
  }

  predicate WritesDirections(i: Instr) {
    || (i.Out? && i.outDest == OutPindirs) || (i.Mov? && i.movDest == MovPindirs)
    || (i.Set? && i.setDest == SetPindirs)
  }

  /** An OUT without data stalls; the others always run. */
  predicate Runs(m: Machine, i: Instr) {
    i.Out? ==> OutRuns(m)
  }

  function WindowFirst(m: Machine, i: Instr): Five {
    if i.Set? then m.reg.SetBase() else m.reg.OutBase()
  }

  function WindowWidth(m: Machine, i: Instr): (n: nat)
    ensures n <= 32
  {
    if i.Out? then i.outCount else if i.Set? then m.reg.SetCount() else m.reg.OutCount()
  }

  /** Bit `t` of what the instruction writes: of the OSR's low or high end, of the number in the
  SET, of the word moved. */
  predicate WrittenBit(m: Machine, env: Env, i: Instr, t: nat)
    requires env.Ok() && Runs(m, i) && t < 32
  {
    match i
    case Out(_, n) => OutBit(m, n, t)
    case Set(_, data) => (data / Pow2(t)) % 2 == 1
    case Mov(_, op, source) => MovBit(m, env, op, source, t)
    case _ => false
  }

  // ---------------------------------------------------------------- a run of writes

  lemma ApplyOne(g: Gpio, ws: seq<PinWrite>, w: PinWrite)
    ensures g.ApplyAll(ws + [w]) == g.ApplyAll(ws).Apply(w)
  {
    assert (ws + [w])[..|ws + [w]| - 1] == ws;
  }

  lemma PinsDiffer(env: Env, first: nat, s: nat, t: nat)
    requires s < t < 32
    ensures WindowPin(env, first, s) != WindowPin(env, first, t)
  {
    var a, b := first + s, first + t;
    assert a == 32 * (a / 32) + a % 32 && b == 32 * (b / 32) + b % 32;
  }

  /** `p` is not one of the first `n` pins of the window. */
  ghost predicate Outside(env: Env, first: nat, n: nat, p: Pin) {
    forall t :: 0 <= t < n ==> WindowPin(env, first, t) != p
  }

  lemma {:induction false} LevelsElsewhere(g: Gpio, env: Env, first: nat, data: Word, n: nat, p: Pin)
    requires n <= 32 && Outside(env, first, n, p)
    ensures g.ApplyAll(LevelWrites(env, first, data, n)).output[p] == g.output[p]
    decreases n
  {
    if n == 0 {
    } else {
      LevelsElsewhere(g, env, first, data, n - 1, p);
      LevelsOneMore(g, env, first, data, n - 1);
      assert WindowPin(env, first, n - 1) != p;
    }
  }

  lemma LevelsOneMore(g: Gpio, env: Env, first: nat, data: Word, n: nat)
    requires n < 32
    ensures var p, h := WindowPin(env, first, n), g.ApplyAll(LevelWrites(env, first, data, n));
      g.ApplyAll(LevelWrites(env, first, data, n + 1))
      == if env.control[p] then h.Apply(SetLevel(p, data[n])) else h
  {
    var ws, p := LevelWrites(env, first, data, n), WindowPin(env, first, n);
    LevelWritesSplit(env, first, data, n);
    hide Gpio.ApplyAll, Gpio.Apply, PinFrom, LevelWrites;
    ApplyOne(g, ws, SetLevel(p, data[n]));
    assert ws + [] == ws;
  }

  lemma LevelWritesSplit(env: Env, first: nat, data: Word, n: nat)
    requires n < 32
    ensures LevelWrites(env, first, data, n + 1)
         == LevelWrites(env, first, data, n) + LevelWrite(env, WindowPin(env, first, n), data[n])
  {
    hide LevelWrite;
  }

  /** Each owned pin of the window gets its own bit, every other level stays, and no direction
  changes. */
  lemma {:induction false} LevelsLand(g: Gpio, env: Env, first: nat, data: Word, n: nat, t: nat)
    requires t < n <= 32
    ensures var p, r := WindowPin(env, first, t), g.ApplyAll(LevelWrites(env, first, data, n));
      r.output[p] == if env.control[p] then data[t] else g.output[p]
    decreases n
  {
    if t == n - 1 {
      LevelLandsLast(g, env, first, data, t);
      assert t + 1 == n;
    } else {
      LevelsLand(g, env, first, data, n - 1, t);
      LevelStays(g, env, first, data, n - 1, t);
      assert n - 1 + 1 == n;
    }
    hide Gpio.ApplyAll, LevelWrites, WindowPin;
  }

  lemma LevelLandsLast(g: Gpio, env: Env, first: nat, data: Word, t: nat)
    requires t < 32
    ensures var p, r := WindowPin(env, first, t), g.ApplyAll(LevelWrites(env, first, data, t + 1));
      r.output[p] == if env.control[p] then data[t] else g.output[p]
  {
    forall s | 0 <= s < t ensures WindowPin(env, first, s) != WindowPin(env, first, t) {
      PinsDiffer(env, first, s, t);
    }
    hide Gpio.ApplyAll, LevelWrites, WindowPin;
    LevelsElsewhere(g, env, first, data, t, WindowPin(env, first, t));
    LevelsOneMore(g, env, first, data, t);
  }

  lemma LevelStays(g: Gpio, env: Env, first: nat, data: Word, n: nat, t: nat)
    requires t < n < 32
    ensures var p := WindowPin(env, first, t);
      g.ApplyAll(LevelWrites(env, first, data, n + 1)).output[p]
      == g.ApplyAll(LevelWrites(env, first, data, n)).output[p]
  {
    PinsDiffer(env, first, t, n);
    LevelsOneMore(g, env, first, data, n);
    hide Gpio.ApplyAll, LevelWrites, WindowPin;
  }

  lemma {:induction false} LevelsTurnNothing(g: Gpio, env: Env, first: nat, data: Word, n: nat)
    requires n <= 32
    ensures g.ApplyAll(LevelWrites(env, first, data, n)).direction == g.direction
    decreases n
  {
    if n == 0 {
    } else {
      LevelsTurnNothing(g, env, first, data, n - 1);
      LevelsOneMore(g, env, first, data, n - 1);
    }
  }

  lemma DirectionsOneMore(g: Gpio, env: Env, first: nat, data: Word, n: nat, ask: bool)
    requires n < 32
    ensures var p, h := WindowPin(env, first, n), g.ApplyAll(DirectionWrites(env, first, data, n, ask));
      g.ApplyAll(DirectionWrites(env, first, data, n + 1, ask))
      == if data[n] then (if env.control[p] then h.Apply(Drive(p)) else h)
         else if !ask || env.control[p] then h.Apply(Release(p))
         else h
  {
    var ws, p := DirectionWrites(env, first, data, n, ask), WindowPin(env, first, n);
    DirectionWritesSplit(env, first, data, n, ask);
    hide Gpio.ApplyAll, Gpio.Apply, PinFrom, DirectionWrites;
    ApplyOne(g, ws, Drive(p));
    ApplyOne(g, ws, Release(p));
    assert ws + [] == ws;
  }

  lemma DirectionWritesSplit(env: Env, first: nat, data: Word, n: nat, ask: bool)
    requires n < 32
    ensures DirectionWrites(env, first, data, n + 1, ask)
         == DirectionWrites(env, first, data, n, ask) + DirectionWrite(env, WindowPin(env, first, n), data[n], ask)
  {
    hide DirectionWrite;
  }

  lemma {:induction false} DirectionsElsewhere(g: Gpio, env: Env, first: nat, data: Word, n: nat, ask: bool, p: Pin)
    requires n <= 32 && Outside(env, first, n, p)
    ensures var r := g.ApplyAll(DirectionWrites(env, first, data, n, ask));
      r.output[p] == g.output[p] && r.direction[p] == g.direction[p]
    decreases n
  {
    if n == 0 {
    } else {
      DirectionsElsewhere(g, env, first, data, n - 1, ask, p);
      DirectionsOneMore(g, env, first, data, n - 1, ask);
      assert WindowPin(env, first, n - 1) != p;
    }
    hide Gpio.ApplyAll, DirectionWrites;
  }

  /** From `g` to `r` a one bit made an owned pin an output and left its level; a zero bit made it
  a high input, if it was owned or nobody asked. */
  predicate Turned(g: Gpio, r: Gpio, p: Pin, bit: bool, ask: bool, owned: bool) {
    && r.direction[p] == (if bit then g.direction[p] || owned else g.direction[p] && ask && !owned)
    && r.output[p] == (g.output[p] || (!bit && (!ask || owned)))
  }

  lemma {:induction false} DirectionsLand(g: Gpio, env: Env, first: nat, data: Word, n: nat, ask: bool, t: nat)
    requires t < n <= 32
    ensures var p, r := WindowPin(env, first, t), g.ApplyAll(DirectionWrites(env, first, data, n, ask));
      Turned(g, r, p, data[t], ask, env.control[p])
    decreases n
  {
    if t == n - 1 {
      DirectionLandsLast(g, env, first, data, ask, t);
      assert t + 1 == n;
    } else {
      DirectionsLand(g, env, first, data, n - 1, ask, t);
      DirectionStays(g, env, first, data, n - 1, ask, t);
      assert n - 1 + 1 == n;
    }
    hide Gpio.ApplyAll, DirectionWrites, WindowPin, Turned;
  }

  lemma DirectionLandsLast(g: Gpio, env: Env, first: nat, data: Word, ask: bool, t: nat)
    requires t < 32
    ensures var p, r := WindowPin(env, first, t), g.ApplyAll(DirectionWrites(env, first, data, t + 1, ask));
      Turned(g, r, p, data[t], ask, env.control[p])
  {
    forall s | 0 <= s < t ensures WindowPin(env, first, s) != WindowPin(env, first, t) {
      PinsDiffer(env, first, s, t);
    }
    hide Gpio.ApplyAll, DirectionWrites, WindowPin;
    DirectionsElsewhere(g, env, first, data, t, ask, WindowPin(env, first, t));
    DirectionsOneMore(g, env, first, data, t, ask);
  }

  lemma DirectionStays(g: Gpio, env: Env, first: nat, data: Word, n: nat, ask: bool, t: nat)
    requires t < n < 32
    ensures var p := WindowPin(env, first, t);
      var r := g.ApplyAll(DirectionWrites(env, first, data, n + 1, ask));
      var h := g.ApplyAll(DirectionWrites(env, first, data, n, ask));
      Turned(g, h, p, data[t], ask, env.control[p]) ==> Turned(g, r, p, data[t], ask, env.control[p])
  {
    var p, q := WindowPin(env, first, t), WindowPin(env, first, n);
    var h := g.ApplyAll(DirectionWrites(env, first, data, n, ask));
    PinsDiffer(env, first, t, n);
    DirectionsOneMore(g, env, first, data, n, ask);
    OtherPin(h, Drive(q), p);
    OtherPin(h, Release(q), p);
    hide Gpio.ApplyAll, Gpio.Apply, DirectionWrites, WindowPin;
  }

  // ---------------------------------------------------------------- one instruction

  lemma SetBits(data: Five, t: nat)
    requires t < 32
    ensures ToBits(data, 32)[t] <==> (data / Pow2(t)) % 2 == 1
  {
    ToBitsDigit(data, 32, t);
  }

  /** The bits an instruction hands to the pin loop are the ones it should. */
  lemma FieldOf(m: Machine, env: Env, i: Instr) returns (data: Word)
    requires env.Ok() && Runs(m, i) && (WritesLevels(i) || WritesDirections(i))
    ensures forall t :: 0 <= t < WindowWidth(m, i) ==> (data[t] <==> WrittenBit(m, env, i, t))
    ensures ExecDecoded(m, env, i).fx.writes
         == if WritesLevels(i) then LevelWrites(env, WindowFirst(m, i), data, WindowWidth(m, i))
            else DirectionWrites(env, WindowFirst(m, i), data, WindowWidth(m, i), i.Set?)
  {
    match i {
      case Out(dest, n) => data := OutField(m, env, dest, n);
      case Mov(dest, op, source) => data := MovField(m, env, dest, op, source);
      case Set(dest, number) => data := SetField(number);
    }
    hide MovApply, MovInput, ToBits, Pow2, LevelWrites, DirectionWrites, OutBit, MovBit, ExecOut, ExecMov;
    hide Regs.OutBase, Regs.OutCount, Regs.SetBase, Regs.SetCount, OutRuns;
  }

  lemma OutField(m: Machine, env: Env, dest: OutDest, n: Count) returns (data: Word)
    requires env.Ok() && OutRuns(m) && (dest == OutPins || dest == OutPindirs)
    ensures forall t :: 0 <= t < 32 ==> (data[t] <==> OutBit(m, n, t))
    ensures ExecOut(m, env, dest, n).fx.writes
         == if dest == OutPins then LevelWrites(env, m.reg.OutBase(), data, n)
            else DirectionWrites(env, m.reg.OutBase(), data, n, false)
  {
    data := OutData(OutSource(m), n, m.reg.OutRight());
    OutFieldAndRest(m, n);
    OutWritesField(m, env, dest, n, if Refills(m) then PullOsr(m) else m);
    hide OutData, OutRest, IsOutRest, LevelWrites, DirectionWrites, OutBit, OutSource, ExecOut, Regs.OutBase;
  }

  lemma MovField(m: Machine, env: Env, dest: MovDest, op: MovOp, source: MovSource) returns (data: Word)
    requires env.Ok() && (dest == MovPins || dest == MovPindirs)
    ensures forall t :: 0 <= t < 32 ==> (data[t] <==> MovBit(m, env, op, source, t))
    ensures ExecMov(m, env, dest, op, source).fx.writes
         == if dest == MovPins then LevelWrites(env, m.reg.OutBase(), data, m.reg.OutCount())
            else DirectionWrites(env, m.reg.OutBase(), data, m.reg.OutCount(), false)
  {
    data := MovApply(op, MovInput(m, env, source));
    MovedBits(m, env, op, source);
    hide MovApply, MovInput, LevelWrites, DirectionWrites, MovBit, Regs.OutBase, Regs.OutCount;
  }

  lemma SetField(number: Five) returns (data: Word)
    ensures data == ToBits(number, 32)
    ensures forall t :: 0 <= t < 32 ==> (data[t] <==> (number / Pow2(t)) % 2 == 1)
  {
    data := ToBits(number, 32);
    forall t | 0 <= t < 32 ensures data[t] <==> (number / Pow2(t)) % 2 == 1 {
      SetBits(number, t);
    }
    hide ToBits, Pow2;
  }

  lemma OutWritesField(m: Machine, env: Env, dest: OutDest, n: Count, m1: Machine)
    requires env.Ok() && OutRuns(m) && (dest == OutPins || dest == OutPindirs)
    requires m1 == if Refills(m) then PullOsr(m) else m
    ensures var data := OutData(OutSource(m), n, m.reg.OutRight());
      ExecOut(m, env, dest, n).fx.writes
      == if dest == OutPins then LevelWrites(env, m.reg.OutBase(), data, n)
         else DirectionWrites(env, m.reg.OutBase(), data, n, false)
  {
    hide OutData, OutRest, LevelWrites, DirectionWrites;
  }

  /** OUT, SET and MOV PINS: every owned pin of the window gets its bit as its level; no direction
  changes. */
  lemma PinLevel(m: Machine, env: Env, i: Instr, g: Gpio, t: nat)
    requires env.Ok() && Runs(m, i) && WritesLevels(i) && t < WindowWidth(m, i)
    ensures var p, r := WindowPin(env, WindowFirst(m, i), t), g.ApplyAll(ExecDecoded(m, env, i).fx.writes);
      && (r.output[p] <==> if env.control[p] then WrittenBit(m, env, i, t) else g.output[p])
      && r.direction == g.direction
  {
    var data := FieldOf(m, env, i);
    LevelsLand(g, env, WindowFirst(m, i), data, WindowWidth(m, i), t);
    LevelsTurnNothing(g, env, WindowFirst(m, i), data, WindowWidth(m, i));
    hide ExecDecoded, Gpio.ApplyAll, WrittenBit, WindowFirst, WindowWidth;
  }

  /** OUT, SET and MOV PINDIRS: a one bit makes an owned pin an output and leaves its level, a
  zero bit makes a pin a high input: any pin, except that SET asks for ownership. */
  lemma PinDirection(m: Machine, env: Env, i: Instr, g: Gpio, t: nat)
    requires env.Ok() && Runs(m, i) && WritesDirections(i) && t < WindowWidth(m, i)
    ensures var p, r := WindowPin(env, WindowFirst(m, i), t), g.ApplyAll(ExecDecoded(m, env, i).fx.writes);
      if WrittenBit(m, env, i, t) then
        r.direction[p] == (g.direction[p] || env.control[p]) && r.output[p] == g.output[p]
      else if i.Set? && !env.control[p] then
        r.direction[p] == g.direction[p] && r.output[p] == g.output[p]
      else
        !r.direction[p] && r.output[p]
  {
    var data := FieldOf(m, env, i);
    DirectionsLand(g, env, WindowFirst(m, i), data, WindowWidth(m, i), i.Set?, t);
    hide ExecDecoded, Gpio.ApplyAll, WrittenBit, WindowFirst, WindowWidth;
  }

  lemma WritesNothing(m: Machine, env: Env, i: Instr)
    requires env.Ok() && !(Runs(m, i) && (WritesLevels(i) || WritesDirections(i)))
    ensures ExecDecoded(m, env, i).fx.writes == []
  {
    hide OutData, OutRest, MovApply, MovInput;
  }

  /** Every other pin stays as it is. */
  lemma PinElsewhere(m: Machine, env: Env, i: Instr, g: Gpio, p: Pin)
    requires env.Ok()
    requires Runs(m, i) && (WritesLevels(i) || WritesDirections(i)) ==>
      Outside(env, WindowFirst(m, i), WindowWidth(m, i), p)
    ensures var r := g.ApplyAll(ExecDecoded(m, env, i).fx.writes);
      r.output[p] == g.output[p] && r.direction[p] == g.direction[p]
  {
    if Runs(m, i) && (WritesLevels(i) || WritesDirections(i)) {
      var data := FieldOf(m, env, i);
      if WritesLevels(i) {
        LevelsElsewhere(g, env, WindowFirst(m, i), data, WindowWidth(m, i), p);
        LevelsTurnNothing(g, env, WindowFirst(m, i), data, WindowWidth(m, i));
      } else {
        DirectionsElsewhere(g, env, WindowFirst(m, i), data, WindowWidth(m, i), i.Set?, p);
      }
      hide ExecDecoded, Gpio.ApplyAll, WrittenBit, WindowFirst, WindowWidth, Outside;
    } else {
      WritesNothing(m, env, i);
      hide ExecDecoded;
    }
  }

  // ---------------------------------------------------------------- one cycle

  /** Machine `i` of the emulator executes `instr` in this cycle. */
  ghost predicate Executing(st: State, i: Index, instr: Instr)
    requires st.Shape()
  {
    var m := st.sm[i];
    && m.enabled && m.delay == 0 && (m.execPending || m.pc < NUM_INSTRS_PER_BLOCK)
    && instr == Decode(if m.execPending then m.execInstr else st.prog[i / 4][m.pc])
  }

  lemma ExecutingWrites(st: State, i: Index, instr: Instr)
    requires st.Shape() && Executing(st, i, instr)
    ensures StepOf(st, i).fx.writes == ExecDecoded(st.sm[i], EnvOf(st, i), instr).fx.writes
    ensures EnvOf(st, i).base == st.base[i / 4] && EnvOf(st, i).control == st.gpio.control[i / 4]
    ensures EnvOf(st, i).level == st.gpio.input && EnvOf(st, i).inverted == st.gpio.inverted
  {
    hide ExecDecoded, Decode;
  }

  lemma {:induction false} LaterKeepLevel(st: State, i: Index, p: Pin, n: nat)
    requires st.Shape() && i < n <= NUM_MACHINES && forall j: Index :: i < j ==> NoLevel(StepOf(st, j).fx.writes, p)
    ensures GpioUpTo(st, n).output[p] == GpioUpTo(st, i + 1).output[p]
    decreases n
  {
    if n == i + 1 {
    } else {
      LaterKeepLevel(st, i, p, n - 1);
      GpioUpToNext(st, n - 1);
      UnwrittenUnchanged(GpioUpTo(st, n - 1), StepOf(st, n - 1).fx.writes, p);
      hide GpioUpTo, StepOf, Gpio.ApplyAll;
    }
  }

  lemma {:induction false} LaterKeepDirection(st: State, i: Index, p: Pin, n: nat)
    requires st.Shape() && i < n <= NUM_MACHINES && forall j: Index :: i < j ==> NoDirection(StepOf(st, j).fx.writes, p)
    ensures GpioUpTo(st, n).direction[p] == GpioUpTo(st, i + 1).direction[p]
    decreases n
  {
    if n == i + 1 {
    } else {
      LaterKeepDirection(st, i, p, n - 1);
      GpioUpToNext(st, n - 1);
      UnwrittenUnchanged(GpioUpTo(st, n - 1), StepOf(st, n - 1).fx.writes, p);
      hide GpioUpTo, StepOf, Gpio.ApplyAll;
    }
  }

  /** The pins after a cycle, machine by machine. */
  lemma CycleEndsWith(st: State, i: Index, p: Pin)
    requires st.Shape()
    ensures GpioUpTo(st, i + 1) == GpioUpTo(st, i).ApplyAll(StepOf(st, i).fx.writes)
    ensures (forall j: Index :: i < j ==> NoLevel(StepOf(st, j).fx.writes, p)) ==>
      Cycle(st).gpio.output[p] == GpioUpTo(st, i + 1).output[p]
    ensures (forall j: Index :: i < j ==> NoDirection(StepOf(st, j).fx.writes, p)) ==>
      Cycle(st).gpio.direction[p] == GpioUpTo(st, i + 1).direction[p]
  {
    GpioUpToNext(st, i);
    CyclePins(st);
    assert ASCENDING[..NUM_MACHINES] == ASCENDING;
    if forall j: Index :: i < j ==> NoLevel(StepOf(st, j).fx.writes, p) {
      LaterKeepLevel(st, i, p, NUM_MACHINES);
    }
    if forall j: Index :: i < j ==> NoDirection(StepOf(st, j).fx.writes, p) {
      LaterKeepDirection(st, i, p, NUM_MACHINES);
    }
    hide Cycle, StepOf, Gpio.ApplyAll, NoLevel, NoDirection;
  }

  /** In the emulator: after a cycle in which machine `i` executes OUT, SET or MOV PINS, every
  owned pin of its window that no later machine levels has its bit as its level. */
  lemma CycleLevel(st: State, i: Index, instr: Instr, t: nat, p: Pin)
    requires st.Shape() && Executing(st, i, instr) && WritesLevels(instr) && Runs(st.sm[i], instr)
    requires t < WindowWidth(st.sm[i], instr) && p == PinFrom(WindowFirst(st.sm[i], instr), t, st.base[i / 4])
    requires st.gpio.control[i / 4][p] && forall j: Index :: i < j ==> NoLevel(StepOf(st, j).fx.writes, p)
    ensures Cycle(st).gpio.output[p] <==> WrittenBit(st.sm[i], EnvOf(st, i), instr, t)
  {
    ExecutingWrites(st, i, instr);
    CycleEndsWith(st, i, p);
    PinLevel(st.sm[i], EnvOf(st, i), instr, GpioUpTo(st, i), t);
    assert WindowPin(EnvOf(st, i), WindowFirst(st.sm[i], instr), t) == p;
    hide *;
  }

  /** In the emulator: after OUT, SET or MOV PINDIRS a one bit has made an owned pin an output, a
  zero bit a high input, if no later machine writes the pin. */
  lemma CycleDirection(st: State, i: Index, instr: Instr, t: nat, p: Pin)
    requires st.Shape() && Executing(st, i, instr) && WritesDirections(instr) && Runs(st.sm[i], instr)
    requires t < WindowWidth(st.sm[i], instr) && p == PinFrom(WindowFirst(st.sm[i], instr), t, st.base[i / 4])
    requires st.gpio.control[i / 4][p] && forall j: Index :: i < j ==> !Touches(StepOf(st, j).fx.writes, p)
    ensures Cycle(st).gpio.direction[p] <==> WrittenBit(st.sm[i], EnvOf(st, i), instr, t)
    ensures !WrittenBit(st.sm[i], EnvOf(st, i), instr, t) ==> Cycle(st).gpio.output[p]
  {
    ExecutingWrites(st, i, instr);
    UntouchedIsUnset(st, i, p);
    CycleEndsWith(st, i, p);
    PinDirection(st.sm[i], EnvOf(st, i), instr, GpioUpTo(st, i), t);
    assert WindowPin(EnvOf(st, i), WindowFirst(st.sm[i], instr), t) == p;
    assert WritesDirections(instr) && instr.Set? ==> EnvOf(st, i).control[p];
    hide *;
  }

  lemma UntouchedIsUnset(st: State, i: Index, p: Pin)
    requires st.Shape() && forall j: Index :: i < j ==> !Touches(StepOf(st, j).fx.writes, p)
    ensures forall j: Index :: i < j ==> NoLevel(StepOf(st, j).fx.writes, p) && NoDirection(StepOf(st, j).fx.writes, p)
  {
    forall j: Index | i < j
      ensures NoLevel(StepOf(st, j).fx.writes, p) && NoDirection(StepOf(st, j).fx.writes, p)
    {
      assert !Touches(StepOf(st, j).fx.writes, p);
      hide StepOf;
    }
  }
}
