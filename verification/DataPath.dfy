/** What IN, OUT, MOV and SET do to a machine's registers, bit by bit: which bit of which
register or pin ends up where.  Nothing here is said in terms of the functions that compute it. */
module DataPath {
  import opened Bits
  import opened Values
  import opened Gpios
  import opened Instructions
  import opened Machines

  predicate PinHigh(env: Env, pin: Pin) {
    env.level[pin] != env.inverted[pin]
  }

  /** The `k`-th pin of the 32-pin window, counted from `first`. */
  function WindowPin(env: Env, first: nat, k: nat): Pin {
    PinFrom(first, k, env.base)
  }

  function PinFrom(first: nat, k: nat, base: Base): Pin {
    (first + k) % 32 + base
  }

  function Capped(n: nat): nat { if n > 32 then 32 else n }

  /** Where a machine goes when it does not jump. */
  function Successor(m: Machine): nat {
    if m.pc == m.reg.WrapTop() then m.reg.WrapBottom() else (m.pc + 1) % 256
  }

  lemma PinsInBits(env: Env, first: nat, n: nat)
    ensures forall k :: 0 <= k < 32 ==> (PinsIn(env, first, n)[k] <==> k < n && PinHigh(env, WindowPin(env, first, k)))
  {
  }

  // ---------------------------------------------------------------- IN

  /** Bit `k` of what IN reads. */
  predicate InBit(m: Machine, env: Env, source: InSource, k: nat)
    requires k < 32
  {
    match source
    case InPins => PinHigh(env, WindowPin(env, m.reg.InBase(), k))
    case InX => m.x[k]
    case InY => m.y[k]
    case InNull => false
    case InIsr => m.isr[k]
    case InOsr => m.osr[k]
    case InReserved => false
  }

  /** Bit `k` of the ISR after shifting in the `n` bits read: from the top, lowest bit lowest, or
  from the bottom. */
  predicate ShiftedBit(m: Machine, env: Env, source: InSource, n: Count, k: nat)
    requires k < 32
  {
    if m.reg.InRight() then (if k >= 32 - n then InBit(m, env, source, k - (32 - n)) else m.isr[k + n])
    else if k < n then InBit(m, env, source, k)
    else m.isr[k - n]
  }

  ghost predicate ShiftedInto(w: Word, m: Machine, env: Env, source: InSource, n: Count) {
    forall k :: 0 <= k < 32 ==> (w[k] <==> ShiftedBit(m, env, source, n, k))
  }

  lemma ShiftInBits(isr: Word, data: Word, n: Count)
    ensures forall k :: 0 <= k < 32 ==>
      (ShiftIn(isr, data, n, true)[k] <==> if k >= 32 - n then data[k - (32 - n)] else isr[k + n])
    ensures forall k :: 0 <= k < 32 ==>
      (ShiftIn(isr, data, n, false)[k] <==> if k < n then data[k] else isr[k - n])
  {
  }

  lemma InDataBits(m: Machine, env: Env, source: InSource, n: Count)
    ensures forall k :: 0 <= k < n ==> (InData(m, env, source, n)[k] <==> InBit(m, env, source, k))
  {
    PinsInBits(env, m.reg.InBase(), n);
  }

  lemma InShifted(m: Machine, env: Env, source: InSource, n: Count)
    ensures ShiftedInto(ShiftIn(m.isr, InData(m, env, source, n), n, m.reg.InRight()), m, env, source, n)
  {
    ShiftInBits(m.isr, InData(m, env, source, n), n);
    InDataBits(m, env, source, n);
    hide ShiftIn, InData, InBit;
  }

  /** A first attempt at IN: the word built, what becomes of it, and all that stays. */
  lemma InResult(m: Machine, env: Env, source: InSource, n: Count) returns (w: Word)
    requires env.Ok() && m.delay == 0 && !m.stalled && Decode(Current(m, env.prog)) == In(source, n)
    ensures ShiftedInto(w, m, env, source, n)
    ensures var r := StepMachine(m, env).m; var count := Capped(m.isrCount + n);
      && r.x == m.x && r.y == m.y && r.osr == m.osr && r.osrCount == m.osrCount && r.tx == m.tx
      && (if !(m.reg.AutoPush() && count >= m.reg.PushThreshold()) then
            r.isr == w && r.isrCount == count && r.rx == m.rx && r.pc == Successor(m) && !r.stalled
          else if |m.rx.items| < 4 then
            && r.isr == ZERO && r.isrCount == 0 && r.rx.items == m.rx.items + [w]
            && r.pc == Successor(m) && !r.stalled
          else r.isr == w && r.isrCount == count && r.rx == m.rx && r.pc == m.pc && r.stalled)
  {
    w := ShiftIn(m.isr, InData(m, env, source, n), n, m.reg.InRight());
    InShifted(m, env, source, n);
    hide ShiftIn, InData, ShiftedInto, Decode, DelayField, Regs.WrapTop, Regs.WrapBottom, Regs.PushThreshold;
  }

  /** Only pin `p` of the window reads high. */
  ghost predicate OnlyPin(env: Env, p: Pin) {
    env.base <= p < env.base + 32 && forall q: Pin :: env.base <= q < env.base + 32 ==> (PinHigh(env, q) <==> q == p)
  }

  /** How far pin `p` is into the window that starts at `first`. */
  function Offset(env: Env, first: Five, p: Pin): nat
    requires env.base <= p < env.base + 32
  {
    (p - env.base + 32 - first) % 32
  }

  lemma OffsetIsPlace(env: Env, first: Five, p: Pin, k: nat)
    requires env.base <= p < env.base + 32 && k < 32
    ensures WindowPin(env, first, k) == p <==> k == Offset(env, first, p)
  {
    var q := p - env.base;
    if first + k < 32 {
      assert WindowPin(env, first, k) == first + k + env.base;
    } else {
      assert (first + k) % 32 == first + k - 32;
    }
    if q >= first {
      assert q + 32 - first == 32 + (q - first);
    }
  }

  lemma OnlyPinBit(env: Env, first: Five, p: Pin, k: nat)
    requires OnlyPin(env, p) && k < 32
    ensures PinHigh(env, WindowPin(env, first, k)) <==> k == Offset(env, first, p)
  {
    OffsetIsPlace(env, first, p, k);
  }

  /** The bits of a field of pins with one high pin, as a number. */
  lemma OnePinValue(env: Env, first: Five, p: Pin, n: nat, w: Word)
    requires OnlyPin(env, p)
    requires forall k :: 0 <= k < 32 ==> (w[k] <==> k < n && PinHigh(env, WindowPin(env, first, k)))
    ensures var off := Offset(env, first, p); Val(w) == if off < n then Pow2(off) else 0
  {
    var off := Offset(env, first, p);
    forall k | 0 <= k < 32 ensures w[k] <==> k < n && k == off {
      OnlyPinBit(env, first, p, k);
    }
    if off < n {
      ValOneBit(w, off);
    } else {
      ValNoBit(w);
    }
  }

  /** `in pins, n` into an empty ISR, shifting left, with one high pin: the ISR is the power of
  two of that pin's place in the window, or zero if the field does not reach it. */
  lemma InPinsValue(m: Machine, env: Env, n: Count, p: Pin)
    requires env.Ok() && m.delay == 0 && !m.stalled && Decode(Current(m, env.prog)) == In(InPins, n)
    requires OnlyPin(env, p) && m.isr == ZERO && !m.reg.InRight() && !m.reg.AutoPush()
    ensures var off := Offset(env, m.reg.InBase(), p);
      Val(StepMachine(m, env).m.isr) == if off < n then Pow2(off) else 0
  {
    var w := InResult(m, env, InPins, n);
    OnePinValue(env, m.reg.InBase(), p, n, w);
    hide StepMachine, Decode, Val, Pow2, Offset;
  }

  /** In any environment bit `k` of `in pins, n` follows the level and the inversion of its own
  pin and of no other. */
  lemma InPinsFollow(m: Machine, env: Env, env2: Env, n: Count, k: nat)
    requires env.Ok() && env2.Ok() && m.delay == 0 && !m.stalled && k < n
    requires Decode(Current(m, env.prog)) == In(InPins, n)
    requires env2 == env.(level := env2.level, inverted := env2.inverted)
    requires !m.reg.AutoPush()
    ensures var p, at := WindowPin(env, m.reg.InBase(), k), if m.reg.InRight() then 32 - n + k else k;
      StepMachine(m, env).m.isr[at] != StepMachine(m, env2).m.isr[at]
      <==> (env.level[p] != env2.level[p]) != (env.inverted[p] != env2.inverted[p])
  {
    hide StepMachine, Decode, ShiftedInto, InBit, Regs.PushThreshold;
    var w := InResult(m, env, InPins, n);
    var w2 := InResult(m, env2, InPins, n);
    FieldAt(w, m, env, InPins, n, k);
    FieldAt(w2, m, env2, InPins, n, k);
    PinInBit(m, env, k);
    PinInBit(m, env2, k);
  }

  lemma FieldAt(w: Word, m: Machine, env: Env, source: InSource, n: Count, k: nat)
    requires ShiftedInto(w, m, env, source, n) && k < n
    ensures w[if m.reg.InRight() then 32 - n + k else k] <==> InBit(m, env, source, k)
  {
    var at := if m.reg.InRight() then 32 - n + k else k;
    assert w[at] <==> ShiftedBit(m, env, source, n, at);
  }

  lemma PinInBit(m: Machine, env: Env, k: nat)
    requires k < 32
    ensures InBit(m, env, InPins, k) <==> PinHigh(env, WindowPin(env, m.reg.InBase(), k))
  {
  }

  // ---------------------------------------------------------------- OUT

  /** OUT with autopull refills the OSR first. */
  predicate Refills(m: Machine) {
    m.reg.AutoPull() && m.osrCount >= m.reg.PullThreshold()
  }

  predicate OutRuns(m: Machine) {
    Refills(m) ==> m.tx.items != []
  }

  function OutSource(m: Machine): Word
    requires OutRuns(m)
  {
    if Refills(m) then m.tx.items[0] else m.osr
  }

  /** Bit `k` of the field OUT takes: from the low end shifting right, from the top shifting left. */
  predicate OutBit(m: Machine, n: Count, k: nat)
    requires OutRuns(m) && k < 32
  {
    k < n && if m.reg.OutRight() then OutSource(m)[k] else OutSource(m)[32 - n + k]
  }

  ghost predicate IsOutField(w: Word, m: Machine, n: Count)
    requires OutRuns(m)
  {
    forall k :: 0 <= k < 32 ==> (w[k] <==> OutBit(m, n, k))
  }

  ghost predicate IsOutRest(w: Word, m: Machine, n: Count)
    requires OutRuns(m)
  {
    forall k :: 0 <= k < 32 ==>
      (w[k] <==> if m.reg.OutRight() then k + n < 32 && OutSource(m)[k + n] else k >= n && OutSource(m)[k - n])
  }

  lemma OutBits(osr: Word, n: Count)
    ensures forall k :: 0 <= k < 32 ==> (OutData(osr, n, true)[k] <==> k < n && osr[k])
    ensures forall k :: 0 <= k < 32 ==> (OutData(osr, n, false)[k] <==> k < n && osr[32 - n + k])
    ensures forall k :: 0 <= k < 32 ==> (OutRest(osr, n, true)[k] <==> k + n < 32 && osr[k + n])
    ensures forall k :: 0 <= k < 32 ==> (OutRest(osr, n, false)[k] <==> k >= n && osr[k - n])
  {
  }

  /** Bits of a number. */
  lemma Digits(b: Bits, k: nat)
    requires k < |b|
    ensures (Val(b) / Pow2(k)) % 2 == 1 <==> b[k]
  {
    ToBitsVal(b);
    ToBitsDigit(Val(b), |b|, k);
  }

  /** Where the field `w` goes, what remains of the OSR, and all that stays. */
  ghost predicate OutLanded(m: Machine, r: Machine, dest: OutDest, n: Count, w: Word)
    requires OutRuns(m)
  {
    && IsOutRest(r.osr, m, n) && r.osrCount == Capped((if Refills(m) then 0 else m.osrCount) + n)
    && r.tx.items == (if Refills(m) then m.tx.items[1..] else m.tx.items) && r.rx == m.rx
    && r.x == (if dest == OutX then w else m.x) && r.y == (if dest == OutY then w else m.y)
    && r.isr == (if dest == OutIsr then w else m.isr) && r.isrCount == (if dest == OutIsr then n else m.isrCount)
    && r.pc == (if dest == OutPc then Val(w[..8]) else Successor(m))
    && (dest == OutExec ==> r.execPending == !m.execPending && r.execInstr == Val(w[..16]) && r.delay == 0)
  }

  /** OUT that has data takes its field and lands it. */
  lemma OutResult(m: Machine, env: Env, dest: OutDest, n: Count) returns (w: Word)
    requires env.Ok() && m.delay == 0 && OutRuns(m) && Decode(Current(m, env.prog)) == Out(dest, n)
    ensures IsOutField(w, m, n) && OutLanded(m, StepMachine(m, env).m, dest, n, w)
  {
    w := OutData(OutSource(m), n, m.reg.OutRight());
    OutFieldAndRest(m, n);
    var m1 := if Refills(m) then PullOsr(m) else m;
    OutNowResult(m1, env, dest, n);
    OutStep(m, env, dest, n, m1);
    LandedFrom(m, m1, OutNow(m1, env, dest, n), StepMachine(m, env).m, dest, n, w);
    hide OutData, OutRest, OutNow, Decode, StepMachine, IsOutField, IsOutRest, OutDone, OutLanded;
  }

  lemma LandedFrom(m: Machine, m1: Machine, o: Outcome, r: Machine, dest: OutDest, n: Count, w: Word)
    requires OutRuns(m) && m1 == (if Refills(m) then PullOsr(m) else m)
    requires OutDone(m1, o.m, dest, n, w) && IsOutRest(OutRest(OutSource(m), n, m.reg.OutRight()), m, n)
    requires o.m.pc == if dest == OutPc then Val(w[..8]) else m1.pc
    requires o.flow == if dest == OutPc then Jumped else Next
    requires o.m.execPending == (dest == OutExec || m1.execPending)
    requires o.flow == Next ==> r == Retire(o.m, m.execPending).(delay := r.delay)
    requires o.flow == Jumped ==> r == o.m.(delay := r.delay)
    requires dest == OutExec ==> r.delay == 0
    ensures OutLanded(m, r, dest, n, w)
  {
    hide IsOutRest, OutRest, Val, Regs.OutRight, Regs.WrapTop, Regs.WrapBottom, Regs.AutoPull, Regs.PullThreshold;
  }

  lemma OutFieldAndRest(m: Machine, n: Count)
    requires OutRuns(m)
    ensures IsOutField(OutData(OutSource(m), n, m.reg.OutRight()), m, n)
    ensures IsOutRest(OutRest(OutSource(m), n, m.reg.OutRight()), m, n)
  {
    OutBits(OutSource(m), n);
    hide OutData, OutRest, OutSource;
  }

  lemma OutStep(m: Machine, env: Env, dest: OutDest, n: Count, m1: Machine)
    requires env.Ok() && m.delay == 0 && OutRuns(m) && Decode(Current(m, env.prog)) == Out(dest, n)
    requires m1 == if Refills(m) then PullOsr(m) else m
    requires OutNow(m1, env, dest, n).flow != Stall
    ensures var o, r := OutNow(m1, env, dest, n), StepMachine(m, env).m;
      && (o.flow == Next ==> r == Retire(o.m, m.execPending).(delay := r.delay))
      && (o.flow == Jumped ==> r == o.m.(delay := r.delay))
      && (o.noDelay ==> r.delay == 0)
  {
    hide OutNow, Decode, DelayField, Regs.PullThreshold;
  }

  /** OUT with data in the OSR of `m`: all but the PC of the machine it leaves. */
  ghost predicate OutDone(m: Machine, r: Machine, dest: OutDest, n: Count, w: Word) {
    && r.osr == OutRest(m.osr, n, m.reg.OutRight()) && r.osrCount == Capped(m.osrCount + n)
    && r.tx == m.tx && r.rx == m.rx && r.reg == m.reg
    && r.x == (if dest == OutX then w else m.x) && r.y == (if dest == OutY then w else m.y)
    && r.isr == (if dest == OutIsr then w else m.isr) && r.isrCount == (if dest == OutIsr then n else m.isrCount)
    && r.execInstr == (if dest == OutExec then Val(w[..16]) else m.execInstr)
  }

  lemma OutNowResult(m: Machine, env: Env, dest: OutDest, n: Count)
    ensures var o := OutNow(m, env, dest, n); var w := OutData(m.osr, n, m.reg.OutRight());
      && OutDone(m, o.m, dest, n, w)
      && o.m.pc == (if dest == OutPc then Val(w[..8]) else m.pc) && o.flow == (if dest == OutPc then Jumped else Next)
      && (o.noDelay <==> dest == OutExec)
      && o.m.execPending == (dest == OutExec || m.execPending)
  {
  }

  // ---------------------------------------------------------------- MOV

  /** MOV STATUS: all ones or all zeros. */
  predicate StatusHigh(m: Machine, env: Env)
    requires env.Ok()
  {
    match m.reg.StatusSel()
    case 0 => |m.tx.items| < m.reg.StatusN()
    case 1 => |m.rx.items| < m.reg.StatusN()
    case 2 =>
      var f := env.FlagOf(IrqModeOf(m.reg.StatusN() / 8), m.reg.StatusN() % 8);
      env.irq[f.block][f.index]
    case _ => false
  }

  predicate SourceBit(m: Machine, env: Env, source: MovSource, k: nat)
    requires env.Ok() && k < 32
  {
    match source
    case FromPins => k < m.reg.InCount() && PinHigh(env, WindowPin(env, m.reg.InBase(), k))
    case FromX => m.x[k]
    case FromY => m.y[k]
    case FromNull => false
    case FromReserved => false
    case FromStatus => StatusHigh(m, env)
    case FromIsr => m.isr[k]
    case FromOsr => m.osr[k]
  }

  /** Bit `k` of the word MOV moves. */
  predicate MovBit(m: Machine, env: Env, op: MovOp, source: MovSource, k: nat)
    requires env.Ok() && k < 32
  {
    match op
    case Copy => SourceBit(m, env, source, k)
    case Invert => !SourceBit(m, env, source, k)
    case BitReverse => SourceBit(m, env, source, 31 - k)
    case OpReserved => SourceBit(m, env, source, k)
  }

  ghost predicate IsMoved(w: Word, m: Machine, env: Env, op: MovOp, source: MovSource)
    requires env.Ok()
  {
    forall k :: 0 <= k < 32 ==> (w[k] <==> MovBit(m, env, op, source, k))
  }

  lemma MovInputBits(m: Machine, env: Env, source: MovSource)
    requires env.Ok()
    ensures forall k :: 0 <= k < 32 ==> (MovInput(m, env, source)[k] <==> SourceBit(m, env, source, k))
  {
    PinsInBits(env, m.reg.InBase(), m.reg.InCount());
  }

  lemma MovedBits(m: Machine, env: Env, op: MovOp, source: MovSource)
    requires env.Ok()
    ensures IsMoved(MovApply(op, MovInput(m, env, source)), m, env, op, source)
  {
    MovInputBits(m, env, source);
    hide MovInput, SourceBit;
  }

  /** MOV: where the word goes, and all that stays. */
  lemma MovResult(m: Machine, env: Env, dest: MovDest, op: MovOp, source: MovSource) returns (w: Word)
    requires env.Ok() && m.delay == 0 && Decode(Current(m, env.prog)) == Mov(dest, op, source)
    ensures IsMoved(w, m, env, op, source)
    ensures var r := StepMachine(m, env).m;
      && r.x == (if dest == MovX then w else m.x) && r.y == (if dest == MovY then w else m.y)
      && r.isr == (if dest == MovIsr then w else m.isr) && r.isrCount == (if dest == MovIsr then 0 else m.isrCount)
      && r.osr == (if dest == MovOsr then w else m.osr) && r.osrCount == (if dest == MovOsr then 0 else m.osrCount)
      && r.pc == (if dest == MovPc then Val(w[..5]) else Successor(m))
      && (dest == MovExec ==> r.execPending == !m.execPending && r.execInstr == Val(w[..16]) && r.delay == 0)
      && r.tx == m.tx && r.rx == m.rx
  {
    w := MovApply(op, MovInput(m, env, source));
    MovedBits(m, env, op, source);
    hide MovApply, MovInput, Decode, DelayField, Val;
  }

  /** `mov x, pins` with one high pin, as a number. */
  lemma MovPinsValue(m: Machine, env: Env, p: Pin)
    requires env.Ok() && m.delay == 0 && Decode(Current(m, env.prog)) == Mov(MovX, Copy, FromPins) && OnlyPin(env, p)
    ensures var off := Offset(env, m.reg.InBase(), p);
      Val(StepMachine(m, env).m.x) == if off < m.reg.InCount() then Pow2(off) else 0
  {
    var w := MovResult(m, env, MovX, Copy, FromPins);
    forall k | 0 <= k < 32
      ensures w[k] <==> k < m.reg.InCount() && PinHigh(env, WindowPin(env, m.reg.InBase(), k))
    {
      assert w[k] <==> MovBit(m, env, Copy, FromPins, k);
    }
    OnePinValue(env, m.reg.InBase(), p, m.reg.InCount(), w);
    hide StepMachine, Decode, Val, Pow2, Offset;
  }

  // ---------------------------------------------------------------- SET

  /** SET X and SET Y load a number. */
  lemma SetResult(m: Machine, env: Env, dest: SetDest, data: Five)
    requires env.Ok() && m.delay == 0 && Decode(Current(m, env.prog)) == Set(dest, data)
    ensures var r := StepMachine(m, env).m;
      && (if dest == SetX then Val(r.x) == data else r.x == m.x)
      && (if dest == SetY then Val(r.y) == data else r.y == m.y)
      && r.isr == m.isr && r.osr == m.osr && r.isrCount == m.isrCount && r.osrCount == m.osrCount
      && r.tx == m.tx && r.rx == m.rx && r.pc == Successor(m)
  {
    hide ToBits, Val, Decode, DelayField, Regs.WrapTop, Regs.WrapBottom, LevelWrites, DirectionWrites;
    FiveBits(data);
  }
}
