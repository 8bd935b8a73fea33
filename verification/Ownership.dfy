/** Who may do what to a pin: ownership of outputs, and forcing of inputs. */
module Ownership {
  import opened Bits
  import opened Gpios
  import opened Instructions
  import opened Machines
  import opened System
  import opened Parallel
  import opened Runs

  // ---------------------------------------------------------------- one instruction

  /** Pins of the block's 32-pin window are distinct for distinct offsets, and exist. */
  lemma PinAtInjective(env: Env, first: nat, s: nat, t: nat)
    requires s < 32 && t < 32 && s != t
    ensures env.PinAt(first, s) != env.PinAt(first, t)
  {
    var a, b := first + s, first + t;
    assert a == 32 * (a / 32) + a % 32 && b == 32 * (b / 32) + b % 32;
  }

  ghost predicate InSlot(pin: Pin, env: Env, first: nat, n: nat) {
    exists t: nat :: t < n && pin == env.PinAt(first, t)
  }

  /** Every write is to one of the first `n` pins from `first`, and allowed to the block. */
  ghost predicate InWindow(ws: seq<PinWrite>, env: Env, first: nat, n: nat) {
    forall k :: 0 <= k < |ws| ==>
      InSlot(ws[k].pin, env, first, n) && (ws[k].Release? || env.control[ws[k].pin])
  }

  ghost predicate DistinctPins(ws: seq<PinWrite>) {
    forall a, b :: 0 <= a < b < |ws| ==> ws[a].pin != ws[b].pin
  }

  lemma AppendWrite(ws: seq<PinWrite>, env: Env, first: nat, n: nat, w: PinWrite)
    requires n < 32 && InWindow(ws, env, first, n) && DistinctPins(ws)
    requires w.pin == env.PinAt(first, n) && (w.Release? || env.control[w.pin])
    ensures InWindow(ws + [w], env, first, n + 1) && DistinctPins(ws + [w])
  {
    forall k | 0 <= k < |ws| ensures ws[k].pin != w.pin {
      assert InSlot(ws[k].pin, env, first, n);
      var t: nat :| t < n && ws[k].pin == env.PinAt(first, t);
      PinAtInjective(env, first, t, n);
    }
  }

  lemma WiderWindow(ws: seq<PinWrite>, env: Env, first: nat, n: nat)
    requires InWindow(ws, env, first, n)
    ensures InWindow(ws, env, first, n + 1)
  {
  }

  lemma {:induction false} LevelWritesOnce(env: Env, first: nat, data: Word, n: nat)
    requires n <= 32
    ensures InWindow(LevelWrites(env, first, data, n), env, first, n)
    ensures DistinctPins(LevelWrites(env, first, data, n))
    decreases n
  {
    if n == 0 {
    } else {
      var ws, pin := LevelWrites(env, first, data, n - 1), env.PinAt(first, n - 1);
      LevelWritesOnce(env, first, data, n - 1);
      WiderWindow(ws, env, first, n - 1);
      if env.control[pin] {
        AppendWrite(ws, env, first, n - 1, SetLevel(pin, data[n - 1]));
      } else {
        assert ws + [] == ws;
      }
    }
  }

  lemma {:induction false} DirectionWritesOnce(env: Env, first: nat, data: Word, n: nat, ask: bool)
    requires n <= 32
    ensures InWindow(DirectionWrites(env, first, data, n, ask), env, first, n)
    ensures DistinctPins(DirectionWrites(env, first, data, n, ask))
    decreases n
  {
    if n == 0 {
    } else {
      var ws, pin := DirectionWrites(env, first, data, n - 1, ask), env.PinAt(first, n - 1);
      DirectionWritesOnce(env, first, data, n - 1, ask);
      WiderWindow(ws, env, first, n - 1);
      var next := DirectionWrite(env, pin, data[n - 1], ask);
      if next != [] {
        AppendWrite(ws, env, first, n - 1, next[0]);
        assert next == [next[0]];
      } else {
        assert ws + [] == ws;
      }
    }
  }

  ghost predicate Permitted(ws: seq<PinWrite>, control: Mask) {
    forall k :: 0 <= k < |ws| ==> ws[k].Release? || control[ws[k].pin]
  }

  lemma OutWrites(m: Machine, env: Env, dest: OutDest, n: Count)
    ensures var ws := OutNow(m, env, dest, n).fx.writes; Permitted(ws, env.control) && DistinctPins(ws)
  {
    var data := OutData(m.osr, n, m.reg.OutRight());
    LevelWritesOnce(env, m.reg.OutBase(), data, n);
    DirectionWritesOnce(env, m.reg.OutBase(), data, n, false);
  }

  lemma MovWrites(m: Machine, env: Env, dest: MovDest, op: MovOp, source: MovSource)
    requires env.Ok()
    ensures var ws := ExecMov(m, env, dest, op, source).fx.writes; Permitted(ws, env.control) && DistinctPins(ws)
  {
    var v := MovApply(op, MovInput(m, env, source));
    LevelWritesOnce(env, m.reg.OutBase(), v, m.reg.OutCount());
    DirectionWritesOnce(env, m.reg.OutBase(), v, m.reg.OutCount(), false);
  }

  lemma SetWrites(m: Machine, env: Env, dest: SetDest, data: Five)
    ensures var ws := ExecSet(m, env, dest, data).fx.writes; Permitted(ws, env.control) && DistinctPins(ws)
  {
    var v: Word := ToBits(data, 32);
    LevelWritesOnce(env, m.reg.SetBase(), v, m.reg.SetCount());
    DirectionWritesOnce(env, m.reg.SetBase(), v, m.reg.SetCount(), true);
  }

  /** No instruction, for any GPIOBASE, writes a pin twice, and except for releasing a pin it
  writes only pins its block owns. */
  lemma InstructionWrites(m: Machine, env: Env, i: Instr)
    requires env.Ok()
    ensures var ws := ExecDecoded(m, env, i).fx.writes; Permitted(ws, env.control) && DistinctPins(ws)
  {
    hide OutNow, ExecMov, ExecSet;
    match i
    case Out(dest, n) =>
      OutWrites(m, env, dest, n);
      if PullDue(m) && !m.tx.Empty() {
        OutWrites(PullOsr(m), env, dest, n);
      }
    case Mov(dest, op, source) => MovWrites(m, env, dest, op, source);
    case Set(dest, data) => SetWrites(m, env, dest, data);
    case _ =>
  }

  lemma StepWrites(st: State, i: Index)
    requires st.Shape()
    ensures var ws := StepOf(st, i).fx.writes; Permitted(ws, st.gpio.control[BlockOf(i)]) && DistinctPins(ws)
    ensures !st.sm[i].enabled ==> StepOf(st, i).fx.writes == []
  {
    if st.sm[i].enabled && st.sm[i].delay == 0 {
      var env := EnvOf(st, i);
      InstructionWrites(st.sm[i], env, Decode(Current(st.sm[i], env.prog)));
      hide ExecDecoded;
    }
  }

  // ---------------------------------------------------------------- releasing foreign pins

  /** A write with the given bits releases `p`: one of the first `n` pins from `first` is `p`
  and its bit is zero. */
  ghost predicate ReleasesAt(env: Env, first: nat, data: Word, n: nat, p: Pin) {
    exists t: nat :: t < n && t < 32 && env.PinAt(first, t) == p && !data[t]
  }

  /** An OUT PINDIRS that has data, or a MOV PINDIRS, with a zero bit for `p`. */
  ghost predicate ReleasesPin(m: Machine, env: Env, i: Instr, p: Pin)
    requires env.Ok()
  {
    match i
    case Out(dest, n) =>
      && dest == OutPindirs && !(PullDue(m) && m.tx.Empty())
      && var osr := if PullDue(m) then m.tx.items[0] else m.osr;
         ReleasesAt(env, m.reg.OutBase(), OutData(osr, n, m.reg.OutRight()), n, p)
    case Mov(dest, op, source) =>
      && dest == MovPindirs
      && ReleasesAt(env, m.reg.OutBase(), MovApply(op, MovInput(m, env, source)), m.reg.OutCount(), p)
    case _ => false
  }

  lemma TouchesConcat(a: seq<PinWrite>, b: seq<PinWrite>, p: Pin)
    ensures Touches(a + b, p) <==> Touches(a, p) || Touches(b, p)
  {
    assert forall k :: 0 <= k < |a| ==> (a + b)[k] == a[k];
    assert forall k :: 0 <= k < |b| ==> (a + b)[|a| + k] == b[k];
  }

  lemma {:induction false} NoForeignLevels(env: Env, first: nat, data: Word, n: nat, p: Pin)
    requires n <= 32 && !env.control[p]
    ensures !Touches(LevelWrites(env, first, data, n), p)
    decreases n
  {
    if n == 0 {
    } else {
      NoForeignLevels(env, first, data, n - 1, p);
      TouchesConcat(LevelWrites(env, first, data, n - 1), LevelWrite(env, env.PinAt(first, n - 1), data[n - 1]), p);
    }
  }

  lemma {:induction false} ForeignDirections(env: Env, first: nat, data: Word, n: nat, ask: bool, p: Pin)
    requires n <= 32 && !env.control[p]
    ensures Touches(DirectionWrites(env, first, data, n, ask), p) <==> !ask && ReleasesAt(env, first, data, n, p)
    decreases n
  {
    if n == 0 {
    } else {
      var front, next := DirectionWrites(env, first, data, n - 1, ask),
        DirectionWrite(env, env.PinAt(first, n - 1), data[n - 1], ask);
      ForeignDirections(env, first, data, n - 1, ask, p);
      TouchesConcat(front, next, p);
      assert Touches(next, p) <==> !ask && !data[n - 1] && env.PinAt(first, n - 1) == p by {
        if !ask && !data[n - 1] {
          assert next[0].pin == env.PinAt(first, n - 1);
        }
      }
      assert ReleasesAt(env, first, data, n, p) <==>
        ReleasesAt(env, first, data, n - 1, p) || (env.PinAt(first, n - 1) == p && !data[n - 1]);
    }
  }

  lemma ForeignOut(m: Machine, env: Env, dest: OutDest, n: Count, p: Pin)
    requires !env.control[p]
    ensures Touches(OutNow(m, env, dest, n).fx.writes, p) <==>
      dest == OutPindirs && ReleasesAt(env, m.reg.OutBase(), OutData(m.osr, n, m.reg.OutRight()), n, p)
  {
    var data := OutData(m.osr, n, m.reg.OutRight());
    NoForeignLevels(env, m.reg.OutBase(), data, n, p);
    ForeignDirections(env, m.reg.OutBase(), data, n, false, p);
    hide ReleasesAt;
  }

  lemma ForeignMov(m: Machine, env: Env, dest: MovDest, op: MovOp, source: MovSource, p: Pin)
    requires env.Ok() && !env.control[p]
    ensures Touches(ExecMov(m, env, dest, op, source).fx.writes, p) <==>
      dest == MovPindirs && ReleasesAt(env, m.reg.OutBase(), MovApply(op, MovInput(m, env, source)),
        m.reg.OutCount(), p)
  {
    var v := MovApply(op, MovInput(m, env, source));
    NoForeignLevels(env, m.reg.OutBase(), v, m.reg.OutCount(), p);
    ForeignDirections(env, m.reg.OutBase(), v, m.reg.OutCount(), false, p);
    hide ReleasesAt;
  }

  lemma ForeignSet(m: Machine, env: Env, dest: SetDest, data: Five, p: Pin)
    requires !env.control[p]
    ensures !Touches(ExecSet(m, env, dest, data).fx.writes, p)
  {
    var v: Word := ToBits(data, 32);
    NoForeignLevels(env, m.reg.SetBase(), v, m.reg.SetCount(), p);
    ForeignDirections(env, m.reg.SetBase(), v, m.reg.SetCount(), true, p);
    hide ReleasesAt;
  }

  /** An instruction writes a pin its block does not own if and only if it is an OUT PINDIRS
  or MOV PINDIRS that executes with a zero bit for that pin. */
  lemma ForeignWriteIff(m: Machine, env: Env, i: Instr, p: Pin)
    requires env.Ok() && !env.control[p]
    ensures Touches(ExecDecoded(m, env, i).fx.writes, p) <==> ReleasesPin(m, env, i, p)
  {
    hide OutNow, ExecMov, ExecSet, ReleasesAt;
    match i
    case Out(dest, n) =>
      ForeignOut(m, env, dest, n, p);
      if PullDue(m) && !m.tx.Empty() {
        ForeignOut(PullOsr(m), env, dest, n, p);
      }
    case Mov(dest, op, source) => ForeignMov(m, env, dest, op, source, p);
    case Set(dest, data) => ForeignSet(m, env, dest, data, p);
    case _ =>
  }

  // ---------------------------------------------------------------- a cycle and a run

  /** Some enabled machine of a block that owns `p` writes `p` in this cycle. */
  ghost predicate OwnerWrites(st: State, p: Pin)
    requires st.Shape()
  {
    exists i: Index :: st.sm[i].enabled && st.gpio.control[BlockOf(i)][p] && Touches(StepOf(st, i).fx.writes, p)
  }

  /** `p` becomes an output, or its level falls. */
  predicate DrivenAnew(g: Gpio, h: Gpio, p: Pin) {
    (h.direction[p] && !g.direction[p]) || (g.output[p] && !h.output[p])
  }

  lemma {:induction false} OnlyOwnWrites(g: Gpio, ws: seq<PinWrite>, p: Pin)
    requires forall k :: 0 <= k < |ws| && ws[k].pin == p ==> ws[k].Release?
    ensures !DrivenAnew(g, g.ApplyAll(ws), p)
    decreases |ws|
  {
    if ws == [] {
    } else {
      OnlyOwnWrites(g, ws[..|ws| - 1], p);
    }
  }

  lemma {:induction false} ReleasesOnly(st: State, order: seq<Index>, p: Pin)
    requires st.Shape() && !OwnerWrites(st, p)
    ensures forall k :: 0 <= k < |WritesOf(st, order)| && WritesOf(st, order)[k].pin == p ==>
      WritesOf(st, order)[k].Release?
    decreases |order|
  {
    if order == [] {
    } else {
      var i := order[|order| - 1];
      ReleasesOnly(st, order[..|order| - 1], p);
      StepWrites(st, i);
    }
  }

  /** A cycle turns a pin into an output, or lowers it, only through a machine whose block
  owns the pin. */
  lemma DrivingNeedsOwnership(st: State, p: Pin)
    requires st.Shape() && DrivenAnew(st.gpio, Cycle(st).gpio, p)
    ensures OwnerWrites(st, p)
  {
    CyclePins(st);
    if !OwnerWrites(st, p) {
      ReleasesOnly(st, ASCENDING, p);
      OnlyOwnWrites(st.gpio, WritesOf(st, ASCENDING), p);
    }
  }

  /** Machine `i` executes, in this cycle, an instruction that releases a pin its block does
  not own. */
  ghost predicate ReleasesForeign(st: State, i: Index, p: Pin)
    requires st.Shape()
  {
    var m, env := st.sm[i], EnvOf(st, i);
    m.enabled && m.delay == 0 && !env.control[p] && ReleasesPin(m, env, Decode(Current(m, env.prog)), p)
  }

  /** A foreign release takes the pin down, whoever drives it: the pin is a high input after
  the cycle, unless a later machine writes it. */
  lemma ForeignReleaseWins(st: State, i: Index, p: Pin)
    requires st.Shape() && ReleasesForeign(st, i, p)
    requires forall j: Index :: i < j ==> !Touches(StepOf(st, j).fx.writes, p)
    ensures !Cycle(st).gpio.direction[p] && Cycle(st).gpio.output[p]
  {
    var m, env := st.sm[i], EnvOf(st, i);
    var ws := StepOf(st, i).fx.writes;
    ForeignWriteIff(m, env, Decode(Current(m, env.prog)), p);
    StepWrites(st, i);
    hide Cycle, StepOf, ReleasesPin;
    assert Touches(ws, p) by { assert ws == StepMachine(m, env).fx.writes by { StepOfEnabled(st, i); } }
    var k :| 0 <= k < |ws| && ws[k].pin == p;
    assert ws[k].Release?;
    HighestLevelWins(st, i, k, p);
    HighestDirectionWins(st, i, k, p);
  }

  lemma StepOfEnabled(st: State, i: Index)
    requires st.Shape() && st.sm[i].enabled
    ensures StepOf(st, i) == StepMachine(st.sm[i], EnvOf(st, i))
  {
  }

  /** `mov pindirs, null` */
  const RELEASE_ALL: nat := 0xA063

  lemma ReleaseAllDecodes()
    ensures Decode(RELEASE_ALL) == Mov(MovPindirs, Copy, FromNull)
  {
  }

  /** Block 1 owns pin 0 and drives it low; machine 0 of block 0 runs `mov pindirs, null` on
  one pin from pin 0.  Nobody else is enabled. */
  ghost function ForeignState(): (st: State)
    ensures st.Shape()
  {
    var st := InitialState();
    var m := INITIAL_MACHINE.(reg := Regs(0, 0, 0x10_0000), enabled := true);
    var g := st.gpio;
    var prog: seq<nat> := st.prog[0][0 := RELEASE_ALL];
    st.(sm := st.sm[0 := m],
        prog := st.prog[0 := prog],
        gpio := g.(direction := g.direction[0 := true], output := g.output[0 := false],
                   control := g.control[1 := g.control[1][0 := true]]))
  }

  lemma ForeignMachine(m: Machine, env: Env)
    requires m == INITIAL_MACHINE.(reg := Regs(0, 0, 0x10_0000), enabled := true)
    requires env.Ok() && env.base == 0 && Fetch(env.prog, 0) == RELEASE_ALL
    ensures ReleasesPin(m, env, Decode(Current(m, env.prog)), 0)
  {
    ReleaseAllDecodes();
    OnePin(m.reg);
    var v := MovApply(Copy, MovInput(m, env, FromNull));
    assert v == ZERO;
    ReleasesFirst(env, m.reg.OutBase(), v, m.reg.OutCount(), 0);
    hide Decode, Regs.OutCount, Regs.OutBase, MovApply, MovInput, ReleasesAt;
  }

  lemma OnePin(r: Regs)
    requires r.pinctrl == 0x10_0000
    ensures r.OutCount() == 1 && r.OutBase() == 0
  {
  }

  lemma ReleasesFirst(env: Env, first: nat, v: Word, n: nat, p: Pin)
    requires first + env.base == p && first < 32 && n > 0 && !v[0]
    ensures ReleasesAt(env, first, v, n, p)
  {
    assert env.PinAt(first, 0) == p;
  }

  lemma ForeignStateAlone(st: State)
    requires st == ForeignState()
    ensures st.sm[0] == INITIAL_MACHINE.(reg := Regs(0, 0, 0x10_0000), enabled := true)
    ensures EnvOf(st, 0).base == 0 && Fetch(EnvOf(st, 0).prog, 0) == RELEASE_ALL && !EnvOf(st, 0).control[0]
    ensures forall j: Index :: 0 < j ==> StepOf(st, j).fx.writes == []
    ensures st.gpio.control[1][0] && st.gpio.direction[0] && !st.gpio.output[0]
  {
    assert forall j: Index :: 0 < j ==> !st.sm[j].enabled;
    hide StepMachine;
  }

  /** One cycle later the output of block 1 is gone. */
  lemma ForeignStateTakenDown(st: State)
    requires st == ForeignState()
    ensures st.gpio.control[1][0] && !st.gpio.control[0][0] && st.gpio.direction[0] && !st.gpio.output[0]
    ensures !Cycle(st).gpio.direction[0] && Cycle(st).gpio.output[0]
  {
    ForeignStateAlone(st);
    ForeignMachine(st.sm[0], EnvOf(st, 0));
    hide Cycle, Decode, ReleasesPin, ForeignState, StepOf;
    ForeignReleaseWins(st, 0, 0);
  }

  lemma CycleKeepsControl(st: State)
    requires st.Shape()
    ensures Cycle(st).gpio == st.gpio.(output := Cycle(st).gpio.output, direction := Cycle(st).gpio.direction)
  {
    CyclePins(st);
    ApplyAllFrame(st.gpio, WritesOf(st, ASCENDING));
  }

  /** The host itself turns `p` into an output or lowers it; nobody asks who owns `p`. */
  predicate HostDrives(e: Event, p: Pin) {
    (e.MakeOutput? && e.pin == p) || (e.OutputLevel? && e.pin == p && !e.high)
  }

  /** Over any event: `p` is driven anew by an owner's machine in a clock cycle, or by the two
  host calls that override outputs, and then exactly when they change something. */
  lemma EventDriving(st: State, e: Event, p: Pin)
    requires st.Shape() && Legal(st, e)
    ensures DrivenAnew(st.gpio, Apply(st, e).gpio, p) ==> (e.Tick? && OwnerWrites(st, p)) || HostDrives(e, p)
    ensures HostDrives(e, p) ==>
      (DrivenAnew(st.gpio, Apply(st, e).gpio, p) <==>
         if e.MakeOutput? then !st.gpio.direction[p] else st.gpio.output[p])
  {
    if e.Tick? {
      if DrivenAnew(st.gpio, Cycle(st).gpio, p) {
        DrivingNeedsOwnership(st, p);
      }
      hide Cycle, OwnerWrites, DrivenAnew;
    } else {
      HostDriving(st, e, p);
      hide Apply, Legal, DrivenAnew, OwnerWrites;
    }
  }

  lemma HostDriving(st: State, e: Event, p: Pin)
    requires st.Shape() && Legal(st, e) && !e.Tick?
    ensures DrivenAnew(st.gpio, Apply(st, e).gpio, p) ==> HostDrives(e, p)
    ensures HostDrives(e, p) ==>
      (DrivenAnew(st.gpio, Apply(st, e).gpio, p) <==>
         if e.MakeOutput? then !st.gpio.direction[p] else st.gpio.output[p])
  {
  }

  /** Ownership masks stay pairwise disjoint under every history. */
  lemma {:induction false} OwnershipDisjoint(st: State, es: seq<Event>)
    requires st.Shape() && LegalRun(st, es) && st.gpio.Owned()
    ensures Run(st, es).gpio.Owned()
    decreases |es|
  {
    if es == [] {
    } else {
      var front, e := es[..|es| - 1], es[|es| - 1];
      OwnershipDisjoint(st, front);
      CycleKeepsControl(Run(st, front));
      OwnedKept(Run(st, front), e);
    }
  }

  lemma OwnedKept(st: State, e: Event)
    requires st.Shape() && Legal(st, e) && st.gpio.Owned()
    ensures Apply(st, e).gpio.Owned()
  {
    CycleKeepsControl(st);
    hide Cycle;
  }

  ghost predicate Unowned(g: Gpio, p: Pin) {
    forall b :: 0 <= b < |g.control| ==> !g.control[b][p]
  }

  /** A pin no block owns, that nobody is granted and that the host does not drive itself is
  never driven in any run: if it starts as a high input it stays one. */
  lemma {:induction false} UnownedPinStays(st: State, es: seq<Event>, p: Pin)
    requires st.Shape() && LegalRun(st, es) && Unowned(st.gpio, p)
    requires forall k :: 0 <= k < |es| ==> !(es[k].GrantPin? && es[k].pin == p) && !HostDrives(es[k], p)
    requires !st.gpio.direction[p] && st.gpio.output[p]
    ensures Unowned(Run(st, es).gpio, p) && !Run(st, es).gpio.direction[p] && Run(st, es).gpio.output[p]
    decreases |es|
  {
    if es == [] {
    } else {
      var front, e := es[..|es| - 1], es[|es| - 1];
      UnownedPinStays(st, front, p);
      var r := Run(st, front);
      UnownedKept(r, e, p);
      EventDriving(r, e, p);
    }
  }

  lemma UnownedKept(st: State, e: Event, p: Pin)
    requires st.Shape() && Legal(st, e) && Unowned(st.gpio, p) && !(e.GrantPin? && e.pin == p)
    ensures Unowned(Apply(st, e).gpio, p)
  {
    CycleKeepsControl(st);
    hide Cycle;
  }

  // ---------------------------------------------------------------- forcing

  /** Forcing and inversion never overlap on a pin, and a pin forced high reads high. */
  ghost predicate ForcingOk(g: Gpio) {
    g.Overrides() && forall p: Pin :: g.forceHigh[p] ==> g.input[p]
  }

  lemma ForcingKept(st: State, e: Event)
    requires st.Shape() && Legal(st, e) && ForcingOk(st.gpio)
    ensures ForcingOk(Apply(st, e).gpio)
  {
    if e.Tick? {
      CycleKeepsControl(st);
      hide Cycle;
    } else {
      HostForcing(st, e);
      hide Apply, Legal, ForcingOk;
    }
  }

  lemma HostForcing(st: State, e: Event)
    requires st.Shape() && Legal(st, e) && !e.Tick? && ForcingOk(st.gpio)
    ensures ForcingOk(Apply(st, e).gpio)
  {
  }

  lemma {:induction false} ForcedHighReadsHigh(st: State, es: seq<Event>)
    requires st.Shape() && LegalRun(st, es) && ForcingOk(st.gpio)
    ensures ForcingOk(Run(st, es).gpio)
    decreases |es|
  {
    if es == [] {
    } else {
      ForcedHighReadsHigh(st, es[..|es| - 1]);
      ForcingKept(Run(st, es[..|es| - 1]), es[|es| - 1]);
    }
  }

  predicate ForcedLowReadsLow(g: Gpio, p: Pin) {
    g.forceLow[p] ==> !g.input[p]
  }

  /** A pin forced low goes on reading low through an event if and only if the event is not
  a "stop forcing high" call on that very pin, which raises the input without asking. */
  lemma ForcedLowIff(st: State, e: Event, p: Pin)
    requires st.Shape() && Legal(st, e) && ForcingOk(st.gpio) && ForcedLowReadsLow(st.gpio, p)
    ensures ForcedLowReadsLow(Apply(st, e).gpio, p) <==>
      !(e.ForceInputHigh? && e.pin == p && st.gpio.forceLow[p])
  {
    CycleKeepsControl(st);
    hide Cycle;
  }

  /** A failing run for every pin: forced low, then told to stop being forced high, it is still
  forced low and reads high. */
  lemma ForcedLowEscapes(p: Pin)
    ensures var es := [ForceInputLow(p, true), ForceInputHigh(p, false)];
      LegalRun(InitialState(), es) && var g := Run(InitialState(), es).gpio; g.forceLow[p] && g.input[p]
  {
    var e1, e2 := ForceInputLow(p, true), ForceInputHigh(p, false);
    var st := InitialState();
    assert Legal(st, e1);
    var st1 := Apply(st, e1);
    assert Legal(st1, e2);
    TwoEvents(st, e1, e2);
    hide Run, LegalRun, InitialState;
  }

  lemma TwoEvents(st: State, e1: Event, e2: Event)
    requires st.Shape() && Legal(st, e1) && Legal(Apply(st, e1), e2)
    ensures LegalRun(st, [e1, e2]) && Run(st, [e1, e2]) == Apply(Apply(st, e1), e2)
  {
    hide Legal, Apply;
    assert [e1, e2][..1] == [e1] && [e1][..0] == [];
    assert LegalRun(st, []) && Run(st, []) == st;
    assert LegalRun(st, [e1]) && Run(st, [e1]) == Apply(st, e1);
  }

  // ---------------------------------------------------------------- driving from outside

  /** Driving some pins leaves an undriven pin's input unaffected if and only if it already
  reads what the pull-up and forcing make of it. */
  lemma UndrivenUnaffectedIff(g: Gpio, gpios: Mask, level: Mask, p: Pin)
    requires !gpios[p]
    ensures g.DriveExternally(gpios, level).input[p] == g.input[p] <==>
      if g.forceLow[p] && !g.forceHigh[p] then !g.input[p] else g.input[p]
  {
  }

  /** A failing input for every pin and every call that does not drive it: a pin set low, and
  not forced, is raised. */
  lemma UndrivenPinRaised(st: State, p: Pin, gpios: Mask, level: Mask)
    requires st.Shape() && !gpios[p] && NarrowMask(gpios) && NarrowMask(level)
    requires !st.gpio.forceLow[p] && !st.gpio.forceHigh[p]
    ensures var st1 := Apply(st, InputLevel(p, false));
      !st1.gpio.input[p] && Legal(st1, DriveGpios(gpios, level)) && Apply(st1, DriveGpios(gpios, level)).gpio.input[p]
  {
  }
}
