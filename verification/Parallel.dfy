/** The sequential loop over the state machines behaves like parallel hardware.

Within a cycle every machine reads only itself and the start-of-cycle environment, so the
order in which the loop visits the machines shows in nothing but clashing pin writes; those
are won by the highest-numbered machine. */
module Parallel {
  import opened Gpios
  import opened Instructions
  import opened Machines
  import opened System

  ghost predicate Distinct(order: seq<Index>) {
    forall i, j :: 0 <= i < j < |order| ==> order[i] != order[j]
  }

  /** All pin writes of a pass over `order`, each machine acting on the start-of-cycle state. */
  ghost function WritesOf(st: State, order: seq<Index>): seq<PinWrite>
    requires st.Shape()
    decreases |order|
  {
    if order == [] then []
    else WritesOf(st, order[..|order| - 1]) + StepOf(st, order[|order| - 1]).fx.writes
  }

  ghost predicate Raised(st: State, order: seq<Index>, f: Flag)
    requires st.Shape()
  {
    exists i :: i in order && StepOf(st, i).fx.raise == Some(f)
  }

  ghost predicate Lowered(st: State, order: seq<Index>, f: Flag)
    requires st.Shape()
  {
    exists i :: i in order && StepOf(st, i).fx.lower == Some(f)
  }

  ghost predicate MachinesStepped(st: State, order: seq<Index>, sm: seq<Machine>)
    requires st.Shape() && |sm| == NUM_MACHINES
  {
    forall i: Index :: sm[i] == if i in order then StepOf(st, i).m else st.sm[i]
  }

  ghost predicate FlagsDeferred(st: State, order: seq<Index>, irq: seq<IrqBank>)
    requires st.Shape() && |irq| == NUM_PIO_BLOCKS
  {
    && (forall b: Block :: irq[b].flags == st.irq[b].flags)
    && (forall b: Block, k: FlagIndex ::
          irq[b].toSet[k] == (st.irq[b].toSet[k] || Raised(st, order, Flag(b, k))))
    && (forall b: Block, k: FlagIndex ::
          irq[b].toClear[k] == (st.irq[b].toClear[k] || Lowered(st, order, Flag(b, k))))
    && (forall b: Block, k :: 8 <= k < 32 ==>
          irq[b].toSet[k] == st.irq[b].toSet[k] && irq[b].toClear[k] == st.irq[b].toClear[k])
  }

  /** `r` is what all machines of `order` produce when each acts on `st` alone. */
  ghost predicate Simultaneous(st: State, order: seq<Index>, r: State)
    requires st.Shape() && r.Shape()
  {
    && r == st.(sm := r.sm, gpio := r.gpio, irq := r.irq)
    && MachinesStepped(st, order, r.sm)
    && r.gpio == st.gpio.ApplyAll(WritesOf(st, order))
    && FlagsDeferred(st, order, r.irq)
  }

  /** A pass leaves every machine's view of the emulator as it was. */
  lemma SameEnv(st: State, order: seq<Index>, r: State, i: Index)
    requires st.Shape() && r.Shape() && Simultaneous(st, order, r)
    ensures EnvOf(r, i) == EnvOf(st, i)
  {
    ApplyAllFrame(st.gpio, WritesOf(st, order));
    assert Flags(r.irq) == Flags(st.irq) by {
      forall b: Block ensures Flags(r.irq)[b] == Flags(st.irq)[b] {}
    }
  }

  /** Stepping machines one after another equals stepping them all at once. */
  lemma {:induction false} SequentialIsSimultaneous(st: State, order: seq<Index>)
    requires st.Shape() && Distinct(order)
    ensures Simultaneous(st, order, StepOrder(st, order))
    decreases |order|
  {
    if order == [] {
    } else {
      var n := |order| - 1;
      var front, i := order[..n], order[n];
      SequentialIsSimultaneous(st, front);
      assert i !in front;
      assert order == front + [i];
      StepExtends(st, front, i, StepOrder(st, front));
    }
  }

  lemma StepExtends(st: State, front: seq<Index>, i: Index, st1: State)
    requires st.Shape() && st1.Shape() && i !in front && Simultaneous(st, front, st1)
    ensures StepSm(st1, i).Shape() && Simultaneous(st, front + [i], StepSm(st1, i))
  {
    SameEnv(st, front, st1, i);
    assert st1.sm[i] == st.sm[i];
    var s := StepOf(st, i);
    assert StepOf(st1, i) == s;
    StepSmShape(st1, i);
    var r := StepSm(st1, i);
    assert MachinesStepped(st, front + [i], r.sm);
    assert (front + [i])[..|front + [i]| - 1] == front;
    ApplyAllConcat(st.gpio, WritesOf(st, front), s.fx.writes);
    FlagsExtend(st, front, i, st1.irq);
  }

  lemma FlagsExtend(st: State, front: seq<Index>, i: Index, irq: seq<IrqBank>)
    requires st.Shape() && |irq| == NUM_PIO_BLOCKS && FlagsDeferred(st, front, irq)
    ensures FlagsDeferred(st, front + [i], Defer(irq, StepOf(st, i).fx))
  {
    RaisedAppend(st, front, i);
    DeferBits(irq, StepOf(st, i).fx);
  }

  lemma RaisedAppend(st: State, front: seq<Index>, i: Index)
    requires st.Shape()
    ensures forall f :: Raised(st, front + [i], f) == (Raised(st, front, f) || StepOf(st, i).fx.raise == Some(f))
    ensures forall f :: Lowered(st, front + [i], f) == (Lowered(st, front, f) || StepOf(st, i).fx.lower == Some(f))
  {
    assert forall j :: j in front + [i] <==> j in front || j == i;
  }

  lemma DeferBits(irq: seq<IrqBank>, fx: Effects)
    requires |irq| == NUM_PIO_BLOCKS
    ensures forall b: Block :: Defer(irq, fx)[b].flags == irq[b].flags
    ensures forall b: Block, k: FlagIndex ::
      Defer(irq, fx)[b].toSet[k] == (irq[b].toSet[k] || fx.raise == Some(Flag(b, k)))
    ensures forall b: Block, k: FlagIndex ::
      Defer(irq, fx)[b].toClear[k] == (irq[b].toClear[k] || fx.lower == Some(Flag(b, k)))
    ensures forall b: Block, k :: 8 <= k < 32 ==>
      Defer(irq, fx)[b].toSet[k] == irq[b].toSet[k] && Defer(irq, fx)[b].toClear[k] == irq[b].toClear[k]
  {
  }

  // ---------------------------------------------------------------- any order

  predicate Touches(ws: seq<PinWrite>, p: Pin) {
    exists k :: 0 <= k < |ws| && ws[k].pin == p
  }

  /** Two different machines write pin `p` this cycle. */
  ghost predicate Contested(st: State, order: seq<Index>, p: Pin)
    requires st.Shape()
  {
    exists i, j :: i in order && j in order && i != j
                   && Touches(StepOf(st, i).fx.writes, p) && Touches(StepOf(st, j).fx.writes, p)
  }

  /** The writes of `ws` that concern pin `p`, in order. */
  ghost function OnPin(ws: seq<PinWrite>, p: Pin): seq<PinWrite>
    decreases |ws|
  {
    if ws == [] then []
    else
      var w := ws[|ws| - 1];
      OnPin(ws[..|ws| - 1], p) + (if w.pin == p then [w] else [])
  }

  lemma {:induction false} OnPinConcat(a: seq<PinWrite>, b: seq<PinWrite>, p: Pin)
    ensures OnPin(a + b, p) == OnPin(a, p) + OnPin(b, p)
    decreases |b|
  {
    if b == [] {
      assert a + b == a;
    } else {
      assert (a + b)[..|a + b| - 1] == a + b[..|b| - 1];
      OnPinConcat(a, b[..|b| - 1], p);
    }
  }

  lemma {:induction false} OnPinEmpty(ws: seq<PinWrite>, p: Pin)
    requires !Touches(ws, p)
    ensures OnPin(ws, p) == []
    decreases |ws|
  {
    if ws == [] {
    } else {
      OnPinEmpty(ws[..|ws| - 1], p);
    }
  }

  /** Only the writes to a pin decide what becomes of it. */
  lemma {:induction false} OnPinDecides(g: Gpio, ws: seq<PinWrite>, p: Pin)
    ensures g.ApplyAll(ws).output[p] == g.ApplyAll(OnPin(ws, p)).output[p]
    ensures g.ApplyAll(ws).direction[p] == g.ApplyAll(OnPin(ws, p)).direction[p]
    decreases |ws|
  {
    if ws == [] {
    } else {
      var front, w := ws[..|ws| - 1], ws[|ws| - 1];
      OnPinDecides(g, front, p);
      if w.pin == p {
        ApplyAllConcat(g, OnPin(front, p), [w]);
        SamePinSameWrite(g.ApplyAll(front), g.ApplyAll(OnPin(front, p)), w);
      } else {
        OtherPin(g.ApplyAll(front), w, p);
        assert OnPin(ws, p) == OnPin(front, p);
      }
    }
  }

  lemma SamePinSameWrite(g: Gpio, h: Gpio, w: PinWrite)
    requires g.output[w.pin] == h.output[w.pin] && g.direction[w.pin] == h.direction[w.pin]
    ensures g.Apply(w).output[w.pin] == h.ApplyAll([w]).output[w.pin]
    ensures g.Apply(w).direction[w.pin] == h.ApplyAll([w]).direction[w.pin]
  {
    assert [w][..0] == [];
  }

  lemma OtherPin(g: Gpio, w: PinWrite, p: Pin)
    requires w.pin != p
    ensures g.Apply(w).output[p] == g.output[p] && g.Apply(w).direction[p] == g.direction[p]
  {
  }

  lemma {:induction false} NoOneWrites(st: State, order: seq<Index>, p: Pin)
    requires st.Shape()
    requires forall i :: i in order ==> !Touches(StepOf(st, i).fx.writes, p)
    ensures OnPin(WritesOf(st, order), p) == []
    decreases |order|
  {
    if order == [] {
    } else {
      var n := |order| - 1;
      NoOneWrites(st, order[..n], p);
      OnPinConcat(WritesOf(st, order[..n]), StepOf(st, order[n]).fx.writes, p);
      OnPinEmpty(StepOf(st, order[n]).fx.writes, p);
    }
  }

  lemma {:induction false} OneWriter(st: State, order: seq<Index>, p: Pin, i: Index)
    requires st.Shape() && Distinct(order) && i in order
    requires forall j :: j in order && j != i ==> !Touches(StepOf(st, j).fx.writes, p)
    ensures OnPin(WritesOf(st, order), p) == OnPin(StepOf(st, i).fx.writes, p)
    decreases |order|
  {
    var n := |order| - 1;
    var front, last := order[..n], order[n];
    OnPinConcat(WritesOf(st, front), StepOf(st, last).fx.writes, p);
    assert order == front + [last];
    if last == i {
      NoOneWrites(st, front, p);
    } else {
      OneWriter(st, front, p, i);
      OnPinEmpty(StepOf(st, last).fx.writes, p);
    }
  }

  lemma {:induction false} HighBitsKept(g: Gpio, ws: seq<PinWrite>, q: nat)
    requires NUM_GPIOS <= q < 64
    ensures g.ApplyAll(ws).output[q] == g.output[q] && g.ApplyAll(ws).direction[q] == g.direction[q]
    decreases |ws|
  {
    if ws == [] {
    } else {
      HighBitsKept(g, ws[..|ws| - 1], q);
    }
  }

  /** Same members: `b` is a permutation of `a` when both are duplicate-free. */
  ghost predicate SameMembers(a: seq<Index>, b: seq<Index>) {
    forall i :: i in a <==> i in b
  }

  lemma UncontestedPin(st: State, a: seq<Index>, b: seq<Index>, p: Pin)
    requires st.Shape() && Distinct(a) && Distinct(b) && SameMembers(a, b) && !Contested(st, a, p)
    ensures OnPin(WritesOf(st, a), p) == OnPin(WritesOf(st, b), p)
  {
    if i :| i in a && Touches(StepOf(st, i).fx.writes, p) {
      OneWriter(st, a, p, i);
      OneWriter(st, b, p, i);
    } else {
      NoOneWrites(st, a, p);
      NoOneWrites(st, b, p);
    }
  }

  lemma SameDeferred(st: State, a: seq<Index>, b: seq<Index>, qa: seq<IrqBank>, qb: seq<IrqBank>)
    requires st.Shape() && SameMembers(a, b) && |qa| == |qb| == NUM_PIO_BLOCKS
    requires FlagsDeferred(st, a, qa) && FlagsDeferred(st, b, qb)
    ensures qa == qb
  {
    forall k: Block ensures qa[k] == qb[k] {
      assert forall f: Flag :: Raised(st, a, f) == Raised(st, b, f) && Lowered(st, a, f) == Lowered(st, b, f);
      assert qa[k].flags == qb[k].flags;
      forall j | 0 <= j < 32 ensures qa[k].toSet[j] == qb[k].toSet[j] && qa[k].toClear[j] == qb[k].toClear[j] {
        if j < 8 {
          var f := Flag(k, j);
          assert qa[k].toSet[j] == (st.irq[k].toSet[j] || Raised(st, a, f));
          assert qb[k].toSet[j] == (st.irq[k].toSet[j] || Raised(st, b, f));
          assert qa[k].toClear[j] == (st.irq[k].toClear[j] || Lowered(st, a, f));
          assert qb[k].toClear[j] == (st.irq[k].toClear[j] || Lowered(st, b, f));
        }
      }
      assert qa[k].toSet == qb[k].toSet;
      assert qa[k].toClear == qb[k].toClear;
    }
  }

  /** Equal except, perhaps, for the level and direction of contested pins. */
  ghost predicate AgreeButContested(st: State, order: seq<Index>, ra: State, rb: State)
    requires st.Shape()
  {
    ra == rb.(gpio := ra.gpio) && PinsAgree(st, order, ra.gpio, rb.gpio)
  }

  ghost predicate PinsAgree(st: State, order: seq<Index>, ga: Gpio, gb: Gpio)
    requires st.Shape()
  {
    && ga == gb.(output := ga.output, direction := ga.direction)
    && (forall p: Pin :: !Contested(st, order, p) ==>
          ga.output[p] == gb.output[p] && ga.direction[p] == gb.direction[p])
    && ((forall p: Pin :: !Contested(st, order, p)) ==> ga == gb)
  }

  /** Visiting the machines in any other order changes nothing but contested pins. */
  lemma PassOrderIrrelevant(st: State, a: seq<Index>, b: seq<Index>)
    requires st.Shape() && Distinct(a) && Distinct(b) && SameMembers(a, b)
    ensures AgreeButContested(st, a, StepOrder(st, a), StepOrder(st, b))
  {
    var ra, rb := StepOrder(st, a), StepOrder(st, b);
    SequentialIsSimultaneous(st, a);
    SequentialIsSimultaneous(st, b);
    SameDeferred(st, a, b, ra.irq, rb.irq);
    forall i: Index ensures ra.sm[i] == rb.sm[i] {}
    assert ra.sm == rb.sm;
    var wa, wb := WritesOf(st, a), WritesOf(st, b);
    ApplyAllFrame(st.gpio, wa);
    ApplyAllFrame(st.gpio, wb);
    forall p: Pin | !Contested(st, a, p)
      ensures ra.gpio.output[p] == rb.gpio.output[p] && ra.gpio.direction[p] == rb.gpio.direction[p]
    {
      OnPinDecides(st.gpio, wa, p);
      OnPinDecides(st.gpio, wb, p);
      UncontestedPin(st, a, b, p);
    }
    if forall p: Pin :: !Contested(st, a, p) {
      forall q | 0 <= q < 64
        ensures ra.gpio.output[q] == rb.gpio.output[q] && ra.gpio.direction[q] == rb.gpio.direction[q]
      {
        if q >= NUM_GPIOS {
          HighBitsKept(st.gpio, wa, q);
          HighBitsKept(st.gpio, wb, q);
        } else {
          assert !Contested(st, a, q);
        }
      }
      assert ra.gpio.output == rb.gpio.output && ra.gpio.direction == rb.gpio.direction;
    }
  }

  /** A whole cycle that visits the machines in the given order. */
  ghost function CycleIn(st: State, order: seq<Index>): (r: State)
    requires st.Shape()
    ensures r.Shape()
  {
    Counted(DmaSteps(Commit(StepOrder(st, order)), NUM_DMA_CHANNELS))
  }

  /** DMA never looks at the pins. */
  lemma {:induction false} DmaIgnoresPins(st: State, g: Gpio, n: nat)
    requires st.Shape() && |g.control| == NUM_PIO_BLOCKS && n <= NUM_DMA_CHANNELS
    ensures DmaSteps(st.(gpio := g), n) == DmaSteps(st, n).(gpio := g)
    ensures DmaSteps(st, n).gpio == st.gpio
  {
    if n == 0 {
    } else {
      DmaIgnoresPins(st, g, n - 1);
    }
  }

  lemma AscendingDistinct()
    ensures Distinct(ASCENDING)
  {
    assert forall i :: 0 <= i < |ASCENDING| ==> ASCENDING[i] == i;
  }

  lemma AscendingPrefix(i: Index)
    ensures ASCENDING[..i + 1] == ASCENDING[..i] + [i] && i !in ASCENDING[..i] && Distinct(ASCENDING[..i])
  {
    AscendingDistinct();
    assert ASCENDING[i] == i;
    var front := ASCENDING[..i];
    assert forall j :: 0 <= j < |front| ==> front[j] == ASCENDING[j];
    assert ASCENDING[..i + 1] == front + [i];
  }

  lemma StepOrderSnoc(st: State, front: seq<Index>, i: Index)
    requires st.Shape()
    ensures StepOrder(st, front + [i]) == StepSm(StepOrder(st, front), i)
  {
    assert (front + [i])[..|front + [i]| - 1] == front;
  }

  /** The coded ascending order is immaterial: over a whole cycle every permutation of the
  machines gives the same registers, FIFOs, flags, DMA state and uncontested pins. */
  lemma OrderIrrelevant(st: State, order: seq<Index>)
    requires st.Shape() && Distinct(order) && SameMembers(order, ASCENDING)
    ensures CycleIn(st, ASCENDING) == Cycle(st)
    ensures AgreeButContested(st, order, CycleIn(st, order), Cycle(st))
  {
    AscendingDistinct();
    PassOrderIrrelevant(st, order, ASCENDING);
    var ra, rb := StepOrder(st, order), StepOrder(st, ASCENDING);
    FinishAlike(st, order, ra, rb);
    hide StepOrder, DmaSteps, Commit, Counted, AgreeButContested, Distinct, SameMembers;
  }

  /** The commit, the DMA pass and the cycle counter keep an agreement. */
  lemma FinishAlike(st: State, order: seq<Index>, ra: State, rb: State)
    requires st.Shape() && ra.Shape() && rb.Shape() && AgreeButContested(st, order, ra, rb)
    ensures AgreeButContested(st, order, Counted(DmaSteps(Commit(ra), NUM_DMA_CHANNELS)),
      Counted(DmaSteps(Commit(rb), NUM_DMA_CHANNELS)))
  {
    var ca, cb := Commit(ra), Commit(rb);
    assert ca == cb.(gpio := ra.gpio);
    DmaIgnoresPins(cb, ra.gpio, NUM_DMA_CHANNELS);
    DmaIgnoresPins(ca, ra.gpio, NUM_DMA_CHANNELS);
    AgreementOnly(st, order, ra, rb, DmaSteps(ca, NUM_DMA_CHANNELS), DmaSteps(cb, NUM_DMA_CHANNELS));
    hide StepOrder, DmaSteps, Commit, Contested, AgreeButContested, Counted, State.Shape;
  }

  lemma AgreementOnly(st: State, order: seq<Index>, ra: State, rb: State, da: State, db: State)
    requires st.Shape() && AgreeButContested(st, order, ra, rb)
    requires da == db.(gpio := ra.gpio) && db.gpio == rb.gpio
    ensures AgreeButContested(st, order, Counted(da), Counted(db))
  {
    hide PinsAgree;
  }

  // ---------------------------------------------------------------- contested pins

  /** The pins after a cycle are the pins after the pass over the machines. */
  lemma CyclePins(st: State)
    requires st.Shape()
    ensures Cycle(st).gpio == st.gpio.ApplyAll(WritesOf(st, ASCENDING))
  {
    AscendingDistinct();
    SequentialIsSimultaneous(st, ASCENDING);
    var st1 := Commit(StepOrder(st, ASCENDING));
    DmaIgnoresPins(st1, st1.gpio, NUM_DMA_CHANNELS);
  }

  ghost predicate NoLevel(ws: seq<PinWrite>, p: Pin) {
    forall j :: 0 <= j < |ws| ==> !ws[j].SetsLevel(p)
  }

  ghost predicate NoDirection(ws: seq<PinWrite>, p: Pin) {
    forall j :: 0 <= j < |ws| ==> !ws[j].SetsDirection(p)
  }

  /** `ws[k]` is the last write of `ws` that sets the level of `p`. */
  ghost predicate LastLevel(ws: seq<PinWrite>, p: Pin, k: nat) {
    k < |ws| && ws[k].SetsLevel(p) && forall j :: k < j < |ws| ==> !ws[j].SetsLevel(p)
  }

  /** `ws[k]` is the last write of `ws` that sets the direction of `p`. */
  ghost predicate LastDirection(ws: seq<PinWrite>, p: Pin, k: nat) {
    k < |ws| && ws[k].SetsDirection(p) && forall j :: k < j < |ws| ==> !ws[j].SetsDirection(p)
  }

  /** The pins after the first `n` machines have been stepped. */
  ghost function GpioUpTo(st: State, n: nat): Gpio
    requires st.Shape() && n <= NUM_MACHINES
  {
    st.gpio.ApplyAll(WritesOf(st, ASCENDING[..n]))
  }

  lemma GpioUpToNext(st: State, i: Index)
    requires st.Shape()
    ensures GpioUpTo(st, i + 1) == GpioUpTo(st, i).ApplyAll(StepOf(st, i).fx.writes)
  {
    var order := ASCENDING[..i + 1];
    assert ASCENDING[i] == i;
    assert order[..|order| - 1] == ASCENDING[..i];
    ApplyAllConcat(st.gpio, WritesOf(st, ASCENDING[..i]), StepOf(st, i).fx.writes);
  }

  lemma {:induction false} LevelUpTo(st: State, i: Index, k: nat, p: Pin, n: nat)
    requires st.Shape() && i < n <= NUM_MACHINES && LastLevel(StepOf(st, i).fx.writes, p, k)
    requires forall j: Index :: i < j ==> NoLevel(StepOf(st, j).fx.writes, p)
    ensures GpioUpTo(st, n).output[p] == StepOf(st, i).fx.writes[k].NewLevel()
  {
    GpioUpToNext(st, n - 1);
    if n - 1 == i {
      LastLevelWins(GpioUpTo(st, i), StepOf(st, i).fx.writes, p, k);
    } else {
      LevelUpTo(st, i, k, p, n - 1);
      UnwrittenUnchanged(GpioUpTo(st, n - 1), StepOf(st, n - 1).fx.writes, p);
    }
  }

  lemma {:induction false} DirectionUpTo(st: State, i: Index, k: nat, p: Pin, n: nat)
    requires st.Shape() && i < n <= NUM_MACHINES && LastDirection(StepOf(st, i).fx.writes, p, k)
    requires forall j: Index :: i < j ==> NoDirection(StepOf(st, j).fx.writes, p)
    ensures GpioUpTo(st, n).direction[p] == StepOf(st, i).fx.writes[k].Drive?
  {
    GpioUpToNext(st, n - 1);
    if n - 1 == i {
      LastDirectionWins(GpioUpTo(st, i), StepOf(st, i).fx.writes, p, k);
    } else {
      DirectionUpTo(st, i, k, p, n - 1);
      UnwrittenUnchanged(GpioUpTo(st, n - 1), StepOf(st, n - 1).fx.writes, p);
    }
  }

  /** The level of a pin after a cycle is the one the highest-numbered writer gave it last. */
  lemma HighestLevelWins(st: State, i: Index, k: nat, p: Pin)
    requires st.Shape() && LastLevel(StepOf(st, i).fx.writes, p, k)
    requires forall j: Index :: i < j ==> NoLevel(StepOf(st, j).fx.writes, p)
    ensures Cycle(st).gpio.output[p] == StepOf(st, i).fx.writes[k].NewLevel()
  {
    CyclePins(st);
    assert ASCENDING[..NUM_MACHINES] == ASCENDING;
    LevelUpTo(st, i, k, p, NUM_MACHINES);
  }

  /** The direction of a pin after a cycle is the one the highest-numbered writer gave it last. */
  lemma HighestDirectionWins(st: State, i: Index, k: nat, p: Pin)
    requires st.Shape() && LastDirection(StepOf(st, i).fx.writes, p, k)
    requires forall j: Index :: i < j ==> NoDirection(StepOf(st, j).fx.writes, p)
    ensures Cycle(st).gpio.direction[p] == StepOf(st, i).fx.writes[k].Drive?
  {
    CyclePins(st);
    assert ASCENDING[..NUM_MACHINES] == ASCENDING;
    DirectionUpTo(st, i, k, p, NUM_MACHINES);
  }

  /** A pin nobody writes keeps its level and direction over the cycle. */
  lemma UntouchedPin(st: State, p: Pin)
    requires st.Shape()
    requires forall i: Index :: !Touches(StepOf(st, i).fx.writes, p)
    ensures Cycle(st).gpio.output[p] == st.gpio.output[p]
    ensures Cycle(st).gpio.direction[p] == st.gpio.direction[p]
  {
    CyclePins(st);
    NoOneWrites(st, ASCENDING, p);
    OnPinDecides(st.gpio, WritesOf(st, ASCENDING), p);
  }
}
