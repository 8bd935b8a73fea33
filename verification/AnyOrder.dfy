/** Stepping order over many cycles: nothing a machine reads depends on output levels and
directions, so runs that visit the machines in different orders, a new one every cycle, never
drift apart in anything but contested pins. */
module AnyOrder {
  import opened Gpios
  import opened Instructions
  import opened Machines
  import opened System
  import opened Parallel

  ghost predicate Permutation(order: seq<Index>) {
    Distinct(order) && SameMembers(ASCENDING, order)
  }

  ghost predicate Permutations(orders: seq<seq<Index>>) {
    forall k :: 0 <= k < |orders| ==> Permutation(orders[k])
  }

  /** One cycle for each order. */
  ghost function CyclesIn(st: State, orders: seq<seq<Index>>): (r: State)
    requires st.Shape()
    ensures r.Shape()
    decreases |orders|
  {
    if orders == [] then st else CycleIn(CyclesIn(st, orders[..|orders| - 1]), orders[|orders| - 1])
  }

  ghost predicate SameButOutputs(g: Gpio, h: Gpio) {
    g == h.(output := g.output, direction := g.direction)
  }

  /** Equal except, perhaps, for output levels and directions. */
  ghost predicate Apart(a: State, b: State) {
    a == b.(gpio := a.gpio) && SameButOutputs(a.gpio, b.gpio)
  }

  predicate PinSame(g: Gpio, h: Gpio, p: Pin) {
    g.output[p] == h.output[p] && g.direction[p] == h.direction[p]
  }

  ghost predicate PinsKept(a: State, b: State, ra: State, rb: State) {
    forall p: Pin :: PinSame(a.gpio, b.gpio, p) ==> PinSame(ra.gpio, rb.gpio, p)
  }

  lemma SameStep(a: State, b: State, i: Index)
    requires a.Shape() && b.Shape() && Apart(a, b)
    ensures StepOf(a, i) == StepOf(b, i)
  {
    assert EnvOf(a, i) == EnvOf(b, i);
    hide StepMachine, EnvOf;
  }

  lemma {:induction false} ApplyBoth(g: Gpio, h: Gpio, ws: seq<PinWrite>, p: Pin)
    requires SameButOutputs(g, h)
    ensures SameButOutputs(g.ApplyAll(ws), h.ApplyAll(ws))
    ensures PinSame(g, h, p) ==> PinSame(g.ApplyAll(ws), h.ApplyAll(ws), p)
    decreases |ws|
  {
    if ws == [] {
    } else {
      ApplyBoth(g, h, ws[..|ws| - 1], p);
    }
  }

  lemma StepApart(a: State, b: State, i: Index)
    requires a.Shape() && b.Shape() && Apart(a, b)
    ensures Apart(StepSm(a, i), StepSm(b, i)) && PinsKept(a, b, StepSm(a, i), StepSm(b, i))
  {
    SameStep(a, b, i);
    forall p: Pin
      ensures SameButOutputs(StepSm(a, i).gpio, StepSm(b, i).gpio)
      ensures PinSame(a.gpio, b.gpio, p) ==> PinSame(StepSm(a, i).gpio, StepSm(b, i).gpio, p)
    {
      ApplyBoth(a.gpio, b.gpio, StepOf(a, i).fx.writes, p);
    }
    assert SameButOutputs(StepSm(a, i).gpio, StepSm(b, i).gpio) by {
      ApplyBoth(a.gpio, b.gpio, StepOf(a, i).fx.writes, 0);
    }
    hide StepOf, Gpio.ApplyAll, SameButOutputs, PinSame, Defer;
  }

  /** The same order keeps two states together. */
  lemma {:induction false} PassApart(a: State, b: State, order: seq<Index>)
    requires a.Shape() && b.Shape() && Apart(a, b)
    ensures Apart(StepOrder(a, order), StepOrder(b, order))
    ensures PinsKept(a, b, StepOrder(a, order), StepOrder(b, order))
    decreases |order|
  {
    hide StepSm, Apart, PinSame;
    if order == [] {
    } else {
      var front, i := order[..|order| - 1], order[|order| - 1];
      PassApart(a, b, front);
      StepApart(StepOrder(a, front), StepOrder(b, front), i);
    }
  }

  /** So does another order, except for contested pins. */
  lemma PassAnyOrder(a: State, b: State, order: seq<Index>)
    requires a.Shape() && b.Shape() && Apart(a, b) && Permutation(order)
    ensures var ra, rb := StepOrder(a, ASCENDING), StepOrder(b, order);
      && Apart(ra, rb)
      && forall p: Pin :: PinSame(a.gpio, b.gpio, p) && !Contested(a, ASCENDING, p) ==> PinSame(ra.gpio, rb.gpio, p)
  {
    AscendingDistinct();
    PassOrderIrrelevant(a, ASCENDING, order);
    PassApart(a, b, order);
    ApartThrough(a, b, StepOrder(a, ASCENDING), StepOrder(a, order), StepOrder(b, order));
    hide StepOrder, Contested, Permutation;
  }

  lemma ApartThrough(a: State, b: State, x: State, y: State, z: State)
    requires a.Shape() && AgreeButContested(a, ASCENDING, x, y) && Apart(y, z) && PinsKept(a, b, y, z)
    ensures Apart(x, z)
    ensures forall p: Pin :: PinSame(a.gpio, b.gpio, p) && !Contested(a, ASCENDING, p) ==> PinSame(x.gpio, z.gpio, p)
  {
    hide Contested;
  }

  /** Commit, DMA and the cycle counter neither look at pins nor touch them. */
  lemma FinishApart(ra: State, rb: State)
    requires ra.Shape() && rb.Shape() && Apart(ra, rb)
    ensures var fa := Counted(DmaSteps(Commit(ra), NUM_DMA_CHANNELS));
      var fb := Counted(DmaSteps(Commit(rb), NUM_DMA_CHANNELS));
      Apart(fa, fb) && fa.gpio == ra.gpio && fb.gpio == rb.gpio
  {
    var ca, cb := Commit(ra), Commit(rb);
    assert ca == cb.(gpio := ra.gpio);
    DmaIgnoresPins(cb, ra.gpio, NUM_DMA_CHANNELS);
    DmaIgnoresPins(ca, ra.gpio, NUM_DMA_CHANNELS);
    CountedApart(DmaSteps(ca, NUM_DMA_CHANNELS), DmaSteps(cb, NUM_DMA_CHANNELS));
    hide DmaSteps, Commit, Counted, SameButOutputs;
  }

  lemma CountedApart(da: State, db: State)
    requires Apart(da, db)
    ensures Apart(Counted(da), Counted(db)) && Counted(da).gpio == da.gpio && Counted(db).gpio == db.gpio
  {
    hide SameButOutputs;
  }

  lemma CycleAnyOrder(a: State, b: State, order: seq<Index>)
    requires a.Shape() && b.Shape() && Apart(a, b) && Permutation(order)
    ensures var ra, rb := Cycle(a), CycleIn(b, order);
      && Apart(ra, rb)
      && forall p: Pin :: PinSame(a.gpio, b.gpio, p) && !Contested(a, ASCENDING, p) ==> PinSame(ra.gpio, rb.gpio, p)
  {
    PassAnyOrder(a, b, order);
    FinishApart(StepOrder(a, ASCENDING), StepOrder(b, order));
    hide StepOrder, DmaSteps, Commit, Counted, Contested, Permutation, Apart, PinSame;
  }

  /** No two machines write `p` in any of the next `n` cycles. */
  ghost predicate NeverContested(st: State, n: nat, p: Pin)
    requires st.Shape()
  {
    forall k: nat :: k < n ==> !Contested(Cycles(st, k), ASCENDING, p)
  }

  /** Any number of cycles, each in an order of its own, leaves everything but output levels and
  directions as the ascending order leaves it, and those too on every pin that is never
  contested. */
  lemma {:induction false} OrdersIrrelevant(st: State, orders: seq<seq<Index>>)
    requires st.Shape() && Permutations(orders)
    ensures var ra, rb := Cycles(st, |orders|), CyclesIn(st, orders);
      && Apart(ra, rb)
      && forall p: Pin :: NeverContested(st, |orders|, p) ==> PinSame(ra.gpio, rb.gpio, p)
    decreases |orders|
  {
    hide Cycle, CycleIn, Contested, Permutation;
    if orders == [] {
    } else {
      var n := |orders| - 1;
      OrdersIrrelevant(st, orders[..n]);
      CycleAnyOrder(Cycles(st, n), CyclesIn(st, orders[..n]), orders[n]);
      CyclesBy(st, n);
      var all := |orders|;
      forall p: Pin | NeverContested(st, all, p)
        ensures PinSame(Cycles(st, all).gpio, CyclesIn(st, orders).gpio, p)
      {
        assert NeverContested(st, n, p) && !Contested(Cycles(st, n), ASCENDING, p);
      }
      hide Cycles, CyclesIn, Apart, PinSame;
    }
  }
}
