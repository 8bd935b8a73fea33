/** The DMA pipeline loses, duplicates and reorders nothing, in every run of the emulator,
provided both its cycle counts are at least one; with a zero count it delivers nothing. */
module Pipeline {
  import opened Bits
  import opened Dma
  import opened Fifos
  import opened Instructions
  import opened Machines
  import opened System
  import opened Parallel
  import opened Runs
  import opened Stalling

  lemma LoadAllConcat(sram: seq<Byte>, mode: nat, a: seq<Word>, b: seq<Word>)
    ensures LoadAll(sram, mode, a + b) == LoadAll(sram, mode, a) + LoadAll(sram, mode, b)
  {
  }

  /** Everything fetched since `g0` was taken and `p0` put has been delivered, is waiting to
  be written, or is waiting to be read. */
  ghost predicate Conserved(ch: Channel, sram: seq<Byte>, got: seq<Word>, put: seq<Word>, g0: seq<Word>,
                            p0: seq<Word>) {
    && g0 <= got && p0 <= put
    && LoadAll(sram, ch.mode, got[|g0|..]) == put[|p0|..] + ch.Writing() + LoadAll(sram, ch.mode, ch.Reading())
  }

  lemma WriteConserves(ch: Channel, sram: seq<Byte>, tx: Queue, got: seq<Word>, g0: seq<Word>, p0: seq<Word>)
    requires Conserved(ch, sram, got, tx.put, g0, p0)
    ensures Conserved(ch.WriteStage(tx), sram, got, ch.Written(tx).put, g0, p0)
  {
    hide Load, LoadAll;
    if ch.Pushes(tx) {
      assert (tx.put + [ch.readValue])[|p0|..] == tx.put[|p0|..] + [ch.readValue];
      assert tx.put[|p0|..] + [ch.readValue] + [] == tx.put[|p0|..] + [ch.readValue];
    }
  }

  lemma ReadConserves(ch: Channel, sram: seq<Byte>, got: seq<Word>, put: seq<Word>, g0: seq<Word>, p0: seq<Word>)
    requires ch.writeCycles >= 1 && Conserved(ch, sram, got, put, g0, p0)
    ensures Conserved(ch.ReadStage(sram), sram, got, put, g0, p0)
  {
    hide Load;
    if ch.readDelay == 1 && ch.writeDelay == 0 {
      assert LoadAll(sram, ch.mode, [ch.readAddr]) == [Load(sram, ch.mode, ch.readAddr)];
      assert LoadAll(sram, ch.mode, []) == [];
    }
  }

  lemma FetchConserves(ch: Channel, sram: seq<Byte>, rx: Queue, put: seq<Word>, g0: seq<Word>, p0: seq<Word>)
    requires ch.readCycles >= 1 && Conserved(ch, sram, rx.got, put, g0, p0)
    ensures Conserved(ch.FetchStage(rx), sram, ch.Fetched(rx).got, put, g0, p0)
  {
    hide Load;
    if ch.Pops(rx) {
      var a := rx.items[0];
      assert (rx.got + [a])[|g0|..] == rx.got[|g0|..] + [a];
      LoadAllConcat(sram, ch.mode, rx.got[|g0|..], [a]);
      assert LoadAll(sram, ch.mode, []) == [];
    }
  }

  lemma StepConserves(ch: Channel, sram: seq<Byte>, rx: Queue, tx: Queue, g0: seq<Word>, p0: seq<Word>)
    requires ch.readCycles >= 1 && ch.writeCycles >= 1 && Conserved(ch, sram, rx.got, tx.put, g0, p0)
    ensures Conserved(ch.Step(sram, rx, tx), sram, ch.StepRx(sram, rx, tx).got, ch.StepTx(tx).put, g0, p0)
  {
    hide Conserved;
    WriteConserves(ch, sram, tx, rx.got, g0, p0);
    ReadConserves(ch.WriteStage(tx), sram, rx.got, ch.StepTx(tx).put, g0, p0);
    FetchConserves(ch.WriteStage(tx).ReadStage(sram), sram, rx, ch.StepTx(tx).put, g0, p0);
  }

  // ---------------------------------------------------------------- inside a cycle

  /** No other channel shares an endpoint with channel `c`. */
  ghost predicate Exclusive(st: State, c: nat)
    requires st.Shape() && c < NUM_DMA_CHANNELS
  {
    st.dma[c].setup &&
    forall k :: 0 <= k < NUM_DMA_CHANNELS && k != c && st.dma[k].setup ==>
      st.dma[k].Source() != st.dma[c].Source() && st.dma[k].Target() != st.dma[c].Target()
  }

  /** Two channels are configured alike. */
  predicate SameRoute(a: Channel, b: Channel) {
    && a.setup == b.setup && a.Source() == b.Source() && a.Target() == b.Target()
    && a.readCycles == b.readCycles && a.writeCycles == b.writeCycles && a.mode == b.mode
  }

  lemma RouteKept(st: State, n: nat, k: nat)
    requires st.Shape() && n < NUM_DMA_CHANNELS && k < NUM_DMA_CHANNELS
    ensures SameRoute(DmaStep(st, n).dma[k], st.dma[k])
    ensures n != k ==> DmaStep(st, n).dma[k] == st.dma[k]
  {
    hide Load;
  }

  lemma {:induction false} RoutesKept(st: State, n: nat, k: nat)
    requires st.Shape() && n <= NUM_DMA_CHANNELS && k < NUM_DMA_CHANNELS
    ensures SameRoute(DmaSteps(st, n).dma[k], st.dma[k])
  {
    hide DmaStep;
    if n == 0 {
    } else {
      RoutesKept(st, n - 1, k);
      RouteKept(DmaSteps(st, n - 1), n - 1, k);
    }
  }

  lemma OtherChannel(st: State, k: nat, c: nat)
    requires st.Shape() && k < NUM_DMA_CHANNELS && c < NUM_DMA_CHANNELS && k != c
    requires st.dma[k].setup ==> st.dma[k].Source() != st.dma[c].Source() && st.dma[k].Target() != st.dma[c].Target()
    ensures var r, ch := DmaStep(st, k), st.dma[c];
      r.dma[c] == ch && r.sm[ch.Source()].rx == st.sm[ch.Source()].rx && r.sm[ch.Target()].tx == st.sm[ch.Target()].tx
  {
    hide Channel.Step, Channel.StepRx, Channel.StepTx;
  }

  lemma OwnChannel(st: State, c: nat)
    requires st.Shape() && c < NUM_DMA_CHANNELS && st.dma[c].setup
    ensures var r, ch := DmaStep(st, c), st.dma[c];
      var rx, tx := st.sm[ch.Source()].rx, st.sm[ch.Target()].tx;
      && r.dma[c] == ch.Step(st.sram, rx, tx)
      && r.sm[ch.Source()].rx == ch.StepRx(st.sram, rx, tx)
      && r.sm[ch.Target()].tx == ch.StepTx(tx)
  {
    hide Channel.Step, Channel.StepRx, Channel.StepTx;
  }

  /** Where channel `c` stands after the first `n` channels of a cycle that began in `st`. */
  ghost predicate ChannelAfter(st: State, c: nat, n: nat, r: State)
    requires st.Shape() && r.Shape() && c < NUM_DMA_CHANNELS
  {
    var ch := st.dma[c];
    var rx, tx := st.sm[ch.Source()].rx, st.sm[ch.Target()].tx;
    && r.sram == st.sram
    && r.dma[c] == (if n <= c then ch else ch.Step(st.sram, rx, tx))
    && r.sm[ch.Source()].rx == (if n <= c then rx else ch.StepRx(st.sram, rx, tx))
    && r.sm[ch.Target()].tx == (if n <= c then tx else ch.StepTx(tx))
  }

  lemma ChannelNext(st: State, c: nat, n: nat, st1: State)
    requires st.Shape() && st1.Shape() && c < NUM_DMA_CHANNELS && n < NUM_DMA_CHANNELS
    requires Exclusive(st, c) && ChannelAfter(st, c, n, st1)
    requires SameRoute(st1.dma[c], st.dma[c]) && SameRoute(st1.dma[n], st.dma[n])
    ensures ChannelAfter(st, c, n + 1, DmaStep(st1, n))
  {
    hide Channel.Step, Channel.StepRx, Channel.StepTx;
    if n == c {
      OwnChannel(st1, c);
    } else {
      OtherChannel(st1, n, c);
    }
  }

  /** Channel `c` in a cycle: untouched before its turn, stepped once, untouched after. */
  lemma {:induction false} ChannelInCycle(st: State, c: nat, n: nat)
    requires st.Shape() && c < NUM_DMA_CHANNELS && n <= NUM_DMA_CHANNELS && Exclusive(st, c)
    ensures ChannelAfter(st, c, n, DmaSteps(st, n))
    decreases n
  {
    hide DmaStep, Channel.Step, Channel.StepRx, Channel.StepTx;
    if n == 0 {
    } else {
      ChannelInCycle(st, c, n - 1);
      RoutesKept(st, n - 1, c);
      RoutesKept(st, n - 1, n - 1);
      ChannelNext(st, c, n - 1, DmaSteps(st, n - 1));
    }
  }

  // ---------------------------------------------------------------- over runs

  /** A machine's own step takes nothing from its RX FIFO and puts nothing in its TX FIFO. */
  lemma OwnStep(st: State, i: Index)
    requires st.Shape()
    ensures StepOf(st, i).m.rx.got == st.sm[i].rx.got && StepOf(st, i).m.tx.put == st.sm[i].tx.put
  {
    var m := st.sm[i];
    if m.enabled && m.delay == 0 {
      AttemptFrame(m, EnvOf(st, i), Decode(Current(m, EnvOf(st, i).prog)));
    }
  }

  ghost predicate ChannelConserved(st: State, c: nat, g0: seq<Word>, p0: seq<Word>)
    requires st.Shape() && c < NUM_DMA_CHANNELS
  {
    var ch := st.dma[c];
    Conserved(ch, st.sram, st.sm[ch.Source()].rx.got, st.sm[ch.Target()].tx.put, g0, p0)
  }

  lemma PassKeepsChannel(st: State, c: nat)
    requires st.Shape() && c < NUM_DMA_CHANNELS
    ensures var st1 := Commit(StepOrder(st, ASCENDING)); var ch := st.dma[c];
      && st1.dma == st.dma && st1.sram == st.sram
      && st1.sm[ch.Source()].rx.got == st.sm[ch.Source()].rx.got
      && st1.sm[ch.Target()].tx.put == st.sm[ch.Target()].tx.put
  {
    var ch := st.dma[c];
    AscendingDistinct();
    SequentialIsSimultaneous(st, ASCENDING);
    PassStepsEach(st, ch.Source());
    PassStepsEach(st, ch.Target());
    OwnStep(st, ch.Source());
    OwnStep(st, ch.Target());
  }

  lemma CycleConserves(st: State, c: nat, g0: seq<Word>, p0: seq<Word>)
    requires st.Shape() && c < NUM_DMA_CHANNELS && Exclusive(st, c) && ChannelConserved(st, c, g0, p0)
    requires st.dma[c].readCycles >= 1 && st.dma[c].writeCycles >= 1
    ensures ChannelConserved(Cycle(st), c, g0, p0)
  {
    var ch := st.dma[c];
    var st1 := Commit(StepOrder(st, ASCENDING));
    PassKeepsChannel(st, c);
    ChannelInCycle(st1, c, NUM_DMA_CHANNELS);
    hide StepOrder, Commit, DmaSteps, Conserved, Channel.Step, Channel.StepRx, Channel.StepTx;
    var rx, tx := st1.sm[ch.Source()].rx, st1.sm[ch.Target()].tx;
    StepConserves(ch, st.sram, rx, tx, g0, p0);
    RoutesKept(st1, NUM_DMA_CHANNELS, c);
  }

  /** The host leaves the two endpoints of the channel to the channel and the machines. */
  predicate HandsOff(e: Event, ch: Channel) {
    !(e.PopRx? && e.i == ch.Source()) && !(e.PushTx? && e.i == ch.Target())
  }

  /** A run in which the host respects channel `c`, whose route stays what it was. */
  ghost predicate RouteStays(st: State, r: State, c: nat)
    requires st.Shape() && r.Shape() && c < NUM_DMA_CHANNELS
  {
    forall k :: 0 <= k < NUM_DMA_CHANNELS ==> SameRoute(r.dma[k], st.dma[k])
  }

  lemma RouteStaysEvent(st: State, e: Event)
    requires st.Shape() && Legal(st, e)
    ensures forall k :: 0 <= k < NUM_DMA_CHANNELS ==> SameRoute(Apply(st, e).dma[k], st.dma[k])
  {
    if e.Tick? {
      AscendingDistinct();
      SequentialIsSimultaneous(st, ASCENDING);
      forall k | 0 <= k < NUM_DMA_CHANNELS ensures SameRoute(Apply(st, e).dma[k], st.dma[k]) {
        RoutesKept(Commit(StepOrder(st, ASCENDING)), NUM_DMA_CHANNELS, k);
      }
    }
  }

  lemma HostKeepsChannel(st: State, e: Event, ch: Channel)
    requires st.Shape() && Legal(st, e) && !e.Tick? && HandsOff(e, ch)
    ensures var r := Apply(st, e);
      && r.dma == st.dma && r.sram == st.sram
      && r.sm[ch.Source()].rx.got == st.sm[ch.Source()].rx.got
      && r.sm[ch.Target()].tx.put == st.sm[ch.Target()].tx.put
  {
  }

  lemma EventConserves(st: State, e: Event, c: nat, g0: seq<Word>, p0: seq<Word>)
    requires st.Shape() && Legal(st, e) && c < NUM_DMA_CHANNELS && Exclusive(st, c) && HandsOff(e, st.dma[c])
    requires st.dma[c].readCycles >= 1 && st.dma[c].writeCycles >= 1 && ChannelConserved(st, c, g0, p0)
    ensures ChannelConserved(Apply(st, e), c, g0, p0)
  {
    if e.Tick? {
      CycleConserves(st, c, g0, p0);
    } else {
      HostKeepsChannel(st, e, st.dma[c]);
      hide Conserved, Apply, Legal;
    }
  }

  lemma ExclusiveStays(st: State, r: State, c: nat)
    requires st.Shape() && r.Shape() && c < NUM_DMA_CHANNELS && Exclusive(st, c) && RouteStays(st, r, c)
    ensures Exclusive(r, c)
  {
  }

  lemma {:induction false} RunConserves(st: State, es: seq<Event>, c: nat, g0: seq<Word>, p0: seq<Word>)
    requires st.Shape() && LegalRun(st, es) && c < NUM_DMA_CHANNELS && Exclusive(st, c)
    requires forall k :: 0 <= k < |es| ==> HandsOff(es[k], st.dma[c])
    requires st.dma[c].readCycles >= 1 && st.dma[c].writeCycles >= 1 && ChannelConserved(st, c, g0, p0)
    ensures ChannelConserved(Run(st, es), c, g0, p0) && RouteStays(st, Run(st, es), c)
    decreases |es|
  {
    if es == [] {
    } else {
      var front, e := es[..|es| - 1], es[|es| - 1];
      hide Exclusive, ChannelConserved, Apply, Legal;
      RunConserves(st, front, c, g0, p0);
      var r := Run(st, front);
      ExclusiveStays(st, r, c);
      EventConserves(r, e, c, g0, p0);
      RouteStaysEvent(r, e);
    }
  }

  lemma StagesAndQueues(ch: Channel, sram: seq<Byte>, rx: Queue, tx: Queue, g0: seq<Word>, p0: seq<Word>)
    requires Conserved(ch, sram, rx.got, tx.put, g0, p0) && rx.Ok() && tx.Ok()
    ensures |g0| <= |rx.put| && p0 <= tx.put == tx.got + tx.items
    ensures LoadAll(sram, ch.mode, rx.put[|g0|..])
         == tx.put[|p0|..] + ch.Writing() + LoadAll(sram, ch.mode, ch.Reading() + rx.items)
  {
    hide LoadAll;
    LoadAllConcat(sram, ch.mode, rx.got[|g0|..], rx.items);
    LoadAllConcat(sram, ch.mode, ch.Reading(), rx.items);
    assert rx.put[|g0|..] == rx.got[|g0|..] + rx.items;
  }

  /** Nothing is lost, duplicated or reordered on the way from one machine's RX FIFO through
  SRAM to another machine's TX FIFO: in every run of any programs, the loads of all addresses
  that ever entered the RX FIFO, less those taken before the channel was set up, are the words
  delivered since, then the word in the write stage, then the loads of the address in the
  read stage and of the addresses still in the FIFO. */
  lemma NothingLost(st: State, es: seq<Event>, c: nat)
    requires st.Shape() && LegalRun(st, es) && c < NUM_DMA_CHANNELS && Exclusive(st, c)
    requires forall k :: 0 <= k < |es| ==> HandsOff(es[k], st.dma[c])
    requires st.dma[c].readCycles >= 1 && st.dma[c].writeCycles >= 1
    requires st.dma[c].readDelay == 0 && st.dma[c].writeDelay == 0
    requires QueuesOk(st.sm[st.dma[c].Source()]) && QueuesOk(st.sm[st.dma[c].Target()])
    ensures var ch := Run(st, es).dma[c];
      var rx, tx := Run(st, es).sm[st.dma[c].Source()].rx, Run(st, es).sm[st.dma[c].Target()].tx;
      var g0, p0 := st.sm[st.dma[c].Source()].rx.got, st.sm[st.dma[c].Target()].tx.put;
      && |g0| <= |rx.put| && p0 <= tx.put == tx.got + tx.items
      && LoadAll(st.sram, ch.mode, rx.put[|g0|..])
         == tx.put[|p0|..] + ch.Writing() + LoadAll(st.sram, ch.mode, ch.Reading() + rx.items)
  {
    var a, b := st.dma[c].Source(), st.dma[c].Target();
    var g0, p0 := st.sm[a].rx.got, st.sm[b].tx.put;
    assert ChannelConserved(st, c, g0, p0);
    RunConserves(st, es, c, g0, p0);
    RunIsLocal(st, es, a);
    RunIsLocal(st, es, b);
    QueuesAlways(st.sm[a], Projected(st, es, a), st.prog[BlockOf(a)]);
    QueuesAlways(st.sm[b], Projected(st, es, b), st.prog[BlockOf(b)]);
    var r := Run(st, es);
    hide *;
    StagesAndQueues(r.dma[c], r.sram, r.sm[a].rx, r.sm[b].tx, g0, p0);
  }

  // ---------------------------------------------------------------- a zero cycle count

  /** Nothing is on its way to the TX FIFO, and with no read time nothing is being read. */
  ghost predicate Barren(ch: Channel) {
    ch.writeDelay == 0 && (ch.readCycles == 0 ==> ch.readDelay == 0)
  }

  /** The address in the read stage is the last one taken. */
  predicate LastTaken(ch: Channel, got: seq<Word>) {
    ch.readDelay > 0 ==> got != [] && got[|got| - 1] == ch.readAddr
  }

  lemma StepBarren(ch: Channel, sram: seq<Byte>, rx: Queue, tx: Queue)
    requires Barren(ch) && (ch.readCycles == 0 || ch.writeCycles == 0) && LastTaken(ch, rx.got)
    ensures Barren(ch.Step(sram, rx, tx)) && ch.StepTx(tx) == tx
    ensures LastTaken(ch.Step(sram, rx, tx), ch.StepRx(sram, rx, tx).got)
  {
    hide Load;
  }

  ghost predicate BarrenChannel(st: State, c: nat)
    requires st.Shape() && c < NUM_DMA_CHANNELS
  {
    Barren(st.dma[c]) && LastTaken(st.dma[c], st.sm[st.dma[c].Source()].rx.got)
  }

  lemma EventBarren(st: State, e: Event, c: nat)
    requires st.Shape() && Legal(st, e) && c < NUM_DMA_CHANNELS && Exclusive(st, c) && HandsOff(e, st.dma[c])
    requires BarrenChannel(st, c) && (st.dma[c].readCycles == 0 || st.dma[c].writeCycles == 0)
    ensures BarrenChannel(Apply(st, e), c)
    ensures Apply(st, e).sm[st.dma[c].Target()].tx.put == st.sm[st.dma[c].Target()].tx.put
  {
    if e.Tick? {
      TickBarren(st, c);
      hide Cycle, BarrenChannel;
    } else {
      HostKeepsChannel(st, e, st.dma[c]);
      hide Apply, Legal;
    }
  }

  lemma TickBarren(st: State, c: nat)
    requires st.Shape() && c < NUM_DMA_CHANNELS && Exclusive(st, c)
    requires BarrenChannel(st, c) && (st.dma[c].readCycles == 0 || st.dma[c].writeCycles == 0)
    ensures BarrenChannel(Cycle(st), c)
    ensures Cycle(st).sm[st.dma[c].Target()].tx.put == st.sm[st.dma[c].Target()].tx.put
  {
    var ch := st.dma[c];
    var st1 := Commit(StepOrder(st, ASCENDING));
    PassKeepsChannel(st, c);
    ChannelInCycle(st1, c, NUM_DMA_CHANNELS);
    RoutesKept(st1, NUM_DMA_CHANNELS, c);
    hide StepOrder, Commit, DmaSteps, Channel.Step, Channel.StepRx, Channel.StepTx, Barren, LastTaken, Exclusive;
    StepBarren(ch, st.sram, st1.sm[ch.Source()].rx, st1.sm[ch.Target()].tx);
  }

  /** With a read or write cycle count of zero the channel delivers no word at all, in any
  run. */
  lemma {:induction false} ZeroCountDeliversNothing(st: State, es: seq<Event>, c: nat)
    requires st.Shape() && LegalRun(st, es) && c < NUM_DMA_CHANNELS && Exclusive(st, c)
    requires forall k :: 0 <= k < |es| ==> HandsOff(es[k], st.dma[c])
    requires st.dma[c].readCycles == 0 || st.dma[c].writeCycles == 0
    requires st.dma[c].readDelay == 0 && st.dma[c].writeDelay == 0
    ensures var r := Run(st, es); var p0 := st.sm[st.dma[c].Target()].tx.put;
      && BarrenChannel(r, c) && RouteStays(st, r, c)
      && r.sm[st.dma[c].Target()].tx.put == p0
    decreases |es|
  {
    if es == [] {
    } else {
      var front, e := es[..|es| - 1], es[|es| - 1];
      hide Exclusive, Apply, Legal, Barren, LastTaken;
      ZeroCountDeliversNothing(st, front, c);
      var r := Run(st, front);
      ExclusiveStays(st, r, c);
      EventBarren(r, e, c);
      RouteStaysEvent(r, e);
    }
  }

  lemma BarrenLoses(ch: Channel, sram: seq<Byte>, got: seq<Word>, g0: seq<Word>, p0: seq<Word>)
    requires Barren(ch) && LastTaken(ch, got)
    ensures Conserved(ch, sram, got, p0, g0, p0) <==> got == g0 + ch.Reading()
  {
    if Conserved(ch, sram, got, p0, g0, p0) {
      assert |LoadAll(sram, ch.mode, got[|g0|..])| == |LoadAll(sram, ch.mode, ch.Reading())|;
      assert got == g0 + got[|g0|..];
    }
    if got == g0 + ch.Reading() {
      assert got[|g0|..] == ch.Reading();
    }
    hide Load;
  }

  /** A zero-count channel keeps the conservation law if and only if the addresses it has
  taken since it was set up are the one in its read stage, or none: every address that has
  left the read stage is lost. */
  lemma ZeroCountConservesIff(st: State, es: seq<Event>, c: nat)
    requires st.Shape() && LegalRun(st, es) && c < NUM_DMA_CHANNELS && Exclusive(st, c)
    requires forall k :: 0 <= k < |es| ==> HandsOff(es[k], st.dma[c])
    requires st.dma[c].readCycles == 0 || st.dma[c].writeCycles == 0
    requires st.dma[c].readDelay == 0 && st.dma[c].writeDelay == 0
    ensures var r := Run(st, es); var g0 := st.sm[st.dma[c].Source()].rx.got;
      ChannelConserved(r, c, g0, st.sm[st.dma[c].Target()].tx.put) <==>
      r.sm[st.dma[c].Source()].rx.got == g0 + r.dma[c].Reading()
  {
    ZeroCountDeliversNothing(st, es, c);
    var r := Run(st, es);
    var g0, p0 := st.sm[st.dma[c].Source()].rx.got, st.sm[st.dma[c].Target()].tx.put;
    hide Run, LegalRun, Conserved, Barren, LastTaken, Exclusive;
    BarrenLoses(r.dma[c], r.sram, r.sm[st.dma[c].Source()].rx.got, g0, p0);
  }

  lemma CycleKeepsRoutes(st: State, c: nat)
    requires st.Shape() && c < NUM_DMA_CHANNELS && Exclusive(st, c)
    ensures RouteStays(st, Cycle(st), c) && Exclusive(Cycle(st), c) && Cycle(st).sram == st.sram
  {
    RouteStaysEvent(st, Tick);
    ConfigKept(st, Tick);
    assert Apply(st, Tick) == Cycle(st);
    hide Cycle, Exclusive;
    ExclusiveStays(st, Cycle(st), c);
  }

  // ---------------------------------------------------------------- exactly when nothing is lost

  ghost predicate HandsOffRun(es: seq<Event>, ch: Channel) {
    forall k :: 0 <= k < |es| ==> HandsOff(es[k], ch)
  }

  /** Channel `c` loses, duplicates and reorders nothing in any run that respects it. */
  ghost predicate ConservesAlways(st: State, c: nat)
    requires st.Shape() && c < NUM_DMA_CHANNELS
  {
    forall es: seq<Event> :: LegalRun(st, es) && HandsOffRun(es, st.dma[c]) ==>
      ChannelConserved(Run(st, es), c, st.sm[st.dma[c].Source()].rx.got, st.sm[st.dma[c].Target()].tx.put)
  }

  lemma RunAppend(st: State, es: seq<Event>, e: Event)
    requires st.Shape() && LegalRun(st, es) && Legal(Run(st, es), e)
    ensures LegalRun(st, es + [e]) && Run(st, es + [e]) == Apply(Run(st, es), e)
  {
    assert (es + [e])[..|es + [e]| - 1] == es;
    hide Legal, Apply;
  }

  /** `r` has the channel of `st`, still exclusive, and has taken the address words `taken`. */
  ghost predicate TakenSince(st: State, r: State, c: nat, taken: nat)
    requires st.Shape() && r.Shape() && c < NUM_DMA_CHANNELS
  {
    && Exclusive(r, c) && SameRoute(r.dma[c], st.dma[c]) && r.dma[c].writeDelay == 0
    && |r.sm[st.dma[c].Source()].rx.got| == |st.sm[st.dma[c].Source()].rx.got| + taken
  }

  /** A machine leaves the words in its RX FIFO where they are. */
  lemma StepKeepsWords(st: State, i: Index)
    requires st.Shape() && !st.sm[i].rx.Empty()
    ensures !StepOf(st, i).m.rx.Empty()
  {
    var m := st.sm[i];
    if m.enabled && m.delay == 0 {
      AttemptFrame(m, EnvOf(st, i), Decode(Current(m, EnvOf(st, i).prog)));
      hide ExecDecoded;
    }
  }

  /** Channel `c` over one cycle: one step against what its ends hold after the pass. */
  lemma ChannelTick(st: State, c: nat)
    requires st.Shape() && c < NUM_DMA_CHANNELS && Exclusive(st, c)
    ensures var ch := st.dma[c]; var st1 := Commit(StepOrder(st, ASCENDING));
      var rx, tx := st1.sm[ch.Source()].rx, st1.sm[ch.Target()].tx;
      && rx.got == st.sm[ch.Source()].rx.got && (!st.sm[ch.Source()].rx.Empty() ==> !rx.Empty())
      && Cycle(st).dma[c] == ch.Step(st.sram, rx, tx)
      && Cycle(st).sm[ch.Source()].rx == ch.StepRx(st.sram, rx, tx)
  {
    var ch := st.dma[c];
    PassKeepsChannel(st, c);
    PassStepsEach(st, ch.Source());
    if !st.sm[ch.Source()].rx.Empty() {
      StepKeepsWords(st, ch.Source());
    }
    ChannelInCycle(Commit(StepOrder(st, ASCENDING)), c, NUM_DMA_CHANNELS);
    hide StepOrder, Commit, DmaSteps, StepOf, Channel.Step, Channel.StepRx, Channel.StepTx;
  }

  lemma StepTakes(ch: Channel, sram: seq<Byte>, rx: Queue, tx: Queue)
    requires ch.writeDelay == 0
    ensures var r, got := ch.Step(sram, rx, tx), ch.StepRx(sram, rx, tx).got;
      && (ch.readDelay > 1 ==> r.readDelay == ch.readDelay - 1 && r.writeDelay == 0 && |got| == |rx.got|)
      && (ch.readDelay == 0 && !rx.Empty() ==>
            r.readDelay == ch.readCycles && r.writeDelay == 0 && |got| == |rx.got| + 1)
      && (ch.readDelay == 1 && ch.writeCycles == 0 ==> r.writeDelay == 0 && |got| >= |rx.got| + |r.Reading()|)
  {
    hide Load;
  }

  /** What one cycle does to the read stage of a channel whose write stage is empty. */
  lemma ReadTick(st: State, r: State, c: nat, taken: nat)
    requires st.Shape() && r.Shape() && c < NUM_DMA_CHANNELS && TakenSince(st, r, c, taken)
    ensures var n, i := Cycle(r), st.dma[c].Source();
      && Exclusive(n, c) && SameRoute(n.dma[c], st.dma[c])
      && (r.dma[c].readDelay > 1 ==> TakenSince(st, n, c, taken) && n.dma[c].readDelay == r.dma[c].readDelay - 1)
      && (r.dma[c].readDelay == 0 && !r.sm[i].rx.Empty() ==>
            TakenSince(st, n, c, taken + 1) && n.dma[c].readDelay == st.dma[c].readCycles)
      && (r.dma[c].readDelay == 1 && st.dma[c].writeCycles == 0 ==>
            n.dma[c].writeDelay == 0 && |n.sm[i].rx.got| >= |st.sm[i].rx.got| + taken + |n.dma[c].Reading()|)
  {
    ChannelTick(r, c);
    CycleKeepsRoutes(r, c);
    var st1 := Commit(StepOrder(r, ASCENDING));
    var ch := r.dma[c];
    StepTakes(ch, r.sram, st1.sm[ch.Source()].rx, st1.sm[ch.Target()].tx);
    hide Cycle, Exclusive, StepOrder, Commit, Channel.Step, Channel.StepRx, Channel.StepTx, Channel.Reading;
  }

  /** Ticks until the address being read has left the read stage. */
  lemma {:induction false} ReadUntilDropped(st: State, es: seq<Event>, c: nat, n: nat) returns (more: seq<Event>)
    requires st.Shape() && LegalRun(st, es) && c < NUM_DMA_CHANNELS && HandsOffRun(es, st.dma[c])
    requires TakenSince(st, Run(st, es), c, 1) && st.dma[c].writeCycles == 0 && Run(st, es).dma[c].readDelay == n >= 1
    ensures LegalRun(st, more) && HandsOffRun(more, st.dma[c])
    ensures var r := Run(st, more); var i := st.dma[c].Source();
      |r.sm[i].rx.got| > |st.sm[i].rx.got| + |r.dma[c].Reading()|
    decreases n
  {
    var r := Run(st, es);
    hide Run, LegalRun, TakenSince, Cycle, Channel.Reading;
    ReadTick(st, r, c, 1);
    RunAppend(st, es, Tick);
    more := es + [Tick];
    if n == 1 {
    } else {
      more := ReadUntilDropped(st, more, c, n - 1);
    }
  }

  /** The host makes sure there is an address to take. */
  lemma Fed(st: State, c: nat) returns (es: seq<Event>)
    requires st.Shape() && c < NUM_DMA_CHANNELS && Exclusive(st, c) && st.dma[c].writeDelay == 0
    ensures LegalRun(st, es) && HandsOffRun(es, st.dma[c])
    ensures TakenSince(st, Run(st, es), c, 0) && !Run(st, es).sm[st.dma[c].Source()].rx.Empty()
    ensures Run(st, es).dma[c] == st.dma[c]
  {
    es := [];
    var i := st.dma[c].Source();
    if st.sm[i].rx.Empty() {
      Feeds(st, c);
      RunAppend(st, [], PushRx(i, ZERO));
      es := [] + [PushRx(i, ZERO)];
    }
    hide Apply, Legal, Exclusive;
  }

  lemma Feeds(st: State, c: nat)
    requires st.Shape() && c < NUM_DMA_CHANNELS && Exclusive(st, c) && st.dma[c].writeDelay == 0
    requires st.sm[st.dma[c].Source()].rx.Empty()
    ensures var e := PushRx(st.dma[c].Source(), ZERO);
      && Legal(st, e) && HandsOff(e, st.dma[c]) && TakenSince(st, Apply(st, e), c, 0)
      && !Apply(st, e).sm[st.dma[c].Source()].rx.Empty() && Apply(st, e).dma[c] == st.dma[c]
  {
    var r := Apply(st, PushRx(st.dma[c].Source(), ZERO));
    assert r.dma == st.dma;
    assert Exclusive(r, c);
  }

  /** With a zero count some run takes an address and loses it. */
  lemma SomeRunLoses(st: State, c: nat) returns (es: seq<Event>)
    requires st.Shape() && c < NUM_DMA_CHANNELS && Exclusive(st, c)
    requires st.dma[c].readDelay == 0 && st.dma[c].writeDelay == 0
    requires st.dma[c].readCycles == 0 || st.dma[c].writeCycles == 0
    ensures LegalRun(st, es) && HandsOffRun(es, st.dma[c])
    ensures var r := Run(st, es); var i := st.dma[c].Source();
      |r.sm[i].rx.got| > |st.sm[i].rx.got| + |r.dma[c].Reading()|
  {
    es := Fed(st, c);
    var r := Run(st, es);
    ReadTick(st, r, c, 0);
    RunAppend(st, es, Tick);
    es := es + [Tick];
    hide Run, LegalRun, Cycle, Exclusive;
    if st.dma[c].readCycles == 0 {
    } else {
      es := ReadUntilDropped(st, es, c, st.dma[c].readCycles);
    }
  }

  /** An idle channel with exclusive endpoints obeys the conservation law in every run if and
  only if it was set up with both cycle counts at least one. */
  lemma ConservesIff(st: State, c: nat)
    requires st.Shape() && c < NUM_DMA_CHANNELS && Exclusive(st, c)
    requires st.dma[c].readDelay == 0 && st.dma[c].writeDelay == 0
    ensures ConservesAlways(st, c) <==> st.dma[c].readCycles >= 1 && st.dma[c].writeCycles >= 1
  {
    var g0, p0 := st.sm[st.dma[c].Source()].rx.got, st.sm[st.dma[c].Target()].tx.put;
    if st.dma[c].readCycles >= 1 && st.dma[c].writeCycles >= 1 {
      assert ChannelConserved(st, c, g0, p0);
      forall es: seq<Event> | LegalRun(st, es) && HandsOffRun(es, st.dma[c])
        ensures ChannelConserved(Run(st, es), c, g0, p0)
      {
        RunConserves(st, es, c, g0, p0);
      }
    } else {
      var es := SomeRunLoses(st, c);
      hide Run, LegalRun, Exclusive, ChannelConserved;
      ZeroCountConservesIff(st, es, c);
    }
  }
}
