/** When DMA words arrive: the latency of one word, the spacing of successive words, and the
number of words delivered after any number of cycles of the emulator. */
module Throughput {
  import opened Bits
  import opened Dma
  import opened Fifos
  import opened Instructions
  import opened System
  import opened Pipeline

  // ---------------------------------------------------------------- one channel and its ports

  /** What a channel finds at its two ends in one cycle. */
  datatype Ports = Ports(rx: Queue, tx: Queue)

  ghost function After(ch: Channel, sram: seq<Byte>, ps: seq<Ports>): Channel
    decreases |ps|
  {
    if ps == [] then ch
    else After(ch, sram, ps[..|ps| - 1]).Step(sram, ps[|ps| - 1].rx, ps[|ps| - 1].tx)
  }

  /** Channel `c` over `n` cycles of the emulator is `After` of what it found each cycle. */
  lemma CycleIsPort(st: State, c: nat)
    requires st.Shape() && c < NUM_DMA_CHANNELS && Exclusive(st, c)
    ensures var ch := st.dma[c]; var st1 := Commit(StepOrder(st, ASCENDING));
      Cycle(st).dma[c] == ch.Step(st.sram, st1.sm[ch.Source()].rx, st1.sm[ch.Target()].tx)
  {
    PassKeepsChannel(st, c);
    ChannelInCycle(Commit(StepOrder(st, ASCENDING)), c, NUM_DMA_CHANNELS);
  }

  /** What channel `c` finds at its ends in the cycle that begins in `st`. */
  ghost function PortAt(st: State, c: nat): Ports
    requires st.Shape() && c < NUM_DMA_CHANNELS
  {
    var st1 := Commit(StepOrder(st, ASCENDING));
    Ports(st1.sm[st.dma[c].Source()].rx, st1.sm[st.dma[c].Target()].tx)
  }

  ghost function PortsOf(st: State, c: nat, n: nat): (ps: seq<Ports>)
    requires st.Shape() && c < NUM_DMA_CHANNELS
    ensures |ps| == n
  {
    if n == 0 then [] else PortsOf(st, c, n - 1) + [PortAt(Cycles(st, n - 1), c)]
  }

  /** Over any number of cycles of the emulator a channel with exclusive endpoints is what
  `After` says for the FIFOs it met, so the timing results below hold in the emulator. */
  lemma {:induction false} CyclesArePorts(st: State, c: nat, n: nat)
    requires st.Shape() && c < NUM_DMA_CHANNELS && Exclusive(st, c)
    ensures Cycles(st, n).dma[c] == After(st.dma[c], st.sram, PortsOf(st, c, n))
    ensures Exclusive(Cycles(st, n), c) && Cycles(st, n).sram == st.sram
  {
    hide Cycle, Exclusive, Channel.Step, PortsOf, After;
    if n == 0 {
      assert PortsOf(st, c, 0) == [] && After(st.dma[c], st.sram, []) == st.dma[c] by { NoPorts(st, c); }
    } else {
      CyclesArePorts(st, c, n - 1);
      OneMorePort(st, c, n - 1);
      assert n - 1 + 1 == n;
    }
  }

  lemma NoPorts(st: State, c: nat)
    requires st.Shape() && c < NUM_DMA_CHANNELS
    ensures PortsOf(st, c, 0) == [] && After(st.dma[c], st.sram, []) == st.dma[c]
  {
  }

  lemma AfterAppend(ch: Channel, sram: seq<Byte>, ps: seq<Ports>, p: Ports)
    ensures After(ch, sram, ps + [p]) == After(ch, sram, ps).Step(sram, p.rx, p.tx)
  {
    assert (ps + [p])[..|ps + [p]| - 1] == ps;
  }

  lemma OneMorePort(st: State, c: nat, n: nat)
    requires st.Shape() && c < NUM_DMA_CHANNELS && Exclusive(Cycles(st, n), c) && Cycles(st, n).sram == st.sram
    requires Cycles(st, n).dma[c] == After(st.dma[c], st.sram, PortsOf(st, c, n))
    ensures Cycles(st, n + 1).dma[c] == After(st.dma[c], st.sram, PortsOf(st, c, n + 1))
    ensures Exclusive(Cycles(st, n + 1), c) && Cycles(st, n + 1).sram == st.sram
  {
    var r := Cycles(st, n);
    CyclesBy(st, n);
    AfterAppend(st.dma[c], st.sram, PortsOf(st, c, n), PortAt(r, c));
    CycleIsPort(r, c);
    CycleKeepsRoutes(r, c);
    assert PortsOf(st, c, n + 1) == PortsOf(st, c, n) + [PortAt(r, c)];
    hide Cycle, Cycles, Exclusive, Channel.Step, After, PortsOf;
  }

  ghost predicate RoomAlways(ps: seq<Ports>) {
    forall j :: 0 <= j < |ps| ==> !ps[j].tx.Full()
  }

  ghost predicate WorkAlways(ps: seq<Ports>) {
    forall j :: 0 <= j < |ps| ==> !ps[j].rx.Empty()
  }

  function Less(a: nat, b: nat): nat { if a > b then a - b else 0 }

  lemma {:induction false} ReadPhase(ch: Channel, sram: seq<Byte>, ps: seq<Ports>)
    requires RoomAlways(ps) && |ps| < ch.readDelay && ch.writeDelay <= ch.readDelay
    ensures var r := After(ch, sram, ps);
      r.readDelay == ch.readDelay - |ps| && r.writeDelay == Less(ch.writeDelay, |ps|)
      && r.readAddr == ch.readAddr && r.mode == ch.mode && r.writeCycles == ch.writeCycles
    decreases |ps|
  {
    hide Load;
    if ps == [] {
    } else {
      ReadPhase(ch, sram, ps[..|ps| - 1]);
    }
  }

  lemma {:induction false} WritePhase(ch: Channel, sram: seq<Byte>, ps: seq<Ports>)
    requires |ps| < ch.writeDelay
    ensures After(ch, sram, ps).writeDelay == ch.writeDelay - |ps| && After(ch, sram, ps).readValue == ch.readValue
    decreases |ps|
  {
    hide Load;
    if ps == [] {
    } else {
      WritePhase(ch, sram, ps[..|ps| - 1]);
    }
  }

  lemma {:induction false} AfterConcat(ch: Channel, sram: seq<Byte>, a: seq<Ports>, b: seq<Ports>)
    ensures After(ch, sram, a + b) == After(After(ch, sram, a), sram, b)
    decreases |b|
  {
    if b == [] {
      assert a + b == a;
    } else {
      assert (a + b)[..|a + b| - 1] == a + b[..|b| - 1];
      AfterConcat(ch, sram, a, b[..|b| - 1]);
    }
  }

  lemma ReadCompletes(ch: Channel, sram: seq<Byte>, p: Ports)
    requires ch.readDelay == 1 && ch.writeDelay <= 1 && ch.writeCycles >= 1 && !p.tx.Full()
    ensures ch.Step(sram, p.rx, p.tx).writeDelay == ch.writeCycles
    ensures ch.Step(sram, p.rx, p.tx).readValue == Load(sram, ch.mode, ch.readAddr)
  {
    hide Load;
  }

  /** Latency: with room in the TX FIFO throughout and a write stage that drains by the time
  the read completes, the word read for an address popped `readDelay` cycles ago is pushed
  exactly `readDelay + writeCycles` cycles after the pop, and not before. */
  lemma WordLatency(ch: Channel, sram: seq<Byte>, ps: seq<Ports>, j: nat)
    requires ch.readDelay >= 1 && ch.writeCycles >= 1 && ch.writeDelay <= ch.readDelay
    requires |ps| == ch.readDelay + ch.writeCycles && RoomAlways(ps)
    requires ch.readDelay <= j < |ps|
    ensures var r := After(ch, sram, ps[..j]);
      && r.readValue == Load(sram, ch.mode, ch.readAddr)
      && (r.Pushes(ps[j].tx) <==> j == |ps| - 1)
  {
    hide Load, Channel.Step;
    var n := ch.readDelay;
    ReadPhase(ch, sram, ps[..n - 1]);
    var last := After(ch, sram, ps[..n - 1]);
    assert ps[..n][..n - 1] == ps[..n - 1];
    ReadCompletes(last, sram, ps[n - 1]);
    var loaded := After(ch, sram, ps[..n]);
    assert loaded == last.Step(sram, ps[n - 1].rx, ps[n - 1].tx);
    WritePhase(loaded, sram, ps[n..j]);
    assert ps[..j] == ps[..n] + ps[n..j];
    AfterConcat(ch, sram, ps[..n], ps[n..j]);
  }

  /** A read has just completed and the next address has just been fetched. */
  predicate Turnover(ch: Channel) {
    ch.writeDelay == ch.writeCycles >= 1 && ch.readDelay == ch.readCycles >= 1
  }

  function Slower(ch: Channel): nat {
    if ch.readCycles >= ch.writeCycles then ch.readCycles else ch.writeCycles
  }

  lemma {:induction false} MidTurn(ch: Channel, sram: seq<Byte>, ps: seq<Ports>)
    requires Turnover(ch) && RoomAlways(ps) && |ps| < Slower(ch)
    ensures var r := After(ch, sram, ps);
      && r.writeDelay == Less(ch.writeCycles, |ps|)
      && r.readDelay == (if |ps| < ch.readCycles then ch.readCycles - |ps| else 1)
      && r.readAddr == ch.readAddr && SameRoute(r, ch)
    decreases |ps|
  {
    hide Load;
    if ps == [] {
    } else {
      MidTurn(ch, sram, ps[..|ps| - 1]);
    }
  }

  lemma LastTurn(ch: Channel, sram: seq<Byte>, p: Ports)
    requires ch.readDelay == 1 && ch.writeDelay <= 1 && ch.writeCycles >= 1 && ch.readCycles >= 1
    requires !p.tx.Full() && !p.rx.Empty()
    ensures var r := ch.Step(sram, p.rx, p.tx);
      Turnover(r) && SameRoute(r, ch) && r.readValue == Load(sram, ch.mode, ch.readAddr)
  {
    hide Load;
  }

  /** Throughput: while the RX FIFO is never empty and the TX FIFO never full, the channel
  turns over every max(readCycles, writeCycles) cycles and pushes exactly one word per turn,
  always at the same point of the turn. */
  lemma SteadyThroughput(ch: Channel, sram: seq<Byte>, ps: seq<Ports>)
    requires Turnover(ch) && RoomAlways(ps) && WorkAlways(ps) && |ps| == Slower(ch)
    ensures Turnover(After(ch, sram, ps)) && SameRoute(After(ch, sram, ps), ch)
    ensures After(ch, sram, ps).readValue == Load(sram, ch.mode, ch.readAddr)
    ensures forall j :: 0 <= j < |ps| ==> (After(ch, sram, ps[..j]).Pushes(ps[j].tx) <==> j == ch.writeCycles - 1)
  {
    hide Load, Channel.Step;
    var n := |ps| - 1;
    MidTurn(ch, sram, ps[..n]);
    LastTurn(After(ch, sram, ps[..n]), sram, ps[n]);
    forall j | 0 <= j < |ps| ensures After(ch, sram, ps[..j]).Pushes(ps[j].tx) <==> j == ch.writeCycles - 1 {
      MidTurn(ch, sram, ps[..j]);
    }
  }

  // ---------------------------------------------------------------- many turns

  /** Nothing in either stage, and both counts at least one. */
  predicate Ready(ch: Channel) {
    ch.readDelay == 0 && ch.writeDelay == 0 && ch.readCycles >= 1 && ch.writeCycles >= 1
  }

  ghost predicate Busy(ps: seq<Ports>) {
    RoomAlways(ps) && WorkAlways(ps)
  }

  lemma FirstFetch(ch: Channel, sram: seq<Byte>, p: Ports)
    requires Ready(ch) && !p.rx.Empty()
    ensures var r := ch.Step(sram, p.rx, p.tx);
      r.readDelay == ch.readCycles && r.writeDelay == 0 && SameRoute(r, ch) && !ch.Pushes(p.tx)
  {
    hide Load;
  }

  lemma {:induction false} ReadPhaseRoute(ch: Channel, sram: seq<Byte>, ps: seq<Ports>)
    requires RoomAlways(ps) && |ps| < ch.readDelay && ch.writeDelay == 0
    ensures SameRoute(After(ch, sram, ps), ch)
    decreases |ps|
  {
    hide Load;
    if ps == [] {
    } else {
      ReadPhaseRoute(ch, sram, ps[..|ps| - 1]);
      ReadPhase(ch, sram, ps[..|ps| - 1]);
    }
  }

  /** Before its first read completes a ready channel counts down and pushes nothing. */
  lemma StartUp(ch: Channel, sram: seq<Byte>, ps: seq<Ports>, j: nat)
    requires Ready(ch) && Busy(ps) && j < |ps| && j <= ch.readCycles
    ensures !After(ch, sram, ps[..j]).Pushes(ps[j].tx)
    ensures j >= 1 ==> var r := After(ch, sram, ps[..j]);
      r.readDelay == ch.readCycles - (j - 1) && r.writeDelay == 0 && SameRoute(r, ch)
  {
    hide Channel.Step;
    FirstFetch(ch, sram, ps[0]);
    if j >= 1 {
      assert ps[..j] == [ps[0]] + ps[1..j];
      AfterConcat(ch, sram, [ps[0]], ps[1..j]);
      AfterAppend(ch, sram, [], ps[0]);
      assert [] + [ps[0]] == [ps[0]];
      var ch1 := After(ch, sram, [ps[0]]);
      ReadPhase(ch1, sram, ps[1..j]);
      ReadPhaseRoute(ch1, sram, ps[1..j]);
    }
  }

  /** A ready channel with work and room turns over after readCycles + 1 cycles. */
  lemma ReadyTurnsOver(ch: Channel, sram: seq<Byte>, ps: seq<Ports>)
    requires Ready(ch) && Busy(ps) && |ps| == ch.readCycles + 1
    ensures Turnover(After(ch, sram, ps)) && SameRoute(After(ch, sram, ps), ch)
  {
    hide Channel.Step;
    var n := ch.readCycles;
    StartUp(ch, sram, ps, n);
    LastTurn(After(ch, sram, ps[..n]), sram, ps[n]);
  }

  /** And then over again, for any number of turns. */
  lemma {:induction false} TurnsRepeat(ch: Channel, sram: seq<Byte>, ps: seq<Ports>, i: nat)
    requires Turnover(ch) && Busy(ps) && |ps| == Times(i, Slower(ch))
    ensures Turnover(After(ch, sram, ps)) && SameRoute(After(ch, sram, ps), ch)
    decreases i
  {
    if i == 0 {
    } else {
      var k := Times(i - 1, Slower(ch));
      TurnsRepeat(ch, sram, ps[..k], i - 1);
      var ch1 := After(ch, sram, ps[..k]);
      SteadyThroughput(ch1, sram, ps[k..]);
      AfterConcat(ch, sram, ps[..k], ps[k..]);
      assert ps[..k] + ps[k..] == ps;
    }
  }

  /** In every turn the one push is at the same place: successive words are pushed exactly
  max(readCycles, writeCycles) cycles apart. */
  lemma PushInTurn(ch: Channel, sram: seq<Byte>, ps: seq<Ports>, i: nat, o: nat, j: nat)
    requires Turnover(ch) && Busy(ps) && o < Slower(ch) && j == Times(i, Slower(ch)) + o < |ps|
    ensures After(ch, sram, ps[..j]).Pushes(ps[j].tx) <==> o == ch.writeCycles - 1
  {
    var k := Times(i, Slower(ch));
    TurnsRepeat(ch, sram, ps[..k], i);
    var ch1 := After(ch, sram, ps[..k]);
    MidTurn(ch1, sram, ps[k..j]);
    AfterConcat(ch, sram, ps[..k], ps[k..j]);
    assert ps[..k] + ps[k..j] == ps[..j];
  }

  /** From a standing start: no push in the first readCycles + 1 cycles, then one in each turn. */
  lemma PushFromStart(ch: Channel, sram: seq<Byte>, ps: seq<Ports>, i: nat, o: nat, j: nat)
    requires Ready(ch) && Busy(ps) && o < Slower(ch) && j == ch.readCycles + 1 + Times(i, Slower(ch)) + o < |ps|
    ensures After(ch, sram, ps[..j]).Pushes(ps[j].tx) <==> o == ch.writeCycles - 1
  {
    hide Channel.Pushes, Channel.Step;
    var n := ch.readCycles + 1;
    var head, tail := ps[..n], ps[n..];
    ReadyTurnsOver(ch, sram, head);
    var ch1 := After(ch, sram, head);
    PushInTurn(ch1, sram, tail, i, o, j - n);
    AfterConcat(ch, sram, head, tail[..j - n]);
    assert head + tail[..j - n] == ps[..j];
    hide After, Busy, Turnover;
  }

  // ---------------------------------------------------------------- timing in the emulator

  lemma PutTick(st: State, c: nat)
    requires st.Shape() && c < NUM_DMA_CHANNELS && Exclusive(st, c)
    ensures var i, tx := st.dma[c].Target(), PortAt(st, c).tx;
      Cycle(st).sm[i].tx.put == st.sm[i].tx.put + if st.dma[c].Pushes(tx) then [st.dma[c].readValue] else []
  {
    PassKeepsChannel(st, c);
    ChannelInCycle(Commit(StepOrder(st, ASCENDING)), c, NUM_DMA_CHANNELS);
    hide StepOrder, Commit, DmaSteps, Channel.Step, Channel.StepRx;
  }

  /** How many words have ever been put into the channel's target, `k` cycles from `st`. */
  ghost function Delivered(st: State, c: nat, k: nat): nat
    requires st.Shape() && c < NUM_DMA_CHANNELS
  {
    |Cycles(st, k).sm[st.dma[c].Target()].tx.put|
  }

  /** In each cycle of the emulator the target's TX FIFO is put one word or none, as the
  channel's own history says. */
  lemma PutInCycles(st: State, c: nat, n: nat, k: nat)
    requires st.Shape() && c < NUM_DMA_CHANNELS && Exclusive(st, c) && k < n
    ensures var ps := PortsOf(st, c, n);
      Delivered(st, c, k + 1) == Delivered(st, c, k)
        + if After(st.dma[c], st.sram, ps[..k]).Pushes(ps[k].tx) then 1 else 0
  {
    var r := Cycles(st, k);
    CyclesArePorts(st, c, k);
    CyclesKeepRoute(st, c, k);
    PortsPrefix(st, c, n, k);
    PutTick(r, c);
    CyclesBy(st, k);
    hide Cycle, Cycles, Exclusive, After, PortsOf, PortAt, Channel.Pushes;
  }

  lemma {:induction false} CyclesKeepRoute(st: State, c: nat, n: nat)
    requires st.Shape() && c < NUM_DMA_CHANNELS && Exclusive(st, c)
    ensures SameRoute(Cycles(st, n).dma[c], st.dma[c])
  {
    hide Cycle, Exclusive;
    if n == 0 {
    } else {
      CyclesKeepRoute(st, c, n - 1);
      CyclesArePorts(st, c, n - 1);
      CycleKeepsRoutes(Cycles(st, n - 1), c);
    }
  }

  lemma {:induction false} PortsPrefix(st: State, c: nat, n: nat, k: nat)
    requires st.Shape() && c < NUM_DMA_CHANNELS && k < n
    ensures PortsOf(st, c, n)[..k] == PortsOf(st, c, k) && PortsOf(st, c, n)[k] == PortAt(Cycles(st, k), c)
    decreases n
  {
    hide Cycles, PortAt;
    if k == n - 1 {
      assert PortsOf(st, c, n)[..k] == PortsOf(st, c, k);
    } else {
      PortsPrefix(st, c, n - 1, k);
      assert PortsOf(st, c, n)[..k] == PortsOf(st, c, n - 1)[..k];
    }
  }

  /** No word arrives in the first readCycles + 1 cycles. */
  lemma {:induction false} NothingYet(st: State, c: nat, n: nat, k: nat)
    requires st.Shape() && c < NUM_DMA_CHANNELS && Exclusive(st, c) && Ready(st.dma[c]) && Busy(PortsOf(st, c, n))
    requires k <= n && k <= st.dma[c].readCycles + 1
    ensures Delivered(st, c, k) == Delivered(st, c, 0)
    decreases k
  {
    hide Delivered, Exclusive, After, PortsOf, Channel.Pushes, Ready, Busy;
    if k == 0 {
    } else {
      NothingYet(st, c, n, k - 1);
      PutInCycles(st, c, n, k - 1);
      StartUp(st.dma[c], st.sram, PortsOf(st, c, n), k - 1);
      assert k - 1 + 1 == k;
    }
  }

  /** One cycle at offset `o` of turn `i`. */
  lemma WordInTurn(st: State, c: nat, n: nat, i: nat, o: nat, k: nat)
    requires st.Shape() && c < NUM_DMA_CHANNELS && Exclusive(st, c) && Ready(st.dma[c]) && Busy(PortsOf(st, c, n))
    requires o < Slower(st.dma[c]) && k == st.dma[c].readCycles + 1 + Times(i, Slower(st.dma[c])) + o < n
    ensures Delivered(st, c, k + 1) == Delivered(st, c, k) + if o == st.dma[c].writeCycles - 1 then 1 else 0
  {
    PutInCycles(st, c, n, k);
    PushFromStart(st.dma[c], st.sram, PortsOf(st, c, n), i, o, k);
    hide Delivered, Exclusive, After, PortsOf, Channel.Pushes, Busy, Times;
  }

  /** Words arrive on time: in a run of the emulator in which the source FIFO always holds an
  address and the target FIFO always has room when the channel's turn comes, an idle channel
  has delivered exactly `i` words after readCycles + 1 + i * max(readCycles, writeCycles)
  cycles, and the next one exactly writeCycles later. */
  lemma {:induction false} WordsOnTime(st: State, c: nat, n: nat, i: nat, o: nat, k: nat)
    requires st.Shape() && c < NUM_DMA_CHANNELS && Exclusive(st, c) && Ready(st.dma[c]) && Busy(PortsOf(st, c, n))
    requires o < Slower(st.dma[c]) && k == st.dma[c].readCycles + 1 + Times(i, Slower(st.dma[c])) + o <= n
    ensures Delivered(st, c, k) == Delivered(st, c, 0) + i + if o >= st.dma[c].writeCycles then 1 else 0
    decreases i, o
  {
    hide Delivered, Exclusive, After, PortsOf, Channel.Pushes, Busy;
    if i == 0 && o == 0 {
      NothingYet(st, c, n, k);
    } else if o > 0 {
      WordsOnTime(st, c, n, i, o - 1, k - 1);
      WordInTurn(st, c, n, i, o - 1, k - 1);
      assert k - 1 + 1 == k;
    } else {
      var last := Slower(st.dma[c]) - 1;
      assert k - 1 == st.dma[c].readCycles + 1 + Times(i - 1, Slower(st.dma[c])) + last;
      WordsOnTime(st, c, n, i - 1, last, k - 1);
      WordInTurn(st, c, n, i - 1, last, k - 1);
      assert k - 1 + 1 == k;
    }
  }

  // ---------------------------------------------------------------- back-pressure

  ghost predicate NoPush(ch: Channel, sram: seq<Byte>, ps: seq<Ports>) {
    forall j :: 0 <= j < |ps| ==> !After(ch, sram, ps[..j]).Pushes(ps[j].tx)
  }

  lemma NoPushPrefix(ch: Channel, sram: seq<Byte>, ps: seq<Ports>, n: nat)
    requires n <= |ps| && NoPush(ch, sram, ps)
    ensures NoPush(ch, sram, ps[..n])
  {
    forall j | 0 <= j < n ensures !After(ch, sram, ps[..n][..j]).Pushes(ps[j].tx) {
      assert ps[..n][..j] == ps[..j];
    }
  }

  lemma HeldStep(ch: Channel, sram: seq<Byte>, p: Ports)
    requires ch.writeDelay == 1 && p.tx.Full()
    ensures var r := ch.Step(sram, p.rx, p.tx); r.writeDelay == 1 && r.readValue == ch.readValue
  {
    hide Load;
  }

  /** A finished word that finds the TX FIFO full is kept, and pushed in the first cycle in which
  the channel finds room. */
  lemma {:induction false} HeldWordPushed(ch: Channel, sram: seq<Byte>, ps: seq<Ports>, k: nat)
    requires ch.writeDelay == 1 && k < |ps| && !ps[k].tx.Full()
    requires forall j :: 0 <= j < k ==> ps[j].tx.Full()
    ensures var r := After(ch, sram, ps[..k]); r.Pushes(ps[k].tx) && r.readValue == ch.readValue
    ensures NoPush(ch, sram, ps[..k])
  {
    StillHeld(ch, sram, ps[..k]);
  }

  lemma {:induction false} StillHeld(ch: Channel, sram: seq<Byte>, ps: seq<Ports>)
    requires ch.writeDelay == 1 && forall j :: 0 <= j < |ps| ==> ps[j].tx.Full()
    ensures After(ch, sram, ps).writeDelay == 1 && After(ch, sram, ps).readValue == ch.readValue
    ensures NoPush(ch, sram, ps)
    decreases |ps|
  {
    hide Channel.Step;
    if ps == [] {
    } else {
      var front, last := ps[..|ps| - 1], ps[|ps| - 1];
      StillHeld(ch, sram, front);
      HeldStep(After(ch, sram, front), sram, last);
      NoPushAppend(ch, sram, front, last);
      assert front + [last] == ps;
    }
  }

  lemma NoPushAppend(ch: Channel, sram: seq<Byte>, ps: seq<Ports>, p: Ports)
    requires NoPush(ch, sram, ps) && !After(ch, sram, ps).Pushes(p.tx)
    ensures NoPush(ch, sram, ps + [p])
  {
    forall j | 0 <= j < |ps| + 1 ensures !After(ch, sram, (ps + [p])[..j]).Pushes((ps + [p])[j].tx) {
      assert (ps + [p])[..j] == ps[..j];
      assert j == |ps| ==> ps[..j] == ps;
    }
  }

  /** Among any `gap` cycles in a row there is one with room. */
  ghost predicate RoomWithin(ps: seq<Ports>, gap: nat) {
    forall a: nat :: a + gap <= |ps| ==> RoomFrom(ps, a, gap)
  }

  ghost predicate RoomFrom(ps: seq<Ports>, a: nat, gap: nat)
    requires a + gap <= |ps|
  {
    exists j :: a <= j < a + gap && !ps[j].tx.Full()
  }

  lemma {:induction false} FirstRoom(ps: seq<Ports>, a: nat, gap: nat) returns (k: nat)
    requires a + gap <= |ps| && RoomFrom(ps, a, gap)
    ensures a <= k < a + gap && !ps[k].tx.Full() && forall j :: a <= j < k ==> ps[j].tx.Full()
    decreases gap
  {
    if !ps[a].tx.Full() {
      k := a;
    } else {
      k := FirstRoom(ps, a + 1, gap - 1);
    }
  }

  lemma RoomLater(ps: seq<Ports>, gap: nat, n: nat)
    requires RoomWithin(ps, gap) && n <= |ps|
    ensures RoomWithin(ps[n..], gap)
  {
    forall a: nat | a + gap <= |ps[n..]| ensures RoomFrom(ps[n..], a, gap) {
      assert RoomFrom(ps, a + n, gap);
      var j :| a + n <= j < a + n + gap && !ps[j].tx.Full();
      assert ps[n..][j - n] == ps[j];
    }
  }

  lemma NoPushConcat(ch: Channel, sram: seq<Byte>, a: seq<Ports>, b: seq<Ports>)
    requires NoPush(ch, sram, a) && NoPush(After(ch, sram, a), sram, b)
    ensures NoPush(ch, sram, a + b)
  {
    forall j | 0 <= j < |a + b| ensures !After(ch, sram, (a + b)[..j]).Pushes((a + b)[j].tx) {
      if j < |a| {
        assert (a + b)[..j] == a[..j];
      } else {
        assert (a + b)[..j] == a + b[..j - |a|];
        AfterConcat(ch, sram, a, b[..j - |a|]);
      }
    }
  }

  lemma {:induction false} CountsDown(ch: Channel, sram: seq<Byte>, ps: seq<Ports>)
    requires |ps| < ch.writeDelay
    ensures NoPush(ch, sram, ps)
    decreases |ps|
  {
    hide Channel.Step;
    if ps == [] {
    } else {
      var front, last := ps[..|ps| - 1], ps[|ps| - 1];
      CountsDown(ch, sram, front);
      WritePhase(ch, sram, front);
      NoPushAppend(ch, sram, front, last);
      assert front + [last] == ps;
    }
  }

  /** A word in the write stage is the next to be pushed, within its delay and one gap. */
  lemma NextPush(ch: Channel, sram: seq<Byte>, ps: seq<Ports>, gap: nat) returns (k: nat)
    requires ch.writeDelay >= 1 && RoomWithin(ps, gap) && ch.writeDelay - 1 + gap <= |ps|
    ensures k < ch.writeDelay - 1 + gap && NoPush(ch, sram, ps[..k])
    ensures var r := After(ch, sram, ps[..k]); r.Pushes(ps[k].tx) && r.readValue == ch.readValue
  {
    hide Channel.Step;
    var n := ch.writeDelay - 1;
    assert RoomFrom(ps, n, gap);
    k := FirstRoom(ps, n, gap);
    WritePhase(ch, sram, ps[..n]);
    CountsDown(ch, sram, ps[..n]);
    var held := After(ch, sram, ps[..n]);
    HeldWordPushed(held, sram, ps[n..], k - n);
    AfterConcat(ch, sram, ps[..n], ps[n..][..k - n]);
    NoPushConcat(ch, sram, ps[..n], ps[n..][..k - n]);
    assert ps[..n] + ps[n..][..k - n] == ps[..k];
  }

  /** The read stage keeps its address while the write stage is busy. */
  predicate SameRead(r: Channel, ch: Channel) {
    && r.readAddr == ch.readAddr && r.mode == ch.mode && r.writeCycles == ch.writeCycles
    && 1 <= r.readDelay <= ch.readDelay
  }

  lemma WaitStep(ch: Channel, sram: seq<Byte>, p: Ports)
    requires ch.readDelay >= 1 && ch.writeDelay >= 1
    ensures var r := ch.Step(sram, p.rx, p.tx);
      && (!ch.Pushes(p.tx) ==> SameRead(r, ch) && r.writeDelay >= 1)
      && (ch.Pushes(p.tx) && ch.readDelay == 1 ==>
            r.writeDelay == ch.writeCycles && r.readValue == Load(sram, ch.mode, ch.readAddr))
      && (ch.Pushes(p.tx) && ch.readDelay > 1 ==> SameRead(r, ch) && r.writeDelay == 0)
  {
    hide Load;
  }

  lemma {:induction false} ReadWaits(ch: Channel, sram: seq<Byte>, ps: seq<Ports>)
    requires ch.readDelay >= 1 && ch.writeDelay >= 1 && NoPush(ch, sram, ps)
    ensures SameRead(After(ch, sram, ps), ch) && After(ch, sram, ps).writeDelay >= 1
    decreases |ps|
  {
    hide Channel.Step;
    if ps == [] {
    } else {
      var n := |ps| - 1;
      NoPushPrefix(ch, sram, ps, n);
      ReadWaits(ch, sram, ps[..n]);
      WaitStep(After(ch, sram, ps[..n]), sram, ps[n]);
    }
  }

  lemma {:induction false} ReadAlone(ch: Channel, sram: seq<Byte>, ps: seq<Ports>)
    requires ch.writeDelay == 0 && |ps| < ch.readDelay
    ensures var r := After(ch, sram, ps);
      r.writeDelay == 0 && r.readDelay == ch.readDelay - |ps| && SameRead(r, ch)
    decreases |ps|
  {
    hide Load;
    if ps == [] {
    } else {
      ReadAlone(ch, sram, ps[..|ps| - 1]);
    }
  }

  lemma ReadDone(ch: Channel, sram: seq<Byte>, p: Ports)
    requires ch.readDelay == 1 && ch.writeDelay == 0
    ensures var r := ch.Step(sram, p.rx, p.tx);
      r.writeDelay == ch.writeCycles && r.readValue == Load(sram, ch.mode, ch.readAddr)
  {
    hide Load;
  }

  /** With the write stage empty, the address being read is loaded when its delay is over. */
  lemma LoadedAlone(ch: Channel, sram: seq<Byte>, ps: seq<Ports>)
    requires ch.readDelay >= 1 && ch.writeDelay == 0 && |ps| == ch.readDelay
    ensures var r := After(ch, sram, ps);
      r.writeDelay == ch.writeCycles && r.readValue == Load(sram, ch.mode, ch.readAddr)
  {
    hide Channel.Step, Load;
    var n := |ps| - 1;
    ReadAlone(ch, sram, ps[..n]);
    ReadDone(After(ch, sram, ps[..n]), sram, ps[n]);
  }

  /** The address being read is loaded into the write stage within a bounded time. */
  lemma Loaded(ch: Channel, sram: seq<Byte>, ps: seq<Ports>, gap: nat) returns (k: nat)
    requires ch.readDelay >= 1 && RoomWithin(ps, gap) && ch.writeDelay + ch.readDelay + gap <= |ps|
    ensures k <= ch.writeDelay + ch.readDelay + gap
    ensures var r := After(ch, sram, ps[..k]);
      r.writeDelay == ch.writeCycles && r.readValue == Load(sram, ch.mode, ch.readAddr)
  {
    hide Channel.Step, Load;
    if ch.writeDelay == 0 {
      k := ch.readDelay;
      LoadedAlone(ch, sram, ps[..k]);
    } else {
      var j := NextPush(ch, sram, ps, gap);
      ReadWaits(ch, sram, ps[..j]);
      var r := After(ch, sram, ps[..j]);
      WaitStep(r, sram, ps[j]);
      assert ps[..j + 1][..j] == ps[..j];
      var r1 := After(ch, sram, ps[..j + 1]);
      assert r1 == r.Step(sram, ps[j].rx, ps[j].tx);
      if r.readDelay == 1 {
        k := j + 1;
      } else {
        k := j + 1 + r1.readDelay;
        LoadedAlone(r1, sram, ps[j + 1..k]);
        AfterConcat(ch, sram, ps[..j + 1], ps[j + 1..k]);
        assert ps[..j + 1] + ps[j + 1..k] == ps[..k];
      }
    }
  }

  /** Every address taken is delivered: however often the TX FIFO is full, if among any `gap`
  cycles one finds room, the word read for it is pushed within the delays of both stages and
  two gaps. */
  lemma AddressDelivered(ch: Channel, sram: seq<Byte>, ps: seq<Ports>, gap: nat) returns (k: nat)
    requires ch.readDelay >= 1 && ch.writeCycles >= 1 && RoomWithin(ps, gap)
    requires |ps| == ch.writeDelay + ch.readDelay + ch.writeCycles + 2 * gap
    ensures k < |ps|
    ensures var r := After(ch, sram, ps[..k]);
      r.Pushes(ps[k].tx) && r.readValue == Load(sram, ch.mode, ch.readAddr)
  {
    hide Channel.Step, Load;
    var n := Loaded(ch, sram, ps, gap);
    var ch1 := After(ch, sram, ps[..n]);
    RoomLater(ps, gap, n);
    var j := NextPush(ch1, sram, ps[n..], gap);
    k := n + j;
    AfterConcat(ch, sram, ps[..n], ps[n..][..j]);
    assert ps[..n] + ps[n..][..j] == ps[..k];
  }

  /** In the emulator: an address in the read stage of a channel with exclusive endpoints ends
  as its word in the target's TX FIFO. */
  lemma AddressDeliveredInCycles(st: State, c: nat, gap: nat, n: nat) returns (k: nat)
    requires st.Shape() && c < NUM_DMA_CHANNELS && Exclusive(st, c)
    requires st.dma[c].readDelay >= 1 && st.dma[c].writeCycles >= 1 && RoomWithin(PortsOf(st, c, n), gap)
    requires n == st.dma[c].writeDelay + st.dma[c].readDelay + st.dma[c].writeCycles + 2 * gap
    ensures k < n
    ensures var t := st.dma[c].Target();
      Cycles(st, k + 1).sm[t].tx.put
      == Cycles(st, k).sm[t].tx.put + [Load(st.sram, st.dma[c].mode, st.dma[c].readAddr)]
  {
    hide Cycle, Cycles, Exclusive, After, PortsOf, PortAt, Channel.Pushes, Load, RoomWithin;
    k := AddressDelivered(st.dma[c], st.sram, PortsOf(st, c, n), gap);
    CyclesArePorts(st, c, k);
    CyclesKeepRoute(st, c, k);
    PortsPrefix(st, c, n, k);
    PutTick(Cycles(st, k), c);
    CyclesBy(st, k);
  }
}
