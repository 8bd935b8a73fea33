/** The looped program `out x, c; in x, c` with autopull and autopush at 32 bits copies the
words of the TX FIFO to the RX FIFO, unchanged and in order, for every field width that
divides 32, every delay, every stall and every host schedule. */
module CopyLoop {
  import opened Bits
  import opened Instructions
  import opened Locals
  import opened Machines
  import opened Serial
  import opened Stalling
  import opened System
  import opened Runs

  /** The configuration and the two instructions, at `at` and `at + 1`. */
  ghost predicate CopyProgram(reg: Regs, prog: seq<nat>, at: nat, c: Count) {
    && at + 1 < NUM_INSTRS_PER_BLOCK
    && Decode(Fetch(prog, at)) == Out(OutX, c) && Decode(Fetch(prog, at + 1)) == In(InX, c)
    && reg.WrapBottom() == at && reg.WrapTop() == at + 1
    && reg.AutoPull() && reg.AutoPush() && reg.PullThreshold() == 32 && reg.PushThreshold() == 32
    && reg.InRight() == reg.OutRight()
    && Divides(c, 32)
  }

  ghost predicate Divides(c: Count, k: nat) { k % c == 0 }

  /** Nobody but the host's producer and consumer sides touches the FIFOs. */
  predicate HostSide(l: Local) {
    !l.GetTx? && !l.PutRx?
  }

  lemma FieldsFit(k: nat, c: Count)
    requires Divides(c, 32) && Divides(c, k) && k < 32
    ensures k + c <= 32 && Divides(c, k + c) && Divides(c, 0)
  {
    if c != 1 && c != 2 && c != 4 && c != 8 && c != 16 && c != 32 {
      NotDivisor(c);
    }
  }

  lemma NotDivisor(c: Count)
    requires c !in {1, 2, 4, 8, 16, 32}
    ensures 32 % c != 0
  {
    if c > 16 {
      assert 32 / c == 1;
    }
  }

  /** Where the program stands: `sent` words have been pushed, `flight` is being moved. */
  ghost predicate Copying(m: Machine, at: nat, c: Count, got: seq<Word>, put: seq<Word>, sent: seq<Word>,
                          flight: seq<Word>) {
    var k, right := m.isrCount, m.reg.OutRight();
    && !m.execPending
    && m.tx.got == got + sent + flight && m.rx.put == put + sent
    && Divides(c, k)
    && match |flight|
       case 0 => m.pc == at && k == 0 && m.osrCount == 32
       case 1 =>
         var w := flight[0];
         && k <= 32 && Received(m.isr, w, k, right)
         && (if m.pc == at then !m.stalled && 0 < k == m.osrCount < 32 && Remaining(m.osr, w, k, right)
             else if m.stalled then m.pc == at + 1 && k == 32 && m.osrCount == 32
             else && m.pc == at + 1 && k + c <= 32 && m.osrCount == k + c && Remaining(m.osr, w, k + c, right)
                  && Received(ShiftIn(m.isr, m.x, c, right), w, k + c, right))
       case _ => false
  }

  lemma FullWord(isr: Word, w: Word, right: bool)
    requires Received(isr, w, 32, right)
    ensures isr == w
  {
    assert isr[0..] == isr && isr[..32] == isr;
    assert w[0..] == w && w[..32] == w;
  }

  lemma NothingMoved(w: Word, isr: Word, right: bool)
    ensures Remaining(w, w, 0, right) && Received(isr, w, 0, right)
  {
    assert w[..32] == w == w[0..];
    assert w[..0] == [] == w[32..];
  }

  lemma FreshOut(m: Machine, env: Env, c: Count)
    requires env.Ok() && m.delay == 0 && !m.execPending && Decode(Fetch(env.prog, m.pc)) == Out(OutX, c)
    requires PullDue(m) && !m.tx.Empty()
    ensures var w, right := m.tx.items[0], m.reg.OutRight(); var r := StepMachine(m, env).m;
      r == m.(tx := m.tx.Pop(), x := OutData(w, c, right), osr := OutRest(w, c, right), osrCount := c,
              stalled := false, pc := NextPc(m), delay := DelayField(Fetch(env.prog, m.pc)))
  {
    hide OutRest, OutData;
  }

  lemma PlainOut(m: Machine, env: Env, c: Count)
    requires env.Ok() && m.delay == 0 && !m.execPending && Decode(Fetch(env.prog, m.pc)) == Out(OutX, c)
    requires !PullDue(m)
    ensures var right := m.reg.OutRight(); var r := StepMachine(m, env).m;
      r == m.(x := OutData(m.osr, c, right), osr := OutRest(m.osr, c, right), osrCount := AddCount(m.osrCount, c),
              pc := NextPc(m), delay := DelayField(Fetch(env.prog, m.pc)))
  {
    hide OutRest, OutData;
  }

  lemma DryOut(m: Machine, env: Env, c: Count)
    requires env.Ok() && m.delay == 0 && !m.execPending && Decode(Fetch(env.prog, m.pc)) == Out(OutX, c)
    requires PullDue(m) && m.tx.Empty()
    ensures StepMachine(m, env).m == m.(stalled := true)
  {
  }

  /** OUT executing with nothing in flight: stall on an empty FIFO, or start on its head. */
  lemma FirstField(m: Machine, env: Env, at: nat, c: Count, got: seq<Word>, put: seq<Word>, sent: seq<Word>)
    requires env.Ok() && CopyProgram(m.reg, env.prog, at, c) && m.delay == 0 && m.pc == at
    requires Copying(m, at, c, got, put, sent, [])
    ensures Copying(StepMachine(m, env).m, at, c, got, put, sent, if m.tx.Empty() then [] else [m.tx.items[0]])
  {
    hide ExecDecoded, OutRest, OutData, ShiftIn, Remaining, Received, Divides;
    if m.tx.Empty() {
      DryOut(m, env, c);
    } else {
      FreshOut(m, env, c);
      var w := m.tx.items[0];
      NothingMoved(w, m.isr, m.reg.OutRight());
      FieldsFit(0, c);
      FieldMoves(w, m.isr, w, 0, c, m.reg.OutRight());
      assert m.tx.Pop().got == got + sent + [w];
    }
  }

  /** OUT executing in the middle of a word: the next field goes to X. */
  lemma NextField(m: Machine, env: Env, at: nat, c: Count, got: seq<Word>, put: seq<Word>, sent: seq<Word>, w: Word)
    requires env.Ok() && CopyProgram(m.reg, env.prog, at, c) && m.delay == 0 && m.pc == at
    requires Copying(m, at, c, got, put, sent, [w])
    ensures Copying(StepMachine(m, env).m, at, c, got, put, sent, [w])
  {
    hide ExecDecoded, OutRest, OutData, ShiftIn, Remaining, Received, Divides;
    PlainOut(m, env, c);
    FieldsFit(m.isrCount, c);
    FieldMoves(m.osr, m.isr, w, m.isrCount, c, m.reg.OutRight());
  }

  /** IN X with autopush: shift unless retrying, then push at the threshold. */
  lemma InXTick(m: Machine, env: Env, c: Count)
    requires env.Ok() && m.delay == 0 && !m.execPending && Decode(Fetch(env.prog, m.pc)) == In(InX, c)
    requires m.reg.AutoPush() && m.reg.PushThreshold() == 32
    ensures var isr := if m.stalled then m.isr else ShiftIn(m.isr, m.x, c, m.reg.InRight());
      var k := if m.stalled then m.isrCount else AddCount(m.isrCount, c);
      var r := StepMachine(m, env).m;
      r == if k < 32 then m.(isr := isr, isrCount := k, pc := NextPc(m), delay := DelayField(Fetch(env.prog, m.pc)))
           else if m.rx.Full() then m.(isr := isr, isrCount := k, stalled := true)
           else m.(isr := ZERO, isrCount := 0, rx := m.rx.Push(isr), stalled := false, pc := NextPc(m),
                   delay := DelayField(Fetch(env.prog, m.pc)))
  {
    hide ShiftIn;
  }

  /** IN executing: take the field from X and, at 32 bits, push the rebuilt word. */
  lemma InTick(m: Machine, env: Env, at: nat, c: Count, got: seq<Word>, put: seq<Word>, sent: seq<Word>,
               flight: seq<Word>)
    returns (sent': seq<Word>, flight': seq<Word>)
    requires env.Ok() && CopyProgram(m.reg, env.prog, at, c) && m.delay == 0 && m.pc != at
    requires Copying(m, at, c, got, put, sent, flight)
    ensures Copying(StepMachine(m, env).m, at, c, got, put, sent', flight')
    ensures var pushes := (m.stalled || m.isrCount + c >= 32) && !m.rx.Full();
      sent' == (if pushes then sent + flight else sent) && flight' == (if pushes then [] else flight)
  {
    hide ExecDecoded, Decode, ShiftIn, Remaining, Received, Divides, DelayField;
    InXTick(m, env, c);
    var right := m.reg.OutRight();
    var w := flight[0];
    assert flight == [w];
    var isr := if m.stalled then m.isr else ShiftIn(m.isr, m.x, c, right);
    sent', flight' := sent, flight;
    FieldsFit(0, c);
    if !m.stalled && m.isrCount + c < 32 {
      FieldsFit(m.isrCount, c);
    } else {
      FullWord(isr, w, right);
      if !m.rx.Full() {
        sent', flight' := sent + [w], [];
        assert got + (sent + [w]) + [] == got + sent + [w];
        assert put + (sent + [w]) == put + sent + [w];
      }
    }
  }

  lemma CopyStep(m: Machine, l: Local, prog: seq<nat>, at: nat, c: Count, got: seq<Word>, put: seq<Word>,
                 sent: seq<Word>, flight: seq<Word>)
    returns (sent': seq<Word>, flight': seq<Word>)
    requires Possible(m, l, prog) && HostSide(l) && CopyProgram(m.reg, prog, at, c)
    requires Copying(m, at, c, got, put, sent, flight) && |flight| <= 1
    ensures Copying(LocalStep(m, l, prog), at, c, got, put, sent', flight') && |flight'| <= 1
    ensures LocalStep(m, l, prog).reg == m.reg
  {
    hide ExecDecoded, Decode, ShiftIn, Remaining, Received, Divides;
    sent', flight' := sent, flight;
    if l.Tick? && m.enabled && m.delay == 0 {
      RegKept(m, l.env);
      if m.pc != at {
        sent', flight' := InTick(m, l.env, at, c, got, put, sent, flight);
      } else if flight == [] {
        flight' := if m.tx.Empty() then [] else [m.tx.items[0]];
        FirstField(m, l.env, at, c, got, put, sent);
      } else {
        assert flight == [flight[0]];
        NextField(m, l.env, at, c, got, put, sent, flight[0]);
      }
    }
  }

  lemma RegKept(m: Machine, env: Env)
    requires env.Ok()
    ensures StepMachine(m, env).m.reg == m.reg
  {
    if m.delay == 0 {
      AttemptFrame(m, env, Decode(Current(m, env.prog)));
    }
  }

  lemma {:induction false} CopyProgress(m: Machine, ls: seq<Local>, prog: seq<nat>, at: nat, c: Count)
    returns (sent: seq<Word>, flight: seq<Word>)
    requires PossibleRun(m, ls, prog) && CopyProgram(m.reg, prog, at, c)
    requires forall k :: 0 <= k < |ls| ==> HostSide(ls[k])
    requires m.pc == at && !m.execPending && m.osrCount == 32 && m.isrCount == 0
    ensures LocalRun(m, ls, prog).reg == m.reg && |flight| <= 1
    ensures Copying(LocalRun(m, ls, prog), at, c, m.tx.got, m.rx.put, sent, flight)
    decreases |ls|
  {
    if ls == [] {
      sent, flight := [], [];
    } else {
      var front := ls[..|ls| - 1];
      sent, flight := CopyProgress(m, front, prog, at, c);
      sent, flight := CopyStep(LocalRun(m, front, prog), ls[|ls| - 1], prog, at, c, m.tx.got, m.rx.put, sent, flight);
    }
  }

  /** Over every run, the words pushed to RX since the start are the words pulled from TX
  since the start, in order, except that at most one is still in the shift registers. */
  lemma CopiesFaithfully(m: Machine, ls: seq<Local>, prog: seq<nat>, at: nat, c: Count)
    requires PossibleRun(m, ls, prog) && CopyProgram(m.reg, prog, at, c)
    requires forall k :: 0 <= k < |ls| ==> HostSide(ls[k])
    requires m.pc == at && !m.execPending && m.osrCount == 32 && m.isrCount == 0
    ensures var r := LocalRun(m, ls, prog);
      exists sent, flight :: |flight| <= 1 && r.rx.put == m.rx.put + sent && r.tx.got == m.tx.got + sent + flight
  {
    var sent, flight := CopyProgress(m, ls, prog, at, c);
    var r := LocalRun(m, ls, prog);
    assert r.rx.put == m.rx.put + sent && r.tx.got == m.tx.got + sent + flight;
  }

  // ---------------------------------------------------------------- progress

  /** Nothing but clock ticks. */
  ghost predicate OnlyTicks(ls: seq<Local>, prog: seq<nat>) {
    forall k :: 0 <= k < |ls| ==> ls[k].Tick? && ls[k].env.Ok() && ls[k].env.prog == prog
  }

  lemma {:induction false} DelayRunsOut(m: Machine, ls: seq<Local>, prog: seq<nat>)
    requires OnlyTicks(ls, prog) && m.enabled && |ls| <= m.delay
    ensures PossibleRun(m, ls, prog) && LocalRun(m, ls, prog) == m.(delay := m.delay - |ls|)
    decreases |ls|
  {
    if ls == [] {
    } else {
      DelayRunsOut(m, ls[..|ls| - 1], prog);
    }
  }

  /** One executing tick and the delay it leaves, as one run. */
  lemma TickAndDelay(m: Machine, ls: seq<Local>, prog: seq<nat>, r: Machine)
    requires OnlyTicks(ls, prog) && ls != [] && m.enabled && r == StepMachine(m, ls[0].env).m && r.enabled
    requires |ls| == 1 + r.delay
    ensures PossibleRun(m, ls, prog) && LocalRun(m, ls, prog) == r.(delay := 0)
  {
    hide StepMachine;
    DelayRunsOut(r, ls[1..], prog);
    RunSingle(m, ls[0], prog);
    RunConcat(m, [ls[0]], ls[1..], prog);
    assert [ls[0]] + ls[1..] == ls;
  }

  /** Ready for the next field of a word: at OUT, no delay running. */
  ghost predicate AtOut(m: Machine, at: nat) {
    m.enabled && m.delay == 0 && m.pc == at && !m.rx.Full()
  }

  /** The cycles one OUT and one IN take, delays included. */
  function FieldCycles(prog: seq<nat>, at: nat): nat {
    2 + DelayField(Fetch(prog, at)) + DelayField(Fetch(prog, at + 1))
  }

  /** The OUT half: a field goes to X; the first one fetches the word. */
  lemma OutHalf(m: Machine, env: Env, at: nat, c: Count, got: seq<Word>, put: seq<Word>, sent: seq<Word>,
                flight: seq<Word>, w: Word)
    requires env.Ok() && CopyProgram(m.reg, env.prog, at, c) && AtOut(m, at)
    requires Copying(m, at, c, got, put, sent, flight)
    requires flight == [w] || (flight == [] && !m.tx.Empty() && w == m.tx.items[0])
    ensures var r := StepMachine(m, env).m;
      && Copying(r, at, c, got, put, sent, [w]) && r.pc == at + 1 && !r.stalled && r.enabled
      && r.isrCount == m.isrCount && r.rx == m.rx && r.reg == m.reg
      && r.tx == (if flight == [] then m.tx.Pop() else m.tx)
      && r.delay == DelayField(Fetch(env.prog, at))
  {
    hide ExecDecoded, Decode, OutRest, OutData, ShiftIn, Remaining, Received, Divides, DelayField;
    RegKept(m, env);
    if flight == [] {
      FirstField(m, env, at, c, got, put, sent);
      FreshOut(m, env, c);
    } else {
      NextField(m, env, at, c, got, put, sent, w);
      PlainOut(m, env, c);
    }
  }

  /** The IN half: the field leaves X and, if it was the last, the word is pushed. */
  lemma InHalf(m: Machine, env: Env, at: nat, c: Count, got: seq<Word>, put: seq<Word>, sent: seq<Word>, w: Word)
    requires env.Ok() && CopyProgram(m.reg, env.prog, at, c) && Copying(m, at, c, got, put, sent, [w])
    requires m.enabled && m.delay == 0 && m.pc == at + 1 && !m.stalled && !m.rx.Full()
    ensures var r := StepMachine(m, env).m; var last := m.isrCount + c == 32;
      && Copying(r, at, c, got, put, if last then sent + [w] else sent, if last then [] else [w])
      && m.isrCount + c <= 32 && r.pc == at && r.enabled && r.reg == m.reg && r.tx == m.tx
      && r.rx == (if last then m.rx.Push(w) else m.rx) && (!last ==> r.isrCount == m.isrCount + c)
      && r.delay == DelayField(Fetch(env.prog, at + 1))
  {
    hide ExecDecoded, Decode, ShiftIn, Remaining, Received, Divides, DelayField;
    RegKept(m, env);
    InXTick(m, env, c);
    var sent', flight' := InTick(m, env, at, c, got, put, sent, [w]);
    LastField(m, at, c, got, put, sent, w);
  }

  /** With 32 bits received the ISR, shifted once more, is the word. */
  lemma LastField(m: Machine, at: nat, c: Count, got: seq<Word>, put: seq<Word>, sent: seq<Word>, w: Word)
    requires Copying(m, at, c, got, put, sent, [w]) && m.pc == at + 1 && !m.stalled
    ensures m.isrCount + c <= 32
    ensures m.isrCount + c == 32 ==> ShiftIn(m.isr, m.x, c, m.reg.OutRight()) == w
  {
    hide ShiftIn, Remaining, Received, Divides;
    if m.isrCount + c == 32 {
      FullWord(ShiftIn(m.isr, m.x, c, m.reg.OutRight()), w, m.reg.OutRight());
    }
  }

  /** One field: OUT, its delay, IN, its delay. */
  lemma FieldCopied(m: Machine, ls: seq<Local>, prog: seq<nat>, at: nat, c: Count,
                    got: seq<Word>, put: seq<Word>, sent: seq<Word>, flight: seq<Word>, w: Word)
    requires CopyProgram(m.reg, prog, at, c) && AtOut(m, at) && OnlyTicks(ls, prog) && |ls| == FieldCycles(prog, at)
    requires Copying(m, at, c, got, put, sent, flight)
    requires flight == [w] || (flight == [] && !m.tx.Empty() && w == m.tx.items[0])
    ensures PossibleRun(m, ls, prog)
    ensures var r := LocalRun(m, ls, prog); var last := m.isrCount + c == 32;
      && Copying(r, at, c, got, put, if last then sent + [w] else sent, if last then [] else [w])
      && m.isrCount + c <= 32 && r.pc == at && r.delay == 0 && r.enabled && r.reg == m.reg
      && r.tx == (if flight == [] then m.tx.Pop() else m.tx)
      && r.rx == (if last then m.rx.Push(w) else m.rx) && (!last ==> r.isrCount == m.isrCount + c)
  {
    hide StepMachine, DelayField, CopyProgram, Copying, LocalRun, PossibleRun;
    var n := 1 + DelayField(Fetch(prog, at));
    OutHalf(m, ls[0].env, at, c, got, put, sent, flight, w);
    var r1 := StepMachine(m, ls[0].env).m;
    TickAndDelay(m, ls[..n], prog, r1);
    var m1 := r1.(delay := 0);
    Undelayed(r1, at, c, got, put, sent, [w]);
    InHalf(m1, ls[n].env, at, c, got, put, sent, w);
    var r2 := StepMachine(m1, ls[n].env).m;
    TickAndDelay(m1, ls[n..], prog, r2);
    var last := m.isrCount + c == 32;
    Undelayed(r2, at, c, got, put, if last then sent + [w] else sent, if last then [] else [w]);
    RunConcat(m, ls[..n], ls[n..], prog);
    assert ls[..n] + ls[n..] == ls;
  }

  lemma Undelayed(m: Machine, at: nat, c: Count, got: seq<Word>, put: seq<Word>, sent: seq<Word>, flight: seq<Word>)
    requires Copying(m, at, c, got, put, sent, flight)
    ensures Copying(m.(delay := 0), at, c, got, put, sent, flight)
  {
  }

  /** The rest of a word, `q` fields of it. */
  lemma {:induction false} RestCopied(m: Machine, ls: seq<Local>, prog: seq<nat>, at: nat, c: Count,
                                      got: seq<Word>, put: seq<Word>, sent: seq<Word>, flight: seq<Word>, w: Word,
                                        q: nat)
    requires CopyProgram(m.reg, prog, at, c) && AtOut(m, at) && OnlyTicks(ls, prog)
    requires Copying(m, at, c, got, put, sent, flight)
    requires flight == [w] || (flight == [] && !m.tx.Empty() && w == m.tx.items[0])
    requires q >= 1 && m.isrCount + Times(q, c) == 32 && |ls| == Times(q, FieldCycles(prog, at))
    ensures PossibleRun(m, ls, prog)
    ensures var r := LocalRun(m, ls, prog);
      && Copying(r, at, c, got, put, sent + [w], []) && r.pc == at && r.delay == 0 && r.enabled && r.reg == m.reg
      && r.tx == (if flight == [] then m.tx.Pop() else m.tx) && r.rx == m.rx.Push(w)
    decreases q
  {
    hide CopyProgram, Copying, FieldCycles;
    var per := FieldCycles(prog, at);
    assert ls[..per] + ls[per..] == ls;
    FieldCopied(m, ls[..per], prog, at, c, got, put, sent, flight, w);
    RunConcat(m, ls[..per], ls[per..], prog);
    if q == 1 {
      assert ls[..per] == ls;
    } else {
      TimesGrows(1, q, c);
      RestCopied(LocalRun(m, ls[..per], prog), ls[per..], prog, at, c, got, put, sent, [w], w, q - 1);
    }
  }

  /** Progress: with a word to take and room to put it, a machine at the start of its loop
  copies the word in exactly 32 / c times the cycles of one field, delays included, and is
  then back at the start. */
  lemma WordCopied(m: Machine, ls: seq<Local>, prog: seq<nat>, at: nat, c: Count)
    requires CopyProgram(m.reg, prog, at, c) && AtOut(m, at) && OnlyTicks(ls, prog)
    requires !m.execPending && m.osrCount == 32 && m.isrCount == 0 && !m.tx.Empty()
    requires |ls| == 32 / c * FieldCycles(prog, at)
    ensures PossibleRun(m, ls, prog)
    ensures var r := LocalRun(m, ls, prog);
      && r.tx == m.tx.Pop() && r.rx == m.rx.Push(m.tx.items[0])
      && r.pc == at && r.delay == 0 && r.enabled && r.reg == m.reg
      && !r.execPending && r.osrCount == 32 && r.isrCount == 0
  {
    assert Copying(m, at, c, m.tx.got, m.rx.put, [], []) by { FieldsFit(0, c); }
    WholeFields(c);
    TimesIsProduct(32 / c, FieldCycles(prog, at));
    hide CopyProgram, FieldCycles;
    RestCopied(m, ls, prog, at, c, m.tx.got, m.rx.put, [], [], m.tx.items[0], 32 / c);
  }

  lemma WholeFields(c: Count)
    requires Divides(c, 32)
    ensures 32 / c >= 1 && Times(32 / c, c) == 32
  {
    TimesIsProduct(32 / c, c);
  }

  // ---------------------------------------------------------------- in the whole emulator

  lemma {:induction false} DmaIsHostSide(st: State, i: Index, n: nat)
    requires st.Shape() && n <= NUM_DMA_CHANNELS
    ensures forall k :: 0 <= k < |DmaLocals(st, i, n)| ==> HostSide(DmaLocals(st, i, n)[k])
  {
    hide DmaSteps;
    if n == 0 {
    } else {
      DmaIsHostSide(st, i, n - 1);
    }
  }

  /** The host fills TX and drains RX of machine `i`, never the other way round. */
  predicate FillsAndDrains(e: Event, i: Index) {
    !(e.PopTx? && e.i == i) && !(e.PushRx? && e.i == i)
  }

  lemma {:induction false} RunIsHostSide(st: State, es: seq<Event>, i: Index)
    requires st.Shape() && LegalRun(st, es) && forall k :: 0 <= k < |es| ==> FillsAndDrains(es[k], i)
    ensures forall k :: 0 <= k < |Projected(st, es, i)| ==> HostSide(Projected(st, es, i)[k])
    decreases |es|
  {
    if es == [] {
    } else {
      var front, e := es[..|es| - 1], es[|es| - 1];
      RunIsHostSide(st, front, i);
      var r := Run(st, front);
      DmaIsHostSide(Commit(StepOrder(r, ASCENDING)), i, NUM_DMA_CHANNELS);
      hide Run, LegalRun, DmaLocals, StepOrder, Commit;
    }
  }

  /** The same in every run of the emulator, whatever the other machines, the DMA channels and
  the rest of the host's calls do. */
  lemma CopiesInRuns(st: State, es: seq<Event>, i: Index, at: nat, c: Count)
    requires st.Shape() && LegalRun(st, es) && forall k :: 0 <= k < |es| ==> FillsAndDrains(es[k], i)
    requires CopyProgram(st.sm[i].reg, st.prog[BlockOf(i)], at, c)
    requires st.sm[i].pc == at && !st.sm[i].execPending && st.sm[i].osrCount == 32 && st.sm[i].isrCount == 0
    ensures var m, r := st.sm[i], Run(st, es).sm[i];
      exists sent, flight :: |flight| <= 1 && r.rx.put == m.rx.put + sent && r.tx.got == m.tx.got + sent + flight
  {
    hide CopyProgram;
    RunIsLocal(st, es, i);
    RunIsHostSide(st, es, i);
    CopiesFaithfully(st.sm[i], Projected(st, es, i), st.prog[BlockOf(i)], at, c);
  }
}
