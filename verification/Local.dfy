/** What a single state machine goes through: its own clock ticks, in whatever environment,
interleaved with other parties using its FIFOs.  Properties of one machine are proved over
all such local histories; `Runs.RunIsLocal` shows that every run of the
emulator is one. */
module Locals {
  import opened Bits
  import opened Machines

  datatype Local =
    | Tick(env: Env)
    | PutTx(word: Word)
    | GetTx
    | PutRx(word: Word)
    | GetRx
    | Enable
    | Disable

  /** A FIFO operation is never issued against a full or empty FIFO; ticks run program `prog`. */
  predicate Possible(m: Machine, l: Local, prog: seq<nat>) {
    match l
    case Tick(env) => env.Ok() && env.prog == prog
    case PutTx(_) => !m.tx.Full()
    case GetTx => !m.tx.Empty()
    case PutRx(_) => !m.rx.Full()
    case GetRx => !m.rx.Empty()
    case Enable => true
    case Disable => true
  }

  function LocalStep(m: Machine, l: Local, prog: seq<nat>): Machine
    requires Possible(m, l, prog)
  {
    match l
    case Tick(env) => if m.enabled then StepMachine(m, env).m else m
    case PutTx(w) => m.(tx := m.tx.Push(w))
    case GetTx => m.(tx := m.tx.Pop())
    case PutRx(w) => m.(rx := m.rx.Push(w))
    case GetRx => m.(rx := m.rx.Pop())
    case Enable => m.(enabled := true)
    case Disable => m.(enabled := false)
  }

  function LocalFx(m: Machine, l: Local): Effects
    requires l.Tick? ==> l.env.Ok()
  {
    if l.Tick? && m.enabled then StepMachine(m, l.env).fx else NO_EFFECTS
  }

  predicate PossibleRun(m: Machine, ls: seq<Local>, prog: seq<nat>)
    decreases |ls|, 0
  {
    ls == [] ||
    (PossibleRun(m, ls[..|ls| - 1], prog) && Possible(LocalRun(m, ls[..|ls| - 1], prog), ls[|ls| - 1], prog))
  }

  function LocalRun(m: Machine, ls: seq<Local>, prog: seq<nat>): Machine
    requires PossibleRun(m, ls, prog)
    decreases |ls|, 1
  {
    if ls == [] then m else LocalStep(LocalRun(m, ls[..|ls| - 1], prog), ls[|ls| - 1], prog)
  }

  lemma {:induction false} RunConcat(m: Machine, a: seq<Local>, b: seq<Local>, prog: seq<nat>)
    requires PossibleRun(m, a, prog)
    ensures PossibleRun(m, a + b, prog) <==> PossibleRun(LocalRun(m, a, prog), b, prog)
    ensures PossibleRun(m, a + b, prog) ==> LocalRun(m, a + b, prog) == LocalRun(LocalRun(m, a, prog), b, prog)
    decreases |b|
  {
    if b == [] {
      assert a + b == a;
    } else {
      assert (a + b)[..|a + b| - 1] == a + b[..|b| - 1];
      RunConcat(m, a, b[..|b| - 1], prog);
    }
  }

  lemma RunEmpty(m: Machine, prog: seq<nat>)
    ensures PossibleRun(m, [], prog) && LocalRun(m, [], prog) == m
  {
  }

  lemma RunSingle(m: Machine, l: Local, prog: seq<nat>)
    ensures PossibleRun(m, [l], prog) <==> Possible(m, l, prog)
    ensures Possible(m, l, prog) ==> LocalRun(m, [l], prog) == LocalStep(m, l, prog)
  {
    assert [l][..0] == [];
  }
}
