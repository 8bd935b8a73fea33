/** The 48 GPIOs: direction, level, ownership, inversion and forcing masks. */
module Gpios {
  import opened Bits
  import opened Instructions

  type Pin = n: nat | n < NUM_GPIOS

  /** One effect of a state machine on one pin. */
  datatype PinWrite =
    | SetLevel(pin: Pin, level: bool)
    | Drive(pin: Pin)
    | Release(pin: Pin)
  {
    /** Releasing a pin also lets the pull-up raise it. */
    predicate SetsLevel(p: Pin) { pin == p && !Drive? }

    predicate SetsDirection(p: Pin) { pin == p && !SetLevel? }

    predicate NewLevel() { Release? || (SetLevel? && level) }
  }

  datatype Gpio = Gpio(
    input: Mask,
    output: Mask,
    direction: Mask,
    extDriven: Mask,
    inverted: Mask,
    forceLow: Mask,
    forceHigh: Mask,
    control: seq<Mask>)
  {
    /** Nothing above GPIO 47 is ever set, and there is one ownership mask per block. */
    ghost predicate Ok() {
      && |control| == NUM_PIO_BLOCKS
      && (forall p :: NUM_GPIOS <= p < 64 ==>
            !input[p] && !output[p] && !direction[p] && !extDriven[p] && !inverted[p] && !forceLow[p] && !forceHigh[p])
      && (forall b, p :: 0 <= b < NUM_PIO_BLOCKS && NUM_GPIOS <= p < 64 ==> !control[b][p])
    }

    /** No pin is owned by two blocks. */
    ghost predicate Owned() {
      forall a, b, p :: 0 <= a < |control| && 0 <= b < |control| && 0 <= p < 64 ==>
        control[a][p] && control[b][p] ==> a == b
    }

    /** Forcing and inversion exclude each other, pin by pin. */
    ghost predicate Overrides() {
      forall p :: 0 <= p < 64 ==>
        && !(forceLow[p] && forceHigh[p])
        && !(inverted[p] && (forceLow[p] || forceHigh[p]))
    }

    /** The level a state machine reads on a pin. */
    predicate Reads(pin: Pin) {
      input[pin] != inverted[pin]
    }

    function Apply(w: PinWrite): Gpio {
      match w
      case SetLevel(p, v) => this.(output := output[p := v])
      case Drive(p) => this.(direction := direction[p := true])
      case Release(p) => this.(direction := direction[p := false], output := output[p := true])
    }

    function ApplyAll(ws: seq<PinWrite>): Gpio
      decreases |ws|
    {
      if ws == [] then this else ApplyAll(ws[..|ws| - 1]).Apply(ws[|ws| - 1])
    }

    /** What an input pin shows once forcing has had its say. */
    predicate Forced(pin: Pin, level: bool) {
      forceHigh[pin] || (level && !forceLow[pin])
    }

    function SetInputLevel(pin: Pin, level: bool): Gpio {
      this.(input := input[pin := Forced(pin, level)])
    }

    /** External hardware drives some pins; every other pin is pulled up. */
    function DriveExternally(gpios: Mask, level: Mask): Gpio {
      this.(
      input := seq(64, p requires 0 <= p < 64 =>
        if p < NUM_GPIOS then Forced(p, !gpios[p] || level[p]) else input[p]),
      extDriven := gpios)
    }

    function SetForceLow(pin: Pin, force: bool): Gpio {
      this.(forceLow := forceLow[pin := force], input := input[pin := !force])
    }

    function SetForceHigh(pin: Pin, force: bool): Gpio {
      this.(forceHigh := forceHigh[pin := force], input := input[pin := true])
    }

    function SetInverted(pin: Pin, on: bool): Gpio {
      this.(inverted := inverted[pin := on])
    }

    function SetControl(pin: Pin, block: nat): Gpio
      requires block < |control|
    {
      this.(control := control[block := control[block][pin := true]])
    }

    function ClearControl(pin: Pin, block: nat): Gpio
      requires block < |control|
    {
      this.(control := control[block := control[block][pin := false]])
    }

    /** The observable level of every pin: what is driven out, or what comes in. */
    function PinStates(): Mask {
      seq(64, p requires 0 <= p < 64 =>
        p < NUM_GPIOS && (if direction[p] then output[p] else input[p]) != inverted[p])
    }
  }

  function LowMask(): (m: Mask)
  {
    Ones(NUM_GPIOS) + Zeros(64 - NUM_GPIOS)
  }

  /** Every pin an input, pulled up, owned by no block. */
  function InitialGpio(): Gpio {
    var none: Mask := Zeros(64);
    Gpio(LowMask(), LowMask(), none, none, none, none, none, [none, none, none])
  }

  lemma {:induction false} ApplyAllConcat(g: Gpio, a: seq<PinWrite>, b: seq<PinWrite>)
    ensures g.ApplyAll(a + b) == g.ApplyAll(a).ApplyAll(b)
    decreases |b|
  {
    if b == [] {
      assert a + b == a;
    } else {
      var n := |b| - 1;
      assert (a + b)[..|a + b| - 1] == a + b[..n];
      ApplyAllConcat(g, a, b[..n]);
    }
  }

  /** Pin writes leave everything a state machine can observe untouched. */
  lemma {:induction false} ApplyAllFrame(g: Gpio, ws: seq<PinWrite>)
    ensures g.ApplyAll(ws) == g.(output := g.ApplyAll(ws).output, direction := g.ApplyAll(ws).direction)
    decreases |ws|
  {
    if ws == [] {
    } else {
      ApplyAllFrame(g, ws[..|ws| - 1]);
    }
  }

  lemma {:induction false} ApplyAllOk(g: Gpio, ws: seq<PinWrite>)
    requires g.Ok()
    ensures g.ApplyAll(ws).Ok()
    decreases |ws|
  {
    if ws == [] {
    } else {
      ApplyAllOk(g, ws[..|ws| - 1]);
    }
  }

  /** The last write wins, for level and direction separately. */
  lemma {:induction false} LastLevelWins(g: Gpio, ws: seq<PinWrite>, p: Pin, k: nat)
    requires k < |ws| && ws[k].SetsLevel(p)
    requires forall j :: k < j < |ws| ==> !ws[j].SetsLevel(p)
    ensures g.ApplyAll(ws).output[p] == ws[k].NewLevel()
    decreases |ws|
  {
    if k < |ws| - 1 {
      LastLevelWins(g, ws[..|ws| - 1], p, k);
    }
  }

  lemma {:induction false} LastDirectionWins(g: Gpio, ws: seq<PinWrite>, p: Pin, k: nat)
    requires k < |ws| && ws[k].SetsDirection(p)
    requires forall j :: k < j < |ws| ==> !ws[j].SetsDirection(p)
    ensures g.ApplyAll(ws).direction[p] == ws[k].Drive?
    decreases |ws|
  {
    if k < |ws| - 1 {
      LastDirectionWins(g, ws[..|ws| - 1], p, k);
    }
  }

  lemma {:induction false} UnwrittenUnchanged(g: Gpio, ws: seq<PinWrite>, p: Pin)
    ensures (forall j :: 0 <= j < |ws| ==> !ws[j].SetsLevel(p)) ==> g.ApplyAll(ws).output[p] == g.output[p]
    ensures (forall j :: 0 <= j < |ws| ==> !ws[j].SetsDirection(p)) ==> g.ApplyAll(ws).direction[p] == g.direction[p]
    decreases |ws|
  {
    if ws == [] {
    } else {
      UnwrittenUnchanged(g, ws[..|ws| - 1], p);
    }
  }
}
