/** The GPIO masks, updated in place. */
module PinBanks {
  import opened Bits
  import opened Gpios
  import opened Instructions
  import opened Machines

  class PinBank {
    var input: Mask
    var output: Mask
    var direction: Mask
    var extDriven: Mask
    var inverted: Mask
    var forceLow: Mask
    var forceHigh: Mask
    var control: seq<Mask>

    ghost predicate Valid()
      reads this
    {
      |control| == NUM_PIO_BLOCKS
    }

    ghost function Abs(): Gpio
      reads this
    {
      Gpio(input, output, direction, extDriven, inverted, forceLow, forceHigh, control)
    }

    /** `env` shows this bank as block `env.block` sees it. */
    ghost predicate Shown(env: Env)
      reads this
      requires Valid()
    {
      env.level == input && env.inverted == inverted && env.control == control[env.block]
    }

    constructor ()
      ensures Valid() && Abs() == InitialGpio()
    {
      var none: Mask := Zeros(64);
      input, output, direction, extDriven, inverted := none, none, none, none, none;
      forceLow, forceHigh, control := none, none, [none, none, none];
      new;
      var pin := 0;
      while pin < NUM_GPIOS
        invariant 0 <= pin <= NUM_GPIOS && Valid()
        invariant direction == extDriven == inverted == forceLow == forceHigh == Zeros(64)
        invariant control == [Zeros(64), Zeros(64), Zeros(64)]
        invariant forall p :: 0 <= p < 64 ==> input[p] == output[p] == (p < pin)
      {
        SetInput(pin);
        SetInputLevel(pin, true);
        SetInverted(pin, false);
        assert direction == Zeros(64) && inverted == Zeros(64);
        pin := pin + 1;
      }
      assert input == LowMask() && output == LowMask();
    }

    function Reads(pin: Pin): bool
      reads this
    {
      input[pin] != inverted[pin]
    }

    function CanControl(block: Block, pin: Pin): bool
      reads this
      requires |control| == NUM_PIO_BLOCKS
    {
      control[block][pin]
    }

    method SetOutputLevel(pin: Pin, level: bool)
      modifies this`output
      ensures Abs() == old(Abs()).Apply(PinWrite.SetLevel(pin, level))
    {
      output := output[pin := level];
    }

    method SetOutput(pin: Pin)
      modifies this`direction
      ensures Abs() == old(Abs()).Apply(Drive(pin))
    {
      direction := direction[pin := true];
    }

    method SetInput(pin: Pin)
      modifies this`direction, this`output
      ensures Abs() == old(Abs()).Apply(Release(pin))
    {
      direction := direction[pin := false];
      output := output[pin := true];
    }

    method SetInputLevel(pin: Pin, level: bool)
      modifies this`input
      ensures Abs() == old(Abs()).SetInputLevel(pin, level)
    {
      var v := level;
      if forceLow[pin] {
        v := false;
      }
      if forceHigh[pin] {
        v := true;
      }
      input := input[pin := v];
    }

    method SetInverted(pin: Pin, on: bool)
      requires on ==> !forceLow[pin] && !forceHigh[pin]
      modifies this`inverted
      ensures Abs() == old(Abs()).SetInverted(pin, on)
    {
      inverted := inverted[pin := on];
    }

    method SetForceLow(pin: Pin, force: bool)
      requires force ==> !forceHigh[pin] && !inverted[pin]
      modifies this`forceLow, this`input
      ensures Abs() == old(Abs()).SetForceLow(pin, force)
    {
      forceLow := forceLow[pin := force];
      input := input[pin := !force];
    }

    method SetForceHigh(pin: Pin, force: bool)
      requires force ==> !forceLow[pin] && !inverted[pin]
      modifies this`forceHigh, this`input
      ensures Abs() == old(Abs()).SetForceHigh(pin, force)
    {
      forceHigh := forceHigh[pin := force];
      input := input[pin := true];
    }

    method SetControl(pin: Pin, block: Block)
      requires Valid() && forall b: Block :: !control[b][pin]
      modifies this`control
      ensures Valid() && Abs() == old(Abs()).SetControl(pin, block)
    {
      control := control[block := control[block][pin := true]];
    }

    method ClearControl(pin: Pin, block: Block)
      requires Valid()
      modifies this`control
      ensures Valid() && Abs() == old(Abs()).ClearControl(pin, block)
    {
      control := control[block := control[block][pin := false]];
    }

    /** External hardware drives some pins, pin by pin; the others are pulled up. */
    method DriveExternally(gpios: Mask, level: Mask)
      modifies this`input, this`extDriven
      ensures Abs() == old(Abs()).DriveExternally(gpios, level)
    {
      ghost var g := Abs();
      var pin := 0;
      while pin < NUM_GPIOS
        invariant 0 <= pin <= NUM_GPIOS && extDriven == g.extDriven
        invariant forall p :: 0 <= p < 64 ==>
          input[p] == if p < pin then g.Forced(p, !gpios[p] || level[p]) else g.input[p]
      {
        if gpios[pin] {
          SetInputLevel(pin, level[pin]);
        } else {
          SetInputLevel(pin, true);
        }
        pin := pin + 1;
      }
      extDriven := gpios;
      assert input == g.DriveExternally(gpios, level).input;
    }

    /** The observable level of every pin. */
    method PinStates() returns (states: Mask)
      ensures states == Abs().PinStates()
    {
      states := Zeros(64);
      var pin := 0;
      while pin < NUM_GPIOS
        invariant 0 <= pin <= NUM_GPIOS
        invariant forall p :: 0 <= p < 64 ==> states[p] == (p < pin && Abs().PinStates()[p])
      {
        var high := if direction[pin] then output[pin] else input[pin];
        if inverted[pin] {
          high := !high;
        }
        if high {
          states := states[pin := true];
        }
        pin := pin + 1;
      }
    }

    /** The first `n` pins from `first`, read one by one into the low bits of a word. */
    method ReadPins(first: nat, base: Base, n: nat, ghost env: Env) returns (data: Word)
      requires Valid() && Shown(env) && env.base == base && n <= 32
      ensures data == PinsIn(env, first, n)
    {
      data := ZERO;
      var i := 0;
      while i < n
        invariant 0 <= i <= n
        invariant forall k :: 0 <= k < 32 ==> data[k] == (k < i && env.Reads(env.PinAt(first, k)))
      {
        var pin := PinOf(first, i, base);
        if Reads(pin) {
          data := data[i := true];
        }
        i := i + 1;
      }
    }

    method WriteLevel(block: Block, pin: Pin, level: bool, ghost env: Env)
      requires Valid() && Shown(env) && env.block == block
      modifies this`output
      ensures Abs() == old(Abs()).ApplyAll(LevelWrite(env, pin, level))
    {
      ApplyAllSingle(Abs(), PinWrite.SetLevel(pin, level));
      if CanControl(block, pin) {
        SetOutputLevel(pin, level);
      }
    }

    method WriteDirection(block: Block, pin: Pin, outward: bool, ask: bool, ghost env: Env)
      requires Valid() && Shown(env) && env.block == block
      modifies this`output, this`direction
      ensures Abs() == old(Abs()).ApplyAll(DirectionWrite(env, pin, outward, ask))
    {
      ApplyAllSingle(Abs(), Drive(pin));
      ApplyAllSingle(Abs(), Release(pin));
      if outward {
        if CanControl(block, pin) {
          SetOutput(pin);
        }
      } else if !ask || CanControl(block, pin) {
        SetInput(pin);
      }
    }

    /** Drive the first `n` pins from `first`, skipping pins the block does not own. */
    method WriteLevels(block: Block, first: nat, base: Base, data: Word, n: nat, ghost env: Env)
      requires Valid() && Shown(env) && env.base == base && env.block == block && n <= 32
      modifies this`output
      ensures Valid() && Abs() == old(Abs()).ApplyAll(LevelWrites(env, first, data, n))
    {
      ghost var g := Abs();
      assert g.ApplyAll([]) == g;
      hide Gpio.ApplyAll, LevelWrite, PinOf;
      var i := 0;
      while i < n
        invariant 0 <= i <= n
        invariant Abs() == g.ApplyAll(LevelWrites(env, first, data, i))
      {
        var pin := PinOf(first, i, base);
        ApplyAllConcat(g, LevelWrites(env, first, data, i), LevelWrite(env, pin, data[i]));
        WriteLevel(block, pin, data[i], env);
        i := i + 1;
      }
    }

    /** Turn the first `n` pins from `first` around; `ask` says whether releasing a pin, like
    driving it, is left to its owner. */
    method WriteDirections(block: Block, first: nat, base: Base, data: Word, n: nat, ask: bool, ghost env: Env)
      requires Valid() && Shown(env) && env.base == base && env.block == block && n <= 32
      modifies this`output, this`direction
      ensures Valid() && Abs() == old(Abs()).ApplyAll(DirectionWrites(env, first, data, n, ask))
    {
      ghost var g := Abs();
      assert g.ApplyAll([]) == g;
      hide Gpio.ApplyAll, DirectionWrite, PinOf;
      var i := 0;
      while i < n
        invariant 0 <= i <= n
        invariant Abs() == g.ApplyAll(DirectionWrites(env, first, data, i, ask))
      {
        var pin := PinOf(first, i, base);
        ApplyAllConcat(g, DirectionWrites(env, first, data, i, ask), DirectionWrite(env, pin, data[i], ask));
        WriteDirection(block, pin, data[i], ask, env);
        i := i + 1;
      }
    }
  }

  lemma ApplyAllSingle(g: Gpio, w: PinWrite)
    ensures g.ApplyAll([w]) == g.Apply(w)
  {
    assert [w][..0] == [];
  }
}
