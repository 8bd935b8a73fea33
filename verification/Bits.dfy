/** Fixed-width machine words as bit strings, least significant bit first.

The emulator's 32-bit data registers, its 64-bit GPIO masks and its memory bytes are all
bit strings here, so a C shift is a slice, a C mask is a prefix and `|`, `&`, `~` act bit
by bit.  `Val` and `ToBits` connect a bit string with the number it denotes. */
module Bits {

  type Bits = seq<bool>
  type Byte = b: Bits | |b| == 8 witness Zeros(8)
  type Word = b: Bits | |b| == 32 witness Zeros(32)
  type Mask = b: Bits | |b| == 64 witness Zeros(64)

  function Zeros(n: nat): (z: Bits)
    ensures |z| == n
    ensures forall i :: 0 <= i < n ==> !z[i]
  {
    seq(n, _ => false)
  }

  function Ones(n: nat): (z: Bits)
    ensures |z| == n
    ensures forall i :: 0 <= i < n ==> z[i]
  {
    seq(n, _ => true)
  }

  const ZERO: Word := Zeros(32)

  function Or(a: Bits, b: Bits): (r: Bits)
    requires |a| == |b|
    ensures |r| == |a|
    ensures forall i :: 0 <= i < |a| ==> r[i] == (a[i] || b[i])
  {
    seq(|a|, i requires 0 <= i < |a| => a[i] || b[i])
  }

  /** `a & ~b`, the way the emulator clears bits. */
  function Without(a: Bits, b: Bits): (r: Bits)
    requires |a| == |b|
    ensures |r| == |a|
    ensures forall i :: 0 <= i < |a| ==> r[i] == (a[i] && !b[i])
  {
    seq(|a|, i requires 0 <= i < |a| => a[i] && !b[i])
  }

  function Not(a: Bits): (r: Bits)
    ensures |r| == |a|
    ensures forall i :: 0 <= i < |a| ==> r[i] == !a[i]
  {
    seq(|a|, i requires 0 <= i < |a| => !a[i])
  }

  /** Bit `i` moves to bit `|a| - 1 - i`. */
  function Reverse(a: Bits): (r: Bits)
    ensures |r| == |a|
    ensures forall i :: 0 <= i < |a| ==> r[i] == a[|a| - 1 - i]
  {
    seq(|a|, i requires 0 <= i < |a| => a[|a| - 1 - i])
  }

  /** Logical shift right; shifting by the full width gives zero. */
  function Shr(a: Bits, n: nat): (r: Bits)
    requires n <= |a|
    ensures |r| == |a|
  {
    a[n..] + Zeros(n)
  }

  /** Shift left within the width; shifting by the full width gives zero. */
  function Shl(a: Bits, n: nat): (r: Bits)
    requires n <= |a|
    ensures |r| == |a|
  {
    Zeros(n) + a[..|a| - n]
  }

  /** The low `n` bits, the rest cleared. */
  function Low(a: Bits, n: nat): (r: Bits)
    requires n <= |a|
    ensures |r| == |a|
  {
    a[..n] + Zeros(|a| - n)
  }

  /** The number a bit string denotes. */
  function Val(b: Bits): nat
  {
    if b == [] then 0 else (if b[0] then 1 else 0) + 2 * Val(b[1..])
  }

  /** The low `w` bits of a number. */
  function ToBits(n: nat, w: nat): (b: Bits)
    ensures |b| == w
    decreases w
  {
    if w == 0 then [] else [n % 2 == 1] + ToBits(n / 2, w - 1)
  }

  /** `k` times `c`, one after another: the cycles of `k` repetitions of `c` cycles each. */
  ghost function Times(k: nat, c: nat): nat {
    if k == 0 then 0 else Times(k - 1, c) + c
  }

  lemma {:induction false} TimesIsProduct(k: nat, c: nat)
    ensures Times(k, c) == k * c
  {
    if k == 0 {
    } else {
      TimesIsProduct(k - 1, c);
    }
  }

  lemma {:induction false} TimesGrows(a: nat, b: nat, c: nat)
    requires a < b
    ensures Times(a, c) + c <= Times(b, c)
    decreases b
  {
    if b == a + 1 {
    } else {
      TimesGrows(a, b - 1, c);
    }
  }

  function Pow2(n: nat): (p: nat)
    ensures p > 0
  {
    if n == 0 then 1 else 2 * Pow2(n - 1)
  }

  /** Unsigned decrement: zero wraps to all ones. */
  function Dec(a: Bits): (r: Bits)
    ensures |r| == |a|
  {
    if Val(a) == 0 then Ones(|a|) else ToBits(Val(a) - 1, |a|)
  }

  lemma {:induction false} ValBound(b: Bits)
    ensures Val(b) < Pow2(|b|)
  {
    if b == [] {
    } else {
      ValBound(b[1..]);
    }
  }

  /** `ToBits` and `Val` are inverse on numbers that fit. */
  lemma {:induction false} ValToBits(n: nat, w: nat)
    requires n < Pow2(w)
    ensures Val(ToBits(n, w)) == n
    decreases w
  {
    if w == 0 {
    } else {
      ValToBits(n / 2, w - 1);
      assert ToBits(n, w)[1..] == ToBits(n / 2, w - 1);
    }
  }

  lemma {:induction false} ToBitsVal(b: Bits)
    ensures ToBits(Val(b), |b|) == b
  {
    if b == [] {
    } else {
      ToBitsVal(b[1..]);
      assert Val(b) / 2 == Val(b[1..]);
    }
  }

  lemma MulShift(p: nat, v: nat)
    ensures 2 * (p * v) == (2 * p) * v
  {
  }

  /** The value splits at any bit position. */
  lemma {:induction false} ValSplit(b: Bits, n: nat)
    requires n <= |b|
    ensures Val(b) == Val(b[..n]) + Pow2(n) * Val(b[n..])
    decreases n
  {
    if n == 0 {
      assert b[n..] == b;
    } else {
      var t := b[1..];
      ValSplit(t, n - 1);
      assert b[..n][1..] == t[..n - 1];
      assert b[n..] == t[n - 1..];
      SplitStep(if b[0] then 1 else 0, Val(t[..n - 1]), Pow2(n - 1), Val(b[n..]));
    }
  }

  lemma SplitStep(bit: nat, low: nat, p: nat, v: nat)
    ensures bit + 2 * (low + p * v) == bit + 2 * low + 2 * p * v
  {
    MulShift(p, v);
  }

  lemma {:induction false} ValZero(b: Bits)
    ensures Val(b) == 0 <==> b == Zeros(|b|)
  {
    if b == [] {
    } else {
      ValZero(b[1..]);
      assert Zeros(|b|)[1..] == Zeros(|b| - 1);
      if !b[0] && b[1..] == Zeros(|b| - 1) {
        assert b == [b[0]] + b[1..];
        assert b == Zeros(|b|);
      }
    }
  }

  lemma {:induction false} ValOnes(n: nat)
    ensures Val(Ones(n)) == Pow2(n) - 1
  {
    if n == 0 {
    } else {
      ValOnes(n - 1);
      assert Ones(n)[1..] == Ones(n - 1);
    }
  }

  /** Decrementing a bit string is subtraction of one modulo its width. */
  lemma {:induction false} DecVal(a: Bits)
    ensures Val(Dec(a)) == if Val(a) == 0 then Pow2(|a|) - 1 else Val(a) - 1
  {
    var n, w := Val(a), |a|;
    if n == 0 {
      ValOnes(w);
    } else {
      assert n < Pow2(w) by { ValBound(a); }
      assert Val(ToBits(n - 1, w)) == n - 1 by { ValToBits(n - 1, w); }
    }
  }

  /** Reversing twice gives the word back. */
  lemma ReverseInvolution(a: Bits)
    ensures Reverse(Reverse(a)) == a
  {
  }
}
