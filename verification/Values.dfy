/** Words through their numbers and their single bits. */
module Values {
  import opened Bits

  /** Words with the same value are the same word. */
  lemma ValInjective(a: Word, b: Word)
    ensures Val(a) == Val(b) <==> a == b
  {
    ToBitsVal(a);
    ToBitsVal(b);
  }

  /** Bit `t` of the low bits of a number is its `t`-th binary digit. */
  lemma {:induction false} ToBitsDigit(n: nat, w: nat, t: nat)
    requires t < w
    ensures ToBits(n, w)[t] <==> (n / Pow2(t)) % 2 == 1
    decreases t
  {
    if t == 0 {
    } else {
      ToBitsDigit(n / 2, w - 1, t - 1);
      HalveThenShift(n, Pow2(t - 1), Pow2(t));
    }
  }

  lemma HalveThenShift(n: nat, p: nat, d: nat)
    requires p > 0 && d == 2 * p
    ensures n / 2 / p == n / d
  {
    var q, r := Divided(n, d);
    MulShift(p, q);
    HalveQuotient(n, p, q, r, p * q);
  }

  lemma Divided(n: nat, d: nat) returns (q: nat, r: nat)
    requires d > 0
    ensures n == d * q + r && r < d && q == n / d
  {
    q, r := n / d, n % d;
  }

  lemma HalveQuotient(n: nat, p: nat, q: nat, r: nat, x: nat)
    requires p > 0 && x == p * q && r < 2 * p && n == 2 * x + r
    ensures n / 2 / p == q
  {
    assert n / 2 == x + r / 2;
    QuotientIs(n / 2, p, q, r / 2);
  }

  lemma QuotientIs(n: nat, p: nat, q: nat, r: nat)
    requires p > 0 && r < p && n == p * q + r
    ensures n / p == q
  {
    var d, m := Divided(n, p);
    if d < q {
      OneMore(p, d, q);
    } else if q < d {
      OneMore(p, q, d);
    }
  }

  lemma OneMore(p: nat, a: nat, b: nat)
    requires a < b
    ensures p * a + p <= p * b
  {
    MulMonotone(p, a + 1, b);
  }

  lemma {:induction false} MulMonotone(p: nat, a: nat, b: nat)
    requires a <= b
    ensures p * a <= p * b
    decreases b
  {
    if a == b {
    } else {
      MulMonotone(p, a, b - 1);
    }
  }

  /** A word with one bit set is a power of two. */
  lemma {:induction false} ValOneBit(b: Bits, k: nat)
    requires k < |b| && b[k] && forall j :: 0 <= j < |b| && j != k ==> !b[j]
    ensures Val(b) == Pow2(k)
    decreases |b|
  {
    if k == 0 {
      ValZero(b[1..]);
      assert b[1..] == Zeros(|b| - 1);
    } else {
      ValOneBit(b[1..], k - 1);
    }
  }

  /** A word with no bit set is zero. */
  lemma ValNoBit(b: Bits)
    requires forall j :: 0 <= j < |b| ==> !b[j]
    ensures Val(b) == 0
  {
    assert b == Zeros(|b|);
    ValZero(b);
  }

  /** A five-bit number loaded into a word is that number. */
  lemma FiveBits(n: nat)
    requires n < 32
    ensures Val(ToBits(n, 32)) == n
  {
    assert Pow2(5) == 32 by { assert Pow2(3) == 8; }
    assert Pow2(32) >= 32 by { PowGrows(5, 32); }
    ValToBits(n, 32);
  }

  lemma {:induction false} PowGrows(a: nat, b: nat)
    requires a <= b
    ensures Pow2(a) <= Pow2(b)
    decreases b
  {
    if a == b {
    } else {
      PowGrows(a, b - 1);
    }
  }
}
