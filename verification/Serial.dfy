/** Moving words bit by bit: OUT and IN are inverse serialisers, bit reversal is the mixed
direction, and the two-instruction copy program moves TX words to RX unchanged. */
module Serial {
  import opened Bits
  import opened Instructions
  import opened Machines

  lemma ShiftInSlices(isr: Word, data: Word, n: Count)
    ensures ShiftIn(isr, data, n, true) == isr[n..] + data[..n]
    ensures ShiftIn(isr, data, n, false) == data[..n] + isr[..32 - n]
  {
    assert Shr(isr, n) == isr[n..] + Zeros(n);
    assert Shl(data, 32 - n) == Zeros(32 - n) + data[..n];
    assert Shl(isr, n) == Zeros(n) + isr[..32 - n];
    assert Low(data, n) == data[..n] + Zeros(32 - n);
  }

  /** `osr` still holds the bits of `w` that remain after `k` have been shifted out. */
  ghost predicate Remaining(osr: Word, w: Word, k: nat, right: bool)
    requires k <= 32
  {
    if right then osr[..32 - k] == w[k..] else osr[k..] == w[..32 - k]
  }

  /** `isr` holds the first `k` bits of `w`, in the order of the shift direction. */
  ghost predicate Received(isr: Word, w: Word, k: nat, right: bool)
    requires k <= 32
  {
    if right then isr[32 - k..] == w[..k] else isr[..k] == w[32 - k..]
  }

  /** One OUT followed by one IN of the same width moves the next field across. */
  lemma FieldMoves(osr: Word, isr: Word, w: Word, k: nat, n: Count, right: bool)
    requires k + n <= 32 && Remaining(osr, w, k, right) && Received(isr, w, k, right)
    ensures Remaining(OutRest(osr, n, right), w, k + n, right)
    ensures Received(ShiftIn(isr, OutData(osr, n, right), n, right), w, k + n, right)
  {
    if right {
      FieldMovesRight(osr, isr, w, k, n);
    } else {
      FieldMovesLeft(osr, isr, w, k, n);
    }
  }

  lemma FieldMovesRight(osr: Word, isr: Word, w: Word, k: nat, n: Count)
    requires k + n <= 32 && Remaining(osr, w, k, true) && Received(isr, w, k, true)
    ensures Remaining(OutRest(osr, n, true), w, k + n, true)
    ensures Received(ShiftIn(isr, OutData(osr, n, true), n, true), w, k + n, true)
  {
    var data := OutData(osr, n, true);
    ShiftInSlices(isr, data, n);
    assert data[..n] == osr[..n] == osr[..32 - k][..n] == w[k..k + n];
    assert OutRest(osr, n, true)[..32 - k - n] == osr[n..32 - k] == osr[..32 - k][n..] == w[k + n..];
    var isr1 := isr[n..] + data[..n];
    assert isr1[32 - k - n..] == isr[32 - k..] + data[..n] == w[..k] + w[k..k + n] == w[..k + n];
  }

  lemma FieldMovesLeft(osr: Word, isr: Word, w: Word, k: nat, n: Count)
    requires k + n <= 32 && Remaining(osr, w, k, false) && Received(isr, w, k, false)
    ensures Remaining(OutRest(osr, n, false), w, k + n, false)
    ensures Received(ShiftIn(isr, OutData(osr, n, false), n, false), w, k + n, false)
  {
    var data := OutData(osr, n, false);
    ShiftInSlices(isr, data, n);
    assert data[..n] == osr[32 - n..] == osr[k..][32 - n - k..] == w[32 - k - n..32 - k];
    assert OutRest(osr, n, false)[k + n..] == osr[k..32 - n] == osr[k..][..32 - n - k] == w[..32 - k - n];
    var isr1 := data[..n] + isr[..32 - n];
    assert isr1[..k + n] == data[..n] + isr[..k] == w[32 - k - n..32 - k] + w[32 - k..] == w[32 - k - n..];
  }

  function Sum(counts: seq<Count>): nat
    decreases |counts|
  {
    if counts == [] then 0 else Sum(counts[..|counts| - 1]) + counts[|counts| - 1]
  }

  datatype Shifters = Shifters(osr: Word, isr: Word)

  /** OUT then IN of each width in turn. */
  function Transfer(s: Shifters, counts: seq<Count>, outRight: bool, inRight: bool): Shifters
    decreases |counts|
  {
    if counts == [] then s
    else
      var t := Transfer(s, counts[..|counts| - 1], outRight, inRight);
      var n := counts[|counts| - 1];
      Shifters(OutRest(t.osr, n, outRight), ShiftIn(t.isr, OutData(t.osr, n, outRight), n, inRight))
  }

  lemma {:induction false} TransferProgress(s: Shifters, counts: seq<Count>, right: bool)
    requires Sum(counts) <= 32
    ensures var t := Transfer(s, counts, right, right);
      Remaining(t.osr, s.osr, Sum(counts), right) && Received(t.isr, s.osr, Sum(counts), right)
    decreases |counts|
  {
    if counts == [] {
      assert s.osr[..32] == s.osr && s.osr[32..] == [] && s.isr[32..] == [];
    } else {
      var front, n := counts[..|counts| - 1], counts[|counts| - 1];
      TransferProgress(s, front, right);
      var t := Transfer(s, front, right, right);
      FieldMoves(t.osr, t.isr, s.osr, Sum(front), n, right);
    }
  }

  /** A word shifted out in fields of any widths and shifted back in the same direction is
  rebuilt exactly, whatever the ISR held before. */
  lemma SerialRoundTrip(s: Shifters, counts: seq<Count>, right: bool)
    requires Sum(counts) == 32
    ensures Transfer(s, counts, right, right).isr == s.osr
  {
    TransferProgress(s, counts, right);
    var t := Transfer(s, counts, right, right);
    assert t.isr[0..] == t.isr && t.isr[..32] == t.isr;
    assert s.osr[0..] == s.osr && s.osr[..32] == s.osr;
  }

  function OneBits(n: nat): (counts: seq<Count>)
    ensures |counts| == n
  {
    if n == 0 then [] else OneBits(n - 1) + [1]
  }

  lemma BitReverses(osr: Word, isr: Word, w: Word, k: nat)
    requires k < 32 && osr[..32 - k] == w[k..] && isr[..k] == Reverse(w)[32 - k..]
    ensures OutRest(osr, 1, true)[..31 - k] == w[k + 1..]
    ensures ShiftIn(isr, OutData(osr, 1, true), 1, false)[..k + 1] == Reverse(w)[31 - k..]
  {
    var data := OutData(osr, 1, true);
    ShiftInSlices(isr, data, 1);
    assert OutRest(osr, 1, true)[..31 - k] == osr[..32 - k][1..];
    assert osr[0] == osr[..32 - k][0] == w[k];
    assert data[..1] == [w[k]];
    assert (data[..1] + isr[..31])[..k + 1] == [w[k]] + isr[..k];
    assert Reverse(w)[31 - k..] == [w[k]] + Reverse(w)[32 - k..];
  }

  lemma {:induction false} ReversalProgress(s: Shifters, k: nat)
    requires k <= 32
    ensures var t := Transfer(s, OneBits(k), true, false);
      t.osr[..32 - k] == s.osr[k..] && t.isr[..k] == Reverse(s.osr)[32 - k..]
  {
    if k == 0 {
      assert s.osr[..32] == s.osr && Reverse(s.osr)[32..] == [];
    } else {
      ReversalProgress(s, k - 1);
      var front := OneBits(k - 1);
      assert OneBits(k) == front + [1] && OneBits(k)[..k - 1] == front;
      var t := Transfer(s, front, true, false);
      BitReverses(t.osr, t.isr, s.osr, k - 1);
    }
  }

  /** MOV's bit reversal is what 32 one-bit transfers, out to the right and in to the left,
  make of a word; and reversing twice is the identity. */
  lemma BitReversalIsSerial(s: Shifters)
    ensures Transfer(s, OneBits(32), true, false).isr == MovApply(BitReverse, s.osr)
    ensures MovApply(BitReverse, MovApply(BitReverse, s.osr)) == s.osr
  {
    ReversalProgress(s, 32);
    var t := Transfer(s, OneBits(32), true, false);
    assert t.isr[..32] == t.isr && Reverse(s.osr)[0..] == Reverse(s.osr);
  }
}
