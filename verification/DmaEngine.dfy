/** SRAM and the DMA channels as the emulator keeps them: arrays and fields updated in place,
proved against the functions of `Dma`. */
module DmaEngine {
  import opened Bits
  import opened Dma
  import opened Fifos
  import opened Instructions

  /** One byte array with byte, halfword and word views, little-endian. */
  class Sram {
    const bytes: array<Byte>

    ghost predicate Valid() {
      bytes.Length == SRAM_SIZE
    }

    constructor ()
      ensures Valid() && fresh(bytes)
      ensures bytes[..] == seq(SRAM_SIZE, _ => Zeros(8))
    {
      bytes := new Byte[SRAM_SIZE](_ => Zeros(8));
      new;
      assert bytes[..] == seq(SRAM_SIZE, _ => Zeros(8));
    }

    method ReadByte(addr: nat) returns (b: Byte)
      requires Valid() && AddressOk(addr, 1)
      ensures b == ByteAt(bytes[..], addr)
    {
      b := bytes[addr - MIN_SRAM_ADDR];
    }

    method ReadHalfword(addr: nat) returns (h: Bits)
      requires Valid() && AddressOk(addr, 2)
      ensures h == HalfwordAt(bytes[..], addr)
    {
      var at := addr - MIN_SRAM_ADDR;
      var b0: Bits, b1: Bits := bytes[at], bytes[at + 1];
      h := b0 + b1;
    }

    method ReadWord(addr: nat) returns (w: Word)
      requires Valid() && AddressOk(addr, 4)
      ensures w == WordAt(bytes[..], addr)
    {
      var at := addr - MIN_SRAM_ADDR;
      var b0: Bits, b1: Bits, b2: Bits, b3: Bits := bytes[at], bytes[at + 1], bytes[at + 2], bytes[at + 3];
      w := (b0 + b1) + (b2 + b3);
    }

    method WriteByte(addr: nat, b: Byte)
      requires Valid() && AddressOk(addr, 1)
      modifies bytes
      ensures bytes[..] == Stored(old(bytes[..]), addr, b)
    {
      bytes[addr - MIN_SRAM_ADDR] := b;
      assert b == b[0..8];
      StoredBytes(old(bytes[..]), addr, b, bytes[..]);
    }

    method WriteHalfword(addr: nat, h: Bits)
      requires Valid() && AddressOk(addr, 2) && |h| == 16
      modifies bytes
      ensures bytes[..] == Stored(old(bytes[..]), addr, h)
    {
      var at := addr - MIN_SRAM_ADDR;
      bytes[at] := h[..8];
      bytes[at + 1] := h[8..];
      StoredBytes(old(bytes[..]), addr, h, bytes[..]);
    }

    method WriteWord(addr: nat, w: Word)
      requires Valid() && AddressOk(addr, 4)
      modifies bytes
      ensures bytes[..] == Stored(old(bytes[..]), addr, w)
    {
      var at := addr - MIN_SRAM_ADDR;
      bytes[at] := w[..8];
      bytes[at + 1] := w[8..16];
      bytes[at + 2] := w[16..24];
      bytes[at + 3] := w[24..];
      StoredBytes(old(bytes[..]), addr, w, bytes[..]);
    }
  }

  class DmaChannel {
    var setup: bool
    var readBlock: Block
    var readSm: Slot
    var readCycles: nat
    var writeBlock: Block
    var writeSm: Slot
    var writeCycles: nat
    var readDelay: nat
    var writeDelay: nat
    var mode: nat
    var readAddr: Word
    var readValue: Word

    ghost function Abs(): Channel
      reads this
    {
      Channel(setup, readBlock, readSm, readCycles, writeBlock, writeSm, writeCycles, readDelay, writeDelay, mode,
        readAddr, readValue)
    }

    constructor ()
      ensures Abs() == INITIAL_CHANNEL
    {
      setup, readBlock, readSm, readCycles := false, 0, 0, 0;
      writeBlock, writeSm, writeCycles := 0, 0, 0;
      readDelay, writeDelay, mode, readAddr, readValue := 0, 0, 0, ZERO, ZERO;
    }

    /** Overwrites any previous configuration; the cycle counts are not checked. */
    method SetUp(rb: Block, rs: Slot, rc: nat, wb: Block, ws: Slot, wc: nat, bitMode: nat)
      requires rc < 256 && wc < 256 && bitMode in {8, 16, 32}
      modifies this
      ensures Abs() == Channel(true, rb, rs, rc, wb, ws, wc, 0, 0, bitMode, ZERO, ZERO)
    {
      readDelay, writeDelay, readAddr, readValue := 0, 0, ZERO, ZERO;
      readBlock, readSm, readCycles := rb, rs, rc;
      writeBlock, writeSm, writeCycles := wb, ws, wc;
      mode := bitMode;
      setup := true;
    }

    method Load(mem: Sram) returns (w: Word)
      requires mem.Valid() && mode in {8, 16, 32} && AddressOk(Val(readAddr), mode / 8)
      ensures w == Dma.Load(mem.bytes[..], mode, readAddr)
    {
      var addr := Val(readAddr);
      if mode == 8 {
        var byte := mem.ReadByte(addr);
        var b: Bits := byte;
        w := b + b + b + b;
      } else if mode == 16 {
        var h := mem.ReadHalfword(addr);
        w := h + h;
      } else {
        w := mem.ReadWord(addr);
      }
    }

    /** One cycle: writes first, to make room for reads; then reads; then a new fetch. */
    method Step(mem: Sram, rx: Fifo, tx: Fifo)
      requires mem.Valid() && rx.Valid() && tx.Valid() && rx != tx && rx.buf != tx.buf
      requires mem.bytes as object !in {rx.buf as object, tx.buf} && Abs().Safe()
      modifies this, rx, rx.buf, tx, tx.buf
      ensures rx.Valid() && tx.Valid()
      ensures Abs() == old(Abs()).Step(mem.bytes[..], old(rx.Abs()), old(tx.Abs()))
      ensures rx.Abs() == old(Abs()).StepRx(mem.bytes[..], old(rx.Abs()), old(tx.Abs()))
      ensures tx.Abs() == old(Abs()).StepTx(old(tx.Abs()))
    {
      hide Dma.Load;
      WriteStage(tx);
      ReadStage(mem);
      if readDelay == 0 && rx.count > 0 {
        var addr := rx.Pop();
        readAddr, readDelay := addr, readCycles;
      }
    }

    method WriteStage(tx: Fifo)
      requires tx.Valid()
      modifies this`writeDelay, this`readValue, tx, tx.buf
      ensures tx.Valid() && Abs() == old(Abs()).WriteStage(old(tx.Abs()))
        && tx.Abs() == old(Abs()).Written(old(tx.Abs()))
    {
      var write := false;
      if writeDelay > 0 {
        writeDelay := writeDelay - 1;
        write := writeDelay == 0;
      }
      if write {
        if tx.count >= MAX_FIFO_DEPTH {
          writeDelay := 1;
        } else {
          tx.Push(readValue);
          readValue := ZERO;
        }
      }
    }

    method ReadStage(mem: Sram)
      requires mem.Valid() && Abs().Safe()
      modifies this`readDelay, this`readValue, this`writeDelay
      ensures Abs() == old(Abs()).ReadStage(mem.bytes[..])
    {
      hide Dma.Load;
      var read := false;
      if readDelay > 0 {
        readDelay := readDelay - 1;
        read := readDelay == 0;
      }
      if read {
        if writeDelay > 0 {
          readDelay := 1;
        } else {
          readValue := Load(mem);
          writeDelay := writeCycles;
        }
      }
    }
  }

  // ---------------------------------------------------------------- SRAM views

  /** `sram` with the bytes of `v` stored from `addr` on, lowest byte first. */
  ghost function Stored(sram: seq<Byte>, addr: nat, v: Bits): (r: seq<Byte>)
    requires MIN_SRAM_ADDR <= addr && |v| % 8 == 0
    ensures |r| == |sram|
  {
    var at := addr - MIN_SRAM_ADDR;
    seq(|sram|, k requires 0 <= k < |sram| =>
      if at <= k < at + |v| / 8 then v[8 * (k - at)..8 * (k - at) + 8] else sram[k])
  }

  lemma StoredBytes(sram: seq<Byte>, addr: nat, v: Bits, r: seq<Byte>)
    requires MIN_SRAM_ADDR <= addr && |v| % 8 == 0 && |r| == |sram|
    requires forall k :: 0 <= k < |sram| && !(addr - MIN_SRAM_ADDR <= k < addr - MIN_SRAM_ADDR + |v| / 8) ==>
      r[k] == sram[k]
    requires forall k :: 0 <= k < |v| / 8 && addr - MIN_SRAM_ADDR + k < |sram| ==>
      r[addr - MIN_SRAM_ADDR + k] == v[8 * k..8 * k + 8]
    ensures r == Stored(sram, addr, v)
  {
    var at := addr - MIN_SRAM_ADDR;
    forall k | 0 <= k < |sram| ensures r[k] == Stored(sram, addr, v)[k] {
      if at <= k < at + |v| / 8 {
        assert r[at + (k - at)] == v[8 * (k - at)..8 * (k - at) + 8];
      }
    }
  }

  lemma StoredByte(sram: seq<Byte>, addr: nat, v: Bits, a: nat)
    requires |sram| == SRAM_SIZE && MIN_SRAM_ADDR <= addr && |v| % 8 == 0 && addr + |v| / 8 <= MIN_SRAM_ADDR + SRAM_SIZE
    ensures addr <= a < addr + |v| / 8 ==> ByteAt(Stored(sram, addr, v), a) == v[8 * (a - addr)..8 * (a - addr) + 8]
    ensures !(addr <= a < addr + |v| / 8) ==> ByteAt(Stored(sram, addr, v), a) == ByteAt(sram, a)
  {
  }

  lemma WordFits(addr: nat)
    requires AddressOk(addr, 4)
    ensures addr + 4 <= MIN_SRAM_ADDR + SRAM_SIZE
  {
    var n := addr - MIN_SRAM_ADDR;
    assert n == 4 * (n / 4);
  }

  /** A stored word reads back as itself through the word view, and through the halfword and
  byte views as its parts, lowest first; every other byte is unchanged. */
  lemma StoredWordReads(sram: seq<Byte>, addr: nat, w: Word, r: seq<Byte>)
    requires |sram| == SRAM_SIZE && AddressOk(addr, 4) && r == Stored(sram, addr, w)
    ensures WordAt(r, addr) == w
    ensures HalfwordAt(r, addr) == w[..16] && HalfwordAt(r, addr + 2) == w[16..]
    ensures ByteAt(r, addr) == w[..8] && ByteAt(r, addr + 1) == w[8..16]
    ensures ByteAt(r, addr + 2) == w[16..24] && ByteAt(r, addr + 3) == w[24..]
    ensures forall a: nat :: !(addr <= a < addr + 4) ==> ByteAt(r, a) == ByteAt(sram, a)
  {
    WordFits(addr);
    StoredByte(sram, addr, w, addr);
    StoredByte(sram, addr, w, addr + 1);
    StoredByte(sram, addr, w, addr + 2);
    StoredByte(sram, addr, w, addr + 3);
    forall a: nat | !(addr <= a < addr + 4) ensures ByteAt(r, a) == ByteAt(sram, a) {
      StoredByte(sram, addr, w, a);
    }
    hide Stored, ByteAt;
    assert w[..8] + w[8..16] == w[..16] && w[16..24] + w[24..] == w[16..] && w[..16] + w[16..] == w;
  }
}
