/** What a DMA read delivers: the word, the replicated halfword or the replicated byte that was
stored at its address. */
module Loads {
  import opened Bits
  import opened Dma
  import opened DmaEngine
  import opened Instructions
  import opened System
  import opened Pipeline
  import opened Throughput

  /** The `n` bytes of `w` from byte `j` on. */
  function BytesFrom(w: Word, j: nat, n: nat): Bits
    requires j + n <= 4
  {
    w[8 * j..8 * (j + n)]
  }

  lemma ByteStored(sram: seq<Byte>, addr: nat, w: Word, j: nat)
    requires |sram| == SRAM_SIZE && AddressOk(addr, 4) && j < 4
    ensures ByteAt(Stored(sram, addr, w), addr + j) == BytesFrom(w, j, 1)
  {
    WordFits(addr);
    StoredByte(sram, addr, w, addr + j);
  }

  /** 32-bit mode: the word stored there. */
  lemma WordLoads(sram: seq<Byte>, addr: nat, w: Word, a: Word)
    requires |sram| == SRAM_SIZE && AddressOk(addr, 4) && Val(a) == addr
    ensures Load(Stored(sram, addr, w), 32, a) == w
  {
    ByteStored(sram, addr, w, 0);
    ByteStored(sram, addr, w, 1);
    ByteStored(sram, addr, w, 2);
    ByteStored(sram, addr, w, 3);
    hide Stored, ByteAt, Val;
    assert w == (BytesFrom(w, 0, 1) + BytesFrom(w, 1, 1)) + (BytesFrom(w, 2, 1) + BytesFrom(w, 3, 1));
  }

  /** 16-bit mode: both halves are the halfword stored there. */
  lemma HalfwordLoads(sram: seq<Byte>, addr: nat, w: Word, a: Word, j: nat)
    requires |sram| == SRAM_SIZE && AddressOk(addr, 4) && j < 2 && Val(a) == addr + 2 * j
    ensures var l := Load(Stored(sram, addr, w), 16, a); l[..16] == l[16..] == w[16 * j..16 * j + 16]
  {
    ByteStored(sram, addr, w, 2 * j);
    ByteStored(sram, addr, w, 2 * j + 1);
    hide Stored, ByteAt, Val;
    assert BytesFrom(w, 2 * j, 1) + BytesFrom(w, 2 * j + 1, 1) == w[16 * j..16 * j + 16];
  }

  /** 8-bit mode: all four bytes are the byte stored there. */
  lemma ByteLoads(sram: seq<Byte>, addr: nat, w: Word, a: Word, j: nat)
    requires |sram| == SRAM_SIZE && AddressOk(addr, 4) && j < 4 && Val(a) == addr + j
    ensures var l := Load(Stored(sram, addr, w), 8, a);
      l[..8] == l[8..16] == l[16..24] == l[24..] == w[8 * j..8 * j + 8]
  {
    ByteStored(sram, addr, w, j);
    hide Stored, ByteAt, Val;
  }

  /** The addresses every SRAM access accepts: 520 KiB from 0x20000000, aligned to the access. */
  lemma AddressRange(addr: nat, bytes: nat)
    requires bytes in {1, 2, 4}
    ensures AddressOk(addr, bytes) <==> 0x2000_0000 <= addr <= 0x2008_1FFF && addr % bytes == 0
  {
  }

  /** What channel `ch` must deliver for an address inside the stored word. */
  ghost predicate Delivers(l: Word, w: Word, mode: nat, j: nat) {
    match mode
    case 32 => j == 0 ==> l == w
    case 16 => j < 2 ==> l[..16] == l[16..] == w[16 * j..16 * j + 16]
    case 8 => j < 4 ==> l[..8] == l[8..16] == l[16..24] == l[24..] == w[8 * j..8 * j + 8]
    case _ => true
  }

  lemma LoadDelivers(sram: seq<Byte>, addr: nat, w: Word, a: Word, mode: nat, j: nat)
    requires |sram| == SRAM_SIZE && AddressOk(addr, 4) && mode in {8, 16, 32} && Val(a) == addr + j * (mode / 8)
    ensures Delivers(Load(Stored(sram, addr, w), mode, a), w, mode, j)
  {
    if mode == 32 {
      if j == 0 {
        WordLoads(sram, addr, w, a);
      }
    } else if mode == 16 {
      if j < 2 {
        HalfwordLoads(sram, addr, w, a, j);
      }
    } else if j < 4 {
      ByteLoads(sram, addr, w, a, j);
    }
    hide Load, Stored, Val;
  }

  /** In the emulator: with `w` stored at `addr`, an address of it in the read stage of a channel
  with exclusive endpoints ends as that word, or as its addressed part replicated, in the
  target's TX FIFO. */
  lemma StoredWordDelivered(st: State, c: nat, gap: nat, n: nat, sram: seq<Byte>, addr: nat, w: Word, j: nat)
    returns (k: nat, l: Word)
    requires st.Shape() && c < NUM_DMA_CHANNELS && Exclusive(st, c)
    requires st.dma[c].readDelay >= 1 && st.dma[c].writeCycles >= 1 && RoomWithin(PortsOf(st, c, n), gap)
    requires n == st.dma[c].writeDelay + st.dma[c].readDelay + st.dma[c].writeCycles + 2 * gap
    requires |sram| == SRAM_SIZE && AddressOk(addr, 4) && st.sram == Stored(sram, addr, w)
    requires st.dma[c].mode in {8, 16, 32} && Val(st.dma[c].readAddr) == addr + j * (st.dma[c].mode / 8)
    ensures k < n
    ensures var t := st.dma[c].Target(); Cycles(st, k + 1).sm[t].tx.put == Cycles(st, k).sm[t].tx.put + [l]
    ensures Delivers(l, w, st.dma[c].mode, j)
  {
    hide Cycle, Cycles, Exclusive, RoomWithin, PortsOf, Load, Stored, Delivers, Val;
    k := AddressDeliveredInCycles(st, c, gap, n);
    l := Load(st.sram, st.dma[c].mode, st.dma[c].readAddr);
    LoadDelivers(sram, addr, w, st.dma[c].readAddr, st.dma[c].mode, j);
  }
}
