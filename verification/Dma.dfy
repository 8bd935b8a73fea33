/** SRAM reads and the two-stage DMA channels: an address popped from one machine's RX FIFO
is read after a delay, and the word read is pushed to another machine's TX FIFO after a
second delay. */
module Dma {
  import opened Bits
  import opened Fifos
  import opened Instructions

  const SRAM_SIZE := 520 * 1024
  const MIN_SRAM_ADDR := 0x2000_0000
  const MAX_SRAM_ADDR := MIN_SRAM_ADDR + SRAM_SIZE - 1

  /** The address checks every SRAM access makes. */
  predicate AddressOk(addr: nat, bytes: nat)
    requires bytes > 0
  {
    MIN_SRAM_ADDR <= addr <= MAX_SRAM_ADDR && (addr - MIN_SRAM_ADDR) % bytes == 0
  }

  /** Outside the array the C reads foreign memory; the model reads zero. */
  function ByteAt(sram: seq<Byte>, addr: nat): Byte {
    if MIN_SRAM_ADDR <= addr < MIN_SRAM_ADDR + |sram| then sram[addr - MIN_SRAM_ADDR] else Zeros(8)
  }

  function HalfwordAt(sram: seq<Byte>, addr: nat): (h: Bits)
    ensures |h| == 16
  {
    ByteAt(sram, addr) + ByteAt(sram, addr + 1)
  }

  function WordAt(sram: seq<Byte>, addr: nat): Word {
    HalfwordAt(sram, addr) + HalfwordAt(sram, addr + 2)
  }

  /** Narrow reads are replicated across the word. */
  function Load(sram: seq<Byte>, mode: nat, addr: Word): Word {
    var a := Val(addr);
    if mode == 8 then ByteAt(sram, a) + ByteAt(sram, a) + ByteAt(sram, a) + ByteAt(sram, a)
    else if mode == 16 then HalfwordAt(sram, a) + HalfwordAt(sram, a)
    else WordAt(sram, a)
  }

  function LoadAll(sram: seq<Byte>, mode: nat, addrs: seq<Word>): (ws: seq<Word>)
    ensures |ws| == |addrs|
  {
    seq(|addrs|, i requires 0 <= i < |addrs| => Load(sram, mode, addrs[i]))
  }

  datatype Channel = Channel(
    setup: bool,
    readBlock: Block,
    readSm: Slot,
    readCycles: nat,
    writeBlock: Block,
    writeSm: Slot,
    writeCycles: nat,
    readDelay: nat,
    writeDelay: nat,
    mode: nat,
    readAddr: Word,
    readValue: Word)
  {
    /** Index of the machine whose RX FIFO supplies addresses. */
    function Source(): nat { readBlock * NUM_SMS_PER_BLOCK + readSm }

    /** Index of the machine whose TX FIFO receives words. */
    function Target(): nat { writeBlock * NUM_SMS_PER_BLOCK + writeSm }

    /** The word waiting in the write stage. */
    function Writing(): seq<Word> { if writeDelay > 0 then [readValue] else [] }

    /** The address waiting in the read stage. */
    function Reading(): seq<Word> { if readDelay > 0 then [readAddr] else [] }

    predicate Pushes(tx: Queue) { writeDelay == 1 && !tx.Full() }

    /** Writes first, to make room for reads; a full FIFO is tried again next cycle. */
    function WriteStage(tx: Queue): Channel {
      if writeDelay > 1 then this.(writeDelay := writeDelay - 1)
      else if Pushes(tx) then this.(writeDelay := 0, readValue := ZERO)
      else this
    }

    function Written(tx: Queue): Queue {
      if Pushes(tx) then tx.Push(readValue) else tx
    }

    /** A finished read waits while the write stage is busy. */
    function ReadStage(sram: seq<Byte>): Channel {
      if readDelay > 1 then this.(readDelay := readDelay - 1)
      else if readDelay == 1 && writeDelay == 0 then
        this.(readDelay := 0, readValue := Load(sram, mode, readAddr), writeDelay := writeCycles)
      else this
    }

    predicate Pops(rx: Queue) { readDelay == 0 && !rx.Empty() }

    function FetchStage(rx: Queue): Channel {
      if Pops(rx) then this.(readAddr := rx.items[0], readDelay := readCycles) else this
    }

    function Fetched(rx: Queue): Queue {
      if Pops(rx) then rx.Pop() else rx
    }

    function Step(sram: seq<Byte>, rx: Queue, tx: Queue): Channel {
      WriteStage(tx).ReadStage(sram).FetchStage(rx)
    }

    function StepTx(tx: Queue): Queue { Written(tx) }

    function StepRx(sram: seq<Byte>, rx: Queue, tx: Queue): Queue {
      WriteStage(tx).ReadStage(sram).Fetched(rx)
    }

    /** The SRAM read this cycle, if there is one, passes the address checks. */
    predicate Safe() {
      readDelay == 1 ==> mode in {8, 16, 32} && AddressOk(Val(readAddr), mode / 8)
    }
  }

  const INITIAL_CHANNEL := Channel(false, 0, 0, 0, 0, 0, 0, 0, 0, 0, ZERO, ZERO)
}
