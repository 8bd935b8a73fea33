# Verified model of the epio cycle engine

`epio` emulates the three programmable I/O (PIO) blocks of the RP2350: twelve state machines
that share eight interrupt flags per block, 48 GPIOs, four-word TX and RX FIFOs and sixteen
two-stage DMA channels over 520 KiB of SRAM.  Its cycle loop is sequential C that is meant to
behave like parallel hardware.  This project models that loop and everything below it, and
proves what the emulator relies on.

`dafny verify dfyconfig.toml` checks everything.

## How it is built

* **The specification** is a set of functions on values.  `Machines` is one state machine and
  all its instructions; `Gpios`, `Fifos` and `Dma` are its surroundings; `System` puts twelve
  machines, three blocks and sixteen channels together and defines a cycle; `Runs` interleaves
  cycles with the host's calls.
* **The emulator** is a set of classes (`Fifos.Fifo`, `PinBanks`, `StateMachines`, `DmaEngine`,
  `Emulators`) with the C code's fields, arrays and loops, updated in place.  Each method is
  proved to do to its abstract value exactly what the specification says, so a property proved
  of the specification holds of those methods too.
* **The instructions** are stated a second time, as what becomes of every bit, number, pin and
  count, without the functions that compute it: `DataPath`, `PinEffects`, `Branches`,
  `PullPush`, `Loads`, `Fields` and `HostCalls`, over `Values`.
* **The results** are lemmas about the specification: `Parallel` (order of stepping does not
  matter), `Pipeline` and `Throughput` (DMA loses nothing and is on time), `Stalling`, `Timing` and `Injection` (stalls,
  delays and EXEC), `Rendezvous`, `CopyLoop`, `Countdown` and `Serial` (whole programs),
  `Ownership` (who drives a pin), `WellFormed` (state invariants and assertions), `Encoding`
  (instruction words and flag addressing), `AnyOrder` (order over many cycles), and `Limits`
  and `Drain` (where the emulator differs from the chip).

Words are sequences of 32 bits, lowest first, and GPIO masks sequences of 64.  Shifts,
truncations and the wrap-around of X, Y, the 8-bit PC and the 64-bit cycle counter are written
out.  FIFOs carry the history of words put and got, as plain fields of the specification and
ghost fields of the class.

The C code's assertions are preconditions of the class methods (`CycleSafe`, `StepSafe`,
`InstrSafe`, `Channel.Safe`, `Legal`); the specification itself is total.  A reserved encoding
or an access out of range is a no-op or reads zero there, and `WellFormed.NoAssertionFires`
says when none of them is met.

Properties of one machine are proved over local histories (`Locals`): its clock ticks in
arbitrary surroundings, interleaved with any use of its FIFOs by others.  `Runs.RunIsLocal`
shows that every run of the whole emulator is such a history for each machine.

## Where the code differs from what is written about it

The model follows the code in each case.

* `JMP X--` and `JMP Y--` test the low eight bits of the counter only
  (src/epio_exec.c:178, src/epio_exec.c:193): `Countdown.LeavesIff`,
  `Countdown.IntendedCountIff`, `Countdown.CountdownOf256`.
* `JMP !OSRE` jumps when the OSR has reached the pull threshold, that is when it is empty
  (src/epio_exec.c:216; include/epio.h:842-843 and test/pio_jmp.c:443-485 say the same), hence
  the name `OsrReached`.  Section 11.4 of the RP2350 datasheet has it jump when the OSR is not
  empty: `Drain.LeavesAfterOneIff`, `Drain.NeverLeaves`, `Drain.NeverAsIntended`.
* `OUT PC` keeps eight bits of the data where `MOV PC` keeps five (src/epio_exec.c:469,
  src/epio_exec.c:730), and the PC increment wraps at 256, not at 32 (src/epio_exec.c:129-133);
  include/epio.h:745-746 promises a PC of 0 to 31: `Limits.PcLeavesIff`,
  `Limits.RunsOffTheEnd`, `Limits.OutPcLeaves`.
* A taken jump run through EXEC leaves the injected instruction pending, and an EXEC run
  through EXEC is dropped (src/epio_exec.c:111-122): `Injection.InjectedRetires`,
  `Injection.InjectedJumpRepeats`.  An injected instruction takes the place of the next one
  in the program, as test/pio_out.c:188 expects.
* `OUT PINDIRS` and `MOV PINDIRS` release a pin without asking who owns it, `SET PINDIRS` asks
  (src/epio_exec.c:463, src/epio_exec.c:718, src/epio_exec.c:829): `Ownership.ForeignWriteIff`,
  `Ownership.ForeignReleaseWins`, `Ownership.ForeignStateTakenDown`.
* `WAIT PIN` does not wrap within the 32 pins of its window (src/epio_exec.c:246):
  `Limits.WaitPinIff`, `Limits.WaitPinMisses`.
* `epio_drive_gpios_ext` pulls up every pin it is not asked to drive (src/epio_gpio.c:178-185);
  include/epio.h:387-389 says they are unaffected: `Ownership.UndrivenUnaffectedIff`,
  `Ownership.UndrivenPinRaised`.
* Clearing the high force of a pin raises its input even while it is forced low
  (src/epio_gpio.c:45-56): `Ownership.ForcedLowIff`, `Ownership.ForcedLowEscapes`.
* DMA cycle counts of zero are accepted (src/epio_dma.c:34-67) and deliver nothing:
  `Pipeline.ConservesIff`, `Pipeline.ZeroCountDeliversNothing`.
* SET_COUNT and OUT_COUNT are both masked with five bits (include/epio_priv.h:264-267), where
  the PINCTRL register of the RP2350 has three and six, so that an OUT_COUNT of 32 reads as 0:
  `Limits.OutCountIff`, `Limits.OutCountOf32`, `Limits.SetCountIff`,
  `Limits.SetCountWithSideSet`.
* An IN_COUNT of 0 reads no pin (src/epio_exec.c:591-592) where it means 32 to the RP2350:
  `Limits.InCountIff`, `Limits.ResetReadsNothing`.

The host's calls are methods of `Emulators.Emulator` as well.  Those that may happen in a run
(FIFO pushes and pops, enabling and disabling, interrupt flags, inputs, forcing, inversion,
ownership, output overrides, the cycle counter: src/epio_fifo.c:42-81, src/epio.c:160-173,
src/epio_irq.c:11-23, src/epio_gpio.c:32-187, src/epio_exec.c:61-63) are proved to do exactly
what `Runs.Apply` says for the event of the same name, and nothing else; those that configure
(`SetInstr`, `SetReg`, `SetGpioBase`, `SetUpDma`: src/epio_exec.c:18-22, src/epio.c:80-84,
src/epio.c:148-152, src/epio_dma.c:34-67) to write their one field.  They have no rows below.

## Model

| member | source | states |
|---|---|---|
| `Parallel.SequentialIsSimultaneous` | src/epio_exec.c:44-52 | Stepping any distinct machines one after another gives every machine exactly the step it takes against the start-of-cycle state, pin writes in visiting order, and a deferred set or clear of a flag exactly when some visited machine asked for it: no machine sees another one's effects within the cycle. |
| `Parallel.PassOrderIrrelevant` | src/epio_exec.c:34-43 | Two visiting orders of the same machines agree on everything except the level and direction of pins that two different machines write; with no contested pin they agree completely. |
| `Parallel.OrderIrrelevant` | src/epio_exec.c:31-55 | Over the whole cycle (machines, interrupt commit, DMA, counter) every permutation of the twelve machines agrees with the coded ascending order on everything but contested pins. |
| `AnyOrder.OrdersIrrelevant` | src/epio_exec.c:31-55 | Over any number of cycles, each visiting the machines in a permutation of its own, everything but output levels and directions is what the ascending order makes it, and those too on every pin that is never contested. |
| `Parallel.HighestLevelWins` | src/epio_exec.c:36-43 | After a cycle the level of a pin is the one given by the last level-setting write of the highest-numbered machine that sets it; a direction release counts as writing 1. |
| `Parallel.HighestDirectionWins` | src/epio_exec.c:36-43 | After a cycle the direction of a pin is the one given by the last direction write of the highest-numbered machine that writes it. |
| `Parallel.UntouchedPin` | src/epio_gpio.c:130-161 | A pin no machine writes keeps its level and direction over the cycle. |
| `Pipeline.NothingLost` | src/epio_dma.c:69-145 | In every legal run of any programs, with exclusive endpoints and both cycle counts at least 1: the loads of all addresses that entered the source RX FIFO are, in order, the words put into the target TX FIFO, the word in the write stage, the load of the address in the read stage, and the loads of the addresses still queued; and the words put are the words pulled followed by the TX contents. |
| `Pipeline.ConservesIff` | src/epio_dma.c:34-67 | An idle channel with exclusive endpoints obeys the conservation law in every run that respects it if and only if it was set up with both cycle counts at least 1 (set-up does not check); with a zero count a losing run is constructed. |
| `Pipeline.ZeroCountDeliversNothing` | src/epio_dma.c:76-96 | With a zero read or write count the channel pushes no word at all in any run. |
| `Throughput.WordLatency` | src/epio_dma.c:75-142 | With room in TX and a write stage that drains in time, the word read is pushed exactly readDelay + writeCycles cycles after its address was popped, not earlier and not later. |
| `Throughput.ReadyTurnsOver` | src/epio_dma.c:75-142 | From set-up, with work and room, the channel is in its steady state after readCycles + 1 cycles. |
| `Throughput.PushFromStart` | src/epio_dma.c:75-142 | From a standing start the pushes are exactly at readCycles + 1 + i * max(readCycles, writeCycles) + writeCycles - 1, for every turn i: successive words are max(readCycles, writeCycles) cycles apart, over any number of turns. |
| `Throughput.WordsOnTime` | src/epio_dma.c:69-145 | In the emulator: with an address always waiting and room always there when its turn comes, an idle channel has put exactly i words into the target TX FIFO readCycles + 1 + i * max(readCycles, writeCycles) cycles later, and the next one exactly writeCycles after that. |
| `Throughput.HeldWordPushed` | src/epio_dma.c:84-96 | A finished word that finds TX full is kept, and pushed in the first cycle in which the channel finds room. |
| `Throughput.AddressDelivered` | src/epio_dma.c:69-145 | However often TX is full: if among any gap cycles one finds room, the word of an address in the read stage is pushed within the delays of both stages and two gaps. |
| `Throughput.AddressDeliveredInCycles` | src/epio_dma.c:69-145 | The same in the emulator: within that many cycles the loaded word is appended to what was put into the target TX FIFO. |
| `Throughput.PutInCycles` | src/epio_exec.c:79-83 | In every emulator cycle the target TX FIFO is put one word if the channel pushes in its own history, and none otherwise. |
| `Throughput.CyclesArePorts` | src/epio_exec.c:79-83 | Over any number of emulator cycles a channel with exclusive endpoints takes exactly one step a cycle against the FIFOs as the machines left them. |
| `Pipeline.ChannelInCycle` | src/epio_dma.c:69-74 | Within one DMA pass a channel with exclusive endpoints is untouched before its turn, stepped once, and untouched afterwards. |
| `CopyLoop.CopiesFaithfully` | src/epio_exec.c:308-444 | The looped `out x, c` / `in x, c` with autopull and autopush at 32, equal directions and c dividing 32: over every local history the words pushed to RX are the words pulled from TX, unchanged and in order, with at most one word inside the shift registers. |
| `CopyLoop.CopiesInRuns` | src/epio_exec.c:308-444 | The same in every run of the whole emulator, whatever other machines, DMA and the host do, as long as the host does not take from that TX FIFO or put into that RX FIFO. |
| `CopyLoop.WordCopied` | src/epio_exec.c:308-444 | Progress: with a word in TX and room in RX the loop copies it in exactly 32 / c times the cycles of one OUT and one IN, delay fields included, and is back at its start. |
| `Stalling.StallAlways` | src/epio_exec.c:299-305 | In every reachable state `stalled` implies delay 0 and that the next instruction is the one that stalled, with the machine-side cause still present; registers of configuration never change. |
| `Stalling.Attempt` | src/epio_exec.c:370-407 | An attempt ends in a stall exactly when the stall flag ends up set; then it kept everything but what an IN shifted, and a repeated stall changes nothing and has no effect. |
| `Stalling.FrozenWhileStalled` | src/epio_exec.c:299-303 | However long a machine stays stalled, and whatever happens to its FIFOs meanwhile, its registers do not change and no cycle has an effect. |
| `Stalling.InShiftsOnce` | src/epio_exec.c:308-386 | A stalled IN shifts once: the word finally pushed is the one built from the inputs of the first attempt, and the retry succeeds exactly when RX has room. |
| `Stalling.IrqWaitRaisesOnce` | src/epio_exec.c:767-784 | `irq wait` raises its flag exactly on the first attempt, never on a retry, and completes exactly when a retry sees the flag clear. |
| `Stalling.AttemptFrame` | src/epio_exec.c:140-861 | No instruction changes the configuration; only jumps set the PC; only EXEC sets the pending instruction; RX gets at most one word pushed, TX at most one popped, and no other FIFO access happens. |
| `Stalling.TickAttempt` | src/epio_exec.c:851-853 | What an executing tick leaves: stall flag, retry of the same word, and the delay of the word unless it is an EXEC. |
| `Stalling.QueuesAlways` | src/epio_fifo.c:42-81 | FIFO conservation: over every interleaving of host, machine and DMA operations all words ever pushed are the words popped followed by the contents, and depth stays at most 4. |
| `Rendezvous.StrictAlternation` | src/epio_exec.c:753-790 | A producer looping `irq wait f` and a consumer looping `wait 1 irq f`, on any two machines, any addressing modes that name the same flag and any delays: at every moment of every run undisturbed by others the consumer has completed as often as the producer or once more. |
| `Rendezvous.RaisesOnTime` | src/epio_exec.c:777-784 | Progress: with both machines running, an idle producer raises the flag after exactly its remaining delay plus one cycles, not before. |
| `Rendezvous.ConsumesOnTime` | src/epio_exec.c:278-283 | Progress: a raised flag is consumed after exactly the consumer's remaining delay plus one cycles. |
| `Rendezvous.RoundCompletes` | src/epio_exec.c:251-284 | Progress: from the idle phase both machines complete once, the consumer first, within the two remaining delays and three cycles. |
| `Encoding.WaitMeansIrq` | src/epio_exec.c:253-276 | WAIT's own decoding of its flag operand agrees with the decoding IRQ and MOV STATUS share (include/epio_priv.h:278-301) on all 32 operands. |
| `Rendezvous.FlagAfterCycle` | src/epio_exec.c:67-77 | After a cycle a flag is up exactly when someone set it, or it was up and nobody cleared it: a set wins over a clear in the same cycle. |
| `Encoding.RelativeFlagsDistinct` | include/epio_priv.h:289-292 | The four machines of a block name four different flags by one relative index, bit 2 unchanged; machine 0 names the index itself. |
| `Encoding.NeighboursMeet` | include/epio_priv.h:285-296 | Addressing the next block and addressing the previous block are inverse to each other, and never the same block. |
| `Encoding.DecodeEncoded` | include/epio_priv.h:303-372 | Decoding inverts an encoder written independently from the opcode and selector constants, for every instruction and delay. |
| `Encoding.ReservedWords` | src/epio_exec.c:222-225 | Exactly which instruction words are refused whatever the registers: by opcode, selector and operand bits. |
| `Encoding.RefusedWords` | src/epio_exec.c:245-247 | Exactly which others are refused under the registers at hand: MOV STATUS with selector 3, WAIT PIN beyond GPIO 47. |
| `Timing.LedgerBalances` | src/epio_exec.c:99-134 | At every moment the cycles taken plus the delay still to run equal the charges of the completed instructions (stalls + 1 + delay field, 0 delay for EXEC) plus the stalls of the current one. |
| `Timing.CyclesAreCharged` | src/epio_exec.c:851-853 | Between instruction boundaries the cycles taken are exactly the sum of stalls + 1 + delay. |
| `Timing.ErasureRefines` | src/epio_exec.c:99-134 | Erasing all delay and stall cycles from any run, except the first cycle of a stalled IN or irq wait, which shifts or raises the flag, yields a run of a machine without delays, with the same final machine and the same sequence of effects. |
| `Timing.BusyTicksWork` | src/epio_exec.c:99-134 | A cycle that is not erased completes an instruction or is that first phase of an IN or irq wait. |
| `Serial.SerialRoundTrip` | src/epio_exec.c:356-367 | Moving a word out in fields of any widths from 1 to 32 that sum to 32 and in again in the same direction rebuilds it exactly. |
| `Serial.BitReversalIsSerial` | src/epio_exec.c:667-676 | Thirty-two one-bit transfers, out to the right and in to the left, equal MOV's bit reversal. |
| `Bits.ReverseInvolution` | src/epio_exec.c:667-676 | Bit reversal undoes itself on every word. |
| `Injection.ExecInjects` | src/epio_exec.c:478-482 | A completed OUT EXEC or MOV EXEC makes its 16-bit word the very next instruction, with no delay in between. |
| `Injection.ExecRunsOnce` | src/epio_exec.c:90-122 | Over any run an injected instruction that cannot write the PC starts at once, completes exactly once whatever it stalls, and the next word comes from instruction memory. |
| `Injection.InjectedRetires` | src/epio_exec.c:111-122 | Exactly when an injected instruction is retired: if and only if it did not jump; an EXEC injected by an EXEC is dropped. |
| `Injection.InjectedJumpRepeats` | src/epio_exec.c:111-122 | An injected unconditional jump stays pending for ever: the program is never resumed. |
| `Countdown.LeavesIff` | src/epio_exec.c:99-134 | `jmp x--, self [d]` (and Y) from n: the next cycle is the first that falls through if and only if exactly (n mod 256) * (1 + d) enabled cycles have been taken, in every local history. |
| `Countdown.CountdownTerminates` | src/epio_exec.c:99-134 | Left to itself an enabled machine does leave, after exactly that many cycles. |
| `Countdown.CountdownLeaves` | src/epio_exec.c:176-183 | The leaving execution is number (n mod 256) + 1, at 1 + d cycles each; the PC has stayed until then and moves on; the counter is n - (n mod 256) - 1 modulo 2^32. |
| `Countdown.IntendedCountIff` | src/epio_exec.c:191-198 | The machine leaves with the instruction set's execution number n + 1 after its (n + 1) * (1 + d) cycles if and only if n < 256. |
| `Countdown.CountdownOf256` | src/epio_exec.c:176-183 | A concrete failing input: a counter of 256 leaves on its first execution. |
| `WellFormed.WellFormedAlways` | src/epio_exec.c:85-135 | Every event of every run keeps: FIFO depths at most 4, shift counts at most 32, delay at most 31, flags below 256 with nothing deferred between cycles, GPIO masks below 2^48, DMA delays within their counts, every address being read taken from its RX FIFO, the stall invariant. |
| `WellFormed.NoAssertionFires` | include/epio_priv.h:201-219 | If every machine that is enabled, at the start or by the host, has a program that stays within its wrap bounds and uses no reserved encoding, EXEC or computed PC, and DMA sources push only valid aligned addresses, the next cycle trips no assertion in any reachable state. |
| `WellFormed.TameAlways` | src/epio_exec.c:125-134 | The PC of such a machine stays at or below wrap_top in every run. |
| `Emulators.TameIsSafe` | src/epio_exec.c:31-55 | With such programs in the enabled machines any number of cycles can be stepped: the precondition of stepping is met. |
| `WellFormed.InitialStateOk` | src/epio.c:45-78 | The initial state is the base case of all these invariants, of disjoint ownership and of the forcing invariant. |
| `Ownership.InstructionWrites` | src/epio_exec.c:431-466 | No instruction writes a pin twice, for any base and count, and apart from releasing a pin it writes only pins its block owns. |
| `Ownership.ForeignWriteIff` | src/epio_exec.c:453-466 | An instruction writes a pin its block does not own if and only if it is an OUT PINDIRS that has data, or a MOV PINDIRS, with a zero bit for that pin. |
| `Ownership.ForeignReleaseWins` | src/epio_exec.c:707-721 | Such a release takes down an output of another block: the pin is a high input after the cycle unless a later machine writes it. |
| `Ownership.ForeignStateTakenDown` | src/epio_exec.c:718 | A concrete failing input: block 1 drives pin 0 low, block 0 runs `mov pindirs, null`, and one cycle later the output is gone. |
| `Ownership.DrivingNeedsOwnership` | src/epio_exec.c:691-721 | A pin becomes an output, or its level falls, in a cycle only if a machine of a block that owns it writes it. |
| `Ownership.EventDriving` | src/epio_gpio.c:130-161 | Over every event, host calls included, a pin is driven anew only by an owner's machine in a clock cycle or by the two host calls that override outputs on that pin, which ask for no ownership; and when those do. |
| `Ownership.UnownedPinStays` | src/epio_gpio.c:114-119 | A pin nobody owns or is granted, and that the host does not itself make an output or lower, stays a high input in every run. |
| `Ownership.OwnershipDisjoint` | src/epio_gpio.c:87-107 | Ownership masks stay pairwise disjoint under every history of grants, revocations and everything else. |
| `Ownership.ForcedHighReadsHigh` | src/epio_gpio.c:32-80 | Forcing low, forcing high and inversion stay mutually exclusive, and a pin forced high reads high, in every run. |
| `Ownership.ForcedLowIff` | src/epio_gpio.c:45-56 | A pin forced low goes on reading low through an event if and only if the event is not a set-force-high call on that pin (clearing the high force raises the input regardless). |
| `Ownership.ForcedLowEscapes` | src/epio_gpio.c:45-56 | A failing run from the initial state for every pin: forced low, then told to stop being forced high, it is still forced low and reads high. |
| `Ownership.UndrivenUnaffectedIff` | src/epio_gpio.c:173-187 | Driving other pins leaves the input of a pin unaffected, as the header promises, if and only if it already reads high, or low when forced low only. |
| `Ownership.UndrivenPinRaised` | src/epio_gpio.c:178-185 | A failing input for every pin: set low and not forced, it is raised by any call that drives others. |
| `Limits.OutCountIff` | include/epio_priv.h:264-265 | The six-bit OUT_COUNT is read right if and only if it is below 32. |
| `Limits.SetCountIff` | include/epio_priv.h:266-267 | The three-bit SET_COUNT is read right if and only if the side-set count bits above it are clear. |
| `Limits.OutCountOf32` | src/epio_exec.c:690-697 | A failing register value: with an OUT_COUNT of 32 MOV writes no pin and no pin direction. |
| `Limits.SetCountWithSideSet` | include/epio_priv.h:266-267 | A failing register value: one SET pin beside one side-set pin reads as nine SET pins. |
| `Limits.InCountIff` | src/epio_exec.c:588-598 | MOV from pins reads the pins the chip reads, in every environment, if and only if IN_COUNT is not 0 (which means 32 to the chip). |
| `Limits.ResetReadsNothing` | src/epio_exec.c:591-592 | A failing input: with reset registers and all pins pulled up it reads 0 where the chip reads all ones. |
| `Limits.WaitPinIff` | src/epio_exec.c:243-249 | WAIT PIN waits for the pin IN would read, in every environment, if and only if base plus index stay below 32. |
| `Limits.WaitPinMisses` | src/epio_exec.c:246 | A failing input: `wait 1 pin 1` with an IN_BASE of 31 stalls with GPIO 0, the pin IN reads, high. |
| `Limits.PcLeavesIff` | src/epio_exec.c:111-134 | In a cycle the PC leaves instruction memory if and only if the machine executes something that falls through at address 31 with a wrap_top elsewhere, or an OUT PC that has data and one of bits 5 to 7 set. |
| `Limits.RunsOffTheEnd` | src/epio_exec.c:125-134 | A failing program without OUT PC: a machine with reset registers jumps to 31, falls through, and is at 32. |
| `Limits.OutPcLeaves` | src/epio_exec.c:468-471 | A failing machine: `out pc, 8` on an OSR of 0x20 goes to 32. |
| `Drain.LeavesAfterOneIff` | src/epio_exec.c:213-219 | The loop `out null, c` / `jmp !osre, back` without autopull on a fresh OSR: after its first OUT it leaves if and only if c is below the pull threshold. |
| `Drain.NeverLeaves` | src/epio_exec.c:213-219 | With c at or above the threshold it never leaves, in any local history. |
| `Drain.NeverAsIntended` | src/epio_exec.c:213-219 | It leaves after that OUT if and only if the number of OUTs that first reaches the threshold is more than one: in no case does it run the intended number. |
| `Runs.RunIsLocal` | src/epio_exec.c:44-52 | Every run of the emulator is, for each machine, a local history of that machine, so what is proved over local histories holds in every run; programs, GPIOBASE and SRAM stay fixed. |
| `System.CyclesAdd` | src/epio_exec.c:31-55 | Stepping a cycles and then b cycles is stepping a + b cycles. |
| `System.CyclesCounted` | src/epio_exec.c:53 | The cycle counter counts cycles modulo 2^64. |
| `DmaEngine.StoredWordReads` | src/epio_sram.c:26-60 | A stored word reads back as itself, its halfwords and bytes are its parts, lowest first, and every other byte is unchanged. |
| `Loads.WordLoads` | src/epio_dma.c:122-125 | In 32-bit mode a DMA read of the address of a stored word is that word. |
| `Loads.AddressRange` | include/epio_priv.h:211-215 | SRAM accesses accept exactly the aligned addresses from 0x20000000 to 0x20081FFF. |
| `Loads.HalfwordLoads` | src/epio_dma.c:118-121 | In 16-bit mode both halves of the read are the halfword stored at the address, for both halfwords of a word. |
| `Loads.ByteLoads` | src/epio_dma.c:114-117 | In 8-bit mode all four bytes of the read are the byte stored at the address, for all four bytes of a word. |
| `Loads.StoredWordDelivered` | src/epio_dma.c:69-145 | In the emulator the word appended to the target TX FIFO for an address in the read stage is the stored word, or its addressed half or byte replicated. |
| `PinEffects.PinLevel` | src/epio_exec.c:431-440 | OUT, SET and MOV PINS: the t-th pin of the window, if owned, gets bit t of the OSR's low or high end, of the number, or of the word moved; no direction changes. |
| `PinEffects.PinDirection` | src/epio_exec.c:453-466 | OUT, SET and MOV PINDIRS: a one bit makes an owned pin an output and leaves its level; a zero bit makes the pin a high input, owned or not, except that SET asks. |
| `PinEffects.PinElsewhere` | src/epio_exec.c:797-834 | Every pin outside the window, and every pin under any other instruction or an OUT without data, keeps its level and direction. |
| `PinEffects.CycleLevel` | src/epio_exec.c:36-50 | In the emulator, after the cycle: the same for levels, for the highest machine that levels the pin. |
| `PinEffects.CycleDirection` | src/epio_exec.c:36-50 | In the emulator, after the cycle: the same for directions, for the highest machine that writes the pin. |
| `DataPath.InResult` | src/epio_exec.c:308-386 | A first attempt at IN: bit k of the field read (for pins: the level and inversion of the k-th pin of the window) enters the ISR from the top or the bottom; the count grows, capped at 32; at the threshold the word is pushed, or the machine stalls; all else stays. |
| `DataPath.InPinsValue` | src/epio_exec.c:318-327 | With one high pin, `in pins, n` shifting left into an empty ISR gives two to the power of that pin's place in the window, or zero if the field does not reach it. |
| `DataPath.InPinsFollow` | src/epio_exec.c:322-326 | Bit k of `in pins` changes if and only if its own pin changes in exactly one of level and inversion. |
| `DataPath.OutResult` | src/epio_exec.c:388-490 | OUT that has data: bit k of the field is bit k of the OSR shifting right and bit 32 - n + k shifting left; where it goes for every destination, what remains, the counts, and all that stays. |
| `DataPath.MovResult` | src/epio_exec.c:576-751 | MOV: bit k of the word moved is bit k of its source, inverted, or bit 31 - k; where it goes for every destination, with which count, and all that stays. |
| `DataPath.MovPinsValue` | src/epio_exec.c:588-598 | With one high pin, `mov x, pins` gives two to the power of its place in the window, or zero beyond IN_COUNT. |
| `DataPath.SetResult` | src/epio_exec.c:810-816 | SET X and SET Y load their number; all else stays. |
| `Branches.JmpResult` | src/epio_exec.c:161-227 | JMP goes to its target if and only if its condition holds of the numbers in X and Y, of the level and inversion of its pin, or of the OSR count, and to the wrapped successor otherwise; X-- and Y-- take one off modulo 2^32; all else stays. |
| `Branches.CompareStays` | src/epio_exec.c:200-204 | `jmp x!=y, self` with different X and Y never leaves and changes nothing, in every local history. |
| `Branches.CompareLeavesIff` | src/epio_exec.c:200-204 | Its first execution leaves if and only if X and Y are equal numbers. |
| `Branches.WaitResult` | src/epio_exec.c:229-306 | WAIT goes on if and only if the pin or flag it names has its polarity, and stalls otherwise; it clears a flag exactly when it waited for it to be set and it was. |
| `Branches.IrqResult` | src/epio_exec.c:764-788 | IRQ that does not wait raises or lowers one flag and does nothing else. |
| `Branches.FlagNumbers` | include/epio_priv.h:278-301 | The flag of each addressing mode as numbers modulo 3 and 4. |
| `PullPush.PullResult` | src/epio_exec.c:499-538 | PULL skips below the threshold if ifempty or a barrier for autopull; else takes the oldest word, stalls, or, not blocking, copies X. |
| `PullPush.PushResult` | src/epio_exec.c:539-573 | PUSH skips below the threshold if iffull; else appends the ISR and clears it, stalls, or, not blocking, clears it and leaves RX alone. |
| `PullPush.LastWordKept` | src/epio_exec.c:524-537 | Over every local history of `pull noblock` / `out x, 32` (or `mov x, osr`), X at each start of the loop is the last word taken from TX, or the starting X while none was. |
| `PullPush.FullPushesLost` | src/epio_exec.c:559-571 | Over every local history of a looped `push noblock` against a full RX the machine never stalls, RX keeps its words, and the ISR is lost. |
| `Fields.ExecCtrlFields` | include/epio_priv.h:232-242 | Every EXECCTRL field put at its place, with anything around it, reads back as itself. |
| `Fields.ShiftCtrlFields` | include/epio_priv.h:244-259 | Every SHIFTCTRL field put at its place reads back as itself, a threshold of 0 as 32. |
| `Fields.PinCtrlFields` | include/epio_priv.h:261-271 | Every PINCTRL field put at its place reads back as itself, as far as the emulator reads it. |
| `HostCalls.FlagCall` | src/epio_irq.c:11-23 | A flag call sets or clears its own flag at once and touches no other. |
| `HostCalls.FifoCall` | src/epio_fifo.c:42-81 | A push appends to, and a pop takes the oldest from, exactly the FIFO named. |
| `HostCalls.EnableCall` | src/epio.c:160-173 | An enabled machine steps, a disabled one does not; no other machine is affected. |
| `HostCalls.InputCall` | src/epio_gpio.c:141-152 | A level set from outside is what the machines see, through the inversion, unless the pin is forced; no other pin changes. |
| `HostCalls.ForceCall` | src/epio_gpio.c:32-56 | Forcing shows its level at once and holds it against later levels; released, the pin reads high. |
| `HostCalls.InvertCall` | src/epio_gpio.c:68-80 | Inverting turns what is seen on that pin only, and turning back restores it. |
| `HostCalls.DriveCall` | src/epio_gpio.c:173-187 | A driven, unforced pin shows its level, an undriven one is pulled up; outputs are untouched. |
| `HostCalls.OwnerCall` | src/epio_gpio.c:87-107 | A grant and a revocation change one pin of one block. |
| `HostCalls.PinStatesShow` | src/epio_gpio.c:191-215 | The host reads an output as its own level and an input as its input level, both through the inversion, and nothing above pin 47. |
| `HostCalls.MachineSeat` | include/epio_priv.h:221-230 | Which block's program, GPIOBASE and pins machine i sees, and which flag it means by a relative index. |
| `HostCalls.ChannelEnds` | src/epio_dma.c:69-145 | A channel takes from the RX FIFO of its read machine and gives to the TX FIFO of its write machine; one that is not set up does nothing. |
| `HostCalls.InitialMeasures` | src/epio.c:107-140 | Twelve machines, three programs of 32 words, sixteen channels not set up, 532480 bytes of SRAM. |
| `HostCalls.CounterWraps` | src/epio_exec.c:53 | The cycle counter goes from 2^64 - 1 to 0. |
| `HostCalls.InitialPins` | src/epio_gpio.c:20-30 | After initialisation every pin is a high input, seen high by machines and host, owned by nobody. |
| `HostCalls.InitialMachineFresh` | src/epio.c:58-78 | A fresh machine starts at address 0 with zero registers and an OSR that counts as used up, so that the first OUT with autopull asks for a word at any threshold. |
| `Emulators.Emulator.StepCycles` | src/epio_exec.c:31-55 | The nested loops over cycles, blocks and machines, run in place, turn the emulator into n cycles of the specification. |
| `Emulators.Emulator.FinishStep` | src/epio_exec.c:67-77 | Applies every deferred clear, then every deferred set, of all three blocks, and nothing else. |
| `Emulators.Emulator.StepDma` | src/epio_dma.c:69-145 | The channel loop in place is the DMA pass of the specification. |
| `Emulators.Emulator.WaitTxFifo` | src/epio_fifo.c:17-28 | Returns the least k below count such that TX is non-empty after exactly k cycles, having advanced by exactly k; -1 after exactly count cycles if there is none; a count of -1 waits as long as it takes. |
| `Emulators.Init` | src/epio.c:107-140 | Builds the emulator from separate objects in exactly the initial state. |
| `StateMachines.StateMachine.Step` | src/epio_exec.c:85-135 | One clock cycle of a machine in place (delay, injected word, wrap) is the specification's step: new machine, pin writes and deferred flags. |
| `StateMachines.StateMachine.Exec` | src/epio_exec.c:140-861 | One instruction word with the delay it leaves. |
| `StateMachines.StateMachine.Jmp` | src/epio_exec.c:161-227 | JMP in place, all eight conditions. |
| `StateMachines.StateMachine.Wait` | src/epio_exec.c:229-306 | WAIT in place, all four sources, clearing a flag it waited for. |
| `StateMachines.StateMachine.In` | src/epio_exec.c:308-386 | IN in place, with autopush and retry. |
| `StateMachines.StateMachine.Out` | src/epio_exec.c:388-490 | OUT in place, with autopull. |
| `StateMachines.StateMachine.Push` | src/epio_exec.c:539-573 | PUSH in place. |
| `StateMachines.StateMachine.Pull` | src/epio_exec.c:499-538 | PULL in place. |
| `StateMachines.StateMachine.Mov` | src/epio_exec.c:576-751 | MOV in place. |
| `StateMachines.StateMachine.MovApply` | src/epio_exec.c:658-683 | The bit-by-bit reversal loop computes the reversed word. |
| `StateMachines.StateMachine.Irq` | src/epio_exec.c:753-790 | IRQ in place: clear, set, set and wait. |
| `StateMachines.StateMachine.SetInstr` | src/epio_exec.c:792-842 | SET in place. |
| `PinBanks.PinBank.constructor` | src/epio_gpio.c:20-30 | Every pin starts as a pulled-up input owned by nobody. |
| `PinBanks.PinBank.WriteLevels` | src/epio_exec.c:431-440 | The pin loop drives exactly the owned pins of the window with their bits. |
| `PinBanks.PinBank.WriteDirections` | src/epio_exec.c:453-466 | The pin loop turns owned pins outward and releases the others, asking for ownership on release only for SET. |
| `PinBanks.PinBank.ReadPins` | src/epio_exec.c:318-327 | The pin loop collects exactly the levels read on the first n pins of the window. |
| `PinBanks.PinBank.PinStates` | src/epio_gpio.c:191-215 | The loop computes the observable level of all 48 pins. |
| `Fifos.Fifo.Push` | src/epio_fifo.c:67-73 | The array push is a queue push. |
| `Fifos.Fifo.Pop` | src/epio_fifo.c:42-53 | The shifting array pop is a queue pop and returns the oldest word. |
| `DmaEngine.DmaChannel.Step` | src/epio_dma.c:72-143 | One cycle of a channel in place: channel, RX and TX become what the three stages specify. |

## Left out

- Loading programs from the `apio` assembler and its globals: the library is not shown; runs
  start from the initial state or any state, with any programs and registers.
- Logging, the instruction decoder used for it, the WebAssembly build, NULL checks, allocation
  failure and debug ranges: no behaviour of the cycle engine.
- Clock dividers, side-set, FIFO joining, MOV to and from the RX FIFO and the two-cycle input
  synchroniser: the emulator does not implement them.
- Host calls that change programs, registers, GPIOBASE or DMA channels in the middle of a run:
  each is a method of `Emulators.Emulator`, but `Runs` keeps the configuration fixed, because
  the stall invariant is false if an instruction is replaced while it stalls.
- `epio_sram_set`, a block copy into SRAM: the byte, halfword and word writes are modelled.
- WaitTxFifo: with a count of -1 it requires that a word arrives after some number of cycles,
  because otherwise the call does not return; the 32-bit step counter of such a wait is
  unbounded in the model.
- OUT PC and PC increments beyond instruction memory: the C code reads past the array; the
  specification fetches 0, and the class methods require the fetch to be in range.
- Host writes to SRAM are methods of `DmaEngine.Sram` but not events of `Runs`: SRAM is fixed
  during a run, as the pipeline law needs.
