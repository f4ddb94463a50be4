# A verified model of the RV32I core, its control module and its control chain

This project models an RV32I soft core that runs one instruction at a time
through ready/valid handshakes against an AXI4-Lite memory, the control module
that starts, stops, single-steps and faults it, the firmware behind a serial
line, and the Python client at the far end of that line.  `dafny verify
dfyconfig.toml` checks everything.

## The chain, bottom up

- `Words`, `Wrappers`: 32-bit words as bounded integers, bitwise operators with
  their bit-by-bit meaning.
- `Isa`: the reference machine.  Abstract instructions over pc, 31 registers and
  a byte memory; no bit position occurs in it.
- `Encoding`, `Decode`: instruction builders and the core's decoder, which undo
  each other.
- `Alu`, `ByteLanes`, `RegisterFile`, `Arbiter`: the building blocks of the core.
  Clocked modules are classes whose `Clock` method is proved equal to a next-state
  function.
- `Core`, `Datapath`, `Tokens`: the core itself, the meaning of its combinational
  paths, and the one instruction token that circulates in it.
- `Machine`: the core against an adversarial memory slave, which delays any READY,
  RVALID or BVALID as it likes and performs an accepted write at any moment before
  it answers.
- `Refinement`: each clock stutters or takes exactly one reference step.
- `Handshakes`, `Discipline`, `Progress`: conservation of handshakes and
  instructions over every run, AXI master discipline, bounded retirement.
- `SocControl`, `Transactions`: the control module and what its slave port
  promises.
- `MachineCode`: the instruction set once more, as a table over literal bit fields; the
  builders, the decoder, the core's wires and the reference machine all agree with it.
- `Stepping`, `CmAndCore`, `RegisterAccess`: the composition.  Single steps, free
  runs and stops are all the n-fold reference step; register reads, writes and
  faults act on exactly what they name.
- `MockMemory`, `MockRefines`, `MockRuns`, `Bench`: the test bench memory behind the
  arbiter is a store of words exactly while stores keep out of its instruction half,
  and the core on it is the reference machine at no more than 18 clocks an
  instruction.
- `Firmware`, `Text`, `Uart`, `Console`, `Commands`: address macros, numerals and
  tokens, line reader, command loop, and what each command does to the chip.
- `Client`, `Upload`: client commands and replies, uploads.
- `AddressMap`, `Serial`: the address map and the serial protocol in literal addresses
  and literal text.
- `Session`, `Board`, `Protocol`: the chip as the host's bus, handshakes and delays
  included; that bus as a machine that takes one access at a time; and the firmware's
  commands, line by line, as operations of the reference machine.
- `TestRun`: the test runner, which loads a program, steps it to its jump-to-self and
  compares the final state, on that bus.

## Reading the results

Constants and small functions that the code and its specification share are pinned by
results that write every number and text out: `MachineCode.StepRunsAs` and `WiresRunAs` for
instructions, `AddressMap.WriteMap` and `ReadMap` for registers of the control module,
`Serial.EveryLine` for commands and replies, `TestRun.LoadedState` and `PassesIff` for tests.

The reference step decodes by inverting the encoder: `IsaStep(a)` executes an
instruction `i` with `Encode(i)` equal to the fetched word.  `Abs` is the
architectural state of the machine in any clock; between the memory's performing
of a store and the store's NEXT_PC transaction it already shows pc + 4.  `Defined`
says that the fetched word is a legal instruction whose load, if it is one, is
naturally aligned, or has an opcode the core does not know.

Run lemmas start from invariants that hold out of reset (`Refinement.ResetRefines`,
`Handshakes.ResetIsQuiet`, `CmAndCore.ChipStarts`).  Two concrete slaves show that
what they ask of the memory can be met: a memory that answers at once is legal and
prompt in every access of a session (`Session.EagerServed`), and so is the mock in every
run inside its two halves (`Bench.RunInStep`, which requires `Bench.InRangeRun`).

The chip behind the serial line is stated in two stages.  `Session.IsChip` says that
the host's bus is the composed core and control module, where the `Environment` chooses
for each access, from everything before it, the delays of the bus master and all that
memory and latches do until the next access.  `Board.ChipIsBoard` reduces this to
`Board.IsBoard`, from which the firmware and client results follow.

Where an output is an inferred latch in the Verilog, its held value is an
arbitrary input of every clock (`Held`), so nothing depends on it unproved.

The model follows the code where documentation differs or a reader may expect otherwise:

- JALR keeps bit 0 of its target (`Datapath.JalrTarget`).
- START, STOP, STEP and PC writes act even when a partial strobe makes their
  response SLVERR (`Transactions.WriteActs`), and START and STOP are answered
  SLVERR when read, because the case label that lists them is a bitwise or
  (`SocControl.ReadLabelIsStep`).
- A PC write takes effect only while the core is stalled, and a STEP issued while
  an instruction is in flight starts nothing unless that instruction is just
  retiring (`RegisterAccess.IdleWrite`, `CmAndCore.StepStartsIff`).
- The mock memory selects the half it writes in the data clock, when the arbiter no
  longer drives the address.  `MockRefines.StoreExact` and
  `MockRuns.LandsForAllContents` say exactly which stores survive this;
  `MockRuns.StrayStore` is one that does not.
- `FAULT_REG 0` and `SET_REG 0` are answered OK by the firmware although the bus
  answers SLVERR (`Firmware.FaultInjected`).
- `PROTOCOL_VERSION` is answered `OK 0x00000001`, where docs/uart_protocol.md
  says `OK 1`.

## Model

| member | source | states |
|---|---|---|
| Decode.DecodesR | tb_utils/rv32i/bitops.py:17-24 | R-type words: whatever registers and functs are packed, the decoder returns them and a zero immediate |
| Decode.DecodesI | tb_utils/rv32i/bitops.py:27-32 | I-type words, every 12-bit signed immediate: register fields, funct3 and sign-extended immediate come back; func7 only for shift-immediates |
| Decode.DecodesS | tb_utils/rv32i/bitops.py:35-49 | S-type words: the immediate split over two fields comes back sign-extended |
| Decode.DecodesB | tb_utils/rv32i/bitops.py:52-70 | B-type words: every even 13-bit offset survives the scrambled layout |
| Decode.DecodesU | tb_utils/rv32i/bitops.py:73-78 | U-type words, every integer immediate, negative ones included: its upper 20 bits cut to 32 bits come back, all other fields read 0 |
| Decode.DecodesJ | tb_utils/rv32i/bitops.py:81-97 | J-type words: every even 21-bit offset survives the scrambled layout |
| Decode.Slices | cores/rv32i/src/hdl/instruction_decode.v:45-50 | slicing a word recovers six fields laid side by side, for all field values |
| Encoding.LayoutS | tb_utils/rv32i/bitops.py:35-49 | the or-ed fields of an S-type word do not overlap: the word is their weighted sum |
| Encoding.LayoutB | tb_utils/rv32i/bitops.py:52-70 | the same for the six pieces of a B-type word |
| Encoding.LayoutJ | tb_utils/rv32i/bitops.py:81-97 | the same for the six pieces of a J-type word |
| Alu.SraIsFloorDivision | cores/rv32i/src/hdl/alu.v:39-67 | the sign-filling right shift is floor division of the signed value by a power of two |
| Alu.AluComputesOp | cores/rv32i/src/hdl/alu.v:39-67 | for every operation and all operands the ALU result is the two's-complement meaning (SUB modulo 2^32, SLT as integer order, shifts by the low five bits) |
| Alu.AluDecidesBranch | cores/rv32i/src/hdl/alu.v:39-69 | the branch bit is set exactly when the signed or unsigned comparison of the operands holds |
| ByteLanes.MaskLanes | cores/rv32i/src/hdl/byte_reader.v:40-47 | the four-iteration loop keeps exactly the lanes of the mask |
| ByteLanes.EnableIffAligned | cores/rv32i/src/hdl/load_store_decoder.v:36-90 | the strobe is non-zero exactly for naturally aligned addresses |
| ByteLanes.StoreLanes | cores/rv32i/src/hdl/load_store_decoder.v:36-90 | an aligned SB/SH/SW changes exactly the addressed bytes, to the little-endian low bytes of the register, whatever an inferred latch holds |
| ByteLanes.LoadLanes | cores/rv32i/src/hdl/byte_reader.v:38-82 | an aligned LB/LBU/LH/LHU/LW returns the addressed bytes, zero- or sign-extended |
| ByteLanes.StoreThenLoad | cores/rv32i/src/hdl/byte_reader.v:38-82 | storing through the decoder and loading through mask, shift and extension gives the truncated value, zero- or sign-extended, whatever inferred latches hold |
| ByteLanes.StoreElsewhere | cores/rv32i/src/hdl/load_store_decoder.v:36-90 | through the decoder a store changes no byte outside its addresses, and a misaligned store changes nothing at all |
| RegisterFile.OneRegisterChanges | cores/rv32i/src/hdl/register_file.v:60-90 | in one clock at most one register changes: the first enabled of core, external and fault port that does not address x0 lands, and nothing changes if there is none |
| RegisterFile.RegFile.Clock | cores/rv32i/src/hdl/register_file.v:70-100 | one edge: the highest-priority enabled writer with a non-zero address writes, the extra read port samples the value from before |
| RegisterFile.RegFile.Reset | cores/rv32i/src/hdl/register_file.v:70-77 | the reset loop clears all 31 stored registers |
| Firmware.InjectBits | cores/rv32i/src/hdl/fault_injector.v:13-19 | bit by bit, the four modes replace, flip, set or clear where the mask has a one |
| Datapath.DatapathExecutes | riscv.md:7-17 | for every legal instruction but stores, decoding the built word and settling ALU, load path and multiplexers gives the reference pc, register write and memory; ADDI never subtracts whatever its upper immediate bits |
| Datapath.DatapathStores | cores/rv32i/src/hdl/riscv_cpu.v:308-346 | for every legal store the strobed beat performs the reference memory update and the pc advances by four |
| Datapath.JalrTarget | cores/rv32i/src/hdl/riscv_cpu.v:335-346 | JALR keeps bit 0 of its target, so it meets section 2.5 of the Unprivileged ISA if and only if base plus offset is even |
| MachineCode.KnownIffEncodes | cores/rv32i/src/hdl/instruction_decode.v:30-120 | the words with a meaning, given by literal opcode, funct3 and funct7, are exactly the encodings of legal instructions, and the instruction read off the bits is the one encoded |
| MachineCode.StepRunsAs | riscv.md:7-17 | for every state: the reference machine is defined exactly on those words (loads aligned) and on the words of no known opcode, and its step is what a table over literal bit fields says of pc, rd and memory, independent of builders, decoder and reference |
| MachineCode.WiresRunAs | cores/rv32i/src/hdl/riscv_cpu.v:278-346 | the core's wires agree with that table for every such word: pc + 4, link, branch and jump target, every ALU result bit by bit, loaded value, stored bytes |
| MachineCode.OneOutcome | riscv.md:7-17 | the table leaves nothing open: a word and a state have one outcome in pc, registers and every byte of memory |
| MachineCode.PcAdvances | cores/rv32i/src/hdl/riscv_cpu.v:330-346 | unless it jumps or takes a branch, every instruction, unknown opcodes included, moves the pc by 4 modulo 2^32, and JAL and JALR leave that value in rd |
| MachineCode.StepsRunAs | riscv.md:7-17 | every step of an n-step run of the reference machine is a row of the table |
| Arbiter.MemoryArbiter.Clock | cores/rv32i/src/hdl/memory_arbiter.v:64-94 | one edge of the arbiter takes its registers to the specified next state |
| Core.RiscvCpu.Clock | cores/rv32i/src/hdl/riscv_cpu.v:112-204 | one edge of the core, all blocks reading the old values, takes register file, arbiter and core registers to the specified next state |
| Core.RiscvCpu.Settle | cores/rv32i/src/hdl/riscv_cpu.v:278-346 | the combinational blocks, evaluated in order, give the specified wires |
| SocControl.SocControlModule.Clock | cores/rv32i/src/hdl/soc_control.v:103-391 | one edge of the control module takes its registers to the specified next state |
| SocControl.ReadLabelIsStep | cores/rv32i/src/hdl/soc_control.v:324 | the or-ed case label equals the STEP address, so START and STOP are not readable |
| Tokens.TokenStep | cores/rv32i/src/hdl/riscv_cpu.v:112-204 | for every input, one clock moves the single instruction token to exactly one place |
| Tokens.ExactlyOneToken | cores/rv32i/src/hdl/riscv_cpu.v:112-204 | in every reachable state, for all inputs, the token is in exactly one of seven places, and the stall latch is set exactly while the arbiter waits for ARREADY with a fetch |
| Refinement.RefinementStep | cores/rv32i/src/hdl/riscv_cpu.v:112-346 | against a slave with arbitrary delays, each clock either leaves the architectural state as the control module makes it or completes exactly one reference step on pc, 32 registers and memory |
| Refinement.RefinementRun | cores/rv32i/src/hdl/riscv_cpu.v:112-346 | every run replays on the reference machine, event by event, and keeps the invariant |
| Refinement.ResetRefines | cores/rv32i/src/hdl/riscv_cpu.v:119-123 | reset establishes the invariant with pc 0x1000 and zero registers |
| Refinement.NextPcIsStep | cores/rv32i/src/hdl/riscv_cpu.v:335-346 | a NEXT_PC transaction of any instruction but a store, unknown opcodes included, is the reference step |
| Refinement.WriteIsStep | cores/rv32i/src/hdl/load_store_decoder.v:36-90 | the memory write of a store is its reference step, misaligned stores included |
| Refinement.HeldDoesNotMatter | cores/rv32i/src/hdl/load_store_decoder.v:36-90 | what inferred latches hold reaches the bus only in lanes that are not strobed |
| Handshakes.LatchesKept | cores/rv32i/src/hdl/memory_arbiter.v:66-94 | the arbiter state always tells which requests the slave holds |
| Handshakes.ResponseLast | cores/rv32i/src/hdl/memory_arbiter.v:153-182 | BREADY is raised only after both the address and the data of the write were accepted |
| Handshakes.OwedConserved | cores/rv32i/src/hdl/riscv_cpu.v:112-142 | in every clock and for all control inputs, instructions released equal instructions retired plus the change in flight |
| Handshakes.RunBalanced | cores/rv32i/src/hdl/memory_arbiter.v:64-182 | over every run, for all control inputs: AR equals R plus outstanding, AW, W and stores each equal B plus outstanding, releases equal retirements plus in flight |
| Handshakes.BetweenBoundaries | cores/rv32i/src/hdl/memory_arbiter.v:64-182 | from one instruction boundary to another every store made exactly one AW, one W and one B handshake and every release retired once |
| Handshakes.ResetIsQuiet | cores/rv32i/src/hdl/memory_arbiter.v:92-93 | reset establishes the handshake invariant with nothing outstanding |
| Discipline.FetchOffer | cores/rv32i/src/hdl/memory_arbiter.v:105-119 | a fetch on offer stays on offer for all inputs, and its address changes if and only if a PC write to a different value lands meanwhile |
| Discipline.OfferKept | cores/rv32i/src/hdl/memory_arbiter.v:100-182 | in clocks without a disturbing write, VALID, addresses and WSTRB are kept until READY, and WDATA wherever a lane is strobed (sections A3.2.1 and A3.3.1 of ARM IHI 0022) |
| Discipline.OffersKeptOverRuns | cores/rv32i/src/hdl/memory_arbiter.v:100-182 | the same between all consecutive clocks of every such run, for any slave |
| Discipline.PayloadsKeptOverRuns | cores/rv32i/src/hdl/memory_arbiter.v:100-182 | with the inferred data latch keeping its value while nothing assigns it, every offer of every such run keeps all of its payload until READY, WDATA of unstrobed lanes included |
| Discipline.ArbiterInputsConstant | cores/rv32i/src/hdl/memory_arbiter.v:96-97 | the assumption stated there is discharged: from decode to retirement address, data, strobe and direction do not change, even when rd is a source |
| Progress.CoreRankFalls | cores/rv32i/src/hdl/memory_arbiter.v:64-94 | for any slave, every clock between instruction boundaries strictly lowers a measure over token position and remaining wait |
| Progress.ReachesBoundary | cores/rv32i/src/hdl/memory_arbiter.v:64-94 | with handshakes answered within D clocks the core is back between instructions within its rank |
| Progress.ReleasedRetires | cores/rv32i/src/hdl/riscv_cpu.v:112-142 | a released instruction retires, alone, within 9 * (D + 1) clocks, whatever the control inputs |
| Stepping.QuietRunSteps | cores/rv32i/src/hdl/riscv_cpu.v:112-346 | a run without external writes takes as many reference steps as it retires instructions |
| Stepping.ReleasedAreSteps | cores/rv32i/src/hdl/riscv_cpu.v:112-142 | between boundaries the state is the n-fold reference step, n being the instructions released |
| Stepping.Drains | cores/rv32i/src/hdl/riscv_cpu.v:112-142 | stalled for long enough, the core ends up and stays between instructions |
| Stepping.StoppedRun | cores/rv32i/src/hdl/riscv_cpu.v:112-142 | a stalled run finishes the instruction in flight, if any, and nothing else |
| Stepping.Frozen | cores/rv32i/src/hdl/riscv_cpu.v:112-142 | stalled between instructions, pc, registers and memory never change |
| Transactions.ReadOkExact | cores/rv32i/src/hdl/soc_control.v:235-243 | the read decoder accepts exactly the constructed register addresses and four control addresses |
| Transactions.WriteOkExact | cores/rv32i/src/hdl/soc_control.v:270-277 | the write decoder accepts exactly full-strobe writes to registers 1-31, fault addresses of registers 1-31 and four control addresses |
| Transactions.CmInvKept | cores/rv32i/src/hdl/soc_control.v:191-228 | the recorded success of an operation is that of the address and strobe latched for it |
| Transactions.ResponseExact | cores/rv32i/src/hdl/soc_control.v:126-156 | OKAY is answered if and only if the latched address and strobe are in the map; SLVERR reads return zero |
| Transactions.ResponseStable | cores/rv32i/src/hdl/soc_control.v:126-156 | response channel outputs do not change until accepted |
| Transactions.EnablesExact | cores/rv32i/src/hdl/soc_control.v:244-260 | each enable pulses exactly in the issue clock of the writes that name its target, with that register, mode and data |
| Transactions.OnePulse | cores/rv32i/src/hdl/soc_control.v:278-293 | at most one of register, fault and PC enable is raised at a time, none outside an issue clock |
| Transactions.CmRunBalanced | cores/rv32i/src/hdl/soc_control.v:103-124 | over every run each accepted read or write gets exactly one response, is issued once, and pulses at most once |
| Transactions.WriteActs | cores/rv32i/src/hdl/soc_control.v:342-384 | START, STOP and STEP act whatever the strobe, STEP lowers pc_stall for exactly one clock, and only the response tells a partial strobe |
| Transactions.OkayIffPulsed | cores/rv32i/src/hdl/soc_control.v:244-300 | a register or fault write is answered OKAY if and only if it pulsed its enable |
| CmAndCore.ChipStarts | cores/rv32i/src/hdl/soc_control.v:308-311 | out of reset the core is stalled and parked at the boot address |
| CmAndCore.CoreSideRuns | cores/rv32i/src/hdl/cm_and_core.v:70-149 | a run of the composition restricted to the core is a run of the core |
| CmAndCore.StepsRelease | cores/rv32i/src/hdl/soc_control.v:353-364 | STEPs issued while parked are matched one to one by released instructions |
| CmAndCore.StepsAreSteps | cores/rv32i/src/hdl/soc_control.v:342-366 | k STEPs, each issued while parked, give the k-fold reference step |
| CmAndCore.StaysFrozen | cores/rv32i/src/hdl/soc_control.v:342-366 | while parked with no command issued, pc, registers and memory stay as they are |
| CmAndCore.StopDrains | cores/rv32i/src/hdl/soc_control.v:349-352 | after STOP the core retires at most the instruction in flight and parks within the bound |
| CmAndCore.StartThenStop | cores/rv32i/src/hdl/soc_control.v:342-366 | any START, run and STOP lands on the n-fold reference step, n being the instructions released |
| CmAndCore.StepStartsIff | cores/rv32i/src/hdl/soc_control.v:353-364 | a STEP starts an instruction one clock later if and only if the core is parked or just retiring when it is issued |
| CmAndCore.SingleStep | cores/rv32i/src/hdl/riscv_cpu.v:112-142 | a STEP issued while parked retires exactly one instruction and parks again, for every memory delay, however much longer than the pulse |
| RegisterAccess.LatchedInRuns | cores/rv32i/src/hdl/soc_control.v:158-181 | over every run the module works on the request last accepted and on no other |
| RegisterAccess.ReadReturnsIssueValue | cores/rv32i/src/hdl/soc_control.v:205-260 | a read returns the value its address had in the issue clock, through two register stages, whatever happens meanwhile |
| RegisterAccess.IdleWrite | cores/rv32i/src/hdl/soc_control.v:244-300 | an issued write changes exactly the register, fault target or pc its address names on an idle core; a PC write needs pc_stall |
| RegisterAccess.WriteThenRead | cores/rv32i/src/hdl/soc_control.v:230-268 | a register written while parked reads back as written, x0 as zero |
| AddressMap.WriteMap | cores/rv32i/src/hdl/soc_control.v:244-384 | in literal addresses: 0x1004 lowers pc_stall, 0x1008 raises it, 0x100C lowers it for one clock, 0x1010 writes the pc, 0x2004 to 0x207C write registers, the four pages from 0x3000 fault them, nothing else acts, and exactly these are answered OKAY at full strobe |
| AddressMap.ReadMap | cores/rv32i/src/hdl/soc_control.v:205-260 | in literal addresses: 0x1000 reads pc_stall, 0x100C zero, 0x1010 the pc, 0x101C the debug vector, 0x2000 to 0x207C the registers; all else, 0x1004 and 0x1008 included, is SLVERR with zero |
| Firmware.BuiltAddresses | platforms/xilinx/include/control_definitions.h:53-71 | the or-ed address macros place their fields side by side for all operands, masked to mode and register width |
| Firmware.FirmwareAddressesDecode | platforms/xilinx/include/control_definitions.h:53-71 | addresses built by the firmware decode to the register and mode they were built from, at any 64 KiB base |
| Firmware.FaultInjected | platforms/xilinx/src/control_module.c:60-65 | fault injection end to end: on an idle core exactly that register changes by exactly that mode; x0 never changes and only then the answer is SLVERR |
| Firmware.MemoryFaultsAgree | platforms/xilinx/src/main.c:70-82 | the firmware's memory fault function is the register fault function, bit by bit |
| Commands.StartStopStepAct | platforms/xilinx/src/control_module.c:33-49 | START leaves pc_stall low, STOP high, STEP high after one low clock, each answered OKAY |
| Commands.SetRegActs | platforms/xilinx/src/control_module.c:9-12 | SET_REG changes exactly that register of an idle core and is answered OKAY unless it is x0 |
| Commands.SetPcActs | platforms/xilinx/src/control_module.c:21-24 | SET_PC changes exactly the pc of a parked core |
| Commands.GettersRead | platforms/xilinx/src/control_module.c:14-31 | GET_REG and GET_PC return the register or pc of the issue clock |
| Commands.FaultRegActs | platforms/xilinx/src/control_module.c:60-65 | FAULT_REG injects exactly its fault into exactly its register of an idle core |
| AddressMap.CommandAccesses | platforms/xilinx/src/control_module.c:9-65 | each command sends its one access to its literal offset from the base, and answers what it read |
| MockMemory.AxiMemoryMock.Clock | cores/rv32i/src/hdl/axi_memory_mock.v:69-145 | one edge of the mock, byte loop included, takes its arrays and flags to the specified next state |
| MockMemory.AxiMemoryMock.WriteBytes | cores/rv32i/src/hdl/axi_memory_mock.v:131-141 | the byte loop replaces exactly the strobed lanes of the addressed word |
| MockRefines.MockStep | cores/rv32i/src/hdl/axi_memory_mock.v:70-145 | one well-timed clock of the mock is one clock of an atomic word store on the address bits it decodes |
| MockRefines.ArbiterTiming | cores/rv32i/src/hdl/axi_memory_mock.v:40 | behind the arbiter a data clock is well timed if and only if the latched store address has bit 12 clear |
| MockRefines.StoreExact | cores/rv32i/src/hdl/axi_memory_mock.v:131-141 | behind the arbiter the data clock of a store is a clock of the atomic word store if and only if bit 12 of its address is clear or its strobed lanes are already in that word of both halves |
| MockRefines.MisdirectedStore | cores/rv32i/src/hdl/axi_memory_mock.v:137 | behind the arbiter every store is merged into the data half and leaves the instruction half untouched |
| MockRuns.ReadsReturnLastWrites | cores/rv32i/src/hdl/axi_memory_mock.v:70-145 | from reset, over every sequence of fetches, loads and stores of any addresses, the stores' with bit 12 clear, every word and every read answer is the bytes last strobed at that word index |
| MockRuns.LandsForAllContents | cores/rv32i/src/hdl/axi_memory_mock.v:131-141 | a store lands where it belongs whatever the memory holds if and only if bit 12 of its address is clear or it strobes no lane |
| MockRuns.StrayStore | cores/rv32i/src/hdl/axi_memory_mock.v:137 | a reachable failure: from reset, 1 stored at 0x1000 loads back as 0 |
| Bench.MockIsPrompt | cores/rv32i/src/hdl/axi_memory_mock.v:70-118 | behind the arbiter the mock keeps no handshake waiting for more than one clock |
| Bench.BenchExecutes | cores/rv32i/src/hdl/riscv_cpu.v:112-346 | between instructions the core on the mock, running a program inside the two halves, shows the n-fold reference step in pc, registers and memory |
| Bench.BenchStarts | cores/rv32i/src/hdl/axi_memory_mock.v:69-75 | out of reset, with any memory contents, core and mock are in step with the abstract slave |
| Bench.BenchReadsLastWrites | cores/rv32i/src/hdl/axi_memory_mock.v:70-145 | the core on the mock, whatever the program, as long as its stores have bit 12 clear: every word and read answer is what was last strobed there |
| Bench.BenchRetires | cores/rv32i/src/hdl/axi_memory_mock.v:70-145 | on the mock a released instruction retires, alone, within 18 clocks, whatever addresses the program uses |
| Text.NumeralRoundTrip | platforms/xilinx/src/main.c:68 | the value of a printed numeral is the number printed, in every base up to 16 |
| Serial.PrintedWord | platforms/xilinx/src/main.c:68 | a printed word is eight upper case hexadecimal digits with its value |
| Text.ParseHex | platforms/xilinx/src/main.c:40-54 | every natural number printed as 0x%08X is parsed back if it fits 32 bits and refused if not |
| Text.ParseDec | platforms/xilinx/src/main.c:40-54 | every 32-bit number printed in decimal is parsed back |
| Text.JoinRoundTrip | platforms/xilinx/src/main.c:56 | tokenising words joined by single spaces gives the words |
| Serial.SplitsAtBlanks | platforms/xilinx/src/main.c:56 | blanks and tabs separate tokens and no other character does |
| Serial.LinesEnd | platforms/xilinx/src/main.c:20-38 | a carriage return or a line feed ends a line and no other character does |
| Serial.NumeralsRead | platforms/xilinx/src/main.c:40-54 | every decimal, octal and hexadecimal numeral, in either case, after any white space and sign, is read as its value or, from 2^32 on, refused |
| Serial.DigitValues | platforms/xilinx/src/main.c:40-54 | digits of either case have the values they have in the C locale |
| Serial.OnlyNumerals | platforms/xilinx/src/main.c:40-54 | nothing but such numerals is read as a number |
| Uart.ReadLine | platforms/xilinx/src/main.c:20-38 | the buffer receives the longest prefix of the line that fits, terminated, and the result tells exactly whether it all fitted |
| Uart.Strtok.Next | platforms/xilinx/src/main.c:56 | each call returns the next token of the line and leaves the remaining ones, cutting the buffer in place |
| Console.Worker.Dispatch | platforms/xilinx/src/main.c:106-227 | replies and bus accesses are those of the one command the first token and its operands name, or one error and no access |
| Console.Worker.Serve | platforms/xilinx/src/main.c:92-228 | over every input stream the loop produces exactly the replies and accesses of its complete lines, in order |
| Console.OneReplyEach | platforms/xilinx/src/main.c:92-104 | exactly one reply for each line that is overlong or has a token, none for any other |
| Serial.EveryLine | platforms/xilinx/src/main.c:92-228 | every line in literal text and addresses: which of twelve commands it is, which operands are accepted, the accesses it makes and the exact text answered, each of eight errors included |
| Client.Understood | masterpc/src/masterpc/worker_interface.py:99-141 | for every call the client lets through, the firmware parses the same operation and operands, and refuses exactly addresses that are no 32-bit number |
| Serial.LetThrough | masterpc/src/masterpc/worker_interface.py:87-97 | the client lets through exactly registers 0 to 31, modes 0 to 3 and aligned addresses |
| Serial.RegisterFaultsTaken | masterpc/src/masterpc/worker_interface.py:133-136 | every one of the four faults of every register passes the client's checks and is taken by the firmware as meant |
| Serial.MemoryFaultsTaken | masterpc/src/masterpc/worker_interface.py:138-141 | and every one of every aligned word |
| Client.FitsBuffer | masterpc/src/masterpc/worker_interface.py:99-141 | every meaningful command fits the 160-byte line buffer |
| Client.Await | masterpc/src/masterpc/worker_interface.py:48-65 | the first reply line with anything on it decides the outcome; without one the call times out |
| Client.RepliesUnderstood | masterpc/src/masterpc/worker_interface.py:67-85 | every reply is read back as what it says: acknowledgement, the same 32-bit number, or rejection |
| Serial.RepliesRead | masterpc/src/masterpc/worker_interface.py:67-85 | every hexadecimal or decimal number after OK is read as its value, only OK itself is an acknowledgement, and all else is malformed |
| Serial.StripsEnds | masterpc/src/masterpc/worker_interface.py:55 | white space goes from both ends of a reply line, and from nowhere else |
| Client.Exchange | masterpc/src/masterpc/worker_interface.py:42-74 | a meaningful call is carried out exactly once and gets the one reply expected |
| Upload.WorkerInterface.WriteAll | masterpc/src/masterpc/worker_interface.py:146-147 | the writes sent are word i to base + 4i in order, stopping at the first address that cannot be sent |
| Upload.WorkerInterface.UploadWords | masterpc/src/masterpc/worker_interface.py:143-157 | over a worker that, while the upload lasts, returns the last word written, word i ends up at base + 4i, nothing else changes or is sent, and verification fails if and only if some word is no 32-bit value |
| Upload.FaultMemActs | platforms/xilinx/src/main.c:205-223 | FAULT_MEM replaces exactly that word by its faulted value |
| Upload.AgreesIff | masterpc/src/masterpc/worker_interface.py:149-157 | a verify read agrees with the word sent exactly when that word is a 32-bit value |
| Session.StepAccess | platforms/xilinx/src/control_module.c:33-37 | the host's STEP write to a parked chip, handshakes and all, takes it through exactly one reference step and back to parked, whatever the memory delay |
| Session.WriteAccess | platforms/xilinx/src/control_module.c:9-24 | the host's write of any address but STEP and START to a parked chip, whatever the delays of master and memory, has exactly that address's effect and leaves the chip parked |
| Session.WindowAnswer | platforms/xilinx/src/control_module.c:14-31 | the response the host takes to a read, however late, is the value its address has in a parked chip with the same architectural state |
| Session.EagerServed | cores/rv32i/src/hdl/memory_arbiter.v:64-94 | a memory that answers at once meets every promise asked of the memory in a session |
| Session.SomeWorker | cores/rv32i/src/hdl/cm_and_core.v:70-149 | out of reset, with any memory and any delays of the master, there is a bus that is the chip, host writes to memory included, and a memory that serves it |
| Board.ChipAccess | cores/rv32i/src/hdl/cm_and_core.v:70-149 | one access of the host to a ready chip, to the control module or to memory, is one step of the access-level machine, and the chip is ready again |
| Board.ChipObeys | cores/rv32i/src/hdl/cm_and_core.v:70-149 | the same for every sequence of accesses that starts nothing by START and steps over no undefined instruction |
| Board.ChipIsBoard | cores/rv32i/src/hdl/cm_and_core.v:70-149 | after every such sequence every read of memory, pc or register answers the state those accesses have made, so the chip and the access-level machine cannot be told apart |
| Board.PutWordsRead | masterpc/src/masterpc/worker_interface.py:146-147 | after an upload word i reads back at base + 4i, cut to 32 bits, and every other aligned word as before |
| Board.BoardIsFaithful | masterpc/src/masterpc/worker_interface.py:143-157 | at any moment of a session such a worker is a faithful memory for the next upload |
| Protocol.CommandActs | platforms/xilinx/src/main.c:106-227 | every firmware command but START, on every state it suits, has the effect its name says on pc, registers and memory of the reference machine, gives the right reply, and does nothing else |
| Protocol.TalkActs | platforms/xilinx/src/main.c:92-228 | the same for whole conversations, with refused, blank and overlong lines |
| Protocol.TalkOnChip | platforms/xilinx/src/main.c:92-228 | from characters to clocks: for every input the firmware over the chip replies as the reference machine would and leaves the chip parked in that machine's state, for any delays of master and memory |
| TestRun.TestSession.StepToSelfJump | masterpc/src/masterpc/execute_tests.py:67-74 | the loop sends as many STEPs as there are instructions before the first jump-to-self, the first misaligned pc or the limit, and leaves the worker that many reference steps on |
| TestRun.EndsOnce | masterpc/src/masterpc/execute_tests.py:67-74 | number of steps and outcome are determined by the loaded state |
| TestRun.EndsAtSelfJump | masterpc/src/masterpc/execute_tests.py:67-74 | a loop that ends well has the state of the reference machine at its jump-to-self, whichever of its visits within the limit is looked at |
| TestRun.TestSession.LoadWords | masterpc/src/masterpc/worker_interface.py:143-157 | an upload to a stopped worker makes its memory the uploaded one and keeps pc and registers, and fails verification if and only if some word is no 32-bit value |
| TestRun.LoadedState | masterpc/src/masterpc/execute_tests.py:52-65 | a test starts at 0x4000_1000 with zero registers and, word by word from 0x4000_0000, its data over its program over zeros over what was there |
| TestRun.TestSession.ExecuteTestCase | masterpc/src/masterpc/execute_tests.py:31-88 | clearing, uploading, SET_PC, stepping and comparing compose: the worker runs the loaded program as the reference machine does, and the report names exactly the registers and words that are not as expected |
| TestRun.PassesIff | masterpc/src/masterpc/execute_tests.py:7-14 | a test reports nothing if and only if every register and word of the reference machine at its jump-to-self equals what is expected or that plus 0x40000000 modulo 2^32 |
| TestRun.TestChip | masterpc/src/masterpc/execute_tests.py:31-88 | the whole test case on the chip itself, from any ready state and any memory contents: the chip ends parked in the reference machine's state |
| TestRun.SomeSession | masterpc/src/masterpc/execute_tests.py:31-37 | out of reset, for every memory, base and delay of the master, there is a worker these sessions apply to |
| TestRun.StaysAtSelfJump | masterpc/src/masterpc/execute_tests.py:71-73 | beyond a jump-to-self the reference machine does not move |

## Left out

- Refinement.RefinementRun: promises the reference step only while the control module makes no register or fault write after the fetch and no PC write after the release of an instruction, and only for programs whose loads are naturally aligned; the core promises nothing there either.
- Discipline.OffersKeptOverRuns: promises a stable fetch address only without a PC write during the wait; FetchOffer says exactly when it moves.
- Progress.ReleasedRetires: the bound counts clocks in which a raised handshake goes unanswered; a slave that never answers is not excluded by the code and has no bound.
- Bench.BenchExecutes: needs fetches and loads below 0x2000 and stores below 0x1000, because beyond them the mock folds addresses that the reference machine keeps apart; ReadsReturnLastWrites and BenchRetires cover all addresses.
- MockRuns.ReadsReturnLastWrites: covers runs whose stores all have bit 12 clear; StoreExact says of any other store exactly when it does no harm.
- Discipline.OfferKept: lets the inferred data latch hold any value in any clock, and so does not promise WDATA of a beat that strobes no lane; PayloadsKeptOverRuns promises it with the latch as the register it is inferred to be.
- RegisterAccess.IdleWrite: says what a write does to a core between instructions; a write in flight may lose to the core's own write-back, as RegFile.Clock states.
- Upload.WorkerInterface.UploadWords: assumes a bus that, while the upload lasts, returns the last word written to the addresses of the upload; BoardIsFaithful discharges this for a stopped worker, but a core running meanwhile could overwrite them.
- Protocol.CommandActs: excludes START, after which the state depends on how long the core runs; StartThenStop says which states a START and a STOP can lead to.
- Session.IsChip: speaks of the host's accesses to the control module and to one block of memory; the host writes memory directly and only between its other accesses, and what else hangs on its bus is not modelled.
- TestRun.TestSession.ExecuteTestCase: requires the test's words to lie in that memory, beside the control module's addresses, and every instruction the loop runs to be defined; the files are given as lists of numbers, and a difference is reported by its index instead of being printed.
- Client.RepliesUnderstood: of `int(text, 0)` only hexadecimal and decimal numerals without sign or underscore, and of `split()` only blanks and tabs, are modelled; the firmware prints nothing else.
- Text.ParseHex: `strtoul`, `strtok`, `xil_printf` and Python formatting are modelled from their standards; their sources are not part of this model.
- Console.Worker.Serve: the bus is a function of the accesses made so far; cache flushes and bus aborts are not modelled.
- Reset is a state, not an event: asynchronous reset timing and Verilog X values.
- AXI PROT signals and the read and write responses of the memory, which the core ignores.
- The contents of the debug vector, which enters the control module as an arbitrary word.
- Serial port, timeouts, verbose output and file reading of the Python client, including `read_words_from_text`.
- `get_alu_ctrl` and `to_32b` of tb_utils/rv32i/bitops.py and the test benches that use them.
- The `RESET` commands of docs/uart_protocol.md, which the firmware does not implement.
- Build scripts, block designs, program files and the comparison of two workers.
