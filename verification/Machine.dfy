/**
 * The core against an adversarial AXI4-Lite memory slave.
 *
 * The slave raises its READY, RVALID and BVALID lines whenever it likes, and
 * performs an accepted write at any moment before it answers.  It does return the
 * addressed word of its memory, apply exactly the strobed bytes, and never answers
 * a request it has not accepted.
 */
module Machine {
  import opened Wrappers
  import opened Words
  import opened Isa
  import opened ByteLanes
  import opened Arbiter
  import opened Core

  datatype Beat = Beat(data: Word, strobe: Strobe)

  datatype Slave = Slave(
    mem: Memory,
    reading: Option<Word>,      // accepted read address, not yet answered
    writeAddr: Option<Word>,    // accepted write address
    writeBeat: Option<Beat>,    // accepted write data
    committed: bool)            // the write has been performed, not yet answered

  /** The slave's free choices in one clock. */
  datatype Moves = Moves(arready: bool, rvalid: bool, awready: bool, wready: bool, bvalid: bool, commit: bool)

  predicate SlaveLegal(s: Slave, mv: Moves) {
    && (mv.rvalid ==> s.reading.Some?)
    && (mv.bvalid ==> s.committed)
  }

  function Signals(s: Slave, mv: Moves): FromSlave {
    FromSlave(mv.arready, mv.rvalid, if s.reading.Some? then ReadWord(s.mem, s.reading.value) else 0,
              mv.awready, mv.wready, mv.bvalid)
  }

  function AddrLatch(s: Slave, b: ToSlave, mv: Moves): Option<Word> {
    if b.awvalid && mv.awready then Some(b.awaddr) else s.writeAddr
  }

  function BeatLatch(s: Slave, b: ToSlave, mv: Moves): Option<Beat> {
    if b.wvalid && mv.wready then Some(Beat(b.wdata, b.wstrb)) else s.writeBeat
  }

  /** The write is performed, at the earliest with the second of its two handshakes. */
  predicate Performs(s: Slave, b: ToSlave, mv: Moves) {
    mv.commit && !s.committed && AddrLatch(s, b, mv).Some? && BeatLatch(s, b, mv).Some?
  }

  predicate Answered(b: ToSlave, mv: Moves) {
    mv.bvalid && b.bready
  }

  function MemNext(s: Slave, b: ToSlave, mv: Moves): Memory {
    if Performs(s, b, mv) then
      WriteWord(s.mem, AddrLatch(s, b, mv).value, BeatLatch(s, b, mv).value.data, BeatLatch(s, b, mv).value.strobe)
    else s.mem
  }

  /** The slave's handshakes, with the memory it ends up with given. */
  function SlaveStep(s: Slave, b: ToSlave, mv: Moves, m: Memory): Slave {
    Slave(
      m,
      if b.arvalid && mv.arready then Some(b.araddr) else if mv.rvalid && b.rready then None else s.reading,
      if Answered(b, mv) then None else AddrLatch(s, b, mv),
      if Answered(b, mv) then None else BeatLatch(s, b, mv),
      !Answered(b, mv) && (s.committed || Performs(s, b, mv)))
  }

  function SlaveNext(s: Slave, b: ToSlave, mv: Moves): Slave {
    SlaveStep(s, b, mv, MemNext(s, b, mv))
  }

  datatype Sys = Sys(core: CoreRegs, slave: Slave)

  datatype SysIn = SysIn(mv: Moves, cm: Control, held: Held)

  function CoreInput(s: Sys, i: SysIn): CoreIn {
    CoreIn(Signals(s.slave, i.mv), i.cm, i.held)
  }

  /** What the core drives onto the memory bus in this clock. */
  function SysBus(s: Sys, i: SysIn): ToSlave {
    BusOf(s.core, CoreInput(s, i))
  }

  function SysNext(s: Sys, i: SysIn): Sys {
    Sys(CoreNext(s.core, CoreInput(s, i)), SlaveNext(s.slave, SysBus(s, i), i.mv))
  }

  function ResetSys(m: Memory): Sys {
    Sys(RESET_CORE, Slave(m, None, None, None, false))
  }

  function Run(s: Sys, inputs: seq<SysIn>): Sys
    decreases |inputs|
  {
    if inputs == [] then s else Run(SysNext(s, inputs[0]), inputs[1..])
  }
}
