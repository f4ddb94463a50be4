/** Exactly one instruction token circulates in the core, whatever its inputs do. */
module Tokens {
  import opened Words
  import opened Encoding
  import opened Decode
  import opened Arbiter
  import opened Core

  predicate UsesMem(instruction: Word) {
    instruction % 0x80 == OPCODE_LOAD || instruction % 0x80 == OPCODE_STORE
  }

  predicate IsStore(instruction: Word) {
    instruction % 0x80 == OPCODE_STORE
  }

  lemma DecodedMem(instruction: Word)
    ensures DecodeWord(instruction).useMem == UsesMem(instruction)
    ensures DecodeWord(instruction).memIsWrite == IsStore(instruction)
  {
  }

  predicate Loading(st: ArbState) {
    st == L_WAIT_ARREADY || st == L_DATA
  }

  predicate Storing(st: ArbState) {
    st == S_WAIT_BOTH || st == S_WAIT_AWREADY || st == S_WAIT_WREADY || st == S_RESP
  }

  /** The seven places the token can be. */
  datatype Place = RELEASE | FETCH | DECODED | ALU_RESULT | MEMORY | MEM_RESULT | NEXT_PC

  predicate At(c: CoreRegs, p: Place) {
    match p
    case RELEASE => c.releasePending
    case FETCH => c.arb.state == PC_DATA
    case DECODED => c.decodedValid
    case ALU_RESULT => c.aluResultValid
    case MEMORY => Loading(c.arb.state) || Storing(c.arb.state)
    case MEM_RESULT => c.arb.resultValid
    case NEXT_PC => c.nextPcValid
  }

  /** The token is at p and nowhere else. */
  predicate OnlyAt(c: CoreRegs, p: Place) {
    && (At(c, RELEASE) <==> p == RELEASE)
    && (At(c, FETCH) <==> p == FETCH)
    && (At(c, DECODED) <==> p == DECODED)
    && (At(c, ALU_RESULT) <==> p == ALU_RESULT)
    && (At(c, MEMORY) <==> p == MEMORY)
    && (At(c, MEM_RESULT) <==> p == MEM_RESULT)
    && (At(c, NEXT_PC) <==> p == NEXT_PC)
  }

  function PlaceOf(c: CoreRegs): Place {
    if c.releasePending then RELEASE
    else if c.arb.state == PC_DATA then FETCH
    else if c.decodedValid then DECODED
    else if c.aluResultValid then ALU_RESULT
    else if c.arb.resultValid then MEM_RESULT
    else if c.nextPcValid then NEXT_PC
    else MEMORY
  }

  ghost predicate TokenInv(c: CoreRegs) {
    TokenInvFor(c, UsesMem(c.instruction), IsStore(c.instruction))
  }

  /** The token is in one place, and that place suits the kind of instruction it carries. */
  ghost predicate TokenInvFor(c: CoreRegs, usesMem: bool, isStore: bool) {
    && OnlyAt(c, PlaceOf(c))
    && (c.stallReleased <==> c.arb.state == PC_WAIT_ARREADY)
    && (c.stallReleased ==> c.releasePending)
    && (c.aluResultValid ==> !usesMem)
    && (Loading(c.arb.state) ==> usesMem && !isStore)
    && (Storing(c.arb.state) ==> usesMem && isStore)
    && (c.arb.resultValid ==> usesMem)
  }

  /** Where one clock moves the token. */
  function PlaceNext(c: CoreRegs, i: CoreIn): Place {
    match PlaceOf(c)
    case RELEASE => if (!i.cm.pcStall || c.stallReleased) && i.slave.arready then FETCH else RELEASE
    case FETCH => if i.slave.rvalid then DECODED else FETCH
    case DECODED => if UsesMem(c.instruction) then MEMORY else ALU_RESULT
    case ALU_RESULT => NEXT_PC
    case MEMORY =>
      if (c.arb.state == L_DATA && i.slave.rvalid) || (c.arb.state == S_RESP && i.slave.bvalid) then MEM_RESULT
      else MEMORY
    case MEM_RESULT => NEXT_PC
    case NEXT_PC => RELEASE
  }

  lemma ResetHasToken()
    ensures TokenInv(RESET_CORE) && PlaceOf(RESET_CORE) == RELEASE
  {
  }

  /** One clock, for every input: the token moves to exactly one place. */
  lemma TokenStep(c: CoreRegs, i: CoreIn)
    requires TokenInv(c)
    ensures TokenInv(CoreNext(c, i)) && PlaceOf(CoreNext(c, i)) == PlaceNext(c, i)
  {
    var n := CoreNext(c, i);
    DecodedMem(c.instruction);
    TokenAdvance(c, i, WiresOf(c, i.held), UsesMem(c.instruction), IsStore(c.instruction),
                 UsesMem(n.instruction), IsStore(n.instruction));
  }

  lemma TokenAdvance(c: CoreRegs, i: CoreIn, w: Wires, usesMem: bool, isStore: bool, usesMem': bool, isStore': bool)
    requires TokenInvFor(c, usesMem, isStore)
    requires w.d.useMem == usesMem && w.d.memIsWrite == isStore && usesMem == UsesMem(c.instruction)
    requires Advance(c, i, w).instruction == c.instruction ==> usesMem' == usesMem && isStore' == isStore
    ensures
      var n := Advance(c, i, w);
      TokenInvFor(n, usesMem', isStore') && PlaceOf(n) == PlaceNext(c, i)
  {
  }

  // ----- Every run from reset -----

  function Clocks(c: CoreRegs, inputs: seq<CoreIn>): CoreRegs
    decreases |inputs|
  {
    if inputs == [] then c else Clocks(CoreNext(c, inputs[0]), inputs[1..])
  }

  /** In every reachable state, for all inputs, there is exactly one token. */
  lemma {:induction false} ExactlyOneToken(c: CoreRegs, inputs: seq<CoreIn>)
    requires TokenInv(c)
    ensures TokenInv(Clocks(c, inputs))
    ensures exists p :: OnlyAt(Clocks(c, inputs), p)
    ensures Clocks(c, inputs).stallReleased <==> Clocks(c, inputs).arb.state == PC_WAIT_ARREADY
    decreases |inputs|
  {
    if inputs == [] {
      assert OnlyAt(c, PlaceOf(c));
    } else {
      TokenStep(c, inputs[0]);
      ExactlyOneToken(CoreNext(c, inputs[0]), inputs[1..]);
    }
  }
}
