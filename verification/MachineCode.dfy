/**
 * The instruction set as a table of 32-bit words, every bit position, opcode and
 * constant written out: which words are instructions, which instruction each one is,
 * and what it does to pc, registers and memory.  Nothing in the table is shared with the
 * builders, the decoder or the reference machine, and all three are proved to agree with it.
 */
module MachineCode {
  import opened Words
  import opened Isa
  import opened Encoding
  import opened Decode
  import opened Alu
  import opened ByteLanes
  import opened Core
  import opened Datapath
  import opened Refinement
  import opened Stepping

  // ----- Fields of a word -----

  function Rd(w: Word): RegIndex {
    w / 0x80 % 0x20
  }

  function F3(w: Word): (f: nat)
    ensures f < 8
  {
    w / 0x1000 % 8
  }

  function Rs1(w: Word): RegIndex {
    w / 0x8000 % 0x20
  }

  function Rs2(w: Word): RegIndex {
    w / 0x10_0000 % 0x20
  }

  function F7(w: Word): (f: nat)
    ensures f < 0x80
  {
    w / 0x200_0000
  }

  function OffsetI(w: Word): int {
    w / 0x10_0000 - w / 0x8000_0000 * 0x1000
  }

  function OffsetS(w: Word): int {
    w / 0x200_0000 * 0x20 + w / 0x80 % 0x20 - w / 0x8000_0000 * 0x1000
  }

  function OffsetB(w: Word): int {
    w / 0x80 % 2 * 0x800 + w / 0x200_0000 % 0x40 * 0x20 + w / 0x100 % 0x10 * 2 - w / 0x8000_0000 * 0x1000
  }

  function OffsetJ(w: Word): int {
    w / 0x1000 % 0x100 * 0x1000 + w / 0x10_0000 % 2 * 0x800 + w / 0x20_0000 % 0x400 * 2 - w / 0x8000_0000 * 0x10_0000
  }

  // ----- Which words are instructions, and which ones -----

  /** The words with a meaning. */
  predicate Known(w: Word) {
    match w % 0x80
    case 0x37 => true
    case 0x17 => true
    case 0x6F => true
    case 0x67 => F3(w) == 0
    case 0x63 => F3(w) != 2 && F3(w) != 3
    case 0x03 => F3(w) != 3 && F3(w) < 6
    case 0x23 => F3(w) < 3
    case 0x13 => (F3(w) == 1 ==> F7(w) == 0) && (F3(w) == 5 ==> F7(w) == 0 || F7(w) == 0x20)
    case 0x33 => F7(w) == 0 || (F7(w) == 0x20 && (F3(w) == 0 || F3(w) == 5))
    case _ => false
  }

  /** The words passed over: those of no opcode the core knows. */
  predicate Foreign(w: Word) {
    w % 0x80 !in {0x03, 0x13, 0x17, 0x23, 0x33, 0x37, 0x63, 0x67, 0x6F}
  }

  function OpAt(f7: nat, f3: nat): AluOp
    requires f3 < 8
  {
    match f3
    case 0 => if f7 == 0x20 then SUB else ADD
    case 1 => SLL
    case 2 => SLT
    case 3 => SLTU
    case 4 => XOR
    case 5 => if f7 == 0x20 then SRA else SRL
    case 6 => OR
    case 7 => AND
  }

  function CondAt(f3: nat): Cond {
    match f3
    case 0 => EQ
    case 1 => NE
    case 4 => LT
    case 5 => GE
    case 6 => LTU
    case _ => GEU
  }

  function WidthAt(f3: nat): Width {
    match f3 % 4
    case 0 => BYTE
    case 1 => HALF
    case _ => WORD
  }

  function Disassembled(w: Word): Instr
    requires Known(w)
  {
    match w % 0x80
    case 0x37 => Lui(Rd(w), w / 0x1000 * 0x1000)
    case 0x17 => Auipc(Rd(w), w / 0x1000 * 0x1000)
    case 0x6F => Jal(Rd(w), OffsetJ(w))
    case 0x67 => Jalr(Rd(w), Rs1(w), OffsetI(w))
    case 0x63 => Branch(CondAt(F3(w)), Rs1(w), Rs2(w), OffsetB(w))
    case 0x03 => Load(WidthAt(F3(w)), F3(w) >= 4, Rd(w), Rs1(w), OffsetI(w))
    case 0x23 => Store(WidthAt(F3(w)), Rs2(w), Rs1(w), OffsetS(w))
    case 0x13 =>
      if F3(w) == 1 || F3(w) == 5 then OpImm(OpAt(F7(w), F3(w)), Rd(w), Rs1(w), Rs2(w))
      else OpImm(OpAt(0, F3(w)), Rd(w), Rs1(w), OffsetI(w))
    case 0x33 => Op(OpAt(F7(w), F3(w)), Rd(w), Rs1(w), Rs2(w))
  }

  // ----- What each word does -----

  /** xk of a state. */
  function X(a: Arch, k: RegIndex): Word {
    if k == 0 then 0 else a.regs[k - 1]
  }

  /** The state after: this pc, v in rd if rd is not x0, all else as before. */
  predicate Becomes(a: Arch, z: Arch, pc: int, rd: RegIndex, v: Word) {
    && z.pc == pc % 0x1_0000_0000 && z.mem == a.mem
    && forall k :: 0 <= k < 31 ==> z.regs[k] == if k + 1 == rd then v else a.regs[k]
  }

  /** The order of two's-complement values. */
  predicate Below(x: Word, y: Word) {
    (x + 0x8000_0000) % 0x1_0000_0000 < (y + 0x8000_0000) % 0x1_0000_0000
  }

  /** r is the result of the operation at these funct fields. */
  ghost predicate Computes(f7: nat, f3: nat, x: Word, y: Word, r: Word) {
    match f3
    case 0 => r == if f7 == 0x20 then (x - y) % 0x1_0000_0000 else (x + y) % 0x1_0000_0000
    case 1 => r == x * Pow2(y % 32) % 0x1_0000_0000
    case 2 => r == if Below(x, y) then 1 else 0
    case 3 => r == if x < y then 1 else 0
    case 4 => forall i: nat :: i < 32 ==> (Bit(r, i) <==> Bit(x, i) != Bit(y, i))
    case 5 =>
      r == if f7 == 0x20 && x >= 0x8000_0000 then 0xFFFF_FFFF - (0xFFFF_FFFF - x) / Pow2(y % 32) else x / Pow2(y % 32)
    case 6 => forall i: nat :: i < 32 ==> (Bit(r, i) <==> Bit(x, i) || Bit(y, i))
    case _ => forall i: nat :: i < 32 ==> (Bit(r, i) <==> Bit(x, i) && Bit(y, i))
  }

  ghost predicate ResultIn(a: Arch, z: Arch, f7: nat, f3: nat, x: Word, y: Word, rd: RegIndex) {
    exists r: Word :: Computes(f7, f3, x, y, r) && Becomes(a, z, a.pc + 4, rd, r)
  }

  predicate Taken(f3: nat, x: Word, y: Word) {
    match f3
    case 0 => x == y
    case 1 => x != y
    case 4 => Below(x, y)
    case 5 => !Below(x, y)
    case 6 => x < y
    case _ => x >= y
  }

  /** The value loaded from an address, by width and sign. */
  function Loads(m: Memory, f3: nat, at: Word): Word {
    var b0, b1, b2, b3 := ByteAt(m, at), ByteAt(m, at + 1), ByteAt(m, at + 2), ByteAt(m, at + 3);
    match f3
    case 0 => if b0 < 0x80 then b0 else b0 + 0xFFFF_FF00
    case 1 => if b1 < 0x80 then b0 + 0x100 * b1 else b0 + 0x100 * b1 + 0xFFFF_0000
    case 4 => b0
    case 5 => b0 + 0x100 * b1
    case _ => b0 + 0x100 * b1 + 0x1_0000 * b2 + 0x100_0000 * b3
  }

  /** Bytes of an access. */
  function SizeAt(f3: nat): (n: nat)
    ensures n > 0
  {
    match f3 % 4
    case 0 => 1
    case 1 => 2
    case _ => 4
  }

  /** The low n bytes of v lie at `at`, and every other byte is as before. */
  ghost predicate Stores(before: Memory, after: Memory, n: nat, at: Word, v: Word) {
    forall k: int :: ByteAt(after, k) ==
      if k == at then v % 0x100
      else if k == at + 1 && n >= 2 then v / 0x100 % 0x100
      else if k == at + 2 && n == 4 then v / 0x1_0000 % 0x100
      else if k == at + 3 && n == 4 then v / 0x100_0000
      else ByteAt(before, k)
  }

  function AddressI(w: Word, a: Arch): Word {
    (X(a, Rs1(w)) + OffsetI(w)) % 0x1_0000_0000
  }

  function AddressS(w: Word, a: Arch): Word {
    (X(a, Rs1(w)) + OffsetS(w)) % 0x1_0000_0000
  }

  /** A word that is no load from a misaligned address; of such a load nothing is said. */
  predicate Promised(w: Word, a: Arch) {
    w % 0x80 == 0x03 ==> AddressI(w, a) % SizeAt(F3(w)) == 0
  }

  /** The state after w is z. */
  ghost predicate RunsAs(w: Word, a: Arch, z: Arch) {
    match w % 0x80
    case 0x37 => Becomes(a, z, a.pc + 4, Rd(w), w / 0x1000 * 0x1000)
    case 0x17 => Becomes(a, z, a.pc + 4, Rd(w), (a.pc + w / 0x1000 * 0x1000) % 0x1_0000_0000)
    case 0x6F => Becomes(a, z, a.pc + OffsetJ(w), Rd(w), (a.pc + 4) % 0x1_0000_0000)
    case 0x67 => Becomes(a, z, X(a, Rs1(w)) + OffsetI(w), Rd(w), (a.pc + 4) % 0x1_0000_0000)
    case 0x63 => Becomes(a, z, a.pc + (if Taken(F3(w), X(a, Rs1(w)), X(a, Rs2(w))) then OffsetB(w) else 4), 0, 0)
    case 0x03 => Becomes(a, z, a.pc + 4, Rd(w), Loads(a.mem, F3(w), AddressI(w, a)))
    case 0x23 =>
      && z.pc == (a.pc + 4) % 0x1_0000_0000 && z.regs == a.regs
      && (if AddressS(w, a) % SizeAt(F3(w)) == 0 then
            Stores(a.mem, z.mem, SizeAt(F3(w)), AddressS(w, a), X(a, Rs2(w)))
          else z.mem == a.mem)
    case 0x13 =>
      var shift := F3(w) == 1 || F3(w) == 5;
      var y := if shift then Rs2(w) else OffsetI(w) % 0x1_0000_0000;
      ResultIn(a, z, if shift then F7(w) else 0, F3(w), X(a, Rs1(w)), y, Rd(w))
    case 0x33 => ResultIn(a, z, F7(w), F3(w), X(a, Rs1(w)), X(a, Rs2(w)), Rd(w))
    case _ => Becomes(a, z, a.pc + 4, 0, 0)
  }

  // ----- Words and instructions, one to one -----

  /** A word is its slices. */
  lemma SlicesSum(w: Word)
    ensures w == F7(w) * 0x200_0000 + Rs2(w) * 0x10_0000 + Rs1(w) * 0x8000 + F3(w) * 0x1000 + Rd(w) * 0x80 + w % 0x80
    ensures F7(w) / 0x40 == w / 0x8000_0000 && w / 0x10_0000 == F7(w) * 0x20 + Rs2(w)
  {
    assert w == w / 0x80 * 0x80 + w % 0x80;
    assert w / 0x80 == w / 0x1000 * 0x20 + Rd(w);
    assert w / 0x1000 == w / 0x8000 * 8 + F3(w);
    assert w / 0x8000 == w / 0x10_0000 * 0x20 + Rs1(w);
    assert w / 0x10_0000 == w / 0x200_0000 * 0x20 + Rs2(w);
  }

  lemma OffsetRanges(w: Word)
    ensures Imm12(OffsetI(w)) && OffsetI(w) % 0x1000 == F7(w) * 0x20 + Rs2(w) == w / 0x10_0000
    ensures Imm12(OffsetS(w)) && OffsetS(w) / 0x20 % 0x80 == F7(w) && OffsetS(w) % 0x20 == Rd(w)
  {
    SlicesSum(w);
    OffsetPieces(F7(w), Rs2(w), F7(w) * 0x20 + Rs2(w) - F7(w) / 0x40 * 0x1000);
    OffsetPieces(F7(w), Rd(w), F7(w) * 0x20 + Rd(w) - F7(w) / 0x40 * 0x1000);
  }

  lemma OffsetPieces(hi: nat, lo: nat, off: int)
    requires hi < 0x80 && lo < 0x20 && off == hi * 0x20 + lo - hi / 0x40 * 0x1000
    ensures Imm12(off) && off % 0x1000 == hi * 0x20 + lo && off / 0x20 % 0x80 == hi && off % 0x20 == lo
  {
    assert off / 0x20 == hi - hi / 0x40 * 0x80;
  }

  lemma RegisterForm(w: Word)
    requires Known(w) && w % 0x80 == 0x33
    ensures Encodes(w, Disassembled(w))
  {
    hide BuildR, Rd, F3, Rs1, Rs2, F7;
    SlicesSum(w);
    LayoutR(F7(w), Rs2(w), Rs1(w), F3(w), Rd(w), 0x33);
  }

  /** The I format: a word is built from its own offset, and from its upper twelve bits. */
  lemma BuiltI(w: Word)
    ensures BuildI(OffsetI(w), Rs1(w), F3(w), Rd(w), w % 0x80) == w
    ensures BuildI(F7(w) * 0x20 + Rs2(w), Rs1(w), F3(w), Rd(w), w % 0x80) == w
    ensures Imm12(OffsetI(w))
  {
    hide BuildI, Rd, F3, Rs1, Rs2, F7, OffsetI, Imm12;
    SlicesSum(w);
    OffsetRanges(w);
    var t := F7(w) * 0x20 + Rs2(w);
    BuiltFrom(OffsetI(w), t, Rs1(w), F3(w), Rd(w), w % 0x80, w);
    BuiltFrom(t, t, Rs1(w), F3(w), Rd(w), w % 0x80, w);
  }

  lemma BuiltFrom(off: int, t: nat, rs1: RegIndex, f3: nat, rd: RegIndex, opcode: nat, w: Word)
    requires off % 0x1000 == t && f3 < 8 && opcode < 0x80
    requires w == t * 0x10_0000 + rs1 * 0x8000 + f3 * 0x1000 + rd * 0x80 + opcode
    ensures BuildI(off, rs1, f3, rd, opcode) == w
  {
    hide BuildI;
    LayoutI(off, rs1, f3, rd, opcode);
  }

  lemma LoadForm(w: Word)
    requires Known(w) && w % 0x80 == 0x03
    ensures Encodes(w, Disassembled(w))
  {
    hide BuildI, Rd, F3, Rs1, Rs2, F7, OffsetI, Imm12, WidthAt, WidthFunct3, OpAt, AluFunct3, AluFunct7;
    BuiltI(w);
    WidthCode(F3(w));
  }

  lemma JumpRegisterForm(w: Word)
    requires Known(w) && w % 0x80 == 0x67
    ensures Encodes(w, Disassembled(w))
  {
    hide BuildI, Rd, F3, Rs1, Rs2, F7, OffsetI, Imm12, WidthAt, WidthFunct3, OpAt, AluFunct3, AluFunct7;
    BuiltI(w);
  }

  lemma ImmediateForm(w: Word)
    requires Known(w) && w % 0x80 == 0x13
    ensures Encodes(w, Disassembled(w))
  {
    hide BuildI, Rd, F3, Rs1, Rs2, F7, OffsetI, Imm12, WidthAt, WidthFunct3, OpAt, AluFunct3, AluFunct7;
    BuiltI(w);
    ImmediateCode(F7(w), F3(w));
  }

  /** The operation of funct fields is encoded by them. */
  lemma ImmediateCode(f7: nat, f3: nat)
    requires f3 < 8
    ensures AluFunct3(OpAt(0, f3)) == f3 && AluFunct7(OpAt(0, f3)) == 0 && OpAt(0, f3) != SUB
    ensures f3 == 1 ==> OpAt(f7, f3) == SLL && AluFunct3(SLL) == 1 && AluFunct7(SLL) == 0
    ensures f3 == 5 && f7 == 0 ==> OpAt(f7, f3) == SRL && AluFunct3(SRL) == 5 && AluFunct7(SRL) == 0
    ensures f3 == 5 && f7 == 0x20 ==> OpAt(f7, f3) == SRA && AluFunct3(SRA) == 5 && AluFunct7(SRA) == 0x20
    ensures f3 != 1 && f3 != 5 ==> OpAt(0, f3) !in {SLL, SRL, SRA}
  {
  }

  lemma StoreForm(w: Word)
    requires Known(w) && w % 0x80 == 0x23
    ensures Encodes(w, Disassembled(w))
  {
    hide BuildS, Rd, F3, F7, Rs1, Rs2, OffsetS, Imm12, WidthAt, WidthFunct3;
    SlicesSum(w);
    OffsetRanges(w);
    WidthCode(F3(w));
    LayoutS(OffsetS(w), Rs2(w), Rs1(w), F3(w), 0x23);
  }

  lemma WidthCode(f3: nat)
    requires f3 < 6 && f3 != 3
    ensures WidthFunct3(WidthAt(f3), f3 >= 4) == f3 && (f3 >= 4 ==> WidthAt(f3) != WORD)
  {
  }

  lemma UpperForm(w: Word)
    requires w % 0x80 == 0x37 || w % 0x80 == 0x17
    ensures Encodes(w, Disassembled(w))
  {
    hide BuildU, Rd;
    var top := w / 0x1000;
    assert w == top * 0x1000 + Rd(w) * 0x80 + w % 0x80 by { SlicesSum(w); TopSum(w); }
    assert top * 0x1000 / 0x1000 % 0x10_0000 == top;
    LayoutU(top * 0x1000, Rd(w), w % 0x80);
  }

  lemma TopSum(w: Word)
    ensures w == w / 0x1000 * 0x1000 + Rd(w) * 0x80 + w % 0x80
  {
    assert w == w / 0x80 * 0x80 + w % 0x80;
    assert w / 0x80 == w / 0x1000 * 0x20 + Rd(w);
  }

  /** A branch offset and its pieces. */
  lemma PiecesOfB(off: int, i12: nat, i11: nat, i10to5: nat, i4to1: nat)
    requires i12 < 2 && i11 < 2 && i10to5 < 0x40 && i4to1 < 0x10
    requires off == i11 * 0x800 + i10to5 * 0x20 + i4to1 * 2 - i12 * 0x1000
    ensures off / 0x800 % 2 == i11 && off / 0x20 % 0x40 == i10to5 && off / 2 % 0x10 == i4to1 && off / 0x1000 % 2 == i12
    ensures -4096 <= off < 4096 && off % 2 == 0
  {
    assert off / 2 == (i11 * 0x40 + i10to5 - i12 * 0x80) * 0x10 + i4to1;
    assert off / 0x20 == (i11 - i12 * 2) * 0x40 + i10to5;
    assert off / 0x800 == i11 - i12 * 2;
    assert off / 0x1000 == 0 - i12;
  }

  lemma SumOfB(w: Word)
    ensures w == w / 0x8000_0000 * 0x8000_0000 + w / 0x200_0000 % 0x40 * 0x200_0000 + Rs2(w) * 0x10_0000 + Rs1(w) * 0x8000
                 + F3(w) * 0x1000 + w / 0x100 % 0x10 * 0x100 + w / 0x80 % 2 * 0x80 + w % 0x80
  {
    hide Rd, F3, Rs1, Rs2;
    SlicesSum(w);
    RdHalves(w, w / 0x80, w / 0x100);
    SumOfBFor(F7(w) / 0x40, F7(w) % 0x40, Rs2(w), Rs1(w), F3(w), w / 0x100 % 0x10, w / 0x80 % 2, Rd(w));
  }

  lemma RdHalves(w: Word, v: nat, u: nat)
    requires v == w / 0x80 && u == w / 0x100
    ensures Rd(w) == u % 0x10 * 2 + v % 2
  {
    assert v == u * 2 + v % 2;
    assert v == u / 0x10 * 0x20 + (u % 0x10 * 2 + v % 2);
    QuotientUnique(v, u / 0x10, u % 0x10 * 2 + v % 2, 0x20);
  }

  lemma SumOfBFor(i12: nat, i10to5: nat, rs2: nat, rs1: nat, f3: nat, i4to1: nat, i11: nat, rd: nat)
    requires rd == i4to1 * 2 + i11
    ensures (i12 * 0x40 + i10to5) * 0x200_0000 + rs2 * 0x10_0000 + rs1 * 0x8000 + f3 * 0x1000 + rd * 0x80
         == i12 * 0x8000_0000 + i10to5 * 0x200_0000 + rs2 * 0x10_0000 + rs1 * 0x8000
            + f3 * 0x1000 + i4to1 * 0x100 + i11 * 0x80
  {
  }

  lemma BranchForm(w: Word)
    requires Known(w) && w % 0x80 == 0x63
    ensures Encodes(w, Disassembled(w))
  {
    hide BuildB, Rd, F3, Rs1, Rs2;
    SumOfB(w);
    PiecesOfB(OffsetB(w), w / 0x8000_0000, w / 0x80 % 2, w / 0x200_0000 % 0x40, w / 0x100 % 0x10);
    LayoutB(OffsetB(w), Rs2(w), Rs1(w), F3(w), 0x63);
  }

  lemma PiecesOfJ(off: int, i20: nat, i19to12: nat, i11: nat, i10to1: nat)
    requires i20 < 2 && i19to12 < 0x100 && i11 < 2 && i10to1 < 0x400
    requires off == i19to12 * 0x1000 + i11 * 0x800 + i10to1 * 2 - i20 * 0x10_0000
    ensures off / 0x1000 % 0x100 == i19to12 && off / 0x800 % 2 == i11 && off / 2 % 0x400 == i10to1
    ensures off / 0x10_0000 % 2 == i20 && -0x10_0000 <= off < 0x10_0000 && off % 2 == 0
  {
    var h, q := off / 2, off / 0x1000;
    assert h == (i19to12 * 2 + i11 - i20 * 0x200) * 0x400 + i10to1;
    QuotientUnique(h, i19to12 * 2 + i11 - i20 * 0x200, i10to1, 0x400);
    assert off / 0x800 == (i19to12 - i20 * 0x100) * 2 + i11;
    assert q == i19to12 - i20 * 0x100;
    QuotientUnique(q, 0 - i20, i19to12, 0x100);
    QuotientUnique(off, 0 - i20, off + i20 * 0x10_0000, 0x10_0000);
  }

  lemma SumOfJ(w: Word)
    ensures w == w / 0x8000_0000 * 0x8000_0000 + w / 0x20_0000 % 0x400 * 0x20_0000 + w / 0x10_0000 % 2 * 0x10_0000
                 + w / 0x1000 % 0x100 * 0x1000 + Rd(w) * 0x80 + w % 0x80
  {
    hide Rd;
    TopSum(w);
    TopOfJ(w, w / 0x1000, w / 0x10_0000, w / 0x20_0000);
  }

  lemma TopOfJ(w: Word, q: nat, r: nat, t: nat)
    requires q == w / 0x1000 && r == w / 0x10_0000 && t == w / 0x20_0000
    ensures q == r * 0x100 + q % 0x100 && r == t * 2 + r % 2 && t == w / 0x8000_0000 * 0x400 + t % 0x400
  {
    assert r == q / 0x100;
    assert t == r / 2;
    assert w / 0x8000_0000 == t / 0x400;
  }

  lemma JumpForm(w: Word)
    requires w % 0x80 == 0x6F
    ensures Encodes(w, Disassembled(w))
  {
    hide BuildJ, Rd;
    SumOfJ(w);
    PiecesOfJ(OffsetJ(w), w / 0x8000_0000, w / 0x1000 % 0x100, w / 0x10_0000 % 2, w / 0x20_0000 % 0x400);
    LayoutJ(OffsetJ(w), Rd(w), 0x6F);
  }

  /** Disassembling and encoding a known word gives it back. */
  lemma DisassembledEncodes(w: Word)
    requires Known(w)
    ensures Encodes(w, Disassembled(w))
  {
    hide Encodes, Disassembled, Rd, F3, Rs1, Rs2, F7;
    var opcode := w % 0x80;
    if opcode == 0x33 {
      RegisterForm(w);
    } else if opcode == 0x13 {
      ImmediateForm(w);
    } else if opcode == 0x03 {
      LoadForm(w);
    } else if opcode == 0x67 {
      JumpRegisterForm(w);
    } else if opcode == 0x23 {
      StoreForm(w);
    } else if opcode == 0x37 || opcode == 0x17 {
      UpperForm(w);
    } else if opcode == 0x63 {
      BranchForm(w);
    } else {
      JumpForm(w);
    }
  }

  // The other way round, format by format.

  lemma RegisterWord(i: Instr, w: nat)
    requires Legal(i) && i.Op? && w == Encode(i)
    ensures w < 0x1_0000_0000 && Known(w) && Disassembled(w) == i
  {
    hide BuildR;
    var f7, f3 := AluFunct7(i.op), AluFunct3(i.op);
    LayoutR(f7, i.rs2, i.rs1, f3, i.rd, OPCODE_OP);
    Slices(w, f7, i.rs2, i.rs1, f3, i.rd, OPCODE_OP);
  }

  lemma ImmediateFields(imm: int, rs1: nat, f3: nat, rd: nat, opcode: nat, w: nat)
    requires Imm12(imm) && rs1 < 0x20 && f3 < 8 && rd < 0x20 && opcode < 0x80 && w == BuildI(imm, rs1, f3, rd, opcode)
    ensures w < 0x1_0000_0000 && w % 0x80 == opcode && OffsetI(w) == imm && Rd(w) == rd && Rs1(w) == rs1 && F3(w) == f3
    ensures Rs2(w) == imm % 0x20 && F7(w) == imm % 0x1000 / 0x20
  {
    hide BuildI;
    var t := imm % 0x1000;
    LayoutI(imm, rs1, f3, rd, opcode);
    Slices(w, t / 0x20, t % 0x20, rs1, f3, rd, opcode);
  }

  lemma ImmediateWord(i: Instr, w: nat)
    requires Legal(i) && i.OpImm? && w == Encode(i)
    ensures w < 0x1_0000_0000 && Known(w) && Disassembled(w) == i
  {
    hide BuildI, OffsetI, Rd, Rs1, Rs2, F3, F7;
    var f7, f3 := AluFunct7(i.op), AluFunct3(i.op);
    ImmediateFunct7(i.op, i.imm, f7 * 0x20 + i.imm);
    ImmediateFields(f7 * 0x20 + i.imm, i.rs1, f3, i.rd, OPCODE_OP_IMM, w);
  }

  lemma LoadWord(i: Instr, w: nat)
    requires Legal(i) && i.Load? && w == Encode(i)
    ensures w < 0x1_0000_0000 && Known(w) && Disassembled(w) == i
  {
    hide BuildI, OffsetI, Rd, Rs1, Rs2, F3, F7, Imm12;
    ImmediateFields(i.imm, i.rs1, WidthFunct3(i.width, i.unsigned), i.rd, OPCODE_LOAD, w);
  }

  lemma JumpRegisterWord(i: Instr, w: nat)
    requires Legal(i) && i.Jalr? && w == Encode(i)
    ensures w < 0x1_0000_0000 && Known(w) && Disassembled(w) == i
  {
    hide BuildI, OffsetI, Rd, Rs1, Rs2, F3, F7, Imm12;
    ImmediateFields(i.imm, i.rs1, 0, i.rd, OPCODE_JALR, w);
  }

  lemma StoreWord(i: Instr, w: nat)
    requires Legal(i) && i.Store? && w == Encode(i)
    ensures w < 0x1_0000_0000 && Known(w) && Disassembled(w) == i
  {
    hide BuildS;
    var hi, lo, f3 := i.imm / 0x20 % 0x80, i.imm % 0x20, WidthFunct3(i.width, false);
    LayoutS(i.imm, i.rs2, i.rs1, f3, OPCODE_STORE);
    Slices(w, hi, i.rs2, i.rs1, f3, lo, OPCODE_STORE);
    StoreOffsetPieces(i.imm);
  }

  lemma UpperWord(i: Instr, w: nat)
    requires Legal(i) && (i.Lui? || i.Auipc?) && w == Encode(i)
    ensures w < 0x1_0000_0000 && Known(w) && Disassembled(w) == i
  {
    hide BuildU;
    var opcode := if i.Lui? then OPCODE_LUI else OPCODE_AUIPC;
    LayoutU(i.imm, i.rd, opcode);
    SlicesU(i.imm / 0x1000, i.rd, opcode, w);
  }

  lemma BranchWord(i: Instr, w: nat)
    requires Legal(i) && i.Branch? && w == Encode(i)
    ensures w < 0x1_0000_0000 && Known(w) && Disassembled(w) == i
  {
    hide BuildB;
    LayoutB(i.imm, i.rs2, i.rs1, CondFunct3(i.cond), OPCODE_BRANCH);
    BranchOffsetPieces(i.imm);
    SlicesB(i.imm / 0x1000 % 2, i.imm / 0x800 % 2, i.imm / 0x20 % 0x40, i.imm / 2 % 0x10, i.rs2, i.rs1, CondFunct3(i.cond), w);
  }

  lemma JumpWord(i: Instr, w: nat)
    requires Legal(i) && i.Jal? && w == Encode(i)
    ensures w < 0x1_0000_0000 && Known(w) && Disassembled(w) == i
  {
    hide BuildJ;
    LayoutJ(i.imm, i.rd, OPCODE_JAL);
    JumpOffsetPieces(i.imm);
    SlicesJ(i.imm / 0x10_0000 % 2, i.imm / 0x1000 % 0x100, i.imm / 0x800 % 2, i.imm / 2 % 0x400, i.rd, w);
  }

  /** Encoding and disassembling a legal instruction gives it back. */
  lemma EncodedDisassembles(i: Instr, w: nat)
    requires Legal(i) && w == Encode(i)
    ensures w < 0x1_0000_0000 && Known(w) && Disassembled(w) == i
  {
    hide Encode, Known, Disassembled, Legal;
    match i
    case Op(_, _, _, _) => RegisterWord(i, w);
    case OpImm(_, _, _, _) => ImmediateWord(i, w);
    case Lui(_, _) => UpperWord(i, w);
    case Auipc(_, _) => UpperWord(i, w);
    case Jal(_, _) => JumpWord(i, w);
    case Jalr(_, _, _) => JumpRegisterWord(i, w);
    case Branch(_, _, _, _) => BranchWord(i, w);
    case Load(_, _, _, _, _) => LoadWord(i, w);
    case Store(_, _, _, _) => StoreWord(i, w);
  }

  // ----- The reference machine does what the table says -----

  /** The words with a meaning are exactly the encodings of legal instructions. */
  lemma KnownIffEncodes(w: Word)
    ensures Known(w) <==> exists i :: Encodes(w, i)
    ensures forall i :: Encodes(w, i) ==> Known(w) && i == Disassembled(w)
    ensures Known(w) ==> Encodes(w, Disassembled(w))
  {
    hide Known, Disassembled, Encode, Legal;
    if Known(w) {
      DisassembledEncodes(w);
    }
    forall i | Encodes(w, i) ensures Known(w) && i == Disassembled(w) {
      EncodedDisassembles(i, w);
    }
  }

  lemma Sums(x: Word, y: Word)
    ensures Wrap(Signed(x) + Signed(y)) == (x + y) % 0x1_0000_0000
    ensures Wrap(Signed(x) - Signed(y)) == (x - y) % 0x1_0000_0000
    ensures Signed(x) < Signed(y) <==> Below(x, y)
  {
    SignedSums(x, y);
  }

  lemma Offsets(x: Word, off: int)
    ensures Wrap(Signed(x) + off) == (x + off) % 0x1_0000_0000 == Wrap(x + off)
    ensures (x + off % 0x1_0000_0000) % 0x1_0000_0000 == (x + off) % 0x1_0000_0000
  {
    WrapSum(x, off);
  }

  /** Shifting right with sign, by complementing twice. */
  lemma SignedShift(x: Word, k: nat)
    requires k < 32
    ensures Wrap(Signed(x) / Pow2(k)) == if x >= 0x8000_0000 then 0xFFFF_FFFF - (0xFFFF_FFFF - x) / Pow2(k) else x / Pow2(k)
  {
    var p := Pow2(k);
    QuotientBounds(x, p);
    if x >= 0x8000_0000 {
      var n := 0xFFFF_FFFF - x;
      QuotientBounds(n, p);
      assert Signed(x) == (0 - 1 - n / p) * p + (p - 1 - n % p);
      QuotientUnique(Signed(x), 0 - 1 - n / p, p - 1 - n % p, p);
    }
  }

  lemma QuotientBounds(x: nat, p: nat)
    requires p > 0
    ensures 0 <= x / p <= x
  {
    QuotientAtMost(x, x / p, x % p, p);
  }

  lemma QuotientAtMost(x: nat, q: int, r: nat, p: nat)
    requires p > 0 && x == q * p + r && r < p
    ensures 0 <= q <= x
  {
    MultipleTooBig(q, p);
    if q >= 1 {
      MultipleTooBig(p, q);
    }
  }

  lemma BitsCombine(x: Word, y: Word, i: nat)
    ensures Bit(XorW(x, y), i) <==> Bit(x, i) != Bit(y, i)
    ensures Bit(OrW(x, y), i) <==> Bit(x, i) || Bit(y, i)
    ensures Bit(AndW(x, y), i) <==> Bit(x, i) && Bit(y, i)
  {
    XorBits(x, y, i);
    OrBits(x, y, i);
    AndBits(x, y, i);
  }

  lemma OperationComputes(f7: nat, f3: nat, x: Word, y: Word)
    requires f3 < 8 && (f7 == 0 || (f7 == 0x20 && (f3 == 0 || f3 == 5)))
    ensures Computes(f7, f3, x, y, AluMeaning(OpAt(f7, f3), x, y))
  {
    hide Signed, Bit, XorW, OrW, AndW, Pow2, Below;
    if f3 == 1 || f3 == 5 {
      ShiftComputes(f7, f3, x, y);
    } else {
      Sums(x, y);
      forall i: nat
        ensures Bit(XorW(x, y), i) <==> Bit(x, i) != Bit(y, i)
        ensures Bit(OrW(x, y), i) <==> Bit(x, i) || Bit(y, i)
        ensures Bit(AndW(x, y), i) <==> Bit(x, i) && Bit(y, i)
      {
        BitsCombine(x, y, i);
      }
    }
  }

  lemma ShiftComputes(f7: nat, f3: nat, x: Word, y: Word)
    requires (f3 == 1 && f7 == 0) || (f3 == 5 && (f7 == 0 || f7 == 0x20))
    ensures Computes(f7, f3, x, y, AluMeaning(OpAt(f7, f3), x, y))
  {
    hide Signed, Pow2;
    var k := y % 32;
    QuotientBounds(x, Pow2(k));
    SignedShift(x, k);
  }

  lemma NextPcLiteral(pc: Word)
    ensures Plus4(pc) == (pc + 4) % 0x1_0000_0000
  {
  }

  lemma RegisterLands(a: Arch, z: Arch, pc: int, rd: RegIndex, v: Word)
    requires z.pc == pc % 0x1_0000_0000 && z.mem == a.mem && z.regs == WriteReg(a.regs, rd, v)
    ensures Becomes(a, z, pc, rd, v)
  {
  }

  lemma LoadedValue(m: Memory, f3: nat, at: Word)
    requires f3 < 6 && f3 != 3 && at % SizeAt(f3) == 0
    ensures Aligned(WidthAt(f3), at)
    ensures Extend(WidthAt(f3), f3 >= 4, LoadBytes(m, WidthAt(f3), at)) == Loads(m, f3, at)
  {
  }

  lemma AlignedAt(f3: nat, at: Word)
    requires f3 < 6 && f3 != 3
    ensures Aligned(WidthAt(f3), at) <==> at % SizeAt(f3) == 0
  {
  }

  lemma StoredBytes(m: Memory, f3: nat, at: Word, v: Word)
    requires f3 < 3 && Aligned(WidthAt(f3), at)
    ensures Stores(m, StoreBytes(m, WidthAt(f3), at, v), SizeAt(f3), at, v)
  {
  }

  lemma TakenIff(f3: nat, x: Word, y: Word)
    requires f3 < 8 && f3 != 2 && f3 != 3
    ensures CondMeaning(CondAt(f3), x, y) <==> Taken(f3, x, y)
  {
    Sums(x, y);
  }

  // ----- Each format -----

  lemma UpperRuns(w: Word, a: Arch)
    requires w % 0x80 == 0x37 || w % 0x80 == 0x17
    ensures RunsAs(w, a, Execute(Disassembled(w), a))
  {
    hide Rd, WriteReg, Becomes, Plus4;
    NextPcLiteral(a.pc);
    var z, upper := Execute(Disassembled(w), a), w / 0x1000 * 0x1000;
    RegisterLands(a, z, a.pc + 4, Rd(w), if w % 0x80 == 0x37 then upper else (a.pc + upper) % 0x1_0000_0000);
  }

  lemma JumpRuns(w: Word, a: Arch)
    requires Known(w) && (w % 0x80 == 0x6F || w % 0x80 == 0x67)
    ensures RunsAs(w, a, Execute(Disassembled(w), a))
  {
    hide Rd, Rs1, WriteReg, Becomes, Plus4, OffsetI, OffsetJ;
    NextPcLiteral(a.pc);
    var target := if w % 0x80 == 0x6F then a.pc + OffsetJ(w) else X(a, Rs1(w)) + OffsetI(w);
    RegisterLands(a, Execute(Disassembled(w), a), target, Rd(w), (a.pc + 4) % 0x1_0000_0000);
  }

  lemma BranchRuns(w: Word, a: Arch)
    requires Known(w) && w % 0x80 == 0x63
    ensures RunsAs(w, a, Execute(Disassembled(w), a))
  {
    hide F3, Rs1, Rs2, Becomes, Plus4, OffsetB, CondMeaning, Taken, CondAt;
    NextPcLiteral(a.pc);
    var z := Execute(Disassembled(w), a);
    TakenIff(F3(w), X(a, Rs1(w)), X(a, Rs2(w)));
    KeepsRegisters(a, z, a.pc + (if Taken(F3(w), X(a, Rs1(w)), X(a, Rs2(w))) then OffsetB(w) else 4));
  }

  lemma KeepsRegisters(a: Arch, z: Arch, pc: int)
    requires z.pc == pc % 0x1_0000_0000 && z.mem == a.mem && z.regs == a.regs
    ensures Becomes(a, z, pc, 0, 0)
  {
  }

  lemma LoadRuns(w: Word, a: Arch)
    requires Known(w) && w % 0x80 == 0x03
    ensures Runs(Disassembled(w), a) <==> Promised(w, a)
    ensures Promised(w, a) ==> RunsAs(w, a, Execute(Disassembled(w), a))
  {
    hide Rd, F3, Rs1, WriteReg, Becomes, Plus4, OffsetI, LoadBytes, Extend, Loads, WidthAt, SizeAt, Signed, Wrap,
      Aligned;
    NextPcLiteral(a.pc);
    Offsets(X(a, Rs1(w)), OffsetI(w));
    AlignedAt(F3(w), AddressI(w, a));
    if Promised(w, a) {
      LoadedValue(a.mem, F3(w), AddressI(w, a));
      RegisterLands(a, Execute(Disassembled(w), a), a.pc + 4, Rd(w), Loads(a.mem, F3(w), AddressI(w, a)));
    }
  }

  lemma StoreRuns(w: Word, a: Arch)
    requires Known(w) && w % 0x80 == 0x23
    ensures RunsAs(w, a, Execute(Disassembled(w), a))
  {
    hide F3, Rs1, Rs2, Plus4, OffsetS, StoreBytes, Stores, WidthAt, SizeAt, Signed, Wrap, Aligned;
    NextPcLiteral(a.pc);
    Offsets(X(a, Rs1(w)), OffsetS(w));
    AlignedAt(F3(w), AddressS(w, a));
    if Aligned(WidthAt(F3(w)), AddressS(w, a)) {
      StoredBytes(a.mem, F3(w), AddressS(w, a), X(a, Rs2(w)));
    }
  }

  lemma ResultLands(a: Arch, z: Arch, f7: nat, f3: nat, x: Word, y: Word, rd: RegIndex)
    requires f3 < 8 && (f7 == 0 || (f7 == 0x20 && (f3 == 0 || f3 == 5)))
    requires z == Arch(Plus4(a.pc), WriteReg(a.regs, rd, AluMeaning(OpAt(f7, f3), x, y)), a.mem)
    ensures ResultIn(a, z, f7, f3, x, y, rd)
  {
    hide AluMeaning, Computes, WriteReg, OpAt, Becomes, Plus4;
    NextPcLiteral(a.pc);
    OperationComputes(f7, f3, x, y);
    RegisterLands(a, z, a.pc + 4, rd, AluMeaning(OpAt(f7, f3), x, y));
  }

  lemma RegisterRuns(w: Word, a: Arch)
    requires Known(w) && w % 0x80 == 0x33
    ensures RunsAs(w, a, Execute(Disassembled(w), a))
  {
    hide Rd, F3, F7, Rs1, Rs2, WriteReg, Plus4, AluMeaning, ResultIn, OpAt;
    ResultLands(a, Execute(Disassembled(w), a), F7(w), F3(w), X(a, Rs1(w)), X(a, Rs2(w)), Rd(w));
  }

  lemma ImmediateRuns(w: Word, a: Arch)
    requires Known(w) && w % 0x80 == 0x13
    ensures RunsAs(w, a, Execute(Disassembled(w), a))
  {
    hide Rd, F3, F7, Rs1, Rs2, WriteReg, Plus4, AluMeaning, ResultIn, OpAt, OffsetI;
    var shift := F3(w) == 1 || F3(w) == 5;
    var y := if shift then Rs2(w) else OffsetI(w) % 0x1_0000_0000;
    ResultLands(a, Execute(Disassembled(w), a), if shift then F7(w) else 0, F3(w), X(a, Rs1(w)), y, Rd(w));
  }

  /** Executing the instruction a known word stands for is what the table says of the word. */
  lemma DisassembledRuns(w: Word, a: Arch)
    requires Known(w)
    ensures Runs(Disassembled(w), a) <==> Promised(w, a)
    ensures Promised(w, a) ==> RunsAs(w, a, Execute(Disassembled(w), a))
  {
    hide Execute, RunsAs, F3, F7, Rd, Rs1, Rs2, OffsetI, OffsetS, OffsetB, OffsetJ, WidthAt, OpAt, CondAt, Aligned,
      AddressI, SizeAt;
    var opcode := w % 0x80;
    if opcode == 0x33 {
      RegisterRuns(w, a);
    } else if opcode == 0x13 {
      ImmediateRuns(w, a);
    } else if opcode == 0x03 {
      LoadRuns(w, a);
    } else if opcode == 0x23 {
      StoreRuns(w, a);
    } else if opcode == 0x37 || opcode == 0x17 {
      UpperRuns(w, a);
    } else if opcode == 0x63 {
      BranchRuns(w, a);
    } else {
      JumpRuns(w, a);
    }
  }

  lemma ForeignRuns(w: Word, a: Arch)
    requires Foreign(w)
    ensures !Known(w) && RunsAs(w, a, Skip(a))
  {
    hide Plus4;
    NextPcLiteral(a.pc);
  }

  // ----- The main results -----

  function FourBytes(m: Memory, p: int): Word {
    ByteAt(m, p) + 0x100 * ByteAt(m, p + 1) + 0x1_0000 * ByteAt(m, p + 2) + 0x100_0000 * ByteAt(m, p + 3)
  }

  /** The instruction word at the pc, its low address bits ignored. */
  function WordAtPc(a: Arch): Word {
    FourBytes(a.mem, a.pc - a.pc % 4)
  }

  /** The reference machine is defined exactly on the words of the table, and does what the table says. */
  lemma StepRunsAs(a: Arch)
    ensures Defined(a) <==> (Known(WordAtPc(a)) && Promised(WordAtPc(a), a)) || Foreign(WordAtPc(a))
    ensures Defined(a) ==> RunsAs(WordAtPc(a), a, IsaStep(a))
  {
    hide Known, Disassembled, Execute, RunsAs, Promised, Encodes, Runs, Skip, Fetch, WordAtPc, Foreign, Unsupported;
    var w := WordAtPc(a);
    FetchedWord(a);
    ForeignIff(w);
    KnownIffEncodes(w);
    if Known(w) {
      DisassembledRuns(w, a);
    } else if Foreign(w) {
      ForeignRuns(w, a);
    }
  }

  lemma FetchedWord(a: Arch)
    ensures Fetch(a) == WordAtPc(a)
  {
    hide FourBytes, FromLanes;
    LanesSum(a.mem, Base(a.pc));
  }

  lemma LanesSum(m: Memory, p: int)
    ensures FromLanes(LanesAt(m, p)) == FourBytes(m, p)
  {
    hide ByteAt;
  }

  lemma ForeignIff(w: Word)
    ensures Foreign(w) <==> Unsupported(w)
    ensures Known(w) ==> !Foreign(w)
  {
    hide F3, F7;
  }

  /** What the core's wires say of a word is what the table says, stores with the beat they put on the bus. */
  lemma WiresRunAs(w: Word, a: Arch, loadData: Word, held: Held)
    requires (Known(w) && Promised(w, a)) || Foreign(w)
    requires w % 0x80 == 0x03 ==> loadData == ReadWord(a.mem, AddressI(w, a))
    ensures
      var x := WiresIn(w, a, loadData, held);
      RunsAs(w, a,
        if w % 0x80 == 0x23 then Arch(x.nextPc, a.regs, WriteWord(a.mem, x.memAddr, x.storeData, x.strobe))
        else Retired(x, a))
  {
    hide Known, Disassembled, Execute, RunsAs, Promised, Encode, Runs, Legal, WiresIn, Retired, WriteWord, ReadWord, Address,
      AddressI, Foreign, Unsupported;
    ForeignIff(w);
    if Known(w) {
      DisassembledRuns(w, a);
      KnownIffEncodes(w);
      var i := Disassembled(w);
      WhichForm(w, a);
      if w % 0x80 == 0x23 {
        DatapathStores(i, w, a, loadData, held);
      } else {
        DatapathExecutes(i, w, a, loadData, held);
      }
    } else {
      ForeignRuns(w, a);
      ForeignWires(w, a, loadData, held);
    }
  }

  lemma WhichForm(w: Word, a: Arch)
    requires Known(w)
    ensures
      var i := Disassembled(w);
      (i.Store? <==> w % 0x80 == 0x23) && (i.Load? <==> w % 0x80 == 0x03)
      && (i.Load? ==> Address(a, i.rs1, i.imm) == AddressI(w, a))
  {
    hide F3, F7, Rd, Rs1, Rs2, OffsetI, OffsetS, OffsetB, OffsetJ, WidthAt, OpAt, CondAt, Signed, Wrap;
    Offsets(X(a, Rs1(w)), OffsetI(w));
  }

  lemma ForeignWires(w: Word, a: Arch, loadData: Word, held: Held)
    requires Foreign(w)
    ensures w % 0x80 != 0x23 && Retired(WiresIn(w, a, loadData, held), a) == Skip(a)
  {
    hide Plus4, WiresIn, Retired, Unsupported, Skip;
    ForeignIff(w);
    UnsupportedWires(w, a, loadData, held);
  }

  // ----- The table leaves nothing open -----

  lemma {:induction false} SameBits(x: nat, y: nat, n: nat)
    requires x < Pow2(n) && y < Pow2(n) && forall i: nat :: i < n ==> (Bit(x, i) <==> Bit(y, i))
    ensures x == y
  {
    if n > 0 {
      assert Bit(x, 0) <==> Bit(y, 0);
      forall i: nat | i < n - 1 ensures Bit(x / 2, i) <==> Bit(y / 2, i) {
        assert Bit(x, i + 1) <==> Bit(y, i + 1);
      }
      SameBits(x / 2, y / 2, n - 1);
    }
  }

  lemma OneResult(f7: nat, f3: nat, x: Word, y: Word, r: Word, s: Word)
    requires Computes(f7, f3, x, y, r) && Computes(f7, f3, x, y, s)
    ensures r == s
  {
    hide Bit, Pow2, Below;
    if f3 == 4 || f3 >= 6 {
      Pow2At32();
      SameBits(r, s, 32);
    }
  }

  /** All that can be seen of a state. */
  ghost predicate SameState(z: Arch, y: Arch) {
    z.pc == y.pc && z.regs == y.regs && forall k: int :: ByteAt(z.mem, k) == ByteAt(y.mem, k)
  }

  lemma BecomesOnce(a: Arch, z: Arch, y: Arch, pc: int, rd: RegIndex, v: Word)
    requires Becomes(a, z, pc, rd, v) && Becomes(a, y, pc, rd, v)
    ensures SameState(z, y)
  {
    assert forall k :: 0 <= k < 31 ==> z.regs[k] == y.regs[k];
    assert z.regs == y.regs;
  }

  lemma ResultOnce(a: Arch, z: Arch, y: Arch, f7: nat, f3: nat, x1: Word, x2: Word, rd: RegIndex)
    requires ResultIn(a, z, f7, f3, x1, x2, rd) && ResultIn(a, y, f7, f3, x1, x2, rd)
    ensures SameState(z, y)
  {
    hide Computes, Becomes, SameState;
    var r: Word :| Computes(f7, f3, x1, x2, r) && Becomes(a, z, a.pc + 4, rd, r);
    var s: Word :| Computes(f7, f3, x1, x2, s) && Becomes(a, y, a.pc + 4, rd, s);
    OneResult(f7, f3, x1, x2, r, s);
    BecomesOnce(a, z, y, a.pc + 4, rd, r);
  }

  lemma StoresOnce(m: Memory, p: Memory, q: Memory, n: nat, at: Word, v: Word)
    requires Stores(m, p, n, at, v) && Stores(m, q, n, at, v)
    ensures forall k: int :: ByteAt(p, k) == ByteAt(q, k)
  {
  }

  /** A word and a state have one outcome. */
  lemma OneOutcome(w: Word, a: Arch, z: Arch, y: Arch)
    requires RunsAs(w, a, z) && RunsAs(w, a, y)
    ensures SameState(z, y)
  {
    hide Becomes, ResultIn, Stores, F3, F7, Rd, Rs1, Rs2, OffsetI, OffsetS, OffsetB, OffsetJ, Loads, Taken, SizeAt;
    match w % 0x80
    case 0x37 => BecomesOnce(a, z, y, a.pc + 4, Rd(w), w / 0x1000 * 0x1000);
    case 0x17 => BecomesOnce(a, z, y, a.pc + 4, Rd(w), (a.pc + w / 0x1000 * 0x1000) % 0x1_0000_0000);
    case 0x6F => BecomesOnce(a, z, y, a.pc + OffsetJ(w), Rd(w), (a.pc + 4) % 0x1_0000_0000);
    case 0x67 => BecomesOnce(a, z, y, X(a, Rs1(w)) + OffsetI(w), Rd(w), (a.pc + 4) % 0x1_0000_0000);
    case 0x63 =>
      BecomesOnce(a, z, y, a.pc + (if Taken(F3(w), X(a, Rs1(w)), X(a, Rs2(w))) then OffsetB(w) else 4), 0, 0);
    case 0x03 => BecomesOnce(a, z, y, a.pc + 4, Rd(w), Loads(a.mem, F3(w), AddressI(w, a)));
    case 0x23 =>
      if AddressS(w, a) % SizeAt(F3(w)) == 0 {
        StoresOnce(a.mem, z.mem, y.mem, SizeAt(F3(w)), AddressS(w, a), X(a, Rs2(w)));
      }
    case 0x13 =>
      var shift := F3(w) == 1 || F3(w) == 5;
      ResultOnce(a, z, y, if shift then F7(w) else 0, F3(w), X(a, Rs1(w)),
                 if shift then Rs2(w) else OffsetI(w) % 0x1_0000_0000, Rd(w));
    case 0x33 => ResultOnce(a, z, y, F7(w), F3(w), X(a, Rs1(w)), X(a, Rs2(w)), Rd(w));
    case _ => BecomesOnce(a, z, y, a.pc + 4, 0, 0);
  }

  // ----- Where the pc goes -----

  /** A word that leaves the pc to the adder: no jump, and no branch that is taken. */
  predicate FallsThrough(w: Word, a: Arch) {
    && w % 0x80 != 0x6F && w % 0x80 != 0x67
    && (w % 0x80 == 0x63 ==> !Taken(F3(w), X(a, Rs1(w)), X(a, Rs2(w))))
  }

  /** Four bytes on unless the word jumps or branches, and four bytes on in the link register if it jumps. */
  lemma PcAdvances(a: Arch)
    requires Defined(a)
    ensures FallsThrough(WordAtPc(a), a) ==> IsaStep(a).pc == (a.pc + 4) % 0x1_0000_0000
    ensures
      var w := WordAtPc(a);
      (w % 0x80 == 0x6F || w % 0x80 == 0x67) && Rd(w) != 0 ==> IsaStep(a).regs[Rd(w) - 1] == (a.pc + 4) % 0x1_0000_0000
  {
    hide IsaStep, Defined, WordAtPc, Taken, F3, F7, Rd, Rs1, Rs2, OffsetI, OffsetS, OffsetB, OffsetJ, Stores, Loads, SizeAt,
      Computes;
    StepRunsAs(a);
  }

  /** n steps of the reference machine are n rows of the table. */
  lemma StepsRunAs(a: Arch, n: nat, k: nat)
    requires DefinedFor(a, n) && k < n
    ensures RunsAs(WordAtPc(IsaSteps(a, k)), IsaSteps(a, k), IsaSteps(a, k + 1))
  {
    hide Defined, IsaStep, WordAtPc, RunsAs, DefinedFor, IsaSteps;
    StepsCompose(a, k + 1, n - k - 1);
    OneMoreStep(a, k);
    StepRunsAs(IsaSteps(a, k));
  }
}
