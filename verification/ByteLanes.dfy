/**
 * load_store_decoder.v and byte_reader.v, and their agreement with a
 * little-endian byte memory.
 *
 * Both modules only ever select, move and extend whole bytes of a 32-bit vector,
 * so the vector is taken apart into its four byte lanes.  Where the Verilog
 * assigns nothing, the output is whatever the inferred latch holds; that value is
 * a parameter (`held`).
 */
module ByteLanes {
  import opened Words
  import opened Isa
  import opened Encoding

  type Strobe = s: int | 0 <= s < 16

  /** Byte lanes of a word, least significant first. */
  datatype Lanes = Lanes(b0: Byte, b1: Byte, b2: Byte, b3: Byte)

  function ToLanes(w: Word): Lanes {
    Lanes(w % 0x100, w / 0x100 % 0x100, w / 0x1_0000 % 0x100, w / 0x100_0000)
  }

  function FromLanes(l: Lanes): Word {
    l.b0 + 0x100 * l.b1 + 0x1_0000 * l.b2 + 0x100_0000 * l.b3
  }

  lemma LanesRoundTrip(l: Lanes)
    ensures ToLanes(FromLanes(l)) == l
  {
    var w := FromLanes(l);
    assert w / 0x100 == l.b1 + 0x100 * l.b2 + 0x1_0000 * l.b3;
    assert w / 0x1_0000 == l.b2 + 0x100 * l.b3;
  }

  lemma WordRoundTrip(w: Word)
    ensures FromLanes(ToLanes(w)) == w
  {
    assert w / 0x1_0000 == w / 0x100 / 0x100;
    assert w / 0x100_0000 == w / 0x1_0000 / 0x100;
  }

  predicate Enabled(s: Strobe, k: nat)
    requires k < 4
  {
    match k
    case 0 => s % 2 == 1
    case 1 => s / 2 % 2 == 1
    case 2 => s / 4 % 2 == 1
    case 3 => s / 8 == 1
  }

  // ----- A word-wide memory port -----

  function Base(a: Word): int {
    a - a % 4
  }

  function LanesAt(m: Memory, b: int): Lanes {
    Lanes(ByteAt(m, b), ByteAt(m, b + 1), ByteAt(m, b + 2), ByteAt(m, b + 3))
  }

  /** What a 32-bit slave returns for any address inside a word. */
  function ReadWord(m: Memory, a: Word): Word {
    FromLanes(LanesAt(m, Base(a)))
  }

  function PutLanes(m: Memory, b: int, l: Lanes, s: Strobe): Memory {
    var m0 := if Enabled(s, 0) then m[b := l.b0] else m;
    var m1 := if Enabled(s, 1) then m0[b + 1 := l.b1] else m0;
    var m2 := if Enabled(s, 2) then m1[b + 2 := l.b2] else m1;
    if Enabled(s, 3) then m2[b + 3 := l.b3] else m2
  }

  /** What a 32-bit slave stores: the strobed bytes of the word, and no others. */
  function WriteWord(m: Memory, a: Word, data: Word, s: Strobe): Memory {
    PutLanes(m, Base(a), ToLanes(data), s)
  }

  // ----- load_store_decoder.v -----

  function EnableAt(offset: nat, func3: nat): Strobe {
    match func3
    case 0 => ByteEnableAt(offset)
    case 4 => ByteEnableAt(offset)
    case 1 => HalfEnableAt(offset)
    case 5 => HalfEnableAt(offset)
    case 2 => if offset == 0 then 15 else 0
    case _ => 0
  }

  function ByteEnableAt(offset: nat): Strobe {
    match offset
    case 0 => 1
    case 1 => 2
    case 2 => 4
    case 3 => 8
    case _ => 0
  }

  function HalfEnableAt(offset: nat): Strobe {
    match offset
    case 0 => 3
    case 2 => 12
    case _ => 0
  }

  function ByteEnable(addr: Word, func3: nat): Strobe {
    EnableAt(addr % 4, func3)
  }

  function PlaceAt(offset: nat, func3: nat, r: Lanes, held: Lanes): Lanes {
    match func3
    case 0 => PlaceByte(offset, r)
    case 4 => PlaceByte(offset, r)
    case 1 => PlaceHalf(offset, r, held)
    case 5 => PlaceHalf(offset, r, held)
    case 2 => r
    case _ => held
  }

  /** `(reg_read & 0xFF) << 8 * offset`. */
  function PlaceByte(offset: nat, r: Lanes): Lanes {
    match offset
    case 0 => Lanes(r.b0, 0, 0, 0)
    case 1 => Lanes(0, r.b0, 0, 0)
    case 2 => Lanes(0, 0, r.b0, 0)
    case _ => Lanes(0, 0, 0, r.b0)
  }

  /** `(reg_read & 0xFFFF) << 8 * offset`. */
  function PlaceHalf(offset: nat, r: Lanes, held: Lanes): Lanes {
    match offset
    case 0 => Lanes(r.b0, r.b1, 0, 0)
    case 2 => Lanes(0, 0, r.b0, r.b1)
    case _ => held
  }

  function StoreData(addr: Word, func3: nat, regRead: Word, held: Word): Word {
    FromLanes(PlaceAt(addr % 4, func3, ToLanes(regRead), ToLanes(held)))
  }

  // ----- byte_reader.v -----

  function Masked(d: Lanes, mask: Strobe): Lanes {
    Lanes(if Enabled(mask, 0) then d.b0 else 0, if Enabled(mask, 1) then d.b1 else 0,
          if Enabled(mask, 2) then d.b2 else 0, if Enabled(mask, 3) then d.b3 else 0)
  }

  /** The masking loop, filling the four lanes of a buffer one after the other. */
  method MaskLanes(d: Lanes, mask: Strobe) returns (masked: Lanes)
    ensures masked == Masked(d, mask)
  {
    var source := [d.b0, d.b1, d.b2, d.b3];
    var buffer := new Byte[4];
    for i := 0 to 4
      invariant forall k: nat | k < i :: buffer[k] == if Enabled(mask, k) then source[k] else 0
    {
      if Enabled(mask, i) {
        buffer[i] := source[i];
      } else {
        buffer[i] := 0;
      }
    }
    masked := Lanes(buffer[0], buffer[1], buffer[2], buffer[3]);
  }

  function Shifted(d: Lanes, func3: nat, mask: Strobe, held: Lanes): Lanes {
    match func3
    case 2 => d
    case 0 => ShiftByte(d, mask, held)
    case 4 => ShiftByte(d, mask, held)
    case 1 => ShiftHalf(d, mask, held)
    case 5 => ShiftHalf(d, mask, held)
    case _ => held
  }

  function ShiftByte(d: Lanes, mask: Strobe, held: Lanes): Lanes {
    match mask
    case 1 => d
    case 2 => Lanes(d.b1, d.b2, d.b3, 0)
    case 4 => Lanes(d.b2, d.b3, 0, 0)
    case 8 => Lanes(d.b3, 0, 0, 0)
    case _ => held
  }

  function ShiftHalf(d: Lanes, mask: Strobe, held: Lanes): Lanes {
    match mask
    case 3 => d
    case 12 => Lanes(d.b2, d.b3, 0, 0)
    case _ => held
  }

  function SignOf(b: Byte): Byte {
    if b >= 0x80 then 0xFF else 0
  }

  function Extended(d: Lanes, func3: nat, held: Lanes): Lanes {
    match func3
    case 2 => d
    case 0 => Lanes(d.b0, SignOf(d.b0), SignOf(d.b0), SignOf(d.b0))
    case 4 => d
    case 1 => Lanes(d.b0, d.b1, SignOf(d.b1), SignOf(d.b1))
    case 5 => d
    case _ => held
  }

  function WriteBackData(memData: Word, func3: nat, mask: Strobe, held: Word): Word {
    FromLanes(Extended(Shifted(Masked(ToLanes(memData), mask), func3, mask, ToLanes(held)), func3, ToLanes(held)))
  }

  /** byte_reader.v as a block: the masking loop, then shift and extension. */
  method ReadBytes(memData: Word, func3: nat, mask: Strobe, held: Word) returns (wbData: Word)
    ensures wbData == WriteBackData(memData, func3, mask, held)
  {
    var masked := MaskLanes(ToLanes(memData), mask);
    wbData := FromLanes(Extended(Shifted(masked, func3, mask, ToLanes(held)), func3, ToLanes(held)));
  }

  // ----- Agreement with byte memory -----

  lemma BaseAndOffset(a: Word)
    ensures 0 <= Base(a) && a == Base(a) + a % 4
  {
  }

  lemma AlignedOffset(w: Width, a: Word)
    ensures Aligned(w, a) <==> w == BYTE || (w == HALF && (a % 4 == 0 || a % 4 == 2)) || (w == WORD && a % 4 == 0)
  {
  }

  /** Strobed lanes written to the word port are exactly the bytes SB, SH and SW address. */
  lemma StoreLanes(m: Memory, w: Width, addr: Word, v: Word, held: Word)
    requires Aligned(w, addr)
    ensures
      var f := WidthFunct3(w, false);
      WriteWord(m, addr, StoreData(addr, f, v, held), ByteEnable(addr, f)) == StoreBytes(m, w, addr, v)
  {
    var f := WidthFunct3(w, false);
    var placed := PlaceAt(addr % 4, f, ToLanes(v), ToLanes(held));
    LanesRoundTrip(placed);
    BaseAndOffset(addr);
    AlignedOffset(w, addr);
    PlacedLanes(m, w, Base(addr), addr % 4, ToLanes(v), ToLanes(held));
    StoredLanes(m, w, addr, v);
  }

  /** StoreBytes in terms of the lanes of the stored value. */
  function StoreLowLanes(m: Memory, w: Width, a: int, r: Lanes): Memory {
    match w
    case BYTE => m[a := r.b0]
    case HALF => m[a := r.b0][a + 1 := r.b1]
    case WORD => m[a := r.b0][a + 1 := r.b1][a + 2 := r.b2][a + 3 := r.b3]
  }

  lemma StoredLanes(m: Memory, w: Width, a: Word, v: Word)
    requires Aligned(w, a)
    ensures StoreBytes(m, w, a, v) == StoreLowLanes(m, w, a, ToLanes(v))
  {
  }

  lemma PlacedLanes(m: Memory, w: Width, b: int, offset: nat, r: Lanes, held: Lanes)
    requires offset < 4
    requires w == HALF ==> offset == 0 || offset == 2
    requires w == WORD ==> offset == 0
    ensures
      var f := WidthFunct3(w, false);
      PutLanes(m, b, PlaceAt(offset, f, r, held), EnableAt(offset, f)) == StoreLowLanes(m, w, b + offset, r)
  {
  }

  /** The enable lines are all low exactly when the access is misaligned. */
  lemma EnableIffAligned(w: Width, unsigned: bool, addr: Word)
    requires unsigned ==> w != WORD
    ensures ByteEnable(addr, WidthFunct3(w, unsigned)) != 0 <==> Aligned(w, addr)
  {
    AlignedOffset(w, addr);
  }

  lemma NoLanesNoWrite(m: Memory, addr: Word, data: Word)
    ensures WriteWord(m, addr, data, 0) == m
  {
  }

  /** The five loads return the addressed bytes, zero- or sign-extended. */
  lemma LoadLanes(m: Memory, w: Width, unsigned: bool, addr: Word, held: Word)
    requires Aligned(w, addr) && (unsigned ==> w != WORD)
    ensures
      var f := WidthFunct3(w, unsigned);
      WriteBackData(ReadWord(m, addr), f, ByteEnable(addr, f), held) == Extend(w, unsigned, LoadBytes(m, w, addr))
  {
    BaseAndOffset(addr);
    AlignedOffset(w, addr);
    LoadedLanes(m, w, unsigned, Base(addr), addr % 4, ToLanes(held));
    ReaderOf(w, unsigned, addr % 4, held, LanesAt(m, Base(addr)), LoadLowLanes(m, w, addr));
    LowLanesValue(m, w, addr);
  }

  lemma ReaderOf(w: Width, unsigned: bool, offset: nat, held: Word, d: Lanes, l: Lanes)
    requires unsigned ==> w != WORD
    requires w == BYTE ==> l.b1 == 0
    requires w != WORD ==> l.b2 == 0 && l.b3 == 0
    requires
      var f := WidthFunct3(w, unsigned);
      Shifted(Masked(d, EnableAt(offset, f)), f, EnableAt(offset, f), ToLanes(held)) == l
    ensures
      var f := WidthFunct3(w, unsigned);
      WriteBackData(FromLanes(d), f, EnableAt(offset, f), held) == Extend(w, unsigned, FromLanes(l))
  {
    LanesRoundTrip(d);
    ExtendedValue(w, unsigned, l);
  }

  lemma LowLanesValue(m: Memory, w: Width, a: Word)
    requires Aligned(w, a)
    ensures FromLanes(LoadLowLanes(m, w, a)) == LoadBytes(m, w, a)
  {
  }

  function LoadLowLanes(m: Memory, w: Width, a: int): Lanes {
    match w
    case BYTE => Lanes(ByteAt(m, a), 0, 0, 0)
    case HALF => Lanes(ByteAt(m, a), ByteAt(m, a + 1), 0, 0)
    case WORD => LanesAt(m, a)
  }

  lemma LoadedLanes(m: Memory, w: Width, unsigned: bool, b: int, offset: nat, held: Lanes)
    requires offset < 4 && (unsigned ==> w != WORD)
    requires w == HALF ==> offset == 0 || offset == 2
    requires w == WORD ==> offset == 0
    ensures
      var f := WidthFunct3(w, unsigned);
      var mask := EnableAt(offset, f);
      Shifted(Masked(LanesAt(m, b), mask), f, mask, held) == LoadLowLanes(m, w, b + offset)
  {
  }

  lemma ExtendedValue(w: Width, unsigned: bool, l: Lanes)
    requires unsigned ==> w != WORD
    requires w == BYTE ==> l.b1 == 0
    requires w != WORD ==> l.b2 == 0 && l.b3 == 0
    ensures forall held :: FromLanes(Extended(l, WidthFunct3(w, unsigned), held)) == Extend(w, unsigned, FromLanes(l))
  {
  }

  /** What the decoder makes the word port hold after a store. */
  function AfterStore(m: Memory, w: Width, addr: Word, v: Word, held: Word): Memory {
    var f := WidthFunct3(w, false);
    WriteWord(m, addr, StoreData(addr, f, v, held), ByteEnable(addr, f))
  }

  /** Storing through the decoder and loading through the reader gives the truncated value, extended. */
  lemma StoreThenLoad(m: Memory, w: Width, unsigned: bool, addr: Word, v: Word, held: Word, held': Word)
    requires Aligned(w, addr) && (unsigned ==> w != WORD)
    ensures
      var f := WidthFunct3(w, unsigned);
      WriteBackData(ReadWord(AfterStore(m, w, addr, v, held), addr), f, ByteEnable(addr, f), held')
        == Extend(w, unsigned, match w case BYTE => v % 0x100 case HALF => v % 0x1_0000 case WORD => v)
  {
    hide WriteBackData, ReadWord, ByteEnable, StoreData, WriteWord, Extend, Aligned;
    StoreLanes(m, w, addr, v, held);
    LoadLanes(AfterStore(m, w, addr, v, held), w, unsigned, addr, held');
    BytesBack(m, w, addr, v);
  }

  lemma BytesBack(m: Memory, w: Width, addr: Word, v: Word)
    requires Aligned(w, addr)
    ensures LoadBytes(StoreBytes(m, w, addr, v), w, addr)
         == match w case BYTE => v % 0x100 case HALF => v % 0x1_0000 case WORD => v
  {
    StoredLanes(m, w, addr, v);
    WordRoundTrip(v);
    HalfOfLanes(v);
  }

  lemma HalfOfLanes(v: Word)
    ensures v % 0x1_0000 == ToLanes(v).b0 + 0x100 * ToLanes(v).b1
  {
    assert v / 0x1_0000 == v / 0x100 / 0x100;
  }

  /** Through the decoder, a store leaves every other byte alone; a misaligned one leaves every byte alone. */
  lemma StoreElsewhere(m: Memory, w: Width, addr: Word, v: Word, held: Word)
    ensures forall a: int :: !Aligned(w, addr) || a < addr || a >= addr + Bytes(w) ==>
      ByteAt(AfterStore(m, w, addr, v, held), a) == ByteAt(m, a)
    ensures !Aligned(w, addr) ==> AfterStore(m, w, addr, v, held) == m
  {
    hide StoreData, WriteWord, ByteEnable, Aligned;
    EnableIffAligned(w, false, addr);
    if Aligned(w, addr) {
      StoreLanes(m, w, addr, v, held);
      OtherBytes(m, w, addr, v);
    } else {
      NoLanesNoWrite(m, addr, StoreData(addr, WidthFunct3(w, false), v, held));
    }
  }

  lemma OtherBytes(m: Memory, w: Width, addr: Word, v: Word)
    requires Aligned(w, addr)
    ensures forall a: int :: a < addr || a >= addr + Bytes(w) ==> ByteAt(StoreBytes(m, w, addr, v), a) == ByteAt(m, a)
  {
  }
}
