/**
 * axi_memory_mock.v: the test bench memory.  Seen from the arbiter it is one of
 * the slaves of Machine, as long as stores stay out of its instruction half.
 */
module MockMemory {
  import opened Words
  import opened ByteLanes
  import opened Arbiter

  const MEMORY_NUM_WORDS := 1024

  type Index = k: int | 0 <= k < MEMORY_NUM_WORDS

  type Half = h: seq<Lanes> | |h| == MEMORY_NUM_WORDS witness seq(MEMORY_NUM_WORDS, _ => Lanes(0, 0, 0, 0))

  datatype MockRegs = MockRegs(
    iData: Half, dData: Half,
    awready: bool, wready: bool, bvalid: bool, latched: Index,
    arready: bool, rvalid: bool, rdata: Word)

  function IndexOf(a: Word): Index {
    a / 4 % 1024
  }

  /** Address bit 12 selects the instruction half. */
  predicate Selector(a: Word) {
    a / 0x1000 % 2 == 1
  }

  function Merge(old': Lanes, l: Lanes, s: Strobe): Lanes {
    Lanes(if Enabled(s, 0) then l.b0 else old'.b0, if Enabled(s, 1) then l.b1 else old'.b1,
          if Enabled(s, 2) then l.b2 else old'.b2, if Enabled(s, 3) then l.b3 else old'.b3)
  }

  function Update(h: Half, k: Index, l: Lanes, s: Strobe): Half {
    h[k := Merge(h[k], l, s)]
  }

  /** One rising edge.  The half written is selected by the address on the bus in the data clock. */
  function MockNext(k: MockRegs, b: ToSlave): MockRegs {
    var writes := b.wvalid && k.wready;
    var addressed := b.awvalid && k.awready;
    var answered := k.bvalid && b.bready;
    var accepts := b.arvalid && k.arready;
    var offers := !k.arready && !k.rvalid && b.arvalid;
    MockRegs(
      if writes && Selector(b.awaddr) then Update(k.iData, k.latched, ToLanes(b.wdata), b.wstrb) else k.iData,
      if writes && !Selector(b.awaddr) then Update(k.dData, k.latched, ToLanes(b.wdata), b.wstrb) else k.dData,
      if addressed then false else if writes then k.awready else answered || k.awready,
      if addressed then true else if writes then false else k.wready,
      if addressed then k.bvalid else if writes then true else k.bvalid && !answered,
      if addressed then IndexOf(b.awaddr) else k.latched,
      if offers then true else if accepts then false else k.arready,
      if offers then k.rvalid else if accepts then true else k.rvalid && !b.rready,
      if !offers && accepts then
        FromLanes(if Selector(b.araddr) then k.iData[IndexOf(b.araddr)] else k.dData[IndexOf(b.araddr)])
      else k.rdata)
  }

  function ZeroHalf(): Half {
    seq(MEMORY_NUM_WORDS, _ => Lanes(0, 0, 0, 0))
  }

  function ResetMock(): MockRegs {
    MockRegs(ZeroHalf(), ZeroHalf(), true, false, false, 0, false, false, 0)
  }

  /** What the mock drives; its outputs are all registers. */
  function MockSignals(k: MockRegs): FromSlave {
    FromSlave(k.arready, k.rvalid, k.rdata, k.awready, k.wready, k.bvalid)
  }

  class AxiMemoryMock {
    const iData: array<Lanes>
    const dData: array<Lanes>
    var awready: bool
    var wready: bool
    var bvalid: bool
    var awaddrLatched: Index
    var arready: bool
    var rvalid: bool
    var rdata: Word

    ghost predicate Valid() {
      iData.Length == MEMORY_NUM_WORDS && dData.Length == MEMORY_NUM_WORDS && iData != dData
    }

    ghost function Regs(): MockRegs
      requires Valid()
      reads this, iData, dData
    {
      MockRegs(iData[..], dData[..], awready, wready, bvalid, awaddrLatched, arready, rvalid, rdata)
    }

    constructor ()
      ensures Valid() && fresh(iData) && fresh(dData) && Regs() == ResetMock()
    {
      iData := new Lanes[MEMORY_NUM_WORDS];
      dData := new Lanes[MEMORY_NUM_WORDS];
      awready, wready, bvalid, awaddrLatched := true, false, false, 0;
      arready, rvalid, rdata := false, false, 0;
      new;
      for regId := 0 to MEMORY_NUM_WORDS
        invariant forall k :: 0 <= k < regId ==> iData[k] == dData[k] == Lanes(0, 0, 0, 0)
        invariant awready && !wready && !bvalid && awaddrLatched == 0 && !arready && !rvalid && rdata == 0
      {
        iData[regId] := Lanes(0, 0, 0, 0);
        dData[regId] := Lanes(0, 0, 0, 0);
      }
      assert iData[..] == ZeroHalf();
      assert dData[..] == ZeroHalf();
    }

    /** The byte loop over the strobes. */
    method WriteBytes(a: array<Lanes>, data: Word, strobe: Strobe)
      requires a.Length == MEMORY_NUM_WORDS
      modifies a
      ensures a[..] == Update(old(a[..]), awaddrLatched, ToLanes(data), strobe)
    {
      var l := ToLanes(data);
      ghost var before := a[awaddrLatched];
      for byteId := 0 to 4
        invariant forall k :: 0 <= k < a.Length && k != awaddrLatched ==> a[k] == old(a[k])
        invariant a[awaddrLatched] == MergedUpTo(before, l, strobe, byteId)
      {
        if Enabled(strobe, byteId) {
          a[awaddrLatched] := SetLane(a[awaddrLatched], byteId, l);
        }
      }
    }

    /** One rising edge. */
    method Clock(b: ToSlave)
      requires Valid()
      modifies this`awready, this`wready, this`bvalid, this`awaddrLatched, this`arready, this`rvalid, this`rdata, iData, dData
      ensures Valid() && Regs() == MockNext(old(Regs()), b)
    {
      ghost var k := Regs();
      ReadProcess(b, k);
      RegisterWrite(b, k);
      WriteProcess(b, k);
    }

    method ReadProcess(b: ToSlave, ghost k: MockRegs)
      requires Valid() && k == Regs()
      modifies this`arready, this`rvalid, this`rdata
      ensures arready == MockNext(k, b).arready && rvalid == MockNext(k, b).rvalid && rdata == MockNext(k, b).rdata
    {
      if !arready && !rvalid && b.arvalid {
        arready := true;
      } else if b.arvalid && arready {
        arready := false;
        rvalid := true;
        var word := if Selector(b.araddr) then iData[IndexOf(b.araddr)] else dData[IndexOf(b.araddr)];
        rdata := FromLanes(word);
      } else if b.rready && rvalid {
        rvalid := false;
      }
    }

    method RegisterWrite(b: ToSlave, ghost k: MockRegs)
      requires Valid() && iData[..] == k.iData && dData[..] == k.dData && wready == k.wready && awaddrLatched == k.latched
      modifies iData, dData
      ensures iData[..] == MockNext(k, b).iData && dData[..] == MockNext(k, b).dData
    {
      if b.wvalid && wready {
        if Selector(b.awaddr) {
          WriteBytes(iData, b.wdata, b.wstrb);
        } else {
          WriteBytes(dData, b.wdata, b.wstrb);
        }
      }
    }

    method WriteProcess(b: ToSlave, ghost k: MockRegs)
      requires awready == k.awready && wready == k.wready && bvalid == k.bvalid && awaddrLatched == k.latched
      modifies this`awready, this`wready, this`bvalid, this`awaddrLatched
      ensures awready == MockNext(k, b).awready && wready == MockNext(k, b).wready
      ensures bvalid == MockNext(k, b).bvalid && awaddrLatched == MockNext(k, b).latched
    {
      if b.awvalid && awready {
        awaddrLatched := IndexOf(b.awaddr);
        awready := false;
        wready := true;
      } else if b.wvalid && wready {
        wready := false;
        bvalid := true;
      } else if bvalid && b.bready {
        bvalid := false;
        awready := true;
      }
    }
  }

  function SetLane(x: Lanes, k: nat, l: Lanes): Lanes {
    if k == 0 then x.(b0 := l.b0) else if k == 1 then x.(b1 := l.b1) else if k == 2 then x.(b2 := l.b2) else x.(b3 := l.b3)
  }

  function MergedUpTo(x: Lanes, l: Lanes, s: Strobe, n: nat): Lanes
    requires n <= 4
  {
    Lanes(if n > 0 && Enabled(s, 0) then l.b0 else x.b0, if n > 1 && Enabled(s, 1) then l.b1 else x.b1,
          if n > 2 && Enabled(s, 2) then l.b2 else x.b2, if n > 3 && Enabled(s, 3) then l.b3 else x.b3)
  }
}
