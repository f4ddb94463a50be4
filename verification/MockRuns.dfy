/**
 * Arbiter and mock memory together, over every sequence of requests: a store of
 * words, as long as stores keep to addresses with bit 12 clear.
 */
module MockRuns {
  import opened Wrappers
  import opened Words
  import opened Isa
  import opened ByteLanes
  import opened Arbiter
  import opened Machine
  import opened Handshakes
  import opened MockMemory
  import opened MockRefines

  datatype Port = Port(arb: ArbRegs, mock: MockRegs)

  function ResetPort(): Port {
    Port(RESET, ResetMock())
  }

  function PortBus(p: Port, r: Request): ToSlave {
    Outputs(p.arb.state, r)
  }

  /** One clock; the core's side may ask for anything, and change its mind at any time. */
  function PortNext(p: Port, r: Request): Port {
    Port(ArbNext(p.arb, r, MockSignals(p.mock)), MockNext(p.mock, PortBus(p, r)))
  }

  function PortRun(p: Port, rs: seq<Request>): Port
    decreases |rs|
  {
    if rs == [] then p else PortRun(PortNext(p, rs[0]), rs[1..])
  }

  // ----- What an observer of the bus handshakes writes down -----

  datatype WordWrite = WordWrite(addr: Word, data: Word, strobe: Strobe)

  /** Accepted addresses not yet answered, and the writes whose data were accepted, oldest first. */
  datatype Journal = Journal(readAddr: Option<Word>, writeAddr: Option<Word>, done: seq<WordWrite>)

  const BLANK := Journal(None, None, [])

  function Record(j: Journal, k: MockRegs, b: ToSlave): Journal {
    Journal(
      if b.arvalid && k.arready then Some(b.araddr) else if k.rvalid && b.rready then None else j.readAddr,
      if k.bvalid && b.bready then None else if b.awvalid && k.awready then Some(b.awaddr) else j.writeAddr,
      if b.wvalid && k.wready && j.writeAddr.Some? then j.done + [WordWrite(j.writeAddr.value, b.wdata, b.wstrb)]
      else j.done)
  }

  function RecordRun(p: Port, j: Journal, rs: seq<Request>): Journal
    decreases |rs|
  {
    if rs == [] then j else RecordRun(PortNext(p, rs[0]), Record(j, p.mock, PortBus(p, rs[0])), rs[1..])
  }

  /** The mock decodes thirteen address bits, of which these tell words apart. */
  predicate SameWord(a: Word, b: Word) {
    Selector(a) == Selector(b) && IndexOf(a) == IndexOf(b)
  }

  /** The bytes last strobed at the word of `a`, or those it held to begin with. */
  function LastBytes(done: seq<WordWrite>, a: Word, m: Memory): Lanes
    decreases |done|
  {
    if done == [] then LanesAt(m, Base(Alias(a)))
    else
      var w, before := done[|done| - 1], LastBytes(done[..|done| - 1], a, m);
      if SameWord(w.addr, a) then Merge(before, ToLanes(w.data), w.strobe) else before
  }

  lemma LastBytesSnoc(done: seq<WordWrite>, w: WordWrite, a: Word, m: Memory)
    ensures
      LastBytes(done + [w], a, m) ==
      if SameWord(w.addr, a) then Merge(LastBytes(done, a, m), ToLanes(w.data), w.strobe) else LastBytes(done, a, m)
  {
    assert (done + [w])[..|done|] == done;
  }

  // ----- Invariant -----

  function Aliases(a: Option<Word>): Option<Word> {
    if a.Some? then Some(Alias(a.value)) else None
  }

  predicate ToDataHalf(a: Option<Word>) {
    a.Some? ==> !Selector(a.value)
  }

  /** The abstract slave s follows the port, and holds what the journal says. */
  ghost predicate Shadows(p: Port, j: Journal, s: Slave, m: Memory) {
    && LatchesMatch(p.arb.state, s) && Simulates(p.mock, s)
    && s.reading == Aliases(j.readAddr) && s.writeAddr == Aliases(j.writeAddr) && ToDataHalf(j.writeAddr)
    && Recorded(s.mem, j.done, m)
  }

  ghost predicate Recorded(mem: Memory, done: seq<WordWrite>, m: Memory) {
    forall a: Word :: LanesAt(mem, Base(Alias(a))) == LastBytes(done, a, m)
  }

  /** The only condition on addresses: stores go to the data half. */
  predicate StoresData(b: ToSlave) {
    b.awvalid ==> !Selector(b.awaddr)
  }

  predicate StoresDataRun(p: Port, rs: seq<Request>)
    decreases |rs|
  {
    rs == [] || (StoresData(PortBus(p, rs[0])) && StoresDataRun(PortNext(p, rs[0]), rs[1..]))
  }

  lemma AliasTwice(a: Word)
    ensures Alias(Alias(a)) == Alias(a) && Selector(Alias(a)) == Selector(a)
  {
    hide Alias, Selector, IndexOf, Base;
    AliasParts(a);
    AliasIsSmall(a);
    SmallAlias(Alias(a));
  }

  lemma AliasIsSmall(a: Word)
    ensures Alias(a) < 0x2000
  {
  }

  lemma SmallAlias(r: Word)
    requires r < 0x2000
    ensures Alias(r) == r
  {
  }

  lemma AliasedLatches(st: ArbState, r: Request, s: Slave, mv: Moves, m: Memory)
    ensures
      var b := Outputs(st, r);
      var n, n' := SlaveStep(s, b, mv, m), SlaveStep(s, Aliased(b), mv, m);
      && (n.reading.Some? <==> n'.reading.Some?) && (n.writeAddr.Some? <==> n'.writeAddr.Some?)
      && (n.writeBeat.Some? <==> n'.writeBeat.Some?) && n.committed == n'.committed
  {
    hide Alias;
  }

  lemma RecordedWrite(mem: Memory, done: seq<WordWrite>, m: Memory, w: WordWrite)
    requires Recorded(mem, done, m)
    ensures Recorded(WriteWord(mem, Alias(w.addr), w.data, w.strobe), done + [w], m)
  {
    hide LanesAt, PutLanes, Merge, Alias, Base, Selector, IndexOf, LastBytes, ToLanes;
    var at, l := Base(Alias(w.addr)), ToLanes(w.data);
    AliasParts(w.addr);
    forall a: Word
      ensures LanesAt(PutLanes(mem, at, l, w.strobe), Base(Alias(a))) == LastBytes(done + [w], a, m)
    {
      AliasParts(a);
      LastBytesSnoc(done, w, a, m);
      LanesAfterPut(mem, at, l, w.strobe, Base(Alias(a)));
    }
  }

  lemma MemoryRecorded(p: Port, r: Request, j: Journal, s: Slave, m: Memory)
    requires Shadows(p, j, s, m)
    ensures
      var b := PortBus(p, r);
      Recorded(MemNext(s, Aliased(b), MovesOf(p.mock)), Record(j, p.mock, b).done, m)
  {
    hide Alias, Selector, LastBytes, WriteWord, Holds, ReadWord, IndexOf, Recorded;
    var b := PortBus(p, r);
    FlagsStep(p.mock, s, b, s.mem);
    if b.wvalid && p.mock.wready {
      RecordedWrite(s.mem, j.done, m, WordWrite(j.writeAddr.value, b.wdata, b.wstrb));
    } else {
      NoWrite(s, Aliased(b), MovesOf(p.mock));
    }
  }

  lemma AddressesRecorded(p: Port, r: Request, j: Journal, s: Slave, m: Memory, mem: Memory)
    requires Shadows(p, j, s, m) && StoresData(PortBus(p, r))
    ensures
      var b := PortBus(p, r);
      var j', s' := Record(j, p.mock, b), SlaveStep(s, Aliased(b), MovesOf(p.mock), mem);
      s'.reading == Aliases(j'.readAddr) && s'.writeAddr == Aliases(j'.writeAddr) && ToDataHalf(j'.writeAddr)
  {
    hide Alias, Selector, Recorded, Holds, ReadWord, IndexOf;
  }

  lemma PortStep(p: Port, r: Request, j: Journal, s: Slave, m: Memory)
    requires Shadows(p, j, s, m) && StoresData(PortBus(p, r))
    ensures
      var b := PortBus(p, r);
      Shadows(PortNext(p, r), Record(j, p.mock, b), SlaveNext(s, Aliased(b), MovesOf(p.mock)), m)
  {
    hide Alias, Selector, Recorded, DataMatch, MemNext, Record, MockNext, SlaveStep, LatchesMatch, Outputs,
      WellTimed;
    var b := PortBus(p, r);
    var mem, mv := MemNext(s, Aliased(b), MovesOf(p.mock)), MovesOf(p.mock);
    if j.writeAddr.Some? {
      AliasTwice(j.writeAddr.value);
    }
    ArbiterTiming(p.arb.state, r, p.mock, s);
    MockStep(p.mock, s, b);
    MemoryRecorded(p, r, j, s, m);
    AddressesRecorded(p, r, j, s, m, mem);
    PortLatches(p, r, s, mem);
    SlaveMemory(s, Aliased(b), mv, mem);
  }

  lemma SlaveMemory(s: Slave, b: ToSlave, mv: Moves, mem: Memory)
    ensures SlaveStep(s, b, mv, mem).mem == mem
  {
  }

  lemma PortLatches(p: Port, r: Request, s: Slave, mem: Memory)
    requires LatchesMatch(p.arb.state, s) && SlaveLegal(s, MovesOf(p.mock))
    ensures LatchesMatch(PortNext(p, r).arb.state, SlaveStep(s, Aliased(PortBus(p, r)), MovesOf(p.mock), mem))
  {
    hide Alias, SlaveStep, NextState, Outputs;
    LatchesKept(p.arb.state, r, s, MovesOf(p.mock), MockSignals(p.mock), mem);
    AliasedLatches(p.arb.state, r, s, MovesOf(p.mock), mem);
  }

  // ----- Every run -----

  lemma {:induction false} PortShadowed(p: Port, rs: seq<Request>, j: Journal, s: Slave, m: Memory)
    requires Shadows(p, j, s, m) && StoresDataRun(p, rs)
    ensures exists s' :: Shadows(PortRun(p, rs), RecordRun(p, j, rs), s', m)
    decreases |rs|
  {
    hide PortNext, Record, Shadows, StoresData, SlaveNext;
    if rs != [] {
      var b := PortBus(p, rs[0]);
      PortStep(p, rs[0], j, s, m);
      var n, k, t := PortNext(p, rs[0]), Record(j, p.mock, b), SlaveNext(s, Aliased(b), MovesOf(p.mock));
      PortShadowed(n, rs[1..], k, t, m);
      var s' :| Shadows(PortRun(n, rs[1..]), RecordRun(n, k, rs[1..]), s', m);
      assert Shadows(PortRun(p, rs), RecordRun(p, j, rs), s', m);
    } else {
      assert Shadows(PortRun(p, rs), RecordRun(p, j, rs), s, m);
    }
  }

  /** The memory a port shows: both arrays, and the data of a read being answered. */
  ghost predicate ShowsLast(p: Port, j: Journal, m: Memory) {
    && (forall a: Word ::
          (if Selector(a) then p.mock.iData[IndexOf(a)] else p.mock.dData[IndexOf(a)]) == LastBytes(j.done, a, m))
    && (p.mock.rvalid ==> j.readAddr.Some? && p.mock.rdata == FromLanes(LastBytes(j.done, j.readAddr.value, m)))
  }

  lemma ShadowShows(p: Port, j: Journal, s: Slave, m: Memory)
    requires Shadows(p, j, s, m)
    ensures ShowsLast(p, j, m)
  {
    hide LanesAt, LastBytes, Alias, Selector, IndexOf, FromLanes, LatchesMatch, Base;
    forall a: Word
      ensures (if Selector(a) then p.mock.iData[IndexOf(a)] else p.mock.dData[IndexOf(a)]) == LastBytes(j.done, a, m)
    {
      AliasParts(a);
    }
    if p.mock.rvalid {
      AliasTwice(j.readAddr.value);
    }
  }

  /**
   * From reset, for every sequence of fetches, loads and stores of any addresses, the
   * stores' with bit 12 clear: every word is what was last strobed into it, and every
   * read returns the bytes last strobed at its address.
   */
  lemma ReadsReturnLastWrites(rs: seq<Request>)
    requires StoresDataRun(ResetPort(), rs)
    ensures ShowsLast(PortRun(ResetPort(), rs), RecordRun(ResetPort(), BLANK, rs), map[])
  {
    hide PortRun, RecordRun, Shadows, ShowsLast, StoresDataRun;
    ResetShadowed();
    PortShadowed(ResetPort(), rs, BLANK, Slave(map[], None, None, None, false), map[]);
    var s :| Shadows(PortRun(ResetPort(), rs), RecordRun(ResetPort(), BLANK, rs), s, map[]);
    ShadowShows(PortRun(ResetPort(), rs), RecordRun(ResetPort(), BLANK, rs), s, map[]);
  }

  lemma ResetShadowed()
    ensures Shadows(ResetPort(), BLANK, Slave(map[], None, None, None, false), map[])
  {
    hide Simulates, ResetMock;
    ResetSimulates();
  }

  // ----- What a caller must respect -----

  /** The data beat of a store, as the arbiter drives it after its address was taken. */
  function DataBeat(data: Word, strobe: Strobe): ToSlave {
    Outputs(S_WAIT_WREADY, Request(false, 0, true, false, 0, true, strobe, data))
  }

  /** The clock in which the mock takes that beat for the address `addr`. */
  ghost predicate DataClock(k: MockRegs, s: Slave, addr: Word) {
    Simulates(k, s) && LatchesMatch(S_WAIT_WREADY, s) && k.wready && s.writeAddr == Some(Alias(addr))
  }

  ghost predicate Lands(k: MockRegs, s: Slave, data: Word, strobe: Strobe) {
    Simulates(MockNext(k, DataBeat(data, strobe)), SlaveNext(s, Aliased(DataBeat(data, strobe)), MovesOf(k)))
  }

  lemma LandsIff(k: MockRegs, s: Slave, addr: Word, data: Word, strobe: Strobe)
    requires DataClock(k, s, addr)
    ensures
      var b := DataBeat(data, strobe);
      Lands(k, s, data, strobe) <==>
      !Selector(addr) || (Unchanged(k.dData, k.latched, b) && Unchanged(k.iData, k.latched, b))
  {
    hide Alias, Selector, IndexOf, Simulates, MockNext, SlaveNext, Unchanged;
    AliasTwice(addr);
    StoreExact(S_WAIT_WREADY, Request(false, 0, true, false, 0, true, strobe, data), k, s);
  }

  lemma NoLaneUnchanged(h: Half, at: Index, data: Word, strobe: Strobe)
    ensures strobe == 0 ==> Unchanged(h, at, DataBeat(data, strobe))
    ensures strobe != 0 && h[at] == Different(ToLanes(data)) ==> !Unchanged(h, at, DataBeat(data, strobe))
  {
    hide ToLanes;
    if strobe != 0 {
      SomeLane(strobe);
    }
  }

  lemma SomeLane(s: Strobe)
    requires s != 0
    ensures Enabled(s, 0) || Enabled(s, 1) || Enabled(s, 2) || Enabled(s, 3)
  {
  }

  function Other(b: Byte): Byte {
    if b == 0 then 1 else 0
  }

  function Different(l: Lanes): Lanes {
    Lanes(Other(l.b0), Other(l.b1), Other(l.b2), Other(l.b3))
  }

  /** Memory in which every word is made of the lanes l. */
  function Filled(l: Lanes): Memory {
    map a: int | 0 <= a < 0x2000 ::
      if a % 4 == 0 then l.b0 else if a % 4 == 1 then l.b1 else if a % 4 == 2 then l.b2 else l.b3
  }

  function FilledMock(l: Lanes, at: Index): MockRegs {
    var half := seq(MEMORY_NUM_WORDS, _ => l);
    MockRegs(half, half, false, true, false, at, false, false, 0)
  }

  lemma FilledClock(l: Lanes, addr: Word)
    ensures DataClock(FilledMock(l, IndexOf(addr)), Slave(Filled(l), None, Some(Alias(addr)), None, false), addr)
  {
    hide IndexOf, Alias;
    AliasParts(addr);
    assert Holds(FilledMock(l, IndexOf(addr)).dData, Filled(l), 0);
    assert Holds(FilledMock(l, IndexOf(addr)).iData, Filled(l), 0x1000);
  }

  /**
   * A store lands where it belongs whatever the memory holds if and only if bit 12 of
   * its address is clear or it strobes no lane.
   */
  lemma LandsForAllContents(addr: Word, data: Word, strobe: Strobe)
    ensures
      (forall k, s :: DataClock(k, s, addr) ==> Lands(k, s, data, strobe)) <==> !Selector(addr) || strobe == 0
  {
    hide DataClock, Lands, Selector, IndexOf, Alias, Unchanged, Filled;
    if !Selector(addr) || strobe == 0 {
      forall k, s | DataClock(k, s, addr)
        ensures Lands(k, s, data, strobe)
      {
        LandsIff(k, s, addr, data, strobe);
        NoLaneUnchanged(k.dData, k.latched, data, strobe);
        NoLaneUnchanged(k.iData, k.latched, data, strobe);
      }
    } else {
      var l := Different(ToLanes(data));
      var k, s := FilledMock(l, IndexOf(addr)), Slave(Filled(l), None, Some(Alias(addr)), None, false);
      FilledClock(l, addr);
      LandsIff(k, s, addr, data, strobe);
      NoLaneUnchanged(k.dData, k.latched, data, strobe);
      assert DataClock(k, s, addr) && !Lands(k, s, data, strobe);
    }
  }

  // ----- A store that goes astray -----

  function AskStore(addr: Word, data: Word): Request {
    Request(false, 0, true, true, addr, true, 15, data)
  }

  function AskLoad(addr: Word): Request {
    Request(false, 0, true, true, addr, false, 0, 0)
  }

  lemma OneClock(p: Port, j: Journal, r: Request, rest: seq<Request>)
    ensures PortRun(p, [r] + rest) == PortRun(PortNext(p, r), rest)
    ensures RecordRun(p, j, [r] + rest) == RecordRun(PortNext(p, r), Record(j, p.mock, PortBus(p, r)), rest)
  {
    assert ([r] + rest)[1..] == rest;
  }

  function StrayHalf(): Half {
    Update(ZeroHalf(), 0, Lanes(1, 0, 0, 0), 15)
  }

  /** The port at the four points of the story: after the address, after the data, idle again, and answering. */
  function StrayPort(st: ArbState, resultValid: bool, dData: Half, awready: bool, wready: bool, bvalid: bool): Port {
    Port(ArbRegs(st, resultValid, 0), MockRegs(ZeroHalf(), dData, awready, wready, bvalid, 0, false, false, 0))
  }

  lemma StrayWrite(rest: seq<Request>)
    ensures
      var st := AskStore(0x1000, 1);
      var p := StrayPort(IDLE, true, StrayHalf(), true, false, false);
      var j := Journal(None, None, [WordWrite(0x1000, 1, 15)]);
      && PortRun(ResetPort(), [st] + ([st] + ([st] + ([st] + rest)))) == PortRun(p, rest)
      && RecordRun(ResetPort(), BLANK, [st] + ([st] + ([st] + ([st] + rest)))) == RecordRun(p, j, rest)
  {
    hide PortRun, RecordRun, Update, ZeroHalf;
    var st := AskStore(0x1000, 1);
    var p1 := StrayPort(S_WAIT_BOTH, false, ZeroHalf(), true, false, false);
    var p2 := StrayPort(S_WAIT_WREADY, false, ZeroHalf(), false, true, false);
    var p3 := StrayPort(S_RESP, false, StrayHalf(), false, false, true);
    var addressed := Journal(None, Some(0x1000), []);
    var written := Journal(None, Some(0x1000), [WordWrite(0x1000, 1, 15)]);
    assert addressed.done + [WordWrite(0x1000, 1, 15)] == written.done;
    assert ToLanes(1) == Lanes(1, 0, 0, 0);
    OneClock(ResetPort(), BLANK, st, [st] + ([st] + ([st] + rest)));
    OneClock(p1, BLANK, st, [st] + ([st] + rest));
    OneClock(p2, addressed, st, [st] + rest);
    OneClock(p3, written, st, rest);
  }

  lemma StrayRead()
    ensures
      var ld := AskLoad(0x1000);
      var p := StrayPort(IDLE, true, StrayHalf(), true, false, false);
      var j := Journal(None, None, [WordWrite(0x1000, 1, 15)]);
      var q := PortRun(p, [ld] + ([ld] + ([ld] + [])));
      && q.mock.rvalid && q.mock.rdata == 0
      && RecordRun(p, j, [ld] + ([ld] + ([ld] + []))) == j.(readAddr := Some(0x1000))
  {
    hide Update, ZeroHalf, PortRun, RecordRun;
    var ld := AskLoad(0x1000);
    var j := Journal(None, None, [WordWrite(0x1000, 1, 15)]);
    var p := StrayPort(IDLE, true, StrayHalf(), true, false, false);
    var p1 := StrayPort(L_WAIT_ARREADY, false, StrayHalf(), true, false, false);
    var p2 := p1.(mock := p1.mock.(arready := true));
    OneClock(p, j, ld, [ld] + ([ld] + []));
    OneClock(p1, j, ld, [ld] + []);
    OneClock(p2, j, ld, []);
    ZeroWord();
    Ended(PortNext(p2, ld), Record(j, p2.mock, PortBus(p2, ld)));
  }

  lemma ZeroWord()
    ensures Selector(0x1000) && FromLanes(ZeroHalf()[IndexOf(0x1000)]) == 0
  {
  }

  lemma Ended(p: Port, j: Journal)
    ensures PortRun(p, []) == p && RecordRun(p, j, []) == j
  {
  }

  lemma SevenRequests(x: Request, y: Request)
    ensures [x, x, x, x, y, y, y] == [x] + ([x] + ([x] + ([x] + ([y] + ([y] + ([y] + []))))))
  {
  }

  lemma StrayExpected()
    ensures LastBytes([WordWrite(0x1000, 1, 15)], 0x1000, map[]) == Lanes(1, 0, 0, 0)
  {
    hide Alias, Base, Selector, IndexOf, LastBytes;
    var w := WordWrite(0x1000, 1, 15);
    LastBytesSnoc([], w, 0x1000, map[]);
    NothingWritten(0x1000);
    assert [] + [w] == [w];
    assert ToLanes(1) == Lanes(1, 0, 0, 0);
  }

  lemma NothingWritten(a: Word)
    ensures LastBytes([], a, map[]) == Lanes(0, 0, 0, 0)
  {
  }

  /** From reset: store 1 at 0x1000, load it back, and the answer is 0. */
  lemma StrayStore()
    ensures
      var st, ld := AskStore(0x1000, 1), AskLoad(0x1000);
      var rs := [st, st, st, st, ld, ld, ld];
      var p, j := PortRun(ResetPort(), rs), RecordRun(ResetPort(), BLANK, rs);
      && j.done == [WordWrite(0x1000, 1, 15)] && j.readAddr == Some(0x1000)
      && p.mock.rvalid && p.mock.rdata == 0 && LastBytes(j.done, 0x1000, map[]) == Lanes(1, 0, 0, 0)
  {
    hide PortRun, RecordRun, LastBytes, AskStore, AskLoad, StrayPort, ResetPort;
    var st, ld := AskStore(0x1000, 1), AskLoad(0x1000);
    SevenRequests(st, ld);
    StrayWrite([ld] + ([ld] + ([ld] + [])));
    StrayRead();
    StrayExpected();
  }
}
