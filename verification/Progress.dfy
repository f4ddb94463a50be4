/**
 * Bounded retirement: if the slave leaves no raised handshake unanswered for more
 * than a given number of clocks, every released instruction retires within a bound
 * linear in that number, whatever the control module does meanwhile.
 */
module Progress {
  import opened Words
  import opened Arbiter
  import opened Core
  import opened Tokens
  import opened Machine
  import opened Handshakes

  /** For how many clocks each raised handshake has gone unanswered. */
  datatype Waits = Waits(ar: nat, r: nat, aw: nat, w: nat, b: nat)

  const NO_WAITS := Waits(0, 0, 0, 0, 0)

  function Wait(before: nat, raised: bool, answered: bool): nat {
    if raised && !answered then before + 1 else 0
  }

  function WaitsNext(wt: Waits, b: ToSlave, mv: Moves): Waits {
    Waits(Wait(wt.ar, b.arvalid, mv.arready), Wait(wt.r, b.rready, mv.rvalid),
          Wait(wt.aw, b.awvalid, mv.awready), Wait(wt.w, b.wvalid, mv.wready), Wait(wt.b, b.bready, mv.bvalid))
  }

  predicate Within(wt: Waits, limit: nat) {
    wt.ar <= limit && wt.r <= limit && wt.aw <= limit && wt.w <= limit && wt.b <= limit
  }

  /** The slave never keeps a handshake waiting for more than `limit` clocks. */
  predicate Prompt(s: Sys, wt: Waits, inputs: seq<SysIn>, limit: nat)
    decreases |inputs|
  {
    inputs == [] ||
    (var wt' := WaitsNext(wt, SysBus(s, inputs[0]), inputs[0].mv);
     Within(wt', limit) && Prompt(SysNext(s, inputs[0]), wt', inputs[1..], limit))
  }

  function Slack(wait: nat, limit: nat): nat {
    if wait <= limit then limit - wait else 0
  }

  /** How far the token is from the next boundary; a position is worth limit + 1. */
  function Rank(c: CoreRegs, wt: Waits, limit: nat): nat {
    var unit := limit + 1;
    match c.arb.state
    case PC_WAIT_ARREADY => 8 * unit + Slack(wt.ar, limit)
    case PC_DATA => 7 * unit + Slack(wt.r, limit)
    case L_WAIT_ARREADY => 5 * unit + Slack(wt.ar, limit)
    case L_DATA => 4 * unit + Slack(wt.r, limit)
    case S_WAIT_BOTH => 5 * unit + Slack(wt.aw, limit)
    case S_WAIT_AWREADY => 4 * unit + Slack(wt.aw, limit)
    case S_WAIT_WREADY => 4 * unit + Slack(wt.w, limit)
    case S_RESP => 3 * unit + Slack(wt.b, limit)
    case IDLE =>
      if c.decodedValid then 6 * unit
      else if c.aluResultValid || c.arb.resultValid then 2 * unit
      else if c.nextPcValid then unit
      else 0
  }

  /** Every clock between boundaries brings the token strictly closer to the next one, whoever the slave is. */
  lemma CoreRankFalls(c: CoreRegs, i: CoreIn, mv: Moves, wt: Waits, limit: nat)
    requires TokenInv(c) && !Boundary(c) && Drives(mv, i.slave) && Within(WaitsNext(wt, BusOf(c, i), mv), limit)
    ensures Rank(CoreNext(c, i), WaitsNext(wt, BusOf(c, i), mv), limit) < Rank(c, wt, limit)
  {
    DecodedMem(c.instruction);
    TokenStep(c, i);
    RankFallsFor(c, i, mv, CoreNext(c, i), WiresOf(c, i.held), BusOf(c, i), wt, WaitsNext(wt, BusOf(c, i), mv), limit);
  }

  lemma RankFallsFor(c: CoreRegs, i: CoreIn, mv: Moves, n: CoreRegs, w: Wires, b: ToSlave,
                     wt: Waits, wt': Waits, limit: nat)
    requires TokenInv(c) && !Boundary(c) && TokenInv(n) && PlaceOf(n) == PlaceNext(c, i) && Drives(mv, i.slave)
    requires w.d.useMem == UsesMem(c.instruction) && w.d.memIsWrite == IsStore(c.instruction)
    requires n == Advance(c, i, w) && b == Outputs(c.arb.state, RequestOf(c, w, i.cm))
    requires wt' == WaitsNext(wt, b, mv) && Within(wt', limit)
    ensures Rank(n, wt', limit) < Rank(c, wt, limit)
  {
    if PlaceOf(c) == MEMORY {
      RankFallsInMemory(c, n, RequestOf(c, w, i.cm), i.slave, b, mv, wt, wt', limit);
    }
  }

  lemma RankFalls(s: Sys, i: SysIn, wt: Waits, limit: nat)
    requires TokenInv(s.core) && !Boundary(s.core) && Within(WaitsNext(wt, SysBus(s, i), i.mv), limit)
    ensures Rank(SysNext(s, i).core, WaitsNext(wt, SysBus(s, i), i.mv), limit) < Rank(s.core, wt, limit)
  {
    hide CoreNext, BusOf, Rank, WaitsNext, TokenInv, Boundary;
    CoreRankFalls(s.core, CoreInput(s, i), i.mv, wt, limit);
  }

  lemma RankFallsInMemory(c: CoreRegs, n: CoreRegs, r: Request, sig: FromSlave, b: ToSlave, mv: Moves,
                          wt: Waits, wt': Waits, limit: nat)
    requires Loading(c.arb.state) || Storing(c.arb.state)
    requires n.arb == ArbNext(c.arb, r, sig) && Drives(mv, sig) && b == Outputs(c.arb.state, r)
    requires wt' == WaitsNext(wt, b, mv) && Within(wt', limit) && !n.decodedValid
    ensures Rank(n, wt', limit) < Rank(c, wt, limit)
  {
  }

  lemma RankBound(c: CoreRegs, wt: Waits, limit: nat)
    ensures Rank(c, wt, limit) < 9 * (limit + 1)
  {
  }

  /** Clocks until the core is between instructions. */
  function UntilBoundary(s: Sys, inputs: seq<SysIn>): (k: nat)
    ensures k <= |inputs|
    decreases |inputs|
  {
    if inputs == [] || Boundary(s.core) then 0 else 1 + UntilBoundary(SysNext(s, inputs[0]), inputs[1..])
  }

  lemma RunNothing(s: Sys, inputs: seq<SysIn>)
    ensures Run(s, inputs[..0]) == s
  {
  }

  lemma TokenKept(s: Sys, i: SysIn, n: Sys)
    requires TokenInv(s.core) && n == SysNext(s, i)
    ensures TokenInv(n.core)
  {
    TokenStep(s.core, CoreInput(s, i));
  }

  lemma PromptHead(s: Sys, wt: Waits, inputs: seq<SysIn>, limit: nat, n: Sys, rest: seq<SysIn>, wt': Waits)
    requires inputs != [] && n == SysNext(s, inputs[0]) && rest == inputs[1..]
    requires wt' == WaitsNext(wt, SysBus(s, inputs[0]), inputs[0].mv)
    ensures Prompt(s, wt, inputs, limit) <==> Within(wt', limit) && Prompt(n, wt', rest, limit)
  {
  }

  lemma {:induction false} ReachesBoundary(s: Sys, wt: Waits, inputs: seq<SysIn>, limit: nat)
    requires TokenInv(s.core) && Prompt(s, wt, inputs, limit) && |inputs| >= Rank(s.core, wt, limit)
    ensures UntilBoundary(s, inputs) <= Rank(s.core, wt, limit)
    ensures Boundary(Run(s, inputs[..UntilBoundary(s, inputs)]).core)
    decreases |inputs|
  {
    hide SysNext, WaitsNext, SysBus, Rank, TokenInv, Run, Prompt;
    if Boundary(s.core) {
      RunNothing(s, inputs);
    } else {
      RankPositive(s.core, wt, limit);
      var n, rest, wt' := SysNext(s, inputs[0]), inputs[1..], WaitsNext(wt, SysBus(s, inputs[0]), inputs[0].mv);
      PromptHead(s, wt, inputs, limit, n, rest, wt');
      RankFalls(s, inputs[0], wt, limit);
      TokenKept(s, inputs[0], n);
      ReachesBoundary(n, wt', rest, limit);
      RunSplits(s, inputs, UntilBoundary(n, rest), n, rest);
    }
  }

  lemma RankPositive(c: CoreRegs, wt: Waits, limit: nat)
    requires TokenInv(c) && !Boundary(c)
    ensures Rank(c, wt, limit) > 0
  {
  }

  lemma RunSplits(s: Sys, inputs: seq<SysIn>, k: nat, n: Sys, rest: seq<SysIn>)
    requires k < |inputs| && n == SysNext(s, inputs[0]) && rest == inputs[1..]
    ensures Run(s, inputs[..k + 1]) == Run(n, rest[..k])
  {
    assert inputs[..k + 1][0] == inputs[0];
    assert inputs[..k + 1][1..] == rest[..k];
  }

  lemma LegalHead(s: Sys, inputs: seq<SysIn>, n: Sys, rest: seq<SysIn>)
    requires inputs != [] && n == SysNext(s, inputs[0]) && rest == inputs[1..]
    ensures SlaveLegalRun(s, inputs) <==> SlaveLegal(s.slave, inputs[0].mv) && SlaveLegalRun(n, rest)
  {
  }

  lemma {:induction false} LegalPrefix(s: Sys, inputs: seq<SysIn>, k: nat)
    requires SlaveLegalRun(s, inputs) && k <= |inputs|
    ensures SlaveLegalRun(s, inputs[..k])
    decreases k
  {
    hide SysNext, SlaveLegal;
    if k > 0 {
      var n, rest := SysNext(s, inputs[0]), inputs[1..];
      assert inputs[..k][1..] == rest[..k - 1];
      LegalHead(s, inputs, n, rest);
      LegalPrefix(n, rest, k - 1);
      LegalHead(s, inputs[..k], n, rest[..k - 1]);
    }
  }

  lemma ReleasedSplits(s: Sys, inputs: seq<SysIn>, k: nat, n: Sys, rest: seq<SysIn>)
    requires k < |inputs| && n == SysNext(s, inputs[0]) && rest == inputs[1..]
    ensures Totals(s, inputs[..k + 1]).released == Count(Releases(s, inputs[0])) + Totals(n, rest[..k]).released
  {
    assert inputs[..k + 1][0] == inputs[0];
    assert inputs[..k + 1][1..] == rest[..k];
  }

  /** Nothing is released before the core is back between instructions. */
  lemma {:induction false} NoReleaseBetween(s: Sys, inputs: seq<SysIn>)
    ensures Totals(s, inputs[..UntilBoundary(s, inputs)]).released == 0
    decreases |inputs|
  {
    if inputs != [] && !Boundary(s.core) {
      var n, rest := SysNext(s, inputs[0]), inputs[1..];
      NoReleaseBetween(n, rest);
      ReleasedSplits(s, inputs, UntilBoundary(n, rest), n, rest);
    }
  }

  /** Clocks from a release to the boundary after it. */
  function ClocksToRetire(s: Sys, inputs: seq<SysIn>): (k: nat)
    requires inputs != []
    ensures 0 < k <= |inputs|
  {
    1 + UntilBoundary(SysNext(s, inputs[0]), inputs[1..])
  }

  lemma ReleasedReturns(s: Sys, wt: Waits, inputs: seq<SysIn>, limit: nat)
    requires TokenInv(s.core) && Prompt(s, wt, inputs, limit) && |inputs| >= 9 * (limit + 1)
    ensures ClocksToRetire(s, inputs) <= 9 * (limit + 1)
    ensures Boundary(Run(s, inputs[..ClocksToRetire(s, inputs)]).core)
  {
    hide SysNext, WaitsNext, SysBus, Rank, TokenInv, Run, Prompt;
    var n, rest, wt' := SysNext(s, inputs[0]), inputs[1..], WaitsNext(wt, SysBus(s, inputs[0]), inputs[0].mv);
    PromptHead(s, wt, inputs, limit, n, rest, wt');
    TokenKept(s, inputs[0], n);
    RankBound(n.core, wt', limit);
    ReachesBoundary(n, wt', rest, limit);
    RunSplits(s, inputs, UntilBoundary(n, rest), n, rest);
  }

  lemma OneRelease(s: Sys, inputs: seq<SysIn>)
    requires inputs != [] && Releases(s, inputs[0])
    ensures Totals(s, inputs[..ClocksToRetire(s, inputs)]).released == 1
  {
    hide SysNext, Totals, Releases;
    var n, rest := SysNext(s, inputs[0]), inputs[1..];
    NoReleaseBetween(n, rest);
    ReleasedSplits(s, inputs, UntilBoundary(n, rest), n, rest);
  }

  /** A released instruction retires, alone, within 9 * (limit + 1) clocks. */
  lemma ReleasedRetires(s: Sys, wt: Waits, inputs: seq<SysIn>, limit: nat)
    requires HandshakeInv(s) && SlaveLegalRun(s, inputs) && Prompt(s, wt, inputs, limit)
    requires |inputs| >= 9 * (limit + 1) && Releases(s, inputs[0])
    ensures
      var k := ClocksToRetire(s, inputs);
      && k <= 9 * (limit + 1) && Boundary(Run(s, inputs[..k]).core)
      && Totals(s, inputs[..k]).released == Totals(s, inputs[..k]).retired == 1
  {
    var k := ClocksToRetire(s, inputs);
    ReleasedReturns(s, wt, inputs, limit);
    OneRelease(s, inputs);
    LegalPrefix(s, inputs, k);
    BetweenBoundaries(s, inputs[..k]);
  }
}
