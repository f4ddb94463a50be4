/**
 * Runs in which the control module only stalls and releases the core: the number
 * of instructions retired is the number released, and the state is that many
 * reference steps further on.
 */
module Stepping {
  import opened Words
  import opened Isa
  import opened Core
  import opened Tokens
  import opened Machine
  import opened Refinement
  import opened Handshakes
  import opened Progress

  // ----- The reference machine, several steps at a time -----

  ghost predicate DefinedFor(a: Arch, n: nat)
    decreases n
  {
    hide Defined, IsaStep;
    n == 0 || (Defined(a) && DefinedFor(IsaStep(a), n - 1))
  }

  ghost function IsaSteps(a: Arch, n: nat): Arch
    decreases n
  {
    hide IsaStep;
    if n == 0 then a else IsaSteps(IsaStep(a), n - 1)
  }

  lemma {:induction false} StepsCompose(a: Arch, m: nat, n: nat)
    requires DefinedFor(a, m + n)
    ensures DefinedFor(a, m) && DefinedFor(IsaSteps(a, m), n) && IsaSteps(IsaSteps(a, m), n) == IsaSteps(a, m + n)
    decreases m
  {
    hide Defined, IsaStep;
    if m > 0 {
      StepsCompose(IsaStep(a), m - 1, n);
    }
  }

  lemma {:induction false} OneMoreStep(a: Arch, n: nat)
    ensures IsaSteps(a, n + 1) == IsaStep(IsaSteps(a, n))
    ensures DefinedFor(a, n + 1) <==> DefinedFor(a, n) && Defined(IsaSteps(a, n))
    decreases n
  {
    hide Defined, IsaStep;
    if n > 0 {
      OneMoreStep(IsaStep(a), n - 1);
    }
  }

  lemma NoStep(a: Arch)
    ensures IsaSteps(a, 0) == a && DefinedFor(a, 0)
  {
  }

  // ----- Quiet runs -----

  /** The control module writes no register, no pc and no fault in this clock. */
  predicate Quiet(cm: Control) {
    !cm.pcWe && !cm.regfile.enable && !cm.fault.enable
  }

  predicate QuietRun(inputs: seq<SysIn>) {
    forall k :: 0 <= k < |inputs| ==> Quiet(inputs[k].cm)
  }

  lemma QuietStep(s: Sys, i: SysIn)
    requires SysInv(s) && SlaveLegal(s.slave, i.mv) && Quiet(i.cm) && (Retires(s, i) ==> Defined(Abs(s)))
    ensures SysInv(SysNext(s, i))
    ensures Abs(SysNext(s, i)) == if Retires(s, i) then IsaStep(Abs(s)) else Abs(s)
  {
    QuietIsUndisturbed(s, i);
    RefinementStep(s, i);
  }

  lemma QuietIsUndisturbed(s: Sys, i: SysIn)
    requires Quiet(i.cm)
    ensures Undisturbed(s, i) && External(Abs(s), s, i) == Abs(s)
  {
  }

  lemma RetiredSplits(s: Sys, inputs: seq<SysIn>, n: Sys, rest: seq<SysIn>)
    requires inputs != [] && n == SysNext(s, inputs[0]) && rest == inputs[1..]
    ensures Totals(s, inputs).retired == Count(Retires(s, inputs[0])) + Totals(n, rest).retired
  {
  }

  lemma RunHead(s: Sys, inputs: seq<SysIn>, n: Sys, rest: seq<SysIn>)
    requires inputs != [] && n == SysNext(s, inputs[0]) && rest == inputs[1..]
    ensures Run(s, inputs) == Run(n, rest)
  {
  }

  /** A quiet run takes as many reference steps as it retires instructions. */
  lemma {:induction false} QuietRunSteps(s: Sys, inputs: seq<SysIn>)
    requires SysInv(s) && SlaveLegalRun(s, inputs) && QuietRun(inputs) && DefinedFor(Abs(s), Totals(s, inputs).retired)
    ensures SysInv(Run(s, inputs)) && Abs(Run(s, inputs)) == IsaSteps(Abs(s), Totals(s, inputs).retired)
    decreases |inputs|
  {
    hide SysNext, SysInv, Abs, SlaveLegal, Quiet, Retires, Run, Totals, SlaveLegalRun, Defined, IsaStep;
    if inputs == [] {
      EmptyRun(s);
    } else {
      var n, rest := SysNext(s, inputs[0]), inputs[1..];
      LegalHead(s, inputs, n, rest);
      RetiredSplits(s, inputs, n, rest);
      RunHead(s, inputs, n, rest);
      QuietStep(s, inputs[0]);
      QuietRunSteps(n, rest);
    }
  }

  lemma EmptyRun(s: Sys)
    ensures Run(s, []) == s && Totals(s, []) == Tally(0, 0, 0, 0, 0, 0, 0, 0)
  {
  }

  lemma SysInvHandshake(s: Sys)
    requires SysInv(s)
    ensures HandshakeInv(s)
  {
  }

  /** Between boundaries: exactly the released instructions, one reference step each. */
  lemma ReleasedAreSteps(s: Sys, inputs: seq<SysIn>)
    requires SysInv(s) && SlaveLegalRun(s, inputs) && QuietRun(inputs)
    requires Boundary(s.core) && Boundary(Run(s, inputs).core)
    requires DefinedFor(Abs(s), Totals(s, inputs).released)
    ensures SysInv(Run(s, inputs)) && Abs(Run(s, inputs)) == IsaSteps(Abs(s), Totals(s, inputs).released)
  {
    hide SysInv, Abs, Run, Totals, SlaveLegalRun, HandshakeInv, DefinedFor, IsaSteps;
    SysInvHandshake(s);
    BetweenBoundaries(s, inputs);
    QuietRunSteps(s, inputs);
  }

  // ----- Stalled runs -----

  predicate StalledRun(inputs: seq<SysIn>) {
    forall k :: 0 <= k < |inputs| ==> inputs[k].cm.pcStall
  }

  lemma StalledStays(s: Sys, i: SysIn)
    requires Boundary(s.core) && i.cm.pcStall && TokenInv(s.core)
    ensures Boundary(SysNext(s, i).core)
  {
  }

  lemma BoundaryRank(c: CoreRegs, wt: Waits, limit: nat)
    requires TokenInv(c) && Boundary(c)
    ensures Rank(c, wt, limit) == 0
  {
  }

  /** Stalled for long enough, the core drains and stays between instructions. */
  lemma {:induction false} Drains(s: Sys, wt: Waits, inputs: seq<SysIn>, limit: nat)
    requires TokenInv(s.core) && Prompt(s, wt, inputs, limit) && StalledRun(inputs)
    requires |inputs| >= Rank(s.core, wt, limit)
    ensures Boundary(Run(s, inputs).core)
    decreases |inputs|
  {
    hide SysNext, WaitsNext, SysBus, Rank, TokenInv, Run, Prompt, Boundary;
    if inputs == [] {
      EmptyRun(s);
      if !Boundary(s.core) {
        RankPositive(s.core, wt, limit);
      }
    } else {
      var i, n, rest := inputs[0], SysNext(s, inputs[0]), inputs[1..];
      var wt' := WaitsNext(wt, SysBus(s, i), i.mv);
      PromptHead(s, wt, inputs, limit, n, rest, wt');
      TokenKept(s, i, n);
      if Boundary(s.core) {
        StalledStays(s, i);
        BoundaryRank(n.core, wt', limit);
      } else {
        RankFalls(s, i, wt, limit);
      }
      RunHead(s, inputs, n, rest);
      Drains(n, wt', rest, limit);
    }
  }

  lemma ReleasedHead(s: Sys, inputs: seq<SysIn>, n: Sys, rest: seq<SysIn>)
    requires inputs != [] && n == SysNext(s, inputs[0]) && rest == inputs[1..]
    ensures Totals(s, inputs).released == Count(Releases(s, inputs[0])) + Totals(n, rest).released
  {
  }

  lemma {:induction false} StalledReleasesNothing(s: Sys, inputs: seq<SysIn>)
    requires StalledRun(inputs)
    ensures Totals(s, inputs).released == 0
    decreases |inputs|
  {
    hide SysNext, Totals;
    if inputs == [] {
      EmptyRun(s);
    } else {
      ReleasedHead(s, inputs, SysNext(s, inputs[0]), inputs[1..]);
      StalledReleasesNothing(SysNext(s, inputs[0]), inputs[1..]);
    }
  }

  /** A stalled, quiet run finishes the instruction in flight, if any, and does nothing else. */
  lemma StoppedRun(s: Sys, wt: Waits, inputs: seq<SysIn>, limit: nat)
    requires SysInv(s) && SlaveLegalRun(s, inputs) && QuietRun(inputs) && StalledRun(inputs)
    requires Prompt(s, wt, inputs, limit) && |inputs| >= 9 * (limit + 1) && DefinedFor(Abs(s), Owed(s))
    ensures SysInv(Run(s, inputs)) && Boundary(Run(s, inputs).core)
    ensures Abs(Run(s, inputs)) == IsaSteps(Abs(s), Owed(s))
  {
    hide SysNext, SysInv, Abs, Run, Totals, SlaveLegalRun, DefinedFor, IsaSteps, TokenInv, LatchesMatch,
      Boundary, Owed, Prompt, Rank;
    SysInvHandshake(s);
    RankBound(s.core, wt, limit);
    Drains(s, wt, inputs, limit);
    StalledReleasesNothing(s, inputs);
    RunBalanced(s, inputs);
    BoundaryIsIdle(Run(s, inputs));
    QuietRunSteps(s, inputs);
  }

  /** Between instructions and stalled, nothing changes for as long as the stall lasts, however slow the memory. */
  lemma Frozen(s: Sys, inputs: seq<SysIn>)
    requires SysInv(s) && SlaveLegalRun(s, inputs) && QuietRun(inputs) && StalledRun(inputs) && Boundary(s.core)
    ensures SysInv(Run(s, inputs)) && Boundary(Run(s, inputs).core) && Abs(Run(s, inputs)) == Abs(s)
  {
    hide SysNext, SysInv, Abs, Run, Totals, SlaveLegalRun, TokenInv, LatchesMatch, Boundary, Owed, Defined,
      IsaStep;
    SysInvHandshake(s);
    StalledReleasesNothing(s, inputs);
    StaysParked(s, inputs);
    BetweenBoundaries(s, inputs);
    QuietRunSteps(s, inputs);
  }

  lemma {:induction false} StaysParked(s: Sys, inputs: seq<SysIn>)
    requires TokenInv(s.core) && Boundary(s.core) && StalledRun(inputs)
    ensures Boundary(Run(s, inputs).core)
    decreases |inputs|
  {
    hide SysNext, Run, TokenInv, Boundary;
    if inputs == [] {
      EmptyRun(s);
    } else {
      var n, rest := SysNext(s, inputs[0]), inputs[1..];
      StalledStays(s, inputs[0]);
      TokenKept(s, inputs[0], n);
      RunHead(s, inputs, n, rest);
      StaysParked(n, rest);
    }
  }
}
