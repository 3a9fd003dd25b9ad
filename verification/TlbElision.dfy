/**
  The per-CPU flush elision of `CpuMmuFastState` (os/src/cpu.rs): when a return
  to user mode may skip the TLB flush, over every sequence of calls.
*/
module TlbElision {

  /** The fields of `CpuMmuFastState`. */
  datatype Mmu = Mmu(
    token: nat, dirty: bool, space: nat, generation: nat, instructionSpace: nat, instructionGeneration: nat)

  datatype Op =
    | SwapToken(token: nat)
    | Take
    | Mark
    | Observe(space: nat, generation: nat)
    | Instruction(space: nat, generation: nat)
    | Fill // the walker caches a translation of the observed address space

  const BOOT: Mmu := Mmu(0, true, 0, 0, 0, 0)

  /** The two assertions: generations of one address space never regress. */
  predicate Allowed(m: Mmu, op: Op) {
    && (op.Observe? ==> m.space != op.space || m.generation <= op.generation)
    && (op.Instruction? ==> m.instructionSpace != op.space || m.instructionGeneration <= op.generation)
  }

  function Apply(m: Mmu, op: Op): Mmu {
    match op
    case SwapToken(t) => m.(token := t)
    case Take => m.(dirty := false)
    case Mark => m.(dirty := true)
    case Observe(s, g) => m.(space := s, generation := g, dirty := m.dirty || m.space != s || m.generation < g)
    case Instruction(s, g) => m.(instructionSpace := s, instructionGeneration := g)
    case Fill => m
  }

  /** The answer of `instruction_barrier_required`. */
  predicate NeedsBarrier(m: Mmu, space: nat, generation: nat) {
    m.instructionSpace != space || m.instructionGeneration < generation
  }

  class CpuMmuFastState {
    var lastReturnUserToken: nat
    var returnTlbDirty: bool
    var observedAddressSpaceId: nat
    var observedTlbGeneration: nat
    var observedInstructionSpaceId: nat
    var observedInstructionGeneration: nat

    ghost function View(): Mmu
      reads this
    {
      Mmu(lastReturnUserToken, returnTlbDirty, observedAddressSpaceId, observedTlbGeneration,
          observedInstructionSpaceId, observedInstructionGeneration)
    }

    constructor ()
      ensures View() == BOOT
    {
      lastReturnUserToken, returnTlbDirty := 0, true;
      observedAddressSpaceId, observedTlbGeneration := 0, 0;
      observedInstructionSpaceId, observedInstructionGeneration := 0, 0;
    }

    method SwapLastReturnUserToken(token: nat) returns (previous: nat)
      modifies this
      ensures previous == old(View()).token && View() == Apply(old(View()), SwapToken(token))
    {
      previous := lastReturnUserToken;
      lastReturnUserToken := token;
    }

    method TakeReturnTlbDirty() returns (flush: bool)
      modifies this
      ensures flush == old(View()).dirty && View() == Apply(old(View()), Take)
    {
      flush := returnTlbDirty;
      returnTlbDirty := false;
    }

    method MarkReturnTlbDirty()
      modifies this
      ensures View() == Apply(old(View()), Mark)
    {
      returnTlbDirty := true;
    }

    /** `ok` is false when the assertion fires; the swaps have happened by then. */
    method ObserveAddressSpace(id: nat, generation: nat) returns (ok: bool)
      modifies this
      ensures ok == Allowed(old(View()), Observe(id, generation))
      ensures ok ==> View() == Apply(old(View()), Observe(id, generation))
      ensures !ok ==> View() == old(View()).(space := id, generation := generation)
    {
      var previousId := observedAddressSpaceId;
      observedAddressSpaceId := id;
      var previousGeneration := observedTlbGeneration;
      observedTlbGeneration := generation;
      if !(previousId != id || previousGeneration <= generation) { return false; }
      if previousId != id || previousGeneration < generation { MarkReturnTlbDirty(); }
      ok := true;
    }

    method InstructionBarrierRequired(id: nat, generation: nat) returns (ok: bool, required: bool)
      modifies this
      ensures ok == Allowed(old(View()), Instruction(id, generation))
      ensures View() == Apply(old(View()), Instruction(id, generation))
      ensures required == NeedsBarrier(old(View()), id, generation)
    {
      var previousId := observedInstructionSpaceId;
      observedInstructionSpaceId := id;
      var previousGeneration := observedInstructionGeneration;
      observedInstructionGeneration := generation;
      ok := previousId != id || previousGeneration <= generation;
      required := previousId != id || previousGeneration < generation;
    }
  }

  // ------------------------------------------------------------------
  // Runs with a translation cache
  // ------------------------------------------------------------------

  /** A cached translation is known by the address space and generation it was filled from. */
  datatype Cpu = Cpu(mmu: Mmu, tlb: set<(nat, nat)>)

  /** `Take` answers whether to flush, and the caller does. */
  function Exec(c: Cpu, op: Op): Cpu {
    Cpu(Apply(c.mmu, op),
        match op
        case Take => if c.mmu.dirty then {} else c.tlb
        case Fill => c.tlb + {(c.mmu.space, c.mmu.generation)}
        case _ => c.tlb)
  }

  /** Any stale translations may be cached at boot. */
  function Run(boot: set<(nat, nat)>, ops: seq<Op>): Cpu {
    if ops == [] then Cpu(BOOT, boot) else Exec(Run(boot, ops[..|ops| - 1]), ops[|ops| - 1])
  }

  /** No assertion fires along the way. */
  predicate Legal(boot: set<(nat, nat)>, ops: seq<Op>) {
    ops == [] || (Legal(boot, ops[..|ops| - 1]) && Allowed(Run(boot, ops[..|ops| - 1]).mmu, ops[|ops| - 1]))
  }

  /** The pair most recently observed, from the history alone. */
  function Observed(ops: seq<Op>): (nat, nat) {
    if ops == [] then (0, 0)
    else
      match ops[|ops| - 1]
      case Observe(s, g) => (s, g)
      case _ => Observed(ops[..|ops| - 1])
  }

  /** After the flush decision at `k` nothing was marked and only the same pair was observed. */
  ghost predicate QuietSince(ops: seq<Op>, k: nat) {
    && k < |ops| && ops[k].Take?
    && forall i | k < i < |ops| ::
         !ops[i].Mark? && (ops[i].Observe? ==> (ops[i].space, ops[i].generation) == Observed(ops[..k + 1]))
  }

  lemma {:induction false} ObservedIsHeld(boot: set<(nat, nat)>, ops: seq<Op>)
    ensures Observed(ops) == (Run(boot, ops).mmu.space, Run(boot, ops).mmu.generation)
    decreases |ops|
  {
    if ops != [] { ObservedIsHeld(boot, ops[..|ops| - 1]); }
  }

  lemma {:induction false} QuietKeepsObserved(ops: seq<Op>, k: nat)
    requires QuietSince(ops, k)
    ensures Observed(ops) == Observed(ops[..k + 1])
    decreases |ops|
  {
    if k + 1 == |ops| {
      assert ops[..k + 1] == ops;
    } else {
      var prev := ops[..|ops| - 1];
      assert prev[..k + 1] == ops[..k + 1];
      QuietKeepsObserved(prev, k);
    }
  }

  lemma QuietStep(ops: seq<Op>, k: nat)
    requires ops != [] && k < |ops| - 1
    ensures var prev, last := ops[..|ops| - 1], ops[|ops| - 1];
      QuietSince(ops, k) <==>
        QuietSince(prev, k) && !last.Mark? && (last.Observe? ==> (last.space, last.generation) == Observed(prev))
  {
    var prev, last := ops[..|ops| - 1], ops[|ops| - 1];
    assert prev[..k + 1] == ops[..k + 1];
    if QuietSince(prev, k) { QuietKeepsObserved(prev, k); }
    if QuietSince(ops, k) { assert QuietSince(prev, k); }
    forall i | k < i < |ops| ensures i < |prev| ==> ops[i] == prev[i] {}
  }

  /**
    The flush is skipped in exactly the right cases: a take returns false if and
    only if some earlier take was followed by no mark and no new observation.
  */
  lemma {:induction false} ElisionIsExact(boot: set<(nat, nat)>, ops: seq<Op>)
    requires Legal(boot, ops)
    ensures !Run(boot, ops).mmu.dirty <==> exists k: nat :: QuietSince(ops, k)
    decreases |ops|
  {
    if ops != [] {
      var prev, last := ops[..|ops| - 1], ops[|ops| - 1];
      ElisionIsExact(boot, prev);
      ObservedIsHeld(boot, prev);
      if last.Take? {
        assert QuietSince(ops, |ops| - 1);
      } else {
        forall k: nat | k < |ops| ensures
          QuietSince(ops, k) <==>
            QuietSince(prev, k) && !last.Mark? && (last.Observe? ==> (last.space, last.generation) == Observed(prev))
        {
          if k < |ops| - 1 { QuietStep(ops, k); }
        }
      }
    }
  }

  /** A clean CPU caches translations of the observed space and generation only. */
  lemma {:induction false} CleanMeansFresh(boot: set<(nat, nat)>, ops: seq<Op>)
    requires Legal(boot, ops) && !Run(boot, ops).mmu.dirty
    ensures Run(boot, ops).tlb <= {Observed(ops)}
    decreases |ops|
  {
    var prev, last := ops[..|ops| - 1], ops[|ops| - 1];
    ObservedIsHeld(boot, prev);
    ObservedIsHeld(boot, ops);
    if !Run(boot, prev).mmu.dirty { CleanMeansFresh(boot, prev); }
  }

  /** After every take, flushed or elided, no translation of another space or an older generation is left. */
  lemma NoStaleTranslation(boot: set<(nat, nat)>, ops: seq<Op>, entry: (nat, nat))
    requires Legal(boot, ops + [Take]) && entry in Run(boot, ops + [Take]).tlb
    ensures entry == Observed(ops)
  {
    var all := ops + [Take];
    assert all[..|all| - 1] == ops;
    CleanMeansFresh(boot, all);
  }

  /** Without the assertion a regressed generation would be served stale: observe 1, take, fill, observe 0, take. */
  lemma RegressionWouldBeStale()
    ensures var ops := [Observe(7, 1), Take, Fill, Observe(7, 0)];
      !Legal({}, ops) && (7, 1) in Run({}, ops + [Take]).tlb && Observed(ops) == (7, 0)
  {
    var ops := [Observe(7, 1), Take, Fill, Observe(7, 0), Take];
    var o4, o3, o2, o1 := ops[..4], ops[..3], ops[..2], ops[..1];
    assert o4[..3] == o3 && o3[..2] == o2 && o2[..1] == o1 && o1[..0] == [];
    assert Run({}, o1).mmu.generation == 1;
    assert (7, 1) in Run({}, o3).tlb && !Run({}, o3).mmu.dirty;
    assert (7, 1) in Run({}, o4).tlb && !Run({}, o4).mmu.dirty;
    assert [Observe(7, 1), Take, Fill, Observe(7, 0)] == o4 && o4 + [Take] == ops;
  }

  // --- instruction barriers ---

  /** The pair of the last instruction check, from the history alone. */
  function Checked(ops: seq<Op>): (nat, nat) {
    if ops == [] then (0, 0)
    else
      match ops[|ops| - 1]
      case Instruction(s, g) => (s, g)
      case _ => Checked(ops[..|ops| - 1])
  }

  lemma {:induction false} CheckedIsHeld(boot: set<(nat, nat)>, ops: seq<Op>)
    ensures Checked(ops) == (Run(boot, ops).mmu.instructionSpace, Run(boot, ops).mmu.instructionGeneration)
    decreases |ops|
  {
    if ops != [] { CheckedIsHeld(boot, ops[..|ops| - 1]); }
  }

  /** After any calls, the check answers that no barrier is needed exactly when the
      check before it named the same pair (none counts as (0, 0)). */
  lemma BarrierSkippedExactly(boot: set<(nat, nat)>, ops: seq<Op>, space: nat, generation: nat)
    requires Allowed(Run(boot, ops).mmu, Instruction(space, generation))
    ensures !NeedsBarrier(Run(boot, ops).mmu, space, generation) <==> Checked(ops) == (space, generation)
  {
    CheckedIsHeld(boot, ops);
  }

  /** The check at `k` asked for a barrier for this pair, and every check since named the same pair. */
  ghost predicate FencedSince(boot: set<(nat, nat)>, ops: seq<Op>, k: nat, space: nat, generation: nat) {
    && k < |ops| && ops[k] == Instruction(space, generation)
    && NeedsBarrier(Run(boot, ops[..k]).mmu, space, generation)
    && forall i | k < i < |ops| :: ops[i].Instruction? ==> ops[i] == Instruction(space, generation)
  }

  /** Address spaces are numbered from 1, so a skipped barrier was run before, and no other pair was checked since. */
  lemma {:induction false} SkippedBarrierWasRun(boot: set<(nat, nat)>, ops: seq<Op>, space: nat, generation: nat)
    requires Legal(boot, ops) && space != 0 && Checked(ops) == (space, generation)
    ensures exists k: nat :: FencedSince(boot, ops, k, space, generation)
    decreases |ops|
  {
    var prev, last := ops[..|ops| - 1], ops[|ops| - 1];
    if Checked(prev) == (space, generation) {
      SkippedBarrierWasRun(boot, prev, space, generation);
      var k: nat :| FencedSince(boot, prev, k, space, generation);
      assert ops[..k] == prev[..k];
      assert FencedSince(boot, ops, k, space, generation);
    } else {
      BarrierSkippedExactly(boot, prev, space, generation);
      assert ops[..|ops| - 1] == prev;
      assert FencedSince(boot, ops, |ops| - 1, space, generation);
    }
  }
}
