/**
  Need-resched signalling: the flags of os/src/cpu.rs and the accounting of
  os/src/perf.rs, as a state machine over any number of calls in flight at
  once (several per CPU, because interrupt handlers also wake tasks).
*/
module NeedResched {
  import opened Common

  /** The published real-time priority of a CPU's current task; `None` is `usize::MAX`. */
  datatype Priority = NoCurrent | Current(rt: nat)

  /** `wake_should_preempt`. */
  predicate ShouldPreempt(current: Priority, wakee: nat) {
    wakee != 0 && (current.NoCurrent? || current.rt == 0 || wakee > current.rt)
  }

  /** A call in flight and the operation it performs next. */
  datatype Op =
    | LoadPriority(cpu: nat, wakee: nat, remote: bool)
    | SwapFlag(cpu: nat, remote: bool)
    | RecordCheck(cpu: nat, remote: bool, needed: bool, newly: bool)
    | RecordRequest(cpu: nat, remote: bool, newly: bool)
    | RecordKind(cpu: nat, remote: bool, newly: bool)
    | SendIpi(cpu: nat)
    | RecordIpi
    | TakeFlag(cpu: nat)
    | RecordConsumed
    | Done

  datatype Counters = Counters(checks: nat, requests: nat, sets: nat, coalesced: nat, ipis: nat, consumed: nat)

  datatype State = State(flags: seq<bool>, current: seq<Priority>, ops: seq<Op>, perf: Counters, panicked: bool)

  /** `Wake` is `wake_scheduler_cpu_for_task`, `Take` is `take_scheduler_need_resched`,
      `Publish` a change of the running task; `Step` is told whether the IPI was accepted. */
  datatype Label =
    | Wake(cpu: nat, wakee: nat, remote: bool)
    | Take(cpu: nat)
    | Publish(cpu: nat, priority: Priority)
    | Step(k: nat, accepted: bool)

  predicate Boot(st: State) {
    && |st.flags| == |st.current|
    && (forall c | 0 <= c < |st.flags| :: !st.flags[c])
    && st.ops == [] && st.perf == Counters(0, 0, 0, 0, 0, 0) && !st.panicked
  }

  predicate OpOk(op: Op, n: nat) {
    match op
    case RecordIpi => true
    case RecordConsumed => true
    case Done => true
    case _ => op.cpu < n
  }

  predicate Enabled(st: State, l: Label) {
    && |st.flags| == |st.current| && !st.panicked
    && match l
       case Wake(c, _, _) => c < |st.flags|
       case Take(c) => c < |st.flags|
       case Publish(c, _) => c < |st.flags|
       case Step(k, _) => k < |st.ops| && OpOk(st.ops[k], |st.flags|) && !st.ops[k].Done?
  }

  function Apply(st: State, l: Label): State
    requires Enabled(st, l)
  {
    match l
    case Wake(c, wakee, remote) => st.(ops := st.ops + [LoadPriority(c, wakee, remote)])
    case Take(c) => st.(ops := st.ops + [TakeFlag(c)])
    case Publish(c, p) => st.(current := st.current[c := p])
    case Step(k, accepted) => ApplyStep(st, k, accepted)
  }

  function Next(st: State, k: nat, op: Op): State
    requires k < |st.ops|
  {
    st.(ops := st.ops[k := op])
  }

  function ApplyStep(st: State, k: nat, accepted: bool): State
    requires Enabled(st, Step(k, accepted))
  {
    var p := st.perf;
    match st.ops[k]
    case LoadPriority(c, wakee, remote) =>
      if ShouldPreempt(st.current[c], wakee) then Next(st, k, SwapFlag(c, remote))
      else Next(st, k, RecordCheck(c, remote, false, false))
    case SwapFlag(c, remote) =>
      Next(st, k, RecordCheck(c, remote, true, !st.flags[c])).(flags := st.flags[c := true])
    case RecordCheck(c, remote, needed, newly) =>
      Next(st, k, if needed then RecordRequest(c, remote, newly) else Done).(perf := p.(checks := p.checks + 1))
    case RecordRequest(c, remote, newly) =>
      Next(st, k, RecordKind(c, remote, newly)).(perf := p.(requests := p.requests + 1))
    case RecordKind(c, remote, newly) =>
      Next(st, k, if newly && remote then SendIpi(c) else Done)
        .(perf := if newly then p.(sets := p.sets + 1) else p.(coalesced := p.coalesced + 1))
    case SendIpi(c) =>
      if accepted then Next(st, k, RecordIpi)
      else Next(st, k, Done).(flags := st.flags[c := false], panicked := true)
    case RecordIpi => Next(st, k, Done).(perf := p.(ipis := p.ipis + 1))
    case TakeFlag(c) =>
      Next(st, k, if st.flags[c] then RecordConsumed else Done).(flags := st.flags[c := false])
    case RecordConsumed => Next(st, k, Done).(perf := p.(consumed := p.consumed + 1))
  }

  ghost predicate Leads(a: State, labels: seq<Label>, b: State)
    decreases |labels|
  {
    if labels == [] then a == b
    else Enabled(a, labels[0]) && Leads(Apply(a, labels[0]), labels[1..], b)
  }

  // --- what is still in flight ---

  /** Flag transitions whose set has not been recorded. */
  function SetInFlight(op: Op): int {
    Count((op.RecordCheck? || op.RecordRequest? || op.RecordKind?) && op.newly)
  }

  /** Requests recorded whose kind, set or coalesced, has not been. */
  function KindInFlight(op: Op): int { Count(op.RecordKind?) }

  /** Recorded sets that may still record an IPI. */
  function IpiInFlight(op: Op): int { Count(op.SendIpi? || op.RecordIpi?) }

  function ConsumeInFlight(op: Op): int { Count(op.RecordConsumed?) }

  /** The total of a weight over the calls in flight. */
  function Total(w: Op -> int, ops: seq<Op>): int {
    if ops == [] then 0 else Total(w, ops[..|ops| - 1]) + w(ops[|ops| - 1])
  }

  function FlagsSet(flags: seq<bool>): int {
    if flags == [] then 0 else FlagsSet(flags[..|flags| - 1]) + Count(flags[|flags| - 1])
  }

  ghost predicate Inv(st: State) {
    && |st.flags| == |st.current|
    && (forall k | 0 <= k < |st.ops| :: OpOk(st.ops[k], |st.flags|))
    && (forall k | 0 <= k < |st.ops| && st.ops[k].RecordCheck? :: st.ops[k].newly ==> st.ops[k].needed)
    && (!st.panicked ==> Balanced(st))
  }

  ghost predicate Balanced(st: State) {
    && st.perf.sets + Total(SetInFlight, st.ops) == st.perf.consumed + Total(ConsumeInFlight, st.ops) + FlagsSet(st.flags)
    && st.perf.requests == st.perf.sets + st.perf.coalesced + Total(KindInFlight, st.ops)
    && st.perf.ipis + Total(IpiInFlight, st.ops) <= st.perf.sets
  }

  lemma {:induction false} TotalUpdate(w: Op -> int, ops: seq<Op>, k: nat, op: Op)
    requires k < |ops|
    ensures Total(w, ops[k := op]) == Total(w, ops) - w(ops[k]) + w(op)
  {
    var last := |ops| - 1;
    if k == last {
      assert ops[k := op][..last] == ops[..last];
    } else {
      TotalUpdate(w, ops[..last], k, op);
      assert ops[k := op][..last] == ops[..last][k := op];
    }
  }

  lemma TotalsUpdate(ops: seq<Op>, k: nat, op: Op)
    requires k < |ops|
    ensures Total(SetInFlight, ops[k := op]) == Total(SetInFlight, ops) - SetInFlight(ops[k]) + SetInFlight(op)
    ensures Total(KindInFlight, ops[k := op]) == Total(KindInFlight, ops) - KindInFlight(ops[k]) + KindInFlight(op)
    ensures Total(IpiInFlight, ops[k := op]) == Total(IpiInFlight, ops) - IpiInFlight(ops[k]) + IpiInFlight(op)
    ensures Total(ConsumeInFlight, ops[k := op]) ==
            Total(ConsumeInFlight, ops) - ConsumeInFlight(ops[k]) + ConsumeInFlight(op)
  {
    TotalUpdate(SetInFlight, ops, k, op);
    TotalUpdate(KindInFlight, ops, k, op);
    TotalUpdate(IpiInFlight, ops, k, op);
    TotalUpdate(ConsumeInFlight, ops, k, op);
  }

  lemma {:induction false} FlagUpdate(flags: seq<bool>, c: nat, b: bool)
    requires c < |flags|
    ensures FlagsSet(flags[c := b]) == FlagsSet(flags) - Count(flags[c]) + Count(b)
  {
    var last := |flags| - 1;
    if c == last {
      assert flags[c := b][..last] == flags[..last];
    } else {
      FlagUpdate(flags[..last], c, b);
      assert flags[c := b][..last] == flags[..last][c := b];
    }
  }

  lemma ArrivalKeeps(st: State, op: Op)
    requires Inv(st) && OpOk(op, |st.flags|) && (op.LoadPriority? || op.TakeFlag?)
    ensures Inv(st.(ops := st.ops + [op]))
  {
    assert (st.ops + [op])[..|st.ops|] == st.ops;
  }

  lemma OpStaysOk(st: State, k: nat, accepted: bool)
    requires Inv(st) && Enabled(st, Step(k, accepted))
    ensures var st' := ApplyStep(st, k, accepted);
      && |st'.flags| == |st.flags| && st'.current == st.current && |st'.ops| == |st.ops|
      && st'.ops == st.ops[k := st'.ops[k]] && OpOk(st'.ops[k], |st.flags|)
      && (st'.ops[k].RecordCheck? ==> (st'.ops[k].newly ==> st'.ops[k].needed))
  {
  }

  lemma FlagOpBalances(st: State, k: nat, accepted: bool)
    requires Inv(st) && Enabled(st, Step(k, accepted)) && (st.ops[k].SwapFlag? || st.ops[k].TakeFlag?)
    ensures Balanced(ApplyStep(st, k, accepted))
  {
    var st' := ApplyStep(st, k, accepted);
    TotalsUpdate(st.ops, k, st'.ops[k]);
    FlagUpdate(st.flags, st.ops[k].cpu, st.ops[k].SwapFlag?);
  }

  lemma OtherOpBalances(st: State, k: nat, accepted: bool)
    requires Inv(st) && Enabled(st, Step(k, accepted)) && !st.ops[k].SwapFlag? && !st.ops[k].TakeFlag?
    requires !ApplyStep(st, k, accepted).panicked
    ensures Balanced(ApplyStep(st, k, accepted))
  {
    hide OpOk, FlagsSet;
    var st' := ApplyStep(st, k, accepted);
    TotalsUpdate(st.ops, k, st'.ops[k]);
  }

  lemma OpKeeps(st: State, k: nat, accepted: bool)
    requires Inv(st) && Enabled(st, Step(k, accepted))
    ensures Inv(Apply(st, Step(k, accepted)))
  {
    OpStaysOk(st, k, accepted);
    if st.ops[k].SwapFlag? || st.ops[k].TakeFlag? { FlagOpBalances(st, k, accepted); }
    else if !ApplyStep(st, k, accepted).panicked { OtherOpBalances(st, k, accepted); }
  }

  lemma StepKeeps(st: State, l: Label)
    requires Inv(st) && Enabled(st, l)
    ensures Inv(Apply(st, l))
  {
    match l
    case Wake(c, wakee, remote) => ArrivalKeeps(st, LoadPriority(c, wakee, remote));
    case Take(c) => ArrivalKeeps(st, TakeFlag(c));
    case Publish(_, _) =>
    case Step(k, accepted) => OpKeeps(st, k, accepted);
  }

  lemma {:induction false} NoFlags(flags: seq<bool>)
    requires forall c | 0 <= c < |flags| :: !flags[c]
    ensures FlagsSet(flags) == 0
  {
    if flags != [] { NoFlags(flags[..|flags| - 1]); }
  }

  lemma {:induction false} RunKeeps(a: State, labels: seq<Label>, b: State)
    requires Inv(a) && Leads(a, labels, b)
    ensures Inv(b)
    decreases |labels|
  {
    if labels != [] {
      StepKeeps(a, labels[0]);
      RunKeeps(Apply(a, labels[0]), labels[1..], b);
    }
  }

  /** In every reachable non-panicking state: recorded and in-flight sets are what was
      consumed, what is being consumed and what is still set; requests split into sets and
      coalesced; and need-resched IPIs never exceed sets. */
  lemma Conservation(a: State, labels: seq<Label>, b: State)
    requires Boot(a) && Leads(a, labels, b) && !b.panicked
    ensures b.perf.sets + Total(SetInFlight, b.ops) == b.perf.consumed + Total(ConsumeInFlight, b.ops) + FlagsSet(b.flags)
    ensures b.perf.requests == b.perf.sets + b.perf.coalesced + Total(KindInFlight, b.ops)
    ensures b.perf.ipis <= b.perf.ipis + Total(IpiInFlight, b.ops) <= b.perf.sets
  {
    NoFlags(a.flags);
    RunKeeps(a, labels, b);
    TotalNonNegative(IpiInFlight, b.ops);
  }

  lemma {:induction false} TotalNonNegative(w: Op -> int, ops: seq<Op>)
    requires forall op :: w(op) >= 0
    ensures Total(w, ops) >= 0
  {
    if ops != [] { TotalNonNegative(w, ops[..|ops| - 1]); }
  }

  lemma {:induction false} NothingInFlight(w: Op -> int, ops: seq<Op>)
    requires w(Done) == 0 && forall k | 0 <= k < |ops| :: ops[k] == Done
    ensures Total(w, ops) == 0
  {
    if ops != [] { NothingInFlight(w, ops[..|ops| - 1]); }
  }

  /** Once every call has returned the counters alone balance. */
  lemma SettledConservation(a: State, labels: seq<Label>, b: State)
    requires Boot(a) && Leads(a, labels, b) && !b.panicked && forall k | 0 <= k < |b.ops| :: b.ops[k] == Done
    ensures b.perf.sets == b.perf.consumed + FlagsSet(b.flags)
    ensures b.perf.requests == b.perf.sets + b.perf.coalesced
    ensures b.perf.ipis <= b.perf.sets
  {
    Conservation(a, labels, b);
    NothingInFlight(SetInFlight, b.ops);
    NothingInFlight(ConsumeInFlight, b.ops);
    NothingInFlight(KindInFlight, b.ops);
  }
}
