/**
  What the need-resched counters of os/src/perf.rs count: every counter equals
  the number of the events it stands for, over every interleaving of calls.
*/
module NeedReschedCounts {
  import opened Common
  import opened NeedResched

  // --- the decision ---

  /** The priority of a CPU's current task; running none, or a normal task, is priority 0. */
  function Level(current: Priority): nat {
    match current case NoCurrent => 0 case Current(rt) => rt
  }

  /** A wake preempts exactly a CPU whose current task has a lower real-time priority. */
  lemma PreemptsExactly(current: Priority, wakee: nat)
    ensures ShouldPreempt(current, wakee) <==> wakee > Level(current)
  {
  }

  // --- events of a run ---

  /** A wake decides to preempt. */
  predicate Urgent(st: State, l: Label)
    requires Enabled(st, l)
  {
    l.Step? && st.ops[l.k].LoadPriority? && st.ops[l.k].wakee > Level(st.current[st.ops[l.k].cpu])
  }

  /** A wake finds the flag of `c` clear and raises it. */
  predicate Raises(st: State, l: Label, c: nat)
    requires Enabled(st, l)
  {
    l.Step? && st.ops[l.k].SwapFlag? && st.ops[l.k].cpu == c && !st.flags[c]
  }

  /** Likewise, and `c` is not the CPU it runs on. */
  predicate RaisesRemote(st: State, l: Label, c: nat)
    requires Enabled(st, l)
  {
    Raises(st, l, c) && st.ops[l.k].remote
  }

  /** The scheduler of `c` takes a flag that is set. */
  predicate Consumes(st: State, l: Label, c: nat)
    requires Enabled(st, l)
  {
    l.Step? && st.ops[l.k].TakeFlag? && st.ops[l.k].cpu == c && st.flags[c]
  }

  predicate Sends(st: State, l: Label, c: nat)
    requires Enabled(st, l)
  {
    l.Step? && st.ops[l.k] == SendIpi(c)
  }

  /** What can be counted; the last four of one CPU. */
  datatype Kind =
    | Calls | Urgents | AnyRaised | AnyCoalesced | AnyRaisedRemote | AnyConsumed
    | Raised(c: nat) | RaisedRemote(c: nat) | Consumed(c: nat) | Sent(c: nat)

  function Occurs(st: State, l: Label, kind: Kind): nat
    requires Enabled(st, l)
  {
    match kind
    case Calls => Count(l.Wake?)
    case Urgents => Count(Urgent(st, l))
    case AnyRaised => Count(l.Step? && st.ops[l.k].SwapFlag? && !st.flags[st.ops[l.k].cpu])
    case AnyCoalesced => Count(l.Step? && st.ops[l.k].SwapFlag? && st.flags[st.ops[l.k].cpu])
    case AnyRaisedRemote =>
      Count(l.Step? && st.ops[l.k].SwapFlag? && !st.flags[st.ops[l.k].cpu] && st.ops[l.k].remote)
    case AnyConsumed => Count(l.Step? && st.ops[l.k].TakeFlag? && st.flags[st.ops[l.k].cpu])
    case Raised(c) => Count(Raises(st, l, c))
    case RaisedRemote(c) => Count(RaisesRemote(st, l, c))
    case Consumed(c) => Count(Consumes(st, l, c))
    case Sent(c) => Count(Sends(st, l, c))
  }

  /** How often it occurs in a run. */
  function Times(a: State, labels: seq<Label>, kind: Kind): nat
    decreases |labels|
  {
    if labels == [] || !Enabled(a, labels[0]) then 0
    else Occurs(a, labels[0], kind) + Times(Apply(a, labels[0]), labels[1..], kind)
  }

  // --- one CPU ---

  lemma OnePerCpu(st: State, l: Label, c: nat)
    requires Enabled(st, l) && !Apply(st, l).panicked && c < |st.flags|
    ensures |Apply(st, l).flags| == |st.flags|
    ensures Count(Apply(st, l).flags[c]) + Occurs(st, l, Consumed(c)) == Count(st.flags[c]) + Occurs(st, l, Raised(c))
  {
  }

  lemma {:induction false} FlagRun(a: State, labels: seq<Label>, b: State, c: nat)
    requires Leads(a, labels, b) && !b.panicked && c < |a.flags|
    ensures |b.flags| == |a.flags| && !a.panicked
    ensures Count(b.flags[c]) + Times(a, labels, Consumed(c)) == Count(a.flags[c]) + Times(a, labels, Raised(c))
    decreases |labels|
  {
    hide Apply, Occurs;
    if labels != [] {
      var mid := Apply(a, labels[0]);
      SameFlags(a, labels[0]);
      FlagRun(mid, labels[1..], b, c);
      OnePerCpu(a, labels[0], c);
    }
  }

  lemma SameFlags(st: State, l: Label)
    requires Enabled(st, l)
    ensures |Apply(st, l).flags| == |st.flags| && |Apply(st, l).current| == |st.current|
  {
  }

  /** A flag is raised exactly when one more wake found it clear than takes found it set. */
  lemma FlagIsBalance(a: State, labels: seq<Label>, b: State, c: nat)
    requires Boot(a) && Leads(a, labels, b) && !b.panicked && c < |a.flags|
    ensures c < |b.flags| && Times(a, labels, Raised(c)) == Times(a, labels, Consumed(c)) + Count(b.flags[c])
  {
    FlagRun(a, labels, b, c);
  }

  // --- the counters ---

  datatype Counter = CheckCounter | RequestCounter | SetCounter | CoalescedCounter | IpiCounter | ConsumedCounter

  function Reading(p: Counters, which: Counter): nat {
    match which
    case CheckCounter => p.checks
    case RequestCounter => p.requests
    case SetCounter => p.sets
    case CoalescedCounter => p.coalesced
    case IpiCounter => p.ipis
    case ConsumedCounter => p.consumed
  }

  /** The event a counter stands for. */
  function Meaning(which: Counter): Kind {
    match which
    case CheckCounter => Calls
    case RequestCounter => Urgents
    case SetCounter => AnyRaised
    case CoalescedCounter => AnyCoalesced
    case IpiCounter => AnyRaisedRemote
    case ConsumedCounter => AnyConsumed
  }

  /** The event has happened in this call and its counter has not been raised yet. */
  predicate Due(op: Op, which: Counter) {
    match which
    case CheckCounter => op.LoadPriority? || op.SwapFlag? || op.RecordCheck?
    case RequestCounter => op.SwapFlag? || (op.RecordCheck? && op.needed) || op.RecordRequest?
    case SetCounter => (op.RecordCheck? || op.RecordRequest? || op.RecordKind?) && op.newly
    case CoalescedCounter => ((op.RecordCheck? && op.needed) || op.RecordRequest? || op.RecordKind?) && !op.newly
    case IpiCounter =>
      ((op.RecordCheck? || op.RecordRequest? || op.RecordKind?) && op.newly && op.remote) || op.SendIpi? || op.RecordIpi?
    case ConsumedCounter => op.RecordConsumed?
  }

  function AllDue(ops: seq<Op>, which: Counter): nat {
    if ops == [] then 0 else AllDue(ops[..|ops| - 1], which) + Count(Due(ops[|ops| - 1], which))
  }

  lemma {:induction false} DueUpdate(ops: seq<Op>, k: nat, op: Op, which: Counter)
    requires k < |ops|
    ensures AllDue(ops[k := op], which) + Count(Due(ops[k], which)) == AllDue(ops, which) + Count(Due(op, which))
  {
    hide Due;
    var last := |ops| - 1;
    if k == last {
      assert ops[k := op][..last] == ops[..last];
    } else {
      DueUpdate(ops[..last], k, op, which);
      assert ops[k := op][..last] == ops[..last][k := op];
    }
  }

  lemma DueMore(ops: seq<Op>, op: Op, which: Counter)
    ensures AllDue(ops + [op], which) == AllDue(ops, which) + Count(Due(op, which))
  {
    assert (ops + [op])[..|ops|] == ops;
  }

  /** What the next operation of a call does to its counters, told from the call alone. */
  predicate Settles(st: State, k: nat, accepted: bool, which: Counter)
    requires Enabled(st, Step(k, accepted))
  {
    var st' := Apply(st, Step(k, accepted));
    && |st'.ops| == |st.ops| && st'.ops == st.ops[k := st'.ops[k]]
    && Reading(st'.perf, which) + Count(Due(st'.ops[k], which)) ==
         Reading(st.perf, which) + Count(Due(st.ops[k], which)) + Occurs(st, Step(k, accepted), Meaning(which))
  }

  lemma FlagSettles(st: State, k: nat, accepted: bool, which: Counter)
    requires Enabled(st, Step(k, accepted)) && (st.ops[k].LoadPriority? || st.ops[k].SwapFlag? || st.ops[k].TakeFlag?)
    ensures Settles(st, k, accepted, which)
  {
  }

  lemma RecordSettles(st: State, k: nat, accepted: bool, which: Counter)
    requires Enabled(st, Step(k, accepted)) && !st.ops[k].LoadPriority? && !st.ops[k].SwapFlag? && !st.ops[k].TakeFlag?
    requires !Apply(st, Step(k, accepted)).panicked && (st.ops[k].RecordCheck? && st.ops[k].newly ==> st.ops[k].needed)
    ensures Settles(st, k, accepted, which)
  {
  }

  lemma OwnDue(st: State, k: nat, accepted: bool, which: Counter)
    requires Inv(st) && Enabled(st, Step(k, accepted)) && !Apply(st, Step(k, accepted)).panicked
    ensures Settles(st, k, accepted, which)
  {
    hide Apply, Settles;
    if st.ops[k].LoadPriority? || st.ops[k].SwapFlag? || st.ops[k].TakeFlag? { FlagSettles(st, k, accepted, which); }
    else { RecordSettles(st, k, accepted, which); }
  }

  lemma CountCall(st: State, l: Label, which: Counter)
    requires Enabled(st, l) && !l.Step?
    ensures Reading(Apply(st, l).perf, which) + AllDue(Apply(st, l).ops, which) ==
      Reading(st.perf, which) + AllDue(st.ops, which) + Occurs(st, l, Meaning(which))
  {
    hide AllDue;
    match l
    case Wake(c, wakee, remote) => DueMore(st.ops, LoadPriority(c, wakee, remote), which);
    case Take(c) => DueMore(st.ops, TakeFlag(c), which);
    case Publish(_, _) =>
  }

  lemma CountStep(st: State, l: Label, which: Counter)
    requires Inv(st) && Enabled(st, l) && !Apply(st, l).panicked
    ensures Reading(Apply(st, l).perf, which) + AllDue(Apply(st, l).ops, which) ==
      Reading(st.perf, which) + AllDue(st.ops, which) + Occurs(st, l, Meaning(which))
  {
    hide Apply, Inv, AllDue, Due, Reading, Occurs, Meaning;
    if l.Step? {
      OwnDue(st, l.k, l.accepted, which);
      DueUpdate(st.ops, l.k, Apply(st, l).ops[l.k], which);
    } else {
      CountCall(st, l, which);
    }
  }

  lemma {:induction false} CountRun(a: State, labels: seq<Label>, b: State, which: Counter)
    requires Inv(a) && Leads(a, labels, b) && !b.panicked
    ensures !a.panicked
    ensures Reading(b.perf, which) + AllDue(b.ops, which) ==
      Reading(a.perf, which) + AllDue(a.ops, which) + Times(a, labels, Meaning(which))
    decreases |labels|
  {
    hide Apply, Inv, Occurs, AllDue, Reading;
    if labels != [] {
      StepKeeps(a, labels[0]);
      CountRun(Apply(a, labels[0]), labels[1..], b, which);
      CountStep(a, labels[0], which);
    }
  }

  /** At every moment a counter and the events it has yet to count make up the events so far. */
  lemma CountersAreExact(a: State, labels: seq<Label>, b: State, which: Counter)
    requires Boot(a) && Leads(a, labels, b) && !b.panicked
    ensures Reading(b.perf, which) + AllDue(b.ops, which) == Times(a, labels, Meaning(which))
  {
    NoFlags(a.flags);
    CountRun(a, labels, b, which);
  }

  lemma {:induction false} NothingDue(ops: seq<Op>, which: Counter)
    requires forall k | 0 <= k < |ops| :: ops[k] == Done
    ensures AllDue(ops, which) == 0
  {
    if ops != [] { NothingDue(ops[..|ops| - 1], which); }
  }

  /** Once all calls have returned: checks are wakes, requests the wakes that outranked the current task, sets
      and coalesced the flags they found clear and set, IPIs the flags raised on another CPU, consumed the
      flags taken. */
  lemma SettledCounters(a: State, labels: seq<Label>, b: State)
    requires Boot(a) && Leads(a, labels, b) && !b.panicked && forall k | 0 <= k < |b.ops| :: b.ops[k] == Done
    ensures b.perf == Counters(
      Times(a, labels, Calls), Times(a, labels, Urgents), Times(a, labels, AnyRaised),
      Times(a, labels, AnyCoalesced), Times(a, labels, AnyRaisedRemote), Times(a, labels, AnyConsumed))
  {
    hide Times, AllDue;
    forall which ensures Reading(b.perf, which) == Times(a, labels, Meaning(which)) {
      CountersAreExact(a, labels, b, which);
      NothingDue(b.ops, which);
    }
    assert Reading(b.perf, CheckCounter) == b.perf.checks && Reading(b.perf, RequestCounter) == b.perf.requests;
    assert Reading(b.perf, SetCounter) == b.perf.sets && Reading(b.perf, CoalescedCounter) == b.perf.coalesced;
    assert Reading(b.perf, IpiCounter) == b.perf.ipis && Reading(b.perf, ConsumedCounter) == b.perf.consumed;
  }

  // --- interrupts to one CPU ---

  /** The call raised the flag of another CPU `c` and still has to interrupt it. */
  predicate Owes(op: Op, c: nat) {
    ((op.RecordCheck? || op.RecordRequest? || op.RecordKind?) && op.newly && op.remote && op.cpu == c) || op == SendIpi(c)
  }

  function AllOwed(ops: seq<Op>, c: nat): nat {
    if ops == [] then 0 else AllOwed(ops[..|ops| - 1], c) + Count(Owes(ops[|ops| - 1], c))
  }

  lemma {:induction false} OwedUpdate(ops: seq<Op>, k: nat, op: Op, c: nat)
    requires k < |ops|
    ensures AllOwed(ops[k := op], c) + Count(Owes(ops[k], c)) == AllOwed(ops, c) + Count(Owes(op, c))
  {
    hide Owes;
    var last := |ops| - 1;
    if k == last {
      assert ops[k := op][..last] == ops[..last];
    } else {
      OwedUpdate(ops[..last], k, op, c);
      assert ops[k := op][..last] == ops[..last][k := op];
    }
  }

  lemma OwedMore(ops: seq<Op>, op: Op, c: nat)
    ensures AllOwed(ops + [op], c) == AllOwed(ops, c) + Count(Owes(op, c))
  {
    assert (ops + [op])[..|ops|] == ops;
  }

  lemma OwnOwed(st: State, k: nat, accepted: bool, c: nat)
    requires Inv(st) && Enabled(st, Step(k, accepted))
    ensures var st' := Apply(st, Step(k, accepted));
      && |st'.ops| == |st.ops| && st'.ops == st.ops[k := st'.ops[k]]
      && Count(Owes(st'.ops[k], c)) + Occurs(st, Step(k, accepted), Sent(c)) ==
           Count(Owes(st.ops[k], c)) + Occurs(st, Step(k, accepted), RaisedRemote(c))
  {
    OpStaysOk(st, k, accepted);
  }

  lemma OwedStep(st: State, l: Label, c: nat)
    requires Inv(st) && Enabled(st, l)
    ensures AllOwed(Apply(st, l).ops, c) + Occurs(st, l, Sent(c)) == AllOwed(st.ops, c) + Occurs(st, l, RaisedRemote(c))
  {
    match l
    case Wake(c', wakee, remote) => OwedMore(st.ops, LoadPriority(c', wakee, remote), c);
    case Take(c') => OwedMore(st.ops, TakeFlag(c'), c);
    case Publish(_, _) =>
    case Step(k, accepted) =>
      OwnOwed(st, k, accepted, c);
      OwedUpdate(st.ops, k, Apply(st, l).ops[k], c);
  }

  /** Every flag raised on another CPU is followed by exactly one `send_ipi` to that CPU, sent or still owed. */
  lemma {:induction false} InterruptsRaised(a: State, labels: seq<Label>, b: State, c: nat)
    requires Inv(a) && Leads(a, labels, b)
    ensures Times(a, labels, Sent(c)) + AllOwed(b.ops, c) == Times(a, labels, RaisedRemote(c)) + AllOwed(a.ops, c)
    decreases |labels|
  {
    hide Apply, Inv, Occurs, AllOwed;
    if labels != [] {
      StepKeeps(a, labels[0]);
      OwedStep(a, labels[0], c);
      InterruptsRaised(Apply(a, labels[0]), labels[1..], b, c);
    }
  }

  /** The flag of `c` is set right behind every wake that outranks the current task and reaches it. */
  lemma UrgentWakeSetsFlag(st: State, k: nat, x: bool)
    requires Enabled(st, Step(k, x)) && st.ops[k].LoadPriority? && st.ops[k].wakee > Level(st.current[st.ops[k].cpu])
    ensures var st' := Apply(st, Step(k, x));
      && Enabled(st', Step(k, x)) && st'.flags == st.flags
      && Apply(st', Step(k, x)).flags == st.flags[st.ops[k].cpu := true]
  {
  }

  /** Any other wake leaves the flags and every counter but `checks` alone. */
  lemma QuietWake(st: State, k: nat, x: bool)
    requires Enabled(st, Step(k, x)) && st.ops[k].LoadPriority? && st.ops[k].wakee <= Level(st.current[st.ops[k].cpu])
    ensures var st' := Apply(st, Step(k, x));
      && Enabled(st', Step(k, x)) && var st2 := Apply(st', Step(k, x));
        st2 == st.(ops := st.ops[k := Done], perf := st.perf.(checks := st.perf.checks + 1))
  {
  }

  /** Only a rejected IPI panics; the flag it was to announce is withdrawn first. */
  lemma RejectionPanics(st: State, l: Label)
    requires Enabled(st, l)
    ensures var st' := Apply(st, l);
      && (st'.panicked <==> l.Step? && st.ops[l.k].SendIpi? && !l.accepted)
      && (st'.panicked ==> st'.flags == st.flags[st.ops[l.k].cpu := false] && st'.perf == st.perf)
  {
  }
}
