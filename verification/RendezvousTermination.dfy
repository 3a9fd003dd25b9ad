/**
  Termination of the rendezvous.  Once no new submission starts and no IPI
  arrives for another purpose, a fair run finishes every submission if and only
  if no target is ever stranded; a stranded one keeps its sources waiting.
*/
module RendezvousTermination {
  import opened Rendezvous
  import opened RendezvousInvariant
  import opened RendezvousSteps
  import opened RendezvousSafety
  import opened RendezvousWakeup
  import opened RendezvousLiveness

  datatype Tick = Rest | Do(l: Label)

  ghost predicate Step(a: State, tick: Tick, b: State) {
    match tick
    case Rest => b == a
    case Do(l) => Enabled(a, l) && SystemLabel(l) && b == Apply(a, l)
  }

  /** An infinite run, rejected IPIs included, in which no submission starts, no IPI
      arrives for another purpose and nobody panics. */
  ghost predicate Settling(run: nat -> State, trace: nat -> Tick) {
    && (forall i: nat :: run(i).stopped == map[])
    && (forall i: nat :: Step(run(i), trace(i), run(i + 1)))
  }

  ghost predicate SettlingRun(run: nat -> State, trace: nat -> Tick) {
    Inv(run(0)) && Settling(run, trace)
  }

  /** CPU `c` has something to do: it is busy, or idle with an IPI latched. */
  predicate Ready(S: Source, T: Target) {
    !S.pc.Idle? || T.frames != [] || T.ipi
  }

  ghost predicate ServedAt(run: nat -> State, trace: nat -> Tick, c: nat, j: nat) {
    || (trace(j).Do? && trace(j).l.cpu == c)
    || (Shape(run(j)) && c < run(j).n && !Ready(run(j).src[c], run(j).tgt[c]))
  }

  /** Weak fairness: no CPU that stays ready is passed over forever. */
  ghost predicate Fair(run: nat -> State, trace: nat -> Tick) {
    forall i: nat, c: nat :: c < run(0).n ==> ServedFrom(run, trace, c, i)
  }

  ghost predicate ServedFrom(run: nat -> State, trace: nat -> Tick, c: nat, i: nat) {
    exists j: nat :: i <= j && ServedAt(run, trace, c, j)
  }

  lemma {:induction false} RunInv(run: nat -> State, trace: nat -> Tick, i: nat)
    requires SettlingRun(run, trace)
    ensures Inv(run(i)) && run(i).n == run(0).n
    decreases i
  {
    if i > 0 {
      RunInv(run, trace, i - 1);
      assert Step(run(i - 1), trace(i - 1), run(i));
      match trace(i - 1)
      case Rest =>
      case Do(l) => StepKeeps(run(i - 1), l);
    }
  }

  // --- without a stranded target every submission finishes ---

  /** From `i`, where `c` can progress, up to the moment `c` is served, somebody lowers the measure. */
  lemma {:induction false} SomebodyProgresses(run: nat -> State, trace: nat -> Tick, i: nat, c: nat, j: nat) returns (k: nat)
    requires SettlingRun(run, trace) && i <= j && ServedAt(run, trace, c, j)
    requires Shape(run(i)) && c < run(i).n && CanProgress(run(i).src[c], run(i).tgt[c])
    ensures Shape(run(k)) && i <= k && Below(Work(run(k)), Work(run(i)))
    decreases j - i
  {
    hide Inv, Apply, Work, Below;
    RunInv(run, trace, i);
    var a, b := run(i), run(i + 1);
    assert Step(a, trace(i), b) && b.stopped == a.stopped == map[];
    match trace(i)
    case Rest =>
      if i == j { assert false; }
      k := SomebodyProgresses(run, trace, i + 1, c, j);
    case Do(l) =>
      if Progress(a, l) {
        ProgressFalls(a, l);
        k := i + 1;
      } else {
        SpinKeeps(a, l);
        SpinnerIsWaiting(a, l);
        ProgressPersists(a, l, c);
        RunInv(run, trace, i + 1);
        k := SomebodyProgresses(run, trace, i + 1, c, j);
      }
  }

  /** A spinning CPU is in its wait loop, so it withdraws nothing. */
  lemma SpinnerIsWaiting(st: State, l: Label)
    requires Inv(st) && Enabled(st, l) && SystemLabel(l) && !Progress(st, l)
    ensures Waiting(st.src[l.cpu].pc)
  {
    At(st, l.cpu, l.cpu);
  }

  lemma {:induction false} Finishes(run: nat -> State, trace: nat -> Tick, i: nat) returns (k: nat)
    requires SettlingRun(run, trace) && Fair(run, trace) && Shape(run(i))
    requires forall j: nat :: !AnyStranded(run(j))
    ensures i <= k && Shape(run(k)) && Quiet(run(k))
    decreases Work(run(i)).submit, Work(run(i)).pending, Work(run(i)).ipis, Work(run(i)).frames, Work(run(i)).waits
  {
    RunInv(run, trace, i);
    if Quiet(run(i)) { return i; }
    var c := DeadlockFree(run(i));
    assert ServedFrom(run, trace, c, i);
    var j: nat :| i <= j && ServedAt(run, trace, c, j);
    var m := SomebodyProgresses(run, trace, i, c, j);
    k := Finishes(run, trace, m);
  }

  // --- with one it never does ---

  /** Who waits for a stranded target waits forever. */
  lemma {:induction false} StrandedForever(run: nat -> State, trace: nat -> Tick, i: nat, j: nat, t: nat, s: nat)
    requires SettlingRun(run, trace) && i <= j
    requires Shape(run(i)) && t < run(i).n && Stranded(run(i), t) && s in run(i).tgt[t].pending
    ensures Shape(run(j)) && t < run(j).n && Stranded(run(j), t) && s in run(j).tgt[t].pending
    ensures s < run(j).n && !run(j).src[s].pc.Idle?
    decreases j
  {
    RunInv(run, trace, j);
    if i < j {
      StrandedForever(run, trace, i, j - 1, t, s);
      RunInv(run, trace, j - 1);
      assert Step(run(j - 1), trace(j - 1), run(j));
      match trace(j - 1)
      case Rest =>
      case Do(l) => StrandedStays(run(j - 1), l, t, s);
    }
    PendingIsWaiting(run(j), s, t);
  }

  ghost predicate AllIdle(st: State)
    requires Shape(st)
  {
    forall c | 0 <= c < st.n :: st.src[c].pc.Idle?
  }

  /** Once every submission has returned none is outstanding again, so nobody can be stranded. */
  lemma {:induction false} StaysIdle(run: nat -> State, trace: nat -> Tick, k: nat, j: nat)
    requires SettlingRun(run, trace) && k <= j && Shape(run(k)) && AllIdle(run(k))
    ensures Shape(run(j)) && AllIdle(run(j)) && !AnyStranded(run(j))
    decreases j
  {
    hide AnyStranded, Apply;
    RunInv(run, trace, j);
    if k < j {
      StaysIdle(run, trace, k, j - 1);
      RunInv(run, trace, j - 1);
      assert Step(run(j - 1), trace(j - 1), run(j));
      match trace(j - 1)
      case Rest =>
      case Do(l) => IdleStep(run(j - 1), l);
    }
    NoneStranded(run(j));
  }

  lemma IdleStep(st: State, l: Label)
    requires Inv(st) && Enabled(st, l) && SystemLabel(l) && AllIdle(st) && Shape(Apply(st, l))
    ensures AllIdle(Apply(st, l))
  {
    forall c | 0 <= c < st.n && c != l.cpu ensures Apply(st, l).src[c].pc.Idle? {
      OthersLeave(st, l, c);
    }
  }

  lemma NoneStranded(st: State)
    requires Inv(st) && Shape(st) && AllIdle(st)
    ensures !AnyStranded(st)
  {
    forall t | 0 <= t < st.n ensures !Stranded(st, t) {
      if s :| s in st.tgt[t].pending {
        PendingIsWaiting(st, s, t);
        assert false;
      }
    }
  }

  /**
    From any reachable state, whatever IPIs are rejected before or during it, a
    fair settling run reaches a state in which every submission has returned
    and every handler has finished, if and only if no target is ever stranded.
  */
  lemma FinishesExactly(n: nat, online: set<nat>, run: nat -> State, trace: nat -> Tick)
    requires Reachable(n, online, run(0)) && Settling(run, trace) && Fair(run, trace)
    ensures (exists k: nat :: Shape(run(k)) && Quiet(run(k))) <==> forall i: nat :: !AnyStranded(run(i))
  {
    Always(n, online, run(0));
    if forall i: nat :: !AnyStranded(run(i)) {
      var k := Finishes(run, trace, 0);
    }
    if k: nat :| Shape(run(k)) && Quiet(run(k)) {
      forall i: nat ensures !AnyStranded(run(i)) {
        if i >= k { StaysIdle(run, trace, k, i); } else { NotBefore(run, trace, i, k); }
      }
    }
  }

  lemma NotBefore(run: nat -> State, trace: nat -> Tick, i: nat, k: nat)
    requires SettlingRun(run, trace) && i <= k && Shape(run(k)) && Quiet(run(k))
    ensures !AnyStranded(run(i))
  {
    if AnyStranded(run(i)) {
      var t :| 0 <= t < run(i).n && Stranded(run(i), t);
      var s :| s in run(i).tgt[t].pending;
      StrandedForever(run, trace, i, k, t, s);
    }
  }

  // --- runs that keep every mask covered ---

  /** No withdrawal of the run leaves others in a mask with nobody to answer for them. */
  ghost predicate KeepsCover(run: nat -> State, trace: nat -> Tick) {
    forall i: nat :: trace(i).Do? && Enabled(run(i), trace(i).l) ==> !Loses(run(i), trace(i).l)
  }

  lemma {:induction false} RunCovered(run: nat -> State, trace: nat -> Tick, i: nat)
    requires SettlingRun(run, trace) && AllCovered(run(0)) && KeepsCover(run, trace)
    ensures Shape(run(i)) && AllCovered(run(i))
    decreases i
  {
    if i > 0 {
      RunInv(run, trace, i - 1);
      RunCovered(run, trace, i - 1);
      assert Step(run(i - 1), trace(i - 1), run(i));
      match trace(i - 1)
      case Rest =>
      case Do(l) => CoverStep(run(i - 1), l);
    }
  }

  /** Rejected IPIs do no harm as long as no withdrawal loses the cover of a mask:
      then every fair run finishes every submission. */
  lemma EverySubmissionFinishes(
    n: nat, online: set<nat>, labels: seq<Label>, run: nat -> State, trace: nat -> Tick)
    requires (forall c | c in online :: c < n) && Leads(Boot(n, online), labels, run(0)) && NoLoss(Boot(n, online), labels)
    requires Settling(run, trace) && Fair(run, trace) && KeepsCover(run, trace)
    ensures exists k: nat :: Shape(run(k)) && Quiet(run(k))
  {
    BootInv(n, online);
    CoverRun(Boot(n, online), labels, run(0));
    forall i: nat ensures !AnyStranded(run(i)) {
      RunCovered(run, trace, i);
      CoveredIsNotStranded(run(i));
    }
    var k := Finishes(run, trace, 0);
  }

  /** In particular when every IPI is accepted. */
  lemma AcceptedRunsFinish(
    n: nat, online: set<nat>, labels: seq<Label>, run: nat -> State, trace: nat -> Tick)
    requires (forall c | c in online :: c < n) && Leads(Boot(n, online), labels, run(0)) && NoRejection(labels)
    requires Settling(run, trace) && Fair(run, trace)
    requires forall i: nat :: trace(i).Do? && trace(i).l.Main? ==> trace(i).l.sendError.Accepted?
    ensures exists k: nat :: Shape(run(k)) && Quiet(run(k))
  {
    BootInv(n, online);
    WakeRun(Boot(n, online), labels, run(0));
    forall i: nat ensures !AnyStranded(run(i)) {
      AcceptedRun(run, trace, i);
      CoveredIsNotStranded(run(i));
    }
    var k := Finishes(run, trace, 0);
  }

  lemma {:induction false} AcceptedRun(run: nat -> State, trace: nat -> Tick, i: nat)
    requires SettlingRun(run, trace) && WakeInv(run(0))
    requires forall j: nat :: trace(j).Do? && trace(j).l.Main? ==> trace(j).l.sendError.Accepted?
    ensures Shape(run(i)) && WakeInv(run(i))
    decreases i
  {
    if i > 0 {
      RunInv(run, trace, i - 1);
      AcceptedRun(run, trace, i - 1);
      assert Step(run(i - 1), trace(i - 1), run(i));
      match trace(i - 1)
      case Rest =>
      case Do(l) => WakeStep(run(i - 1), l);
    }
  }

  ghost predicate NeverReturns(run: nat -> State, c: nat) {
    forall j: nat :: c < |run(j).src| && !run(j).src[c].pc.Idle?
  }

  /** The run of `LostWakeupExample` strands CPU 2: however the CPUs go on, its submission never returns. */
  lemma LostWakeupIsForever() returns (labels: seq<Label>, st: State)
    ensures Leads(Boot(3, {0, 1, 2}), labels, st) && st.stopped == map[] && |st.src| == 3 && !st.src[2].pc.Idle?
    ensures forall run: nat -> State, trace: nat -> Tick :: Settling(run, trace) && run(0) == st ==> NeverReturns(run, 2)
  {
    labels, st := LostWakeupExample();
    BootInv(3, {0, 1, 2});
    RunKeeps(Boot(3, {0, 1, 2}), labels, st);
    forall run: nat -> State, trace: nat -> Tick | Settling(run, trace) && run(0) == st ensures NeverReturns(run, 2) {
      forall j: nat ensures 2 < |run(j).src| && !run(j).src[2].pc.Idle? {
        StrandedForever(run, trace, 0, j, 0, 2);
      }
    }
  }
}
