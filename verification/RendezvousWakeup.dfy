/**
  IPI coalescing: a source that finds the pending mask non-empty sends nothing
  and relies on somebody else's IPI.  While no IPI is rejected this never loses
  a wakeup; the rollback of a rejected IPI loses one exactly when another source
  is left in the mask and nobody else answers for it.  An idle target left like
  that is stranded: it stays so, and so do the submissions waiting for it.
*/
module RendezvousWakeup {
  import opened Rendezvous
  import opened RendezvousInvariant
  import opened RendezvousSteps
  import opened RendezvousSafety

  /** The source found the mask of `t` empty and has not finished its send. */
  predicate YetToSend(pc: Pc, t: nat) {
    pc.SendIpi? && pc.k == t
  }

  /** Its IPI was rejected and it has yet to withdraw from the mask. */
  predicate YetToWithdraw(pc: Pc, t: nat) {
    pc.RemovePending? && pc.k == t
  }

  /** The source answers for the mask of `t`: it has yet to send, or to withdraw after a rejected send. */
  predicate Pledged(pc: Pc, t: nat) {
    YetToSend(pc, t) || YetToWithdraw(pc, t)
  }

  /** An IPI is in flight to `t`, or an activation on `t` has its final, draining swap ahead. */
  predicate Stirred(T: Target) {
    T.ipi || T.frames != []
  }

  ghost predicate Covered(st: State, t: nat)
    requires Shape(st) && t < st.n
  {
    st.tgt[t].pending != {} ==>
      Stirred(st.tgt[t]) || exists s :: 0 <= s < st.n && Pledged(st.src[s].pc, t)
  }

  predicate Withdraws(st: State, l: Label, t: nat)
    requires Enabled(st, l)
  {
    l.Main? && YetToWithdraw(st.src[l.cpu].pc, t)
  }

  /** A pledge ends in an IPI, and what stirs the target stays until the mask is drained. */
  lemma KeptCover(st: State, st': State, t: nat)
    requires Shape(st) && Shape(st') && st'.n == st.n && t < st.n && Covered(st, t)
    requires st'.tgt[t].pending == {} || st.tgt[t].pending != {}
    requires Stirred(st.tgt[t]) ==> Stirred(st'.tgt[t]) || st'.tgt[t].pending == {}
    requires forall s | 0 <= s < st.n :: Pledged(st.src[s].pc, t) ==> Pledged(st'.src[s].pc, t) || Stirred(st'.tgt[t])
    ensures Covered(st', t)
  {
    if st'.tgt[t].pending != {} && !Stirred(st.tgt[t]) {
      var s :| 0 <= s < st.n && Pledged(st.src[s].pc, t);
      assert Pledged(st'.src[s].pc, t) || Stirred(st'.tgt[t]);
    }
  }

  lemma MainCovers(st: State, l: Label, t: nat)
    requires Inv(st) && Enabled(st, l) && l.Main? && t < st.n && Covered(st, t) && !Withdraws(st, l, t)
    ensures Shape(Apply(st, l)) && Covered(Apply(st, l), t)
  {
    var st', c := Apply(st, l), l.cpu;
    At(st, c, c);
    StepKeeps(st, l);
    if st.src[c].pc.InsertPending? && st.src[c].pc.k == t && st.tgt[t].pending == {} {
      assert Pledged(st'.src[c].pc, t);
    } else {
      KeptCover(st, st', t);
    }
  }

  lemma HandlerOnMask(st: State, l: Label, t: nat)
    requires Enabled(st, l) && l.Handler? && t < st.n
    ensures var st' := Apply(st, l);
      && st'.n == |st'.src| == |st'.tgt| == st.n
      && st'.tgt[t].pending <= st.tgt[t].pending
      && (Stirred(st.tgt[t]) ==> Stirred(st'.tgt[t]) || st'.tgt[t].pending == {})
      && forall s | 0 <= s < st.n :: Pledged(st'.src[s].pc, t) == Pledged(st.src[s].pc, t)
  {
    HandlerPledges(st, l, t);
    if l.cpu != t { OtherOnTarget(st, l, t); }
  }

  lemma HandlerPledges(st: State, l: Label, t: nat)
    requires Enabled(st, l) && l.Handler?
    ensures |Apply(st, l).src| == st.n
    ensures forall s | 0 <= s < st.n :: Pledged(Apply(st, l).src[s].pc, t) == Pledged(st.src[s].pc, t)
  {
  }

  lemma HandlerCovers(st: State, l: Label, t: nat)
    requires Inv(st) && Enabled(st, l) && l.Handler? && t < st.n && Covered(st, t)
    ensures Shape(Apply(st, l)) && Covered(Apply(st, l), t)
  {
    hide Inv, PairInv, Apply;
    var st' := Apply(st, l);
    StepKeeps(st, l);
    HandlerOnMask(st, l, t);
    At(st', l.cpu, t);
    KeptCover(st, st', t);
  }

  /** Every step except a withdrawal from the mask of `t` keeps the wakeup of `t`. */
  lemma OnlyWithdrawalLoses(st: State, l: Label, t: nat)
    requires Inv(st) && Enabled(st, l) && t < st.n && Covered(st, t) && !Withdraws(st, l, t)
    ensures Shape(Apply(st, l)) && Covered(Apply(st, l), t)
  {
    match l
    case Main(_, _, _) => MainCovers(st, l, t);
    case Handler(_) => HandlerCovers(st, l, t);
    case Start(_, _, _) =>
      At(st, l.cpu, l.cpu);
      KeptCover(st, Apply(st, l), t);
    case Spurious(_) => KeptCover(st, Apply(st, l), t);
    case Interrupt(_) => KeptCover(st, Apply(st, l), t);
  }

  /** The withdrawal keeps the cover exactly when it empties the mask, the target is
      stirred by an IPI or a handler, or another source still answers for the mask,
      be it with a send or with a withdrawal of its own. */
  lemma WithdrawalLosesExactly(st: State, l: Label, t: nat)
    requires Inv(st) && Enabled(st, l) && t < st.n && Withdraws(st, l, t)
    ensures Shape(Apply(st, l))
    ensures Covered(Apply(st, l), t) <==>
      || st.tgt[t].pending <= {l.cpu}
      || Stirred(st.tgt[t])
      || (exists s :: 0 <= s < st.n && s != l.cpu && Pledged(st.src[s].pc, t))
  {
    var st', c := Apply(st, l), l.cpu;
    StepKeeps(st, l);
    assert st'.tgt[t].pending == st.tgt[t].pending - {c};
    assert Stirred(st'.tgt[t]) == Stirred(st.tgt[t]) && !Pledged(st'.src[c].pc, t);
    assert forall s | 0 <= s < st.n && s != c :: st'.src[s] == st.src[s];
    if Covered(st', t) && st'.tgt[t].pending != {} && !Stirred(st.tgt[t]) {
      var s :| 0 <= s < st.n && Pledged(st'.src[s].pc, t);
      assert Pledged(st.src[s].pc, t);
    }
    if s :| 0 <= s < st.n && s != c && Pledged(st.src[s].pc, t) {
      assert Pledged(st'.src[s].pc, t);
    }
  }

  // --- stranded targets ---

  /** CPU `t` is idle with sources pending, and neither an IPI, a handler nor a pledged source is left to wake it. */
  ghost predicate Stranded(st: State, t: nat)
    requires Shape(st) && t < st.n
  {
    && st.tgt[t].pending != {} && !Stirred(st.tgt[t]) && st.src[t].pc.Idle?
    && forall s | 0 <= s < st.n :: !Pledged(st.src[s].pc, t)
  }

  ghost predicate AnyStranded(st: State) {
    Shape(st) && exists t :: 0 <= t < st.n && Stranded(st, t)
  }

  /** The kernel's own steps with the deadline not reached: no new call, no IPI for another purpose. */
  predicate SystemLabel(l: Label) {
    l.Interrupt? || l.Handler? || (l.Main? && !l.expired)
  }

  /** The step leaves `t` pending and unanswered: a withdrawal that is not the last
      one, from an idle target, or the return of `t` from its own submission. */
  ghost predicate Strands(st: State, l: Label, t: nat)
    requires Enabled(st, l) && t < st.n
  {
    && !Stirred(st.tgt[t]) && l.Main?
    && (forall s | 0 <= s < st.n && s != l.cpu :: !Pledged(st.src[s].pc, t))
    && if l.cpu == t then st.src[t].pc.ClearActive? && st.tgt[t].pending != {}
       else Withdraws(st, l, t) && st.src[t].pc.Idle? && !(st.tgt[t].pending <= {l.cpu})
  }

  predicate AtMask(pc: Pc) { pc.InsertPending? || pc.SendIpi? || pc.RemovePending? }

  /** Away from the masks a step of the main context touches no other CPU. */
  lemma AwayFromMasks(st: State, l: Label)
    requires Enabled(st, l) && l.Main? && !AtMask(st.src[l.cpu].pc)
    ensures var st' := Apply(st, l);
      && |st'.src| == |st'.tgt| == st.n
      && (forall s | 0 <= s < st.n && s != l.cpu :: st'.src[s] == st.src[s])
      && (forall t | 0 <= t < st.n && t != l.cpu :: st'.tgt[t] == st.tgt[t])
      && !st'.src[l.cpu].pc.SendIpi? && !st'.src[l.cpu].pc.RemovePending?
  {
  }

  /** What a step of another CPU's main context does to a target. */
  predicate TargetAfter(st: State, l: Label, t: nat, st': State)
    requires Enabled(st, l) && l.Main? && t < st.n && |st'.tgt| == st.n
  {
    var pc := st.src[l.cpu].pc;
    && st'.tgt[t].frames == st.tgt[t].frames
    && (st'.tgt[t].ipi <==> st.tgt[t].ipi || (YetToSend(pc, t) && l.sendError.Accepted?))
    && (if Withdraws(st, l, t) then st'.tgt[t].pending == st.tgt[t].pending - {l.cpu}
        else st.tgt[t].pending <= st'.tgt[t].pending)
    && (Inserting(pc, t) || st'.tgt[t].pending <= st.tgt[t].pending)
  }

  /** Which pledges to `t` it makes and keeps. */
  predicate PledgesAfter(st: State, l: Label, t: nat, st': State)
    requires Enabled(st, l) && l.Main? && t < st.n && |st'.src| == st.n
  {
    var pc := st.src[l.cpu].pc;
    && (forall s | 0 <= s < st.n && s != l.cpu :: st'.src[s] == st.src[s])
    && (Pledged(st'.src[l.cpu].pc, t) <==>
          (Inserting(pc, t) && st.tgt[t].pending == {}) || (YetToSend(pc, t) && l.sendError.Rejected?))
    && (l.sendError.Accepted? ==> !st'.src[l.cpu].pc.RemovePending?)
  }

  lemma MaskStep(st: State, l: Label, t: nat)
    requires Enabled(st, l) && l.Main? && t < st.n && l.cpu != t && AtMask(st.src[l.cpu].pc)
    ensures |Apply(st, l).src| == |Apply(st, l).tgt| == st.n
    ensures TargetAfter(st, l, t, Apply(st, l)) && PledgesAfter(st, l, t, Apply(st, l))
  {
  }

  lemma MainStep(st: State, l: Label, t: nat)
    requires Enabled(st, l) && l.Main? && t < st.n && l.cpu != t
    ensures |Apply(st, l).src| == |Apply(st, l).tgt| == st.n
    ensures TargetAfter(st, l, t, Apply(st, l)) && PledgesAfter(st, l, t, Apply(st, l))
  {
    hide Apply;
    if AtMask(st.src[l.cpu].pc) { MaskStep(st, l, t); } else { AwayFromMasks(st, l); }
  }

  /** A handler or an interrupt on another CPU does nothing to it. */
  lemma OtherOnTarget(st: State, l: Label, t: nat)
    requires Enabled(st, l) && (l.Handler? || l.Interrupt?) && t < st.n && l.cpu != t
    ensures var st' := Apply(st, l);
      && |st'.src| == |st'.tgt| == st.n && st'.tgt[t] == st.tgt[t]
      && (forall s | 0 <= s < st.n && s != l.cpu :: st'.src[s].pc == st.src[s].pc)
      && (Pledged(st'.src[l.cpu].pc, t) <==> Pledged(st.src[l.cpu].pc, t))
  {
  }

  lemma OtherStrands(st: State, l: Label, t: nat)
    requires Inv(st) && Enabled(st, l) && SystemLabel(l) && t < st.n && l.cpu != t
    ensures Shape(Apply(st, l)) && (Stranded(Apply(st, l), t) <==> Stranded(st, t) || Strands(st, l, t))
  {
    var st', c := Apply(st, l), l.cpu;
    StepKeeps(st, l);
    if !l.Main? {
      OtherOnTarget(st, l, t);
    } else {
      MainStep(st, l, t);
    }
  }

  lemma OwnFinish(st: State, l: Label, t: nat)
    requires Inv(st) && Enabled(st, l) && SystemLabel(l) && t < st.n && l.cpu == t
    requires st.src[t].pc.ClearActive? && l.Main?
    ensures Shape(Apply(st, l)) && (Stranded(Apply(st, l), t) <==> Strands(st, l, t))
  {
    hide Inv;
    var st' := Apply(st, l);
    At(st, t, t);
    StepKeeps(st, l);
    At(st', t, t);
    assert st'.tgt == st.tgt && forall s | 0 <= s < st.n && s != t :: st'.src[s] == st.src[s];
  }

  lemma MainStaysBusy(st: State, l: Label)
    requires Shape(st) && Enabled(st, l) && l.Main? && !st.src[l.cpu].pc.ClearActive? && Shape(Apply(st, l))
    ensures l.cpu < Apply(st, l).n && !Apply(st, l).src[l.cpu].pc.Idle?
  {
  }

  lemma HandlerStaysBusy(st: State, l: Label)
    requires Shape(st) && Enabled(st, l) && SystemLabel(l) && !l.Main? && Shape(Apply(st, l))
    ensures var st' := Apply(st, l);
      l.cpu < st'.n && (Stirred(st'.tgt[l.cpu]) || st'.tgt[l.cpu].pending == {} || !st'.src[l.cpu].pc.Idle?)
  {
  }

  lemma OwnBusy(st: State, l: Label, t: nat)
    requires Inv(st) && Enabled(st, l) && SystemLabel(l) && t < st.n && l.cpu == t
    requires !(st.src[t].pc.ClearActive? && l.Main?)
    ensures Shape(Apply(st, l)) && !Stranded(Apply(st, l), t)
  {
    hide Apply, PairInv;
    StepKeeps(st, l);
    if l.Main? { MainStaysBusy(st, l); } else { HandlerStaysBusy(st, l); }
  }

  lemma OwnStrands(st: State, l: Label, t: nat)
    requires Inv(st) && Enabled(st, l) && SystemLabel(l) && t < st.n && l.cpu == t
    ensures Shape(Apply(st, l)) && !Stranded(st, t) && (Stranded(Apply(st, l), t) <==> Strands(st, l, t))
  {
    hide Inv, Apply;
    At(st, t, t);
    if st.src[t].pc.ClearActive? && l.Main? { OwnFinish(st, l, t); } else { OwnBusy(st, l, t); }
  }

  /** When a system step leaves `t` stranded: it was, or the step withdraws the last
      answer for a mask others still wait in, or `t` goes idle under such a mask. */
  lemma StrandsExactly(st: State, l: Label, t: nat)
    requires Inv(st) && Enabled(st, l) && SystemLabel(l) && t < st.n
    ensures Shape(Apply(st, l)) && (Stranded(Apply(st, l), t) <==> Stranded(st, t) || Strands(st, l, t))
  {
    if l.cpu == t { OwnStrands(st, l, t); } else { OtherStrands(st, l, t); }
  }

  /** Nobody but a new call or an IPI for another purpose frees a stranded target, and who waits there keeps waiting. */
  lemma StrandedStays(st: State, l: Label, t: nat, s: nat)
    requires Inv(st) && Enabled(st, l) && SystemLabel(l) && t < st.n && Stranded(st, t) && s in st.tgt[t].pending
    ensures Shape(Apply(st, l)) && Stranded(Apply(st, l), t) && s in Apply(st, l).tgt[t].pending
  {
    StrandsExactly(st, l, t);
    if l.cpu == t { OwnStrands(st, l, t); }
    else if l.Main? { MainStep(st, l, t); }
    else { OtherOnTarget(st, l, t); }
  }

  /** A source in a pending mask is inside its submission. */
  lemma PendingIsWaiting(st: State, s: nat, t: nat)
    requires Inv(st) && t < st.n && s in st.tgt[t].pending
    ensures s < st.n && !st.src[s].pc.Idle? && t in st.src[s].remaining
  {
    At(st, t, t);
    At(st, s, t);
  }

  // --- runs in which no withdrawal loses the cover ---

  ghost predicate AllCovered(st: State)
    requires Shape(st)
  {
    forall t | 0 <= t < st.n :: Covered(st, t)
  }

  /** A withdrawal that leaves others in the mask with nobody to answer for them. */
  ghost predicate Loses(st: State, l: Label)
    requires Enabled(st, l)
  {
    exists t :: 0 <= t < st.n && Withdraws(st, l, t) && !(st.tgt[t].pending <= {l.cpu}) && !Stirred(st.tgt[t])
      && forall s | 0 <= s < st.n && s != l.cpu :: !Pledged(st.src[s].pc, t)
  }

  lemma CoverStep(st: State, l: Label)
    requires Inv(st) && Enabled(st, l) && AllCovered(st) && !Loses(st, l)
    ensures Shape(Apply(st, l)) && AllCovered(Apply(st, l))
  {
    var st' := Apply(st, l);
    StepKeeps(st, l);
    forall t | 0 <= t < st'.n ensures Covered(st', t) {
      if Withdraws(st, l, t) { WithdrawalLosesExactly(st, l, t); } else { OnlyWithdrawalLoses(st, l, t); }
    }
  }

  ghost predicate NoLoss(a: State, labels: seq<Label>)
    decreases |labels|
  {
    labels == [] || (Enabled(a, labels[0]) && !Loses(a, labels[0]) && NoLoss(Apply(a, labels[0]), labels[1..]))
  }

  lemma {:induction false} CoverRun(a: State, labels: seq<Label>, b: State)
    requires Inv(a) && AllCovered(a) && Leads(a, labels, b) && NoLoss(a, labels)
    ensures Inv(b) && AllCovered(b)
    decreases |labels|
  {
    if labels != [] {
      StepKeeps(a, labels[0]);
      CoverStep(a, labels[0]);
      CoverRun(Apply(a, labels[0]), labels[1..], b);
    }
  }

  lemma CoveredIsNotStranded(st: State)
    requires Shape(st) && AllCovered(st)
    ensures !AnyStranded(st)
  {
    forall t | 0 <= t < st.n ensures !Stranded(st, t) { assert Covered(st, t); }
  }

  // --- runs in which no IPI is rejected ---

  predicate NoRejection(labels: seq<Label>) {
    forall i | 0 <= i < |labels| && labels[i].Main? :: labels[i].sendError.Accepted?
  }

  ghost predicate WakeInv(st: State)
    requires Shape(st)
  {
    AllCovered(st) && forall s | 0 <= s < st.n :: !st.src[s].pc.RemovePending?
  }

  lemma WakeStep(st: State, l: Label)
    requires Inv(st) && WakeInv(st) && Enabled(st, l) && (l.Main? ==> l.sendError.Accepted?)
    ensures Shape(Apply(st, l)) && WakeInv(Apply(st, l))
  {
    var st' := Apply(st, l);
    StepKeeps(st, l);
    forall t | 0 <= t < st'.n ensures Covered(st', t) { OnlyWithdrawalLoses(st, l, t); }
    forall s | 0 <= s < st'.n ensures !st'.src[s].pc.RemovePending? { NoNewRollback(st, l, s); }
  }

  lemma NoNewRollback(st: State, l: Label, s: nat)
    requires Inv(st) && Enabled(st, l) && (l.Main? ==> l.sendError.Accepted?) && s < st.n
    requires !st.src[s].pc.RemovePending?
    ensures s < |Apply(st, l).src| && !Apply(st, l).src[s].pc.RemovePending?
  {
    if l.Main? { RollbackNeedsRejection(st, l, s); }
  }

  lemma RollbackNeedsRejection(st: State, l: Label, s: nat)
    requires Enabled(st, l) && l.Main? && l.sendError.Accepted? && s < st.n && !st.src[s].pc.RemovePending?
    ensures s < |Apply(st, l).src| && !Apply(st, l).src[s].pc.RemovePending?
  {
    if !AtMask(st.src[l.cpu].pc) { AwayFromMasks(st, l); }
  }

  lemma {:induction false} WakeRun(a: State, labels: seq<Label>, b: State)
    requires Inv(a) && WakeInv(a) && Leads(a, labels, b) && NoRejection(labels)
    ensures Inv(b) && WakeInv(b)
    decreases |labels|
  {
    if labels != [] {
      StepKeeps(a, labels[0]);
      WakeStep(a, labels[0]);
      WakeRun(Apply(a, labels[0]), labels[1..], b);
    }
  }

  /** While no IPI is rejected, a non-empty pending mask always has an IPI in
      flight, a handler with a draining swap ahead, or a source yet to send. */
  lemma NoLostWakeup(n: nat, online: set<nat>, labels: seq<Label>, st: State, t: nat)
    requires forall c | c in online :: c < n
    requires Leads(Boot(n, online), labels, st) && NoRejection(labels)
    requires t < st.n && Shape(st) && st.tgt[t].pending != {}
    ensures || st.tgt[t].ipi
            || st.tgt[t].frames != []
            || (exists s :: 0 <= s < st.n && YetToSend(st.src[s].pc, t))
  {
    BootInv(n, online);
    WakeRun(Boot(n, online), labels, st);
    assert Covered(st, t);
    if !Stirred(st.tgt[t]) {
      var s :| 0 <= s < st.n && Pledged(st.src[s].pc, t);
      assert YetToSend(st.src[s].pc, t);
    }
  }

  // --- a run that loses a wakeup ---

  lemma {:induction false} LeadsThen(a: State, first: seq<Label>, b: State, second: seq<Label>, c: State)
    requires Leads(a, first, b) && Leads(b, second, c)
    ensures Leads(a, first + second, c)
    decreases |first|
  {
    if first == [] {
      assert first + second == second;
    } else {
      LeadsThen(Apply(a, first[0]), first[1..], b, second, c);
      assert (first + second)[1..] == first[1..] + second;
    }
  }

  function Go(c: nat): Label { Main(c, Accepted, false) }

  function Put(st: State, c: nat, S: Source): State
    requires c < |st.src|
  {
    st.(src := st.src[c := S])
  }

  lemma {:induction false} ChainLeads(a: State, labels: seq<Label>, states: seq<State>)
    requires |states| == |labels| + 1 && states[0] == a
    requires forall i | 0 <= i < |labels| :: Enabled(states[i], labels[i]) && states[i + 1] == Apply(states[i], labels[i])
    ensures Leads(a, labels, states[|labels|])
    decreases |labels|
  {
    if labels != [] {
      var rest, tail := labels[1..], states[1..];
      forall i | 0 <= i < |rest| ensures Enabled(tail[i], rest[i]) && tail[i + 1] == Apply(tail[i], rest[i]) {
        assert tail[i] == states[i + 1] && rest[i] == labels[i + 1];
      }
      ChainLeads(states[1], rest, tail);
    }
  }

  function Call(q: nat, begun: nat): Request { Request({0}, REMOTE_SYNC_MEMORY, q, begun) }

  /** The labels that take an idle CPU from the call to the publication of its sequence number. */
  function ToPublication(c: nat): seq<Label> {
    ToClaim(c) + [Go(c), Go(c)]
  }

  predicate Fit(st: State, c: nat) {
    Shape(st) && 0 < c < st.n && c !in st.stopped && 0 in st.online && st.tgt[c].frames == []
  }

  /** The first half: the call, the claim of `active`, the check of `remaining`. */
  function ToClaim(c: nat): seq<Label> { [Start(c, {0}, REMOTE_SYNC_MEMORY), Go(c), Go(c)] }

  lemma Claim(st: State, c: nat)
    requires Fit(st, c) && st.src[c] == Source(Idle, false, 0, REMOTE_SYNC_NONE, {})
    ensures Leads(st, ToClaim(c), Put(st, c, Source(StoreAction(Call(0, 0)), true, 0, REMOTE_SYNC_NONE, {})))
  {
    var s1 := Put(st, c, Source(SwapActive(Call(0, 0)), false, 0, REMOTE_SYNC_NONE, {}));
    var s2 := Put(st, c, Source(LoadRemaining(Call(0, 0)), true, 0, REMOTE_SYNC_NONE, {}));
    var s3 := Put(st, c, Source(StoreAction(Call(0, 0)), true, 0, REMOTE_SYNC_NONE, {}));
    assert Apply(st, Start(c, {0}, REMOTE_SYNC_MEMORY)) == s1;
    assert Apply(s1, Go(c)) == s2;
    assert Apply(s2, Go(c)) == s3;
    ChainLeads(st, ToClaim(c), [st, s1, s2, s3]);
  }

  lemma Publication(st: State, c: nat)
    requires Fit(st, c) && st.src[c] == Source(Idle, false, 0, REMOTE_SYNC_NONE, {})
    ensures Leads(st, ToPublication(c), Put(st, c, Source(StoreSequence(Call(1, 0)), true, 0, REMOTE_SYNC_MEMORY, {})))
  {
    var s3 := Put(st, c, Source(StoreAction(Call(0, 0)), true, 0, REMOTE_SYNC_NONE, {}));
    var s4 := Put(st, c, Source(LoadSequence(Call(0, 0)), true, 0, REMOTE_SYNC_MEMORY, {}));
    var s5 := Put(st, c, Source(StoreSequence(Call(1, 0)), true, 0, REMOTE_SYNC_MEMORY, {}));
    Claim(st, c);
    assert Apply(s3, Go(c)) == s4;
    assert Apply(s4, Go(c)) == s5;
    ChainLeads(s3, [Go(c), Go(c)], [s3, s4, s5]);
    LeadsThen(st, ToClaim(c), s3, [Go(c), Go(c)], s5);
  }

  function ToInsertion(c: nat): seq<Label> { [Go(c), Go(c), Go(c)] }

  /** From there it publishes and enters the masks of CPU 0. */
  lemma Insertion(st: State, c: nat) returns (st': State)
    requires Fit(st, c) && c !in st.tgt[0].pending
    requires st.src[c] == Source(StoreSequence(Call(1, 0)), true, 0, REMOTE_SYNC_MEMORY, {})
    ensures Leads(st, ToInsertion(c), st')
    ensures st'.n == st.n && st'.online == st.online && st'.stopped == st.stopped && Shape(st')
    ensures var r := Call(1, |st.log|);
      && st'.src == st.src[c := Source(if st.tgt[0].pending == {} then SendIpi(r, 0) else InsertRemaining(r, 1),
                                       true, 1, REMOTE_SYNC_MEMORY, {0})]
      && st'.tgt == st.tgt[0 := st.tgt[0].(pending := st.tgt[0].pending + {c})]
  {
    var r := Call(1, |st.log|);
    var s1 := Put(st, c, Source(InsertRemaining(r, 0), true, 1, REMOTE_SYNC_MEMORY, {})).(log := st.log + [Begin(c, r)]);
    var s2 := Put(s1, c, Source(InsertPending(r, 0), true, 1, REMOTE_SYNC_MEMORY, {0}));
    assert Apply(st, Go(c)) == s1;
    assert s1.src[c].remaining + {0} == {0};
    assert Apply(s1, Go(c)) == s2;
    st' := Apply(s2, Go(c));
    ChainLeads(st, ToInsertion(c), [st, s1, s2, st']);
  }

  lemma Submit(st: State, c: nat) returns (st': State)
    requires Fit(st, c) && c !in st.tgt[0].pending && st.src[c] == Source(Idle, false, 0, REMOTE_SYNC_NONE, {})
    ensures Leads(st, ToPublication(c) + ToInsertion(c), st')
    ensures st'.n == st.n && st'.online == st.online && st'.stopped == st.stopped && Shape(st')
    ensures exists r :: st'.src == st.src[c := Source(if st.tgt[0].pending == {} then SendIpi(r, 0) else InsertRemaining(r, 1),
                                                      true, 1, REMOTE_SYNC_MEMORY, {0})]
    ensures st'.tgt == st.tgt[0 := st.tgt[0].(pending := st.tgt[0].pending + {c})]
  {
    Publication(st, c);
    var mid := Put(st, c, Source(StoreSequence(Call(1, 0)), true, 0, REMOTE_SYNC_MEMORY, {}));
    st' := Insertion(mid, c);
    LeadsThen(st, ToPublication(c), mid, ToInsertion(c), st');
    var r := Call(1, |st.log|);
    assert st'.src == st.src[c := Source(if st.tgt[0].pending == {} then SendIpi(r, 0) else InsertRemaining(r, 1),
                                         true, 1, REMOTE_SYNC_MEMORY, {0})];
  }

  lemma Rollback(st: State, c: nat, r: Request) returns (st': State)
    requires Fit(st, c) && st.src[c].pc == SendIpi(r, 0) && c in st.tgt[0].pending
    ensures Leads(st, [Main(c, Rejected(1), false), Go(c)], st')
    ensures st'.n == st.n && st'.stopped == st.stopped && Shape(st')
    ensures st'.src == st.src[c := st.src[c].(pc := RemoveRemaining(r, 0, 1))]
    ensures st'.tgt == st.tgt[0 := st.tgt[0].(pending := st.tgt[0].pending - {c})]
  {
    var s1 := Put(st, c, st.src[c].(pc := RemovePending(r, 0, 1)));
    assert Apply(st, Main(c, Rejected(1), false)) == s1;
    st' := Apply(s1, Go(c));
    ChainLeads(st, [Main(c, Rejected(1), false), Go(c)], [st, s1, st']);
  }

  /** CPU 1 finds the mask of CPU 0 empty, CPU 2 coalesces on it, the IPI of CPU 1 is
      rejected and rolled back: CPU 2 is left pending on an idle CPU 0 that nothing will wake. */
  lemma LostWakeupExample() returns (labels: seq<Label>, st: State)
    ensures Leads(Boot(3, {0, 1, 2}), labels, st) && st.n == 3 && Shape(st)
    ensures st.tgt[0].pending == {2} && !st.tgt[0].ipi && st.tgt[0].frames == []
    ensures Stranded(st, 0) && st.stopped == map[] && st.src[2].pc.InsertRemaining?
  {
    var s0 := Boot(3, {0, 1, 2});
    var first, second := ToPublication(1) + ToInsertion(1), ToPublication(2) + ToInsertion(2);
    var s1 := Submit(s0, 1);
    var s2 := Submit(s1, 2);
    LeadsThen(s0, first, s1, second, s2);
    st := Rollback(s2, 1, s2.src[1].pc.r);
    labels := first + second + [Main(1, Rejected(1), false), Go(1)];
    LeadsThen(s0, first + second, s2, [Main(1, Rejected(1), false), Go(1)], st);
    assert st.tgt[0].pending == {2};
    forall s | 0 <= s < 3 ensures !Pledged(st.src[s].pc, 0) {
      if s == 0 { assert st.src[0] == s0.src[0]; }
    }
  }
}
