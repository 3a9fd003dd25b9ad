/**
  Cross-rendezvous deadlock freedom.  CPUs that wait for one another poll, so
  even when every busy CPU has interrupts masked some CPU can make progress,
  unless everything is finished or a rollback has stranded a target; and every
  step of progress, a rejected send included, lowers a measure.
*/
module RendezvousLiveness {
  import opened Common
  import opened Rendezvous
  import opened RendezvousInvariant
  import opened RendezvousSteps
  import opened RendezvousSafety
  import opened RendezvousWakeup

  // --- the measure ---

  /** Operations a submission has left, with the loop counted per CPU. */
  function SubmitWork(pc: Pc, n: nat): nat {
    match pc
    case Idle => 0
    case SwapActive(_) => 4 * n + 15
    case LoadRemaining(_) => 4 * n + 14
    case StoreAction(_) => 4 * n + 13
    case LoadSequence(_) => 4 * n + 12
    case StoreSequence(_) => 4 * n + 11
    case InsertRemaining(_, k) => if k <= n then 4 * (n - k) + 10 else 0
    case InsertPending(_, k) => if k <= n then 4 * (n - k) + 9 else 0
    case SendIpi(_, k) => if k <= n then 4 * (n - k) + 8 else 0
    case RemovePending(_, k, _) => if k <= n then 4 * (n - k) + 7 else 0
    case RemoveRemaining(_, k, _) => if k <= n then 4 * (n - k) + 6 else 0
    case WaitLoad(_, _) => 5
    case Polling(_, _) => 5
    case CheckTimeout(_, _) => 5
    case ClearAction(_, _) => 4
    case ClearActive(_, _) => 3
  }

  function StageIndex(stage: Stage): nat {
    match stage
    case SwapPending => 0
    case AtSource => 0
    case ReadSequence => 1
    case ReadObserved(_) => 2
    case ReadAction(_) => 3
    case InstructionFence(_) => 4
    case StoreObserved(_) => 5
    case Acknowledge => 6
  }

  /** Operations an activation has left before its next swap; a polling call about to swap counts nothing. */
  function FrameWork(f: Frame, n: nat): nat {
    if f.stage.SwapPending? then Count(!f.poll)
    else if f.next <= n && StageIndex(f.stage) <= 10 * (n - f.next) then 2 + 10 * (n - f.next) - StageIndex(f.stage)
    else 0
  }

  function FramesWork(frames: seq<Frame>, n: nat): nat {
    if frames == [] then 0 else FramesWork(frames[..|frames| - 1], n) + FrameWork(frames[|frames| - 1], n)
  }

  predicate Waiting(pc: Pc) {
    pc.WaitLoad? || pc.Polling? || pc.CheckTimeout?
  }

  /** Steps of the wait loop before it either drains its own mask or sees its request complete. */
  function LoopWork(S: Source, T: Target): nat {
    if !Waiting(S.pc) then 0
    else if T.pending != {} then (if S.pc.CheckTimeout? then 3 else if S.pc.WaitLoad? then 2 else 1)
    else if S.remaining == {} then (if S.pc.Polling? then 3 else if S.pc.CheckTimeout? then 2 else 1)
    else 0
  }

  function Sum(w: seq<nat>): nat {
    if w == [] then 0 else Sum(w[..|w| - 1]) + w[|w| - 1]
  }

  datatype Measure = Measure(submit: nat, pending: nat, ipis: nat, frames: nat, waits: nat)

  predicate Below(a: Measure, b: Measure) {
    || a.submit < b.submit
    || (a.submit == b.submit && a.pending < b.pending)
    || (a.submit == b.submit && a.pending == b.pending && a.ipis < b.ipis)
    || (a.submit == b.submit && a.pending == b.pending && a.ipis == b.ipis && a.frames < b.frames)
    || (a.submit == b.submit && a.pending == b.pending && a.ipis == b.ipis && a.frames == b.frames && a.waits < b.waits)
  }

  function SubmitWeights(st: State): seq<nat> requires Shape(st) {
    seq(st.n, c requires 0 <= c < st.n => SubmitWork(st.src[c].pc, st.n))
  }

  function PendingWeights(st: State): seq<nat> requires Shape(st) {
    seq(st.n, c requires 0 <= c < st.n => |st.tgt[c].pending|)
  }

  function IpiWeights(st: State): seq<nat> requires Shape(st) {
    seq(st.n, c requires 0 <= c < st.n => Count(st.tgt[c].ipi))
  }

  function FrameWeights(st: State): seq<nat> requires Shape(st) {
    seq(st.n, c requires 0 <= c < st.n => FramesWork(st.tgt[c].frames, st.n))
  }

  function LoopWeights(st: State): seq<nat> requires Shape(st) {
    seq(st.n, c requires 0 <= c < st.n => LoopWork(st.src[c], st.tgt[c]))
  }

  /** Insertions left, pending pairs, IPIs in flight, claimed pairs, wait-loop position. */
  function Work(st: State): Measure
    requires Shape(st)
  {
    Measure(Sum(SubmitWeights(st)), Sum(PendingWeights(st)), Sum(IpiWeights(st)),
            Sum(FrameWeights(st)), Sum(LoopWeights(st)))
  }

  lemma {:induction false} SumFalls(a: seq<nat>, b: seq<nat>, c: nat)
    requires |a| == |b| && c < |a|
    requires forall i | 0 <= i < |a| :: b[i] <= a[i]
    requires b[c] < a[c]
    ensures Sum(b) < Sum(a)
  {
    var a', b' := a[..|a| - 1], b[..|b| - 1];
    if c < |a| - 1 { SumFalls(a', b', c); } else { SumAtMost(a', b'); }
  }

  lemma {:induction false} SumAtMost(a: seq<nat>, b: seq<nat>)
    requires |a| == |b|
    requires forall i | 0 <= i < |a| :: b[i] <= a[i]
    ensures Sum(b) <= Sum(a)
  {
    if a != [] { SumAtMost(a[..|a| - 1], b[..|b| - 1]); }
  }

  // --- spinning ---

  /** The CPU is in its wait loop with nothing to drain and its request incomplete. */
  predicate Spins(S: Source, T: Target) {
    && T.pending == {} && S.remaining != {}
    && if T.frames == [] then S.pc.WaitLoad? || S.pc.CheckTimeout?
       else |T.frames| == 1 && T.frames[0].poll && T.frames[0].stage.SwapPending?
  }

  predicate Progress(st: State, l: Label)
    requires Enabled(st, l)
  {
    SystemLabel(l) && (l.Interrupt? || !Spins(st.src[l.cpu], st.tgt[l.cpu]))
  }

  // --- every non-spinning step lowers the measure ---

  lemma SubmitWorkFalls(st: State, l: Label)
    requires Enabled(st, l) && SystemLabel(l) && l.Main? && Apply(st, l).stopped == st.stopped
    requires var S := st.src[l.cpu]; !Waiting(S.pc) || (S.pc.WaitLoad? && S.remaining == {})
    requires st.src[l.cpu].pc.RemoveRemaining? ==> st.src[l.cpu].pc.k < st.n
    ensures var st', c := Apply(st, l), l.cpu;
      && st'.n == |st'.src| == st.n && SubmitWork(st'.src[c].pc, st.n) < SubmitWork(st.src[c].pc, st.n)
      && forall s | 0 <= s < st.n && s != c :: st'.src[s].pc == st.src[s].pc
  {
    hide Apply;
    if Published(st.src[l.cpu].pc) { LateWorkFalls(st, l); } else { EarlyWorkFalls(st, l); }
  }

  lemma EarlyWorkFalls(st: State, l: Label)
    requires Enabled(st, l) && l.Main? && !Published(st.src[l.cpu].pc) && Apply(st, l).stopped == st.stopped
    ensures var st', c := Apply(st, l), l.cpu;
      && st'.n == |st'.src| == st.n && SubmitWork(st'.src[c].pc, st.n) < SubmitWork(st.src[c].pc, st.n)
      && forall s | 0 <= s < st.n && s != c :: st'.src[s].pc == st.src[s].pc
  {
  }

  lemma LateWorkFalls(st: State, l: Label)
    requires Enabled(st, l) && l.Main? && Published(st.src[l.cpu].pc) && Apply(st, l).stopped == st.stopped
    requires var S := st.src[l.cpu]; !Waiting(S.pc) || (S.pc.WaitLoad? && S.remaining == {})
    requires st.src[l.cpu].pc.RemoveRemaining? ==> st.src[l.cpu].pc.k < st.n
    ensures var st', c := Apply(st, l), l.cpu;
      && st'.n == |st'.src| == st.n && SubmitWork(st'.src[c].pc, st.n) < SubmitWork(st.src[c].pc, st.n)
      && forall s | 0 <= s < st.n && s != c :: st'.src[s].pc == st.src[s].pc
  {
  }

  lemma SubmitFalls(st: State, l: Label)
    requires Inv(st) && Enabled(st, l) && SystemLabel(l) && l.Main?
    requires !Waiting(st.src[l.cpu].pc) || (st.src[l.cpu].pc.WaitLoad? && st.src[l.cpu].remaining == {})
    requires Apply(st, l).stopped == st.stopped
    ensures Shape(Apply(st, l)) && Below(Work(Apply(st, l)), Work(st))
  {
    hide Inv, PairInv, LoopWork, Apply, SubmitWork;
    var st', c := Apply(st, l), l.cpu;
    At(st, c, c);
    StepKeeps(st, l);
    SubmitWorkFalls(st, l);
    At(st', c, c);
    SumFalls(SubmitWeights(st), SubmitWeights(st'), c);
  }

  lemma {:induction false} TopWork(frames: seq<Frame>, f: Frame, n: nat)
    requires frames != []
    ensures FramesWork(SetTop(frames, f), n) == FramesWork(frames, n) - FrameWork(frames[|frames| - 1], n) + FrameWork(f, n)
  {
    assert SetTop(frames, f)[..|frames| - 1] == frames[..|frames| - 1];
  }

  /** The swap empties a pending mask. */
  lemma SwapFalls(st: State, c: nat)
    requires Inv(st) && Enabled(st, Handler(c)) && Top(st.tgt[c]).stage.SwapPending? && st.tgt[c].pending != {}
    ensures Shape(Apply(st, Handler(c))) && Below(Work(Apply(st, Handler(c))), Work(st))
  {
    var st' := Apply(st, Handler(c));
    StepKeeps(st, Handler(c));
    assert SubmitWeights(st') == SubmitWeights(st);
    assert |st'.tgt[c].pending| < |st.tgt[c].pending|;
    SumFalls(PendingWeights(st), PendingWeights(st'), c);
  }

  lemma InterruptFalls(st: State, c: nat)
    requires Inv(st) && Enabled(st, Interrupt(c))
    ensures Shape(Apply(st, Interrupt(c))) && Below(Work(Apply(st, Interrupt(c))), Work(st))
  {
    var st' := Apply(st, Interrupt(c));
    StepKeeps(st, Interrupt(c));
    assert SubmitWeights(st') == SubmitWeights(st);
    assert PendingWeights(st') == PendingWeights(st);
    SumFalls(IpiWeights(st), IpiWeights(st'), c);
  }

  /** What a handler step other than the swap changes. */
  predicate OnlyTopMoves(st: State, c: nat, st': State)
    requires Shape(st) && c < st.n && st.tgt[c].frames != []
  {
    var T := st.tgt[c];
    && |st'.tgt| == st.n && |st'.src| == st.n && st'.n == st.n
    && (forall s | 0 <= s < st.n :: st'.src[s].pc == st.src[s].pc)
    && (forall t | 0 <= t < st.n && t != c :: st'.tgt[t] == st.tgt[t])
    && st'.tgt[c].pending == T.pending && st'.tgt[c].ipi == T.ipi
    && st'.tgt[c].frames != [] && st'.tgt[c].frames == SetTop(T.frames, Top(st'.tgt[c]))
  }

  lemma AtSourceEffect(st: State, c: nat)
    requires Enabled(st, Handler(c)) && Top(st.tgt[c]).stage.AtSource? && Apply(st, Handler(c)).stopped == st.stopped
    ensures OnlyTopMoves(st, c, Apply(st, Handler(c)))
  {
  }

  lemma ReadingEffect(st: State, c: nat)
    requires Enabled(st, Handler(c)) && Apply(st, Handler(c)).stopped == st.stopped
    requires var g := Top(st.tgt[c]).stage; g.ReadSequence? || g.ReadObserved? || g.ReadAction? || g.InstructionFence?
    ensures OnlyTopMoves(st, c, Apply(st, Handler(c)))
  {
  }

  lemma StoringEffect(st: State, c: nat)
    requires Enabled(st, Handler(c)) && Apply(st, Handler(c)).stopped == st.stopped
    requires Top(st.tgt[c]).stage.StoreObserved? || Top(st.tgt[c]).stage.Acknowledge?
    ensures OnlyTopMoves(st, c, Apply(st, Handler(c)))
  {
  }

  lemma HandlerEffect(st: State, c: nat)
    requires Enabled(st, Handler(c)) && !Top(st.tgt[c]).stage.SwapPending?
    requires Apply(st, Handler(c)).stopped == st.stopped
    ensures OnlyTopMoves(st, c, Apply(st, Handler(c)))
  {
    hide Apply, OnlyTopMoves;
    var g := Top(st.tgt[c]).stage;
    if g.AtSource? { AtSourceEffect(st, c); }
    else if g.StoreObserved? || g.Acknowledge? { StoringEffect(st, c); }
    else { ReadingEffect(st, c); }
  }

  lemma SourceWorkFalls(st: State, c: nat)
    requires Enabled(st, Handler(c)) && Top(st.tgt[c]).stage.AtSource? && FrameOk(Top(st.tgt[c]), st.n)
    requires Apply(st, Handler(c)).stopped == st.stopped
    requires |Apply(st, Handler(c)).tgt| == st.n && Apply(st, Handler(c)).tgt[c].frames != []
    ensures FrameWork(Top(Apply(st, Handler(c)).tgt[c]), st.n) < FrameWork(Top(st.tgt[c]), st.n)
  {
  }

  lemma StageWorkFalls(st: State, c: nat)
    requires Enabled(st, Handler(c)) && Mid(Top(st.tgt[c])) && FrameOk(Top(st.tgt[c]), st.n)
    requires Apply(st, Handler(c)).stopped == st.stopped
    requires |Apply(st, Handler(c)).tgt| == st.n && Apply(st, Handler(c)).tgt[c].frames != []
    ensures FrameWork(Top(Apply(st, Handler(c)).tgt[c]), st.n) < FrameWork(Top(st.tgt[c]), st.n)
  {
  }

  lemma HandlerWorkFalls(st: State, c: nat)
    requires Enabled(st, Handler(c)) && !Top(st.tgt[c]).stage.SwapPending? && FrameOk(Top(st.tgt[c]), st.n)
    requires Apply(st, Handler(c)).stopped == st.stopped
    requires |Apply(st, Handler(c)).tgt| == st.n && Apply(st, Handler(c)).tgt[c].frames != []
    ensures FrameWork(Top(Apply(st, Handler(c)).tgt[c]), st.n) < FrameWork(Top(st.tgt[c]), st.n)
  {
    hide Apply, FrameWork;
    if Top(st.tgt[c]).stage.AtSource? { SourceWorkFalls(st, c); } else { StageWorkFalls(st, c); }
  }

  lemma HandlerFalls(st: State, c: nat)
    requires Inv(st) && Enabled(st, Handler(c)) && !Top(st.tgt[c]).stage.SwapPending?
    requires Apply(st, Handler(c)).stopped == st.stopped
    ensures Shape(Apply(st, Handler(c))) && Below(Work(Apply(st, Handler(c))), Work(st))
  {
    At(st, c, c);
    assert FrameOk(Top(st.tgt[c]), st.n);
    HandlerEffect(st, c);
    HandlerWorkFalls(st, c);
    var st' := Apply(st, Handler(c));
    StepKeeps(st, Handler(c));
    TopWork(st.tgt[c].frames, Top(st'.tgt[c]), st.n);
    assert SubmitWeights(st') == SubmitWeights(st);
    assert PendingWeights(st') == PendingWeights(st);
    assert IpiWeights(st') == IpiWeights(st);
    SumFalls(FrameWeights(st), FrameWeights(st'), c);
  }

  /** An activation that found nothing returns. */
  lemma PopFalls(st: State, c: nat)
    requires Inv(st) && Enabled(st, Handler(c)) && Top(st.tgt[c]).stage.SwapPending? && st.tgt[c].pending == {}
    requires !Spins(st.src[c], st.tgt[c])
    ensures Shape(Apply(st, Handler(c))) && Below(Work(Apply(st, Handler(c))), Work(st))
  {
    hide Inv, PairInv, SourceInv;
    var st', T := Apply(st, Handler(c)), st.tgt[c];
    At(st, c, c);
    StepKeeps(st, Handler(c));
    At(st', c, c);
    assert SubmitWeights(st') == SubmitWeights(st);
    assert PendingWeights(st') == PendingWeights(st);
    assert IpiWeights(st') == IpiWeights(st);
    if Top(T).poll {
      assert |T.frames| == 1 && st.src[c].remaining == {};
      assert FrameWeights(st') == FrameWeights(st);
      SumFalls(LoopWeights(st), LoopWeights(st'), c);
    } else {
      SumFalls(FrameWeights(st), FrameWeights(st'), c);
    }
  }

  lemma WaitFalls(st: State, l: Label)
    requires Inv(st) && Enabled(st, l) && SystemLabel(l) && l.Main? && !Spins(st.src[l.cpu], st.tgt[l.cpu])
    requires st.src[l.cpu].pc.CheckTimeout? || (st.src[l.cpu].pc.WaitLoad? && st.src[l.cpu].remaining != {})
    ensures Shape(Apply(st, l)) && Below(Work(Apply(st, l)), Work(st))
  {
    var st', c := Apply(st, l), l.cpu;
    StepKeeps(st, l);
    assert SubmitWeights(st') == SubmitWeights(st);
    assert PendingWeights(st') == PendingWeights(st);
    assert IpiWeights(st') == IpiWeights(st);
    assert FramesWork([Frame(true, {}, 0, SwapPending)], st.n) == 0;
    assert FrameWeights(st') == FrameWeights(st);
    SumFalls(LoopWeights(st), LoopWeights(st'), c);
  }

  /** Every step that is not a turn of an idle wait loop lowers the measure. */
  lemma ProgressFalls(st: State, l: Label)
    requires Inv(st) && Enabled(st, l) && Progress(st, l) && Apply(st, l).stopped == st.stopped
    ensures Shape(Apply(st, l)) && Below(Work(Apply(st, l)), Work(st))
  {
    match l
    case Interrupt(c) => InterruptFalls(st, c);
    case Handler(c) =>
      if !Top(st.tgt[c]).stage.SwapPending? { HandlerFalls(st, c); }
      else if st.tgt[c].pending == {} { PopFalls(st, c); }
      else { SwapFalls(st, c); }
    case Main(c, _, _) =>
      if !Waiting(st.src[c].pc) || (st.src[c].pc.WaitLoad? && st.src[c].remaining == {}) { SubmitFalls(st, l); }
      else { WaitFalls(st, l); }
  }

  /** A turn of an idle wait loop leaves the measure as it is. */
  lemma SpinKeeps(st: State, l: Label)
    requires Inv(st) && Enabled(st, l) && SystemLabel(l) && !Progress(st, l)
    ensures Shape(Apply(st, l)) && Work(Apply(st, l)) == Work(st)
  {
    hide Inv, PairInv;
    var st', c := Apply(st, l), l.cpu;
    At(st, c, c);
    StepKeeps(st, l);
    At(st', c, c);
    assert SubmitWeights(st') == SubmitWeights(st);
    assert PendingWeights(st') == PendingWeights(st);
    assert IpiWeights(st') == IpiWeights(st);
    assert FramesWork([Frame(true, {}, 0, SwapPending)], st.n) == 0;
    assert FramesWork(st.tgt[c].frames, st.n) == 0 == FramesWork(st'.tgt[c].frames, st.n);
    assert FrameWeights(st') == FrameWeights(st);
    assert LoopWeights(st') == LoopWeights(st);
  }

  // --- deadlock freedom ---

  predicate Quiet(st: State)
    requires Shape(st)
  {
    forall c | 0 <= c < st.n :: st.src[c].pc.Idle? && st.tgt[c].frames == []
  }

  /** The CPU has a step to take, and it is not a turn of an idle wait loop.  An
      IPI is only counted on for a CPU that is idle: busy ones may have interrupts masked. */
  predicate CanProgress(S: Source, T: Target) {
    if S.pc.Idle? && T.frames == [] then T.ipi else !Spins(S, T)
  }

  /** The step that CPU takes next without taking an interrupt while busy. */
  function NextLabel(S: Source, T: Target, c: nat): Label {
    if T.frames != [] then Handler(c)
    else if S.pc.Idle? then Interrupt(c)
    else Main(c, Accepted, false)
  }

  lemma NextIsProgress(st: State, c: nat)
    requires Inv(st) && c < st.n && c !in st.stopped && CanProgress(st.src[c], st.tgt[c])
    ensures var l := NextLabel(st.src[c], st.tgt[c], c);
      Enabled(st, l) && Progress(st, l)
  {
    At(st, c, c);
    if st.tgt[c].frames != [] { assert FrameOk(Top(st.tgt[c]), st.n); }
  }

  /** A handler that is about to swap has claimed nobody. */
  lemma LoneFrame(frames: seq<Frame>, n: nat, s: nat)
    requires |frames| == 1 && FrameOk(frames[0], n)
    ensures frames[0].stage.SwapPending? ==> Claims(frames, s) == 0
  {
    assert frames[..0] == [];
  }

  /** A busy CPU without progress waits for a target that has it or is stranded: the
      target holds the pair claimed, and then it is busy, or pending, and then it is
      busy, being woken, or has a pledged source, unless nobody is left to wake it. */
  lemma SpinnerHasHelper(st: State, s: nat) returns (t: nat)
    requires Inv(st) && s < st.n && Spins(st.src[s], st.tgt[s])
    requires st.src[s].pc.Idle? ==> st.tgt[s].frames != []
    ensures t < st.n && (CanProgress(st.src[t], st.tgt[t]) || Stranded(st, t))
  {
    At(st, s, s);
    t :| t in st.src[s].remaining;
    At(st, s, t);
    var S, T := st.src[s], st.tgt[t];
    assert Waiting(S.pc);
    assert s in T.pending || Claims(T.frames, s) == 1;
    if Claims(T.frames, s) == 1 {
      if |T.frames| == 1 {
        assert FrameOk(T.frames[0], st.n);
        LoneFrame(T.frames, st.n, s);
      }
    } else if st.src[t].pc.Idle? && !Stirred(T) && !Stranded(st, t) {
      var v :| 0 <= v < st.n && Pledged(st.src[v].pc, t);
      At(st, v, v);
      t := v;
    }
  }

  /** Unless everything has finished, some CPU has a non-spinning step that is not an
      interrupt taken by a busy CPU, or some target is stranded. */
  lemma DeadlockFree(st: State) returns (c: nat)
    requires Inv(st) && !Quiet(st)
    ensures c < st.n && (CanProgress(st.src[c], st.tgt[c]) || Stranded(st, c))
  {
    c :| 0 <= c < st.n && !(st.src[c].pc.Idle? && st.tgt[c].frames == []);
    if Spins(st.src[c], st.tgt[c]) { c := SpinnerHasHelper(st, c); }
  }

  /** Only by withdrawing from its mask can another CPU take a CPU's next step away from it. */
  lemma ProgressPersists(st: State, l: Label, c: nat)
    requires Inv(st) && Enabled(st, l) && SystemLabel(l) && c < st.n && l.cpu != c
    requires CanProgress(st.src[c], st.tgt[c])
    ensures Shape(Apply(st, l)) && c < |Apply(st, l).src|
    ensures CanProgress(Apply(st, l).src[c], Apply(st, l).tgt[c])
         || (Withdraws(st, l, c) && st.tgt[c].pending == {l.cpu})
  {
    var st' := Apply(st, l);
    StepKeeps(st, l);
    OthersLeave(st, l, c);
  }

  /** What a step of another CPU leaves of a CPU's own context. */
  lemma OthersLeave(st: State, l: Label, c: nat)
    requires Enabled(st, l) && SystemLabel(l) && c < st.n && l.cpu != c
    ensures var st' := Apply(st, l);
      && |st'.src| == |st'.tgt| == st.n
      && st'.src[c].pc == st.src[c].pc && st'.src[c].remaining <= st.src[c].remaining
      && st'.tgt[c].frames == st.tgt[c].frames && (st.tgt[c].ipi ==> st'.tgt[c].ipi)
      && (st.tgt[c].pending - (if Withdraws(st, l, c) then {l.cpu} else {}) <= st'.tgt[c].pending)
  {
    if l.Main? {
      MainStep(st, l, c);
    } else {
      OtherOnTarget(st, l, c);
      OthersRemaining(st, l, c);
    }
  }

  lemma OthersRemaining(st: State, l: Label, c: nat)
    requires Enabled(st, l) && (l.Handler? || l.Interrupt?) && c < st.n && l.cpu != c
    ensures |Apply(st, l).src| == st.n && Apply(st, l).src[c].remaining <= st.src[c].remaining
  {
  }

  lemma NoStop(st: State, l: Label)
    requires Inv(st) && Enabled(st, l) && SystemLabel(l) && Inv(Apply(st, l)) && st.stopped == map[]
    ensures Apply(st, l).stopped == map[] || Apply(st, l).stopped == map[l.cpu := SequenceWrapped]
  {
    var st', c := Apply(st, l), l.cpu;
    if c in st'.stopped { assert Tolerated(st'.stopped[c]) && st'.stopped == map[c := st'.stopped[c]]; }
  }

  /** However many CPUs wait for one another with interrupts masked, and whatever was
      rejected before: unless a target is stranded, some CPU has a step that lowers the
      measure, or that runs out of sequence numbers, and it is not an interrupt taken
      by a busy CPU. */
  lemma NoDeadlock(n: nat, online: set<nat>, st: State) returns (c: nat, l: Label)
    requires Reachable(n, online, st) && st.stopped == map[] && Shape(st) && !Quiet(st) && !AnyStranded(st)
    ensures Enabled(st, l) && l.cpu == c && (l.Interrupt? ==> st.src[c].pc.Idle? && st.tgt[c].frames == [])
    ensures Shape(Apply(st, l))
    ensures Below(Work(Apply(st, l)), Work(st)) || Apply(st, l).stopped == map[c := SequenceWrapped]
  {
    Always(n, online, st);
    c := DeadlockFree(st);
    l := NextLabel(st.src[c], st.tgt[c], c);
    NextIsProgress(st, c);
    StepKeeps(st, l);
    NoStop(st, l);
    if Apply(st, l).stopped == st.stopped { ProgressFalls(st, l); }
  }
}
