/** Every label of the rendezvous keeps the invariant, one operation at a time. */
module RendezvousSteps {
  import opened Common
  import opened Rendezvous
  import opened RendezvousInvariant

  // --- pairs under a source-side change ---

  /** Two program counters that look the same to target `t`. */
  predicate SameView(pc: Pc, pc': Pc, t: nat) {
    && Inserting(pc, t) == Inserting(pc', t)
    && RollingBack(pc, t) == RollingBack(pc', t)
    && Published(pc) == Published(pc')
    && (Published(pc) ==> pc.r == pc'.r)
    && (Published(pc) && t in pc.r.targets ==>
          && (Reached(pc, t) ==> Reached(pc', t))
          && (Delivered(pc', t) ==> Delivered(pc, t)))
  }

  lemma QuietPair(S: Source, S': Source, T: Target, s: nat, t: nat, log: seq<Event>)
    requires s < |T.observed| && PairInv(S, T, s, t, log)
    requires SameView(S.pc, S'.pc, t) && S'.remaining == S.remaining && S'.sequence == S.sequence
    ensures PairInv(S', T, s, t, log)
  {
    forall i | 0 <= i < |T.frames| && Mid(T.frames[i]) && T.frames[i].next == s
      ensures FrameLink(T.frames[i], S', s, t, log)
    {
      assert FrameLink(T.frames[i], S, s, t, log);
    }
  }

  /** A step that only moves the main context of `s`, seen alike by every target. */
  lemma QuietStep(st: State, st': State, s: nat)
    requires Inv(st) && s < st.n
    requires |st'.src| == st.n && st' == st.(src := st.src[s := st'.src[s]])
    requires var S, S' := st.src[s], st'.src[s];
      && S'.remaining == S.remaining && S'.sequence == S.sequence
      && SourceInv(S', s, st.n, st.online, st.log)
      && (forall t: nat :: SameView(S.pc, S'.pc, t))
      && S.pc.Polling? == S'.pc.Polling?
    ensures Inv(st')
  {
    forall u | 0 <= u < st.n ensures PairAt(st', s, u) {
      At(st, s, u);
      QuietPair(st.src[s], st'.src[s], st.tgt[u], s, u, st.log);
    }
    forall v | 0 <= v < st.n ensures PairAt(st', v, s) { At(st, v, s); assert PairAt(st', s, s); }
    assert st.log + [] == st.log;
    assert st'.tgt == st.tgt[s := st'.tgt[s]];
    At(st, s, s);
    Assemble(st, st', s, s, []);
  }

  lemma NoClaimsNoMid(S: Source, T: Target, s: nat, t: nat, n: nat, log: seq<Event>)
    requires TargetInv(T, n) && s < n && PairInv(S, T, s, t, log) && t !in S.remaining
    ensures s !in T.pending && Claims(T.frames, s) == 0 && Acks(T.frames, s) == 0
    ensures forall i | 0 <= i < |T.frames| && Mid(T.frames[i]) :: T.frames[i].next != s
  {
    AcksAtMostClaims(T.frames, s, n);
    forall i | 0 <= i < |T.frames| && Mid(T.frames[i]) ensures T.frames[i].next != s {
      if T.frames[i].next == s { ClaimsPositive(T.frames, i, s); }
    }
  }

  lemma PublishPair(S: Source, S': Source, T: Target, s: nat, t: nat, n: nat, log: seq<Event>, log': seq<Event>)
    requires TargetInv(T, n) && s < n && PairInv(S, T, s, t, log) && t !in S.remaining
    requires S'.remaining == S.remaining && S'.sequence == S.sequence + 1
    requires S.pc.StoreSequence? && S'.pc.InsertRemaining? && S'.pc.k == 0
    ensures PairInv(S', T, s, t, log')
  {
    NoClaimsNoMid(S, T, s, t, n, log);
  }

  lemma FinishPair(S: Source, S': Source, T: Target, s: nat, t: nat, n: nat, log: seq<Event>, log': seq<Event>)
    requires TargetInv(T, n) && s < n && PairInv(S, T, s, t, log) && t !in S.remaining
    requires S'.remaining == S.remaining && S'.sequence == S.sequence
    requires S'.pc.Idle? && S.pc.ClearActive?
    ensures PairInv(S', T, s, t, log')
  {
    NoClaimsNoMid(S, T, s, t, n, log);
  }

  lemma InsertRemainingPair(S: Source, S': Source, T: Target, s: nat, t: nat, n: nat, log: seq<Event>)
    requires TargetInv(T, n) && s < n && PairInv(S, T, s, t, log)
    requires S.pc.InsertRemaining? && S.pc.k in S.pc.r.targets && S.pc.k !in S.remaining
    requires S' == S.(pc := InsertPending(S.pc.r, S.pc.k), remaining := S.remaining + {S.pc.k})
    ensures PairInv(S', T, s, t, log)
  {
    if t == S.pc.k { NoClaimsNoMid(S, T, s, t, n, log); }
    forall i | 0 <= i < |T.frames| && Mid(T.frames[i]) && T.frames[i].next == s
      ensures FrameLink(T.frames[i], S', s, t, log)
    {
      assert FrameLink(T.frames[i], S, s, t, log);
    }
  }

  /** The pending mask of `t` gains or loses `s` while the frames stay as they are. */
  predicate PendingMove(S: Source, S': Source, T: Target, T': Target, s: nat, t: nat) {
    && T' == T.(pending := T'.pending)
    && S' == S.(pc := S'.pc) && Published(S.pc) && Published(S'.pc) && S'.pc.r == S.pc.r
    && Count(Inserting(S'.pc, t)) + Count(s in T'.pending) + Count(RollingBack(S'.pc, t))
       == Count(Inserting(S.pc, t)) + Count(s in T.pending) + Count(RollingBack(S.pc, t))
    && (t in S.pc.r.targets ==>
          && (Reached(S.pc, t) ==> Reached(S'.pc, t))
          && (Delivered(S'.pc, t) ==> Delivered(S.pc, t) || t in S.remaining))
  }

  lemma PendingPair(S: Source, S': Source, T: Target, T': Target, s: nat, t: nat, log: seq<Event>)
    requires s < |T.observed| && PairInv(S, T, s, t, log) && PendingMove(S, S', T, T', s, t)
    ensures PairInv(S', T', s, t, log)
  {
    forall i | 0 <= i < |T'.frames| && Mid(T'.frames[i]) && T'.frames[i].next == s
      ensures FrameLink(T'.frames[i], S', s, t, log)
    {
      assert FrameLink(T.frames[i], S, s, t, log);
    }
  }

  /** `t` leaves the remaining mask without having been claimed: the rollback. */
  lemma RollbackPair(S: Source, S': Source, T: Target, s: nat, t: nat, n: nat, log: seq<Event>)
    requires TargetInv(T, n) && s < n && PairInv(S, T, s, t, log)
    requires S.pc.RemoveRemaining? && S.pc.k in S.remaining
    requires S' == S.(pc := WaitLoad(S.pc.r, FailedAt(S.pc.k, S.pc.error)), remaining := S.remaining - {S.pc.k})
    ensures PairInv(S', T, s, t, log)
  {
    if t == S.pc.k {
      AcksAtMostClaims(T.frames, s, n);
    }
    forall i | 0 <= i < |T.frames| && Mid(T.frames[i]) && T.frames[i].next == s
      ensures FrameLink(T.frames[i], S', s, t, log)
    {
      assert FrameLink(T.frames[i], S, s, t, log);
    }
  }

  // --- the main context ---

  lemma StopStep(st: State, c: nat, why: Reason)
    requires Inv(st) && Tolerated(why) && (why == SequenceWrapped ==> c < st.n && st.src[c].sequence == USIZE_MAX)
    ensures Inv(Stop(st, c, why))
  {
    var st' := Stop(st, c, why);
    forall s, t | 0 <= s < st.n && 0 <= t < st.n
      ensures PairAt(st', s, t) && SourceAt(st', s) && TargetAt(st', t) && PollAt(st', s)
    {
      At(st, s, t);
    }
    assert forall s | 0 <= s < st.n :: SourceAt(st', s) && TargetAt(st', s) && PollAt(st', s) by {
      forall s | 0 <= s < st.n ensures SourceAt(st', s) && TargetAt(st', s) && PollAt(st', s) { assert PairAt(st', s, s); }
    }
  }

  lemma StartKeeps(st: State, c: nat, targets: set<nat>, action: nat)
    requires Inv(st) && Enabled(st, Start(c, targets, action))
    ensures Inv(Apply(st, Start(c, targets, action)))
  {
    var st' := ApplyStart(st, c, targets, action);
    At(st, c, c);
    if ValidAction(action) && targets <= st.online && c !in targets && targets != {} {
      QuietStep(st, st', c);
    } else if ValidAction(action) && targets <= st.online && c !in targets {
    } else {
      StopStep(st, c, st'.stopped[c]);
    }
  }

  /** The steps before publication. */
  lemma EarlyKeeps(st: State, c: nat, e: SendError, x: bool)
    requires Inv(st) && Enabled(st, Main(c, e, x))
    requires var pc := st.src[c].pc; pc.SwapActive? || pc.LoadRemaining? || pc.StoreAction? || pc.LoadSequence?
    ensures Inv(Apply(st, Main(c, e, x)))
  {
    hide Inv, PairInv;
    var st' := ApplyMain(st, c, e, x);
    var S := st.src[c];
    At(st, c, c);
    if S.pc.LoadSequence? && S.sequence == USIZE_MAX {
      StopStep(st, c, SequenceWrapped);
    } else {
      if S.pc.LoadRemaining? { assert S.remaining == {}; }
      QuietStep(st, st', c);
    }
  }

  lemma OnlineInRange(st: State)
    requires Inv(st)
    ensures forall v | v in st.online :: v < st.n
  {
  }

  /** The loop's own moves and the rejected send. */
  lemma LoopKeeps(st: State, c: nat, e: SendError, x: bool)
    requires Inv(st) && Enabled(st, Main(c, e, x))
    requires var S := st.src[c];
      || (S.pc.InsertRemaining? && (S.pc.k == st.n || S.pc.k !in S.pc.r.targets))
      || (S.pc.SendIpi? && e.Rejected?)
    ensures Inv(Apply(st, Main(c, e, x)))
  {
    hide Inv, PairInv;
    At(st, c, c);
    var st' := ApplyMain(st, c, e, x);
    OnlineInRange(st);
    QuietStep(st, st', c);
  }

  /** The wait loop's own moves and the clearing of the action. */
  lemma WaitKeeps(st: State, c: nat, e: SendError, x: bool)
    requires Inv(st) && Enabled(st, Main(c, e, x))
    requires var S := st.src[c]; (S.pc.WaitLoad? && S.remaining == {}) || S.pc.CheckTimeout? || S.pc.ClearAction?
    ensures Inv(Apply(st, Main(c, e, x)))
  {
    hide Inv, PairInv;
    At(st, c, c);
    if st.src[c].pc.CheckTimeout? && x { StopStep(st, c, WaitTimeout); }
    else { QuietStep(st, ApplyMain(st, c, e, x), c); }
  }

  lemma PublishKeeps(st: State, c: nat, e: SendError, x: bool)
    requires Inv(st) && Enabled(st, Main(c, e, x)) && st.src[c].pc.StoreSequence?
    ensures Inv(Apply(st, Main(c, e, x)))
  {
    var st' := ApplyMain(st, c, e, x);
    var S, S' := st.src[c], st'.src[c];
    At(st, c, c);
    assert S.remaining == {};
    forall u | 0 <= u < st.n ensures PairAt(st', c, u) {
      At(st, c, u);
      PublishPair(S, S', st.tgt[u], c, u, st.n, st.log, st'.log);
    }
    forall v | 0 <= v < st.n ensures PairAt(st', v, c) {
      At(st, v, c);
      if v != c { PairInvGrows(st.src[v], st.tgt[c], v, c, st.log, [Begin(c, S'.pc.r)]); }
    }
    HistoryGrows(st.log, Begin(c, S'.pc.r));
    assert st'.tgt == st.tgt[c := st'.tgt[c]];
    Assemble(st, st', c, c, [Begin(c, S'.pc.r)]);
  }

  lemma InsertRemainingKeeps(st: State, c: nat, e: SendError, x: bool)
    requires Inv(st) && Enabled(st, Main(c, e, x))
    requires st.src[c].pc.InsertRemaining? && st.src[c].pc.k < st.n && st.src[c].pc.k in st.src[c].pc.r.targets
    ensures Inv(Apply(st, Main(c, e, x)))
  {
    var st' := ApplyMain(st, c, e, x);
    var S := st.src[c];
    At(st, c, c);
    assert S.pc.k !in S.remaining;
    forall u | 0 <= u < st.n ensures PairAt(st', c, u) {
      At(st, c, u);
      InsertRemainingPair(S, st'.src[c], st.tgt[u], c, u, st.n, st.log);
    }
    forall v | 0 <= v < st.n ensures PairAt(st', v, c) { At(st, v, c); assert PairAt(st', c, c); }
    assert st.log + [] == st.log && st'.tgt == st.tgt[c := st'.tgt[c]];
    Assemble(st, st', c, c, []);
  }

  lemma InsertPendingEffect(st: State, c: nat, e: SendError, x: bool)
    requires Enabled(st, Main(c, e, x)) && st.src[c].pc.InsertPending? && c !in st.tgt[st.src[c].pc.k].pending
    ensures var S, k := st.src[c], st.src[c].pc.k;
      var pc' := if st.tgt[k].pending == {} then SendIpi(S.pc.r, k) else InsertRemaining(S.pc.r, k + 1);
      Apply(st, Main(c, e, x)) == st.(src := st.src[c := S.(pc := pc')],
                                      tgt := st.tgt[k := st.tgt[k].(pending := st.tgt[k].pending + {c})])
  {
  }

  lemma NotYetPending(st: State, c: nat)
    requires Inv(st) && c < st.n && st.src[c].pc.InsertPending?
    ensures var k := st.src[c].pc.k; k < st.n && k in st.src[c].remaining && c !in st.tgt[k].pending
  {
    hide Inv;
    At(st, c, c);
    At(st, c, st.src[c].pc.k);
  }

  lemma InsertPendingKeeps(st: State, c: nat, e: SendError, x: bool)
    requires Inv(st) && Enabled(st, Main(c, e, x)) && st.src[c].pc.InsertPending?
    ensures Inv(Apply(st, Main(c, e, x)))
  {
    hide Inv, PairInv, Apply;
    var st', k := Apply(st, Main(c, e, x)), st.src[c].pc.k;
    At(st, c, c);
    NotYetPending(st, c);
    InsertPendingEffect(st, c, e, x);
    forall u | 0 <= u < st.n ensures PendingMove(st.src[c], st'.src[c], st.tgt[u], st'.tgt[u], c, u) {}
    PendingKeeps(st, st', c, k);
  }

  /** Entering or leaving the pending mask of `k`. */
  lemma PendingKeeps(st: State, st': State, c: nat, k: nat)
    requires Inv(st) && c < st.n && k < st.n && c != k && |st'.src| == |st'.tgt| == st.n
    requires st' == st.(src := st.src[c := st'.src[c]], tgt := st.tgt[k := st'.tgt[k]])
    requires forall u | 0 <= u < st.n :: PendingMove(st.src[c], st'.src[c], st.tgt[u], st'.tgt[u], c, u)
    requires forall v: nat | v != c :: v in st'.tgt[k].pending <==> v in st.tgt[k].pending
    requires SourceInv(st'.src[c], c, st.n, st.online, st.log) && st.src[c].pc.Polling? == st'.src[c].pc.Polling?
    ensures Inv(st')
  {
    hide Inv, PairInv, SourceInv;
    At(st, c, k);
    assert PendingMove(st.src[c], st'.src[c], st.tgt[c], st'.tgt[c], c, c);
    assert PendingMove(st.src[c], st'.src[c], st.tgt[k], st'.tgt[k], c, k);
    PendingPairs(st, st', c, k);
    OtherSources(st, st', c, k);
    AssembleQuietly(st, st', c, k);
  }

  /** `Assemble` for a step that leaves the history and the stopped CPUs alone. */
  lemma AssembleQuietly(st: State, st': State, s: nat, t: nat)
    requires Inv(st) && Shape(st') && s < st.n && t < st.n
    requires st'.n == st.n && st'.online == st.online && st'.log == st.log && st'.stopped == st.stopped
    requires st'.src == st.src[s := st'.src[s]] && st'.tgt == st.tgt[t := st'.tgt[t]]
    requires st'.src[s].sequence == st.src[s].sequence
    requires SourceInv(st'.src[s], s, st.n, st.online, st'.log) && TargetInv(st'.tgt[t], st.n)
    requires forall u | 0 <= u < st.n :: PairAt(st', s, u)
    requires forall v | 0 <= v < st.n :: PairAt(st', v, t)
    requires PollInv(st'.src[s], st'.tgt[s]) && PollInv(st'.src[t], st'.tgt[t])
    ensures Inv(st')
  {
    hide PairAt, SourceInv, TargetInv, PollInv, HistoryInv;
    assert st.log + [] == st.log;
    Assemble(st, st', s, t, []);
  }

  /** A change of `pending[k]` at `c` only is invisible to the other sources. */
  lemma OtherSources(st: State, st': State, c: nat, k: nat)
    requires Inv(st) && c < st.n && k < st.n
    requires |st'.src| == |st'.tgt| == st.n && st'.src == st.src[c := st'.src[c]]
    requires st'.tgt[k] == st.tgt[k].(pending := st'.tgt[k].pending, ipi := st'.tgt[k].ipi)
    requires forall v: nat | v != c :: v in st'.tgt[k].pending <==> v in st.tgt[k].pending
    requires Shape(st') && st'.n == st.n && st'.log == st.log && PairAt(st', c, k)
    ensures forall v | 0 <= v < st.n :: PairAt(st', v, k)
  {
    forall v | 0 <= v < st.n ensures PairAt(st', v, k) {
      At(st, v, k);
      if v != c { At(st, v, k); }
    }
  }

  /** A latched IPI is no part of what a pair promises. */
  lemma LatchPair(S: Source, T: Target, ipi: bool, s: nat, t: nat, log: seq<Event>)
    requires s < |T.observed| && PairInv(S, T, s, t, log)
    ensures PairInv(S, T.(ipi := ipi), s, t, log)
  {
  }

  lemma SendKeeps(st: State, c: nat, x: bool)
    requires Inv(st) && Enabled(st, Main(c, Accepted, x)) && st.src[c].pc.SendIpi?
    ensures Inv(Apply(st, Main(c, Accepted, x)))
  {
    hide Inv, PairInv;
    var st' := ApplyMain(st, c, Accepted, x);
    var S, k := st.src[c], st.src[c].pc.k;
    At(st, c, c);
    At(st, c, k);
    forall u | 0 <= u < st.n ensures PairAt(st', c, u) {
      At(st, c, u);
      QuietPair(S, st'.src[c], st.tgt[u], c, u, st.log);
      LatchPair(st'.src[c], st.tgt[u], st'.tgt[u].ipi, c, u, st.log);
    }
    OtherSources(st, st', c, k);
    AssembleQuietly(st, st', c, k);
  }

  lemma RemovePendingEffect(st: State, c: nat, e: SendError, x: bool)
    requires Enabled(st, Main(c, e, x)) && st.src[c].pc.RemovePending?
    ensures var S, k := st.src[c], st.src[c].pc.k;
      var pc' := if c in st.tgt[k].pending then RemoveRemaining(S.pc.r, k, S.pc.error) else WaitLoad(S.pc.r, FailedAt(k, S.pc.error));
      Apply(st, Main(c, e, x)) == st.(src := st.src[c := S.(pc := pc')],
                                      tgt := st.tgt[k := st.tgt[k].(pending := st.tgt[k].pending - {c})])
  {
  }

  lemma RemovePendingKeeps(st: State, c: nat, e: SendError, x: bool)
    requires Inv(st) && Enabled(st, Main(c, e, x)) && st.src[c].pc.RemovePending?
    ensures Inv(Apply(st, Main(c, e, x)))
  {
    hide Inv, PairInv, Apply;
    var st', k := Apply(st, Main(c, e, x)), st.src[c].pc.k;
    At(st, c, c);
    RemovePendingEffect(st, c, e, x);
    forall u | 0 <= u < st.n ensures PendingMove(st.src[c], st'.src[c], st.tgt[u], st'.tgt[u], c, u) {}
    PendingKeeps(st, st', c, k);
  }

  /** The pairs of `c` after it entered or left the pending mask of `k`. */
  lemma PendingPairs(st: State, st': State, c: nat, k: nat)
    requires Inv(st) && c < st.n && k < st.n && Shape(st') && st'.n == st.n && st'.log == st.log
    requires forall u | 0 <= u < st.n :: PendingMove(st.src[c], st'.src[c], st.tgt[u], st'.tgt[u], c, u)
    ensures forall u | 0 <= u < st.n :: PairAt(st', c, u)
  {
    hide Inv, PairInv;
    forall u | 0 <= u < st.n ensures PairAt(st', c, u) {
      At(st, c, u);
      assert PendingMove(st.src[c], st'.src[c], st.tgt[u], st'.tgt[u], c, u);
      PendingPair(st.src[c], st'.src[c], st.tgt[u], st'.tgt[u], c, u, st.log);
    }
  }

  lemma RemoveRemainingKeeps(st: State, c: nat, e: SendError, x: bool)
    requires Inv(st) && Enabled(st, Main(c, e, x)) && st.src[c].pc.RemoveRemaining?
    ensures Inv(Apply(st, Main(c, e, x)))
  {
    var st' := ApplyMain(st, c, e, x);
    var S, k := st.src[c], st.src[c].pc.k;
    At(st, c, c);
    At(st, c, k);
    assert k in S.remaining;
    forall u | 0 <= u < st.n ensures PairAt(st', c, u) {
      At(st, c, u);
      RollbackPair(S, st'.src[c], st.tgt[u], c, u, st.n, st.log);
    }
    forall v | 0 <= v < st.n ensures PairAt(st', v, c) { At(st, v, c); assert PairAt(st', c, c); }
    assert st.log + [] == st.log && st'.tgt == st.tgt[c := st'.tgt[c]];
    Assemble(st, st', c, c, []);
  }

  /** A fresh activation, about to swap, owns nothing. */
  lemma PushPair(S: Source, T: Target, f: Frame, ipi: bool, s: nat, t: nat, log: seq<Event>)
    requires s < |T.observed| && PairInv(S, T, s, t, log)
    requires f.stage.SwapPending? && f.sources == {}
    ensures PairInv(S, T.(frames := T.frames + [f], ipi := ipi), s, t, log)
  {
    PushCounts(T.frames, f, s);
  }

  lemma PollKeeps(st: State, c: nat, e: SendError, x: bool)
    requires Inv(st) && Enabled(st, Main(c, e, x)) && st.src[c].pc.WaitLoad? && st.src[c].remaining != {}
    ensures Inv(Apply(st, Main(c, e, x)))
  {
    hide PairInv, HistoryInv;
    var st' := ApplyMain(st, c, e, x);
    var S, S', T := st.src[c], st'.src[c], st.tgt[c];
    var f := Frame(true, {}, 0, SwapPending);
    At(st, c, c);
    assert st'.tgt[c] == T.(frames := T.frames + [f], ipi := T.ipi);
    forall u | 0 <= u < st.n ensures PairInv(S', st.tgt[u], c, u, st.log) {
      At(st, c, u);
      QuietPair(S, S', st.tgt[u], c, u, st.log);
    }
    forall v | 0 <= v < st.n ensures PairAt(st', v, c) {
      At(st, v, c);
      PushPair(st'.src[v], T, f, T.ipi, v, c, st.log);
    }
    assert st.log + [] == st.log;
    Assemble(st, st', c, c, []);
  }

  lemma FinishKeeps(st: State, c: nat, e: SendError, x: bool)
    requires Inv(st) && Enabled(st, Main(c, e, x)) && st.src[c].pc.ClearActive?
    ensures Inv(Apply(st, Main(c, e, x)))
  {
    var st' := ApplyMain(st, c, e, x);
    var S, S' := st.src[c], st'.src[c];
    At(st, c, c);
    var ev := Return(c, S.pc.r, S.pc.sent);
    forall u | 0 <= u < st.n ensures PairAt(st', c, u) {
      At(st, c, u);
      FinishPair(S, S', st.tgt[u], c, u, st.n, st.log, st'.log);
    }
    forall v | 0 <= v < st.n ensures PairAt(st', v, c) {
      At(st, v, c);
      if v != c { PairInvGrows(st.src[v], st.tgt[c], v, c, st.log, [ev]); }
    }
    forall t | t in S.pc.r.targets && SentBefore(S.pc.sent, t) ensures Fenced(st.log, S.pc.r, t, c) {
      assert t in st.online;
      At(st, c, t);
    }
    HistoryGrows(st.log, ev);
    assert st'.tgt == st.tgt[c := st'.tgt[c]];
    Assemble(st, st', c, c, [ev]);
  }

  lemma MainKeeps(st: State, c: nat, e: SendError, x: bool)
    requires Inv(st) && Enabled(st, Main(c, e, x))
    ensures Inv(Apply(st, Main(c, e, x)))
  {
    var S := st.src[c];
    match S.pc
    case StoreSequence(_) => PublishKeeps(st, c, e, x);
    case InsertRemaining(r, k) =>
      if k < st.n && k in r.targets { InsertRemainingKeeps(st, c, e, x); } else { LoopKeeps(st, c, e, x); }
    case InsertPending(_, _) => InsertPendingKeeps(st, c, e, x);
    case SendIpi(_, _) => if e.Accepted? { SendKeeps(st, c, x); } else { LoopKeeps(st, c, e, x); }
    case RemovePending(_, _, _) => RemovePendingKeeps(st, c, e, x);
    case RemoveRemaining(_, _, _) => RemoveRemainingKeeps(st, c, e, x);
    case WaitLoad(_, _) => if S.remaining == {} { WaitKeeps(st, c, e, x); } else { PollKeeps(st, c, e, x); }
    case ClearActive(_, _) => FinishKeeps(st, c, e, x);
    case CheckTimeout(_, _) => WaitKeeps(st, c, e, x);
    case ClearAction(_, _) => WaitKeeps(st, c, e, x);
    case _ => EarlyKeeps(st, c, e, x);
  }

  // --- handlers ---

  lemma InterruptKeeps(st: State, c: nat)
    requires Inv(st) && Enabled(st, Interrupt(c))
    ensures Inv(Apply(st, Interrupt(c)))
  {
    var st' := Apply(st, Interrupt(c));
    At(st, c, c);
    forall v | 0 <= v < st.n ensures PairAt(st', v, c) {
      At(st, v, c);
      PushPair(st.src[v], st.tgt[c], Frame(false, {}, 0, SwapPending), false, v, c, st.log);
    }
    TargetStep(st, st', c, []);
  }

  lemma SpuriousKeeps(st: State, c: nat)
    requires Inv(st) && Enabled(st, Spurious(c))
    ensures Inv(Apply(st, Spurious(c)))
  {
    var st' := Apply(st, Spurious(c));
    At(st, c, c);
    forall v | 0 <= v < st.n ensures PairAt(st', v, c) {
      At(st, v, c);
    }
    TargetStep(st, st', c, []);
  }

  /** A step that rewrites one target record and appends at most fences. */
  lemma TargetStep(st: State, st': State, c: nat, more: seq<Event>)
    requires Inv(st) && c < st.n
    requires |st'.tgt| == st.n && st' == st.(tgt := st.tgt[c := st'.tgt[c]], log := st.log + more)
    requires |more| <= 1 && (forall e | e in more :: e.Fence?)
    requires Shape(st') && TargetInv(st'.tgt[c], st.n) && PollInv(st.src[c], st'.tgt[c])
    requires forall v | 0 <= v < st.n :: PairAt(st', v, c)
    ensures Inv(st')
  {
    if more == [] { assert st.log + more == st.log; } else { assert more[0] in more && more == [more[0]]; HistoryGrows(st.log, more[0]); }
    At(st, c, c);
    SourceInvGrows(st.src[c], c, st.n, st.online, st.log, more);
    forall u | 0 <= u < st.n ensures PairAt(st', c, u) {
      At(st, c, u);
      if u != c { PairInvGrows(st.src[c], st.tgt[u], c, u, st.log, more); }
    }
    assert st'.src == st.src[c := st'.src[c]];
    Assemble(st, st', c, c, more);
  }

  function Top(T: Target): Frame
    requires T.frames != []
  {
    T.frames[|T.frames| - 1]
  }

  /** The innermost activation changes without taking, releasing or completing a claim on `s`. */
  lemma TopPair(S: Source, T: Target, f: Frame, s: nat, t: nat, log: seq<Event>)
    requires s < |T.observed| && T.frames != [] && PairInv(S, T, s, t, log)
    requires Owns(f, s) == Owns(Top(T), s)
    requires !(Top(T).stage.Acknowledge? && Top(T).next == s) && !(f.stage.Acknowledge? && f.next == s)
    requires Mid(f) && f.next == s ==> FrameLink(f, S, s, t, log)
    ensures PairInv(S, T.(frames := SetTop(T.frames, f)), s, t, log)
  {
    SetTopCounts(T.frames, f, s);
    var T' := T.(frames := SetTop(T.frames, f));
    forall i | 0 <= i < |T'.frames| && Mid(T'.frames[i]) && T'.frames[i].next == s
      ensures FrameLink(T'.frames[i], S, s, t, log)
    {
      if i < |T.frames| - 1 { assert T'.frames[i] == T.frames[i]; }
    }
  }

  /** A target that owns `s` serves a published request that waits for it. */
  lemma TopOwner(st: State, c: nat)
    requires Inv(st) && c < st.n && st.tgt[c].frames != []
    requires Owns(Top(st.tgt[c]), Top(st.tgt[c]).next) && Top(st.tgt[c]).next < st.n
    ensures var s := Top(st.tgt[c]).next;
      && s != c
      && c in st.src[s].remaining
      && Reached(st.src[s].pc, c)
      && Claims(st.tgt[c].frames, s) == 1
      && Published(st.src[s].pc)
      && st.src[s].active
      && ValidAction(st.src[s].action)
      && st.src[s].action == st.src[s].pc.r.action
      && st.src[s].pc.r.begun < |st.log|
      && st.src[s].pc.r.sequence == st.src[s].sequence
  {
    var T, s := st.tgt[c], Top(st.tgt[c]).next;
    At(st, s, c);
    ClaimsPositive(T.frames, |T.frames| - 1, s);
    At(st, s, s);
  }

  /** Stages that read shared memory, and the loop's own moves. */
  lemma TopKeeps(st: State, c: nat, f: Frame)
    requires Inv(st) && c < st.n && st.tgt[c].frames != []
    requires FrameOk(f, st.n) && f.poll == Top(st.tgt[c]).poll
    requires forall s | 0 <= s < st.n :: Owns(f, s) == Owns(Top(st.tgt[c]), s)
    requires !Top(st.tgt[c]).stage.Acknowledge? && !f.stage.Acknowledge?
    requires Mid(f) && f.next < st.n ==> FrameLink(f, st.src[f.next], f.next, c, st.log)
    ensures Inv(SetStage(st, c, f))
  {
    var st' := SetStage(st, c, f);
    forall v | 0 <= v < st.n ensures PairAt(st', v, c) {
      At(st, v, c);
      TopPair(st.src[v], st.tgt[c], f, v, c, st.log);
    }
    assert st.log + [] == st.log;
    At(st, c, c);
    SetTopTarget(st.tgt[c], f, st.n);
    TargetStep(st, st', c, []);
  }

  lemma SetTopTarget(T: Target, f: Frame, n: nat)
    requires TargetInv(T, n) && T.frames != [] && FrameOk(f, n)
    ensures TargetInv(T.(frames := SetTop(T.frames, f)), n)
  {
  }

  /** The swap: everything pending becomes claimed. */
  lemma SwapPair(S: Source, T: Target, f: Frame, s: nat, t: nat, log: seq<Event>)
    requires s < |T.observed| && T.frames != [] && PairInv(S, T, s, t, log)
    requires Top(T).stage.SwapPending? && Top(T).sources == {}
    requires f == Top(T).(sources := T.pending, next := 0, stage := AtSource)
    ensures PairInv(S, T.(pending := {}, frames := SetTop(T.frames, f)), s, t, log)
  {
    SetTopCounts(T.frames, f, s);
    var T' := T.(pending := {}, frames := SetTop(T.frames, f));
    forall i | 0 <= i < |T'.frames| && Mid(T'.frames[i]) && T'.frames[i].next == s
      ensures FrameLink(T'.frames[i], S, s, t, log)
    {
      assert T'.frames[i] == T.frames[i];
    }
  }

  lemma SwapKeeps(st: State, c: nat)
    requires Inv(st) && Enabled(st, Handler(c)) && Top(st.tgt[c]).stage.SwapPending? && st.tgt[c].pending != {}
    ensures Inv(Apply(st, Handler(c)))
  {
    hide Inv, PairInv, TargetInv, PollInv, Fenced;
    var st' := ApplyHandler(st, c);
    var T := st.tgt[c];
    var f := Top(T).(sources := T.pending, next := 0, stage := AtSource);
    At(st, c, c);
    assert FrameOk(Top(T), st.n);
    forall v | 0 <= v < st.n ensures PairAt(st', v, c) {
      At(st, v, c);
      SwapPair(st.src[v], T, f, v, c, st.log);
    }
    assert st.log + [] == st.log;
    SetTopTarget(T, f, st.n);
    TargetStep(st, st', c, []);
  }

  lemma PopPair(S: Source, T: Target, s: nat, t: nat, log: seq<Event>)
    requires s < |T.observed| && T.frames != [] && PairInv(S, T, s, t, log)
    requires Top(T).stage.SwapPending? && Top(T).sources == {}
    ensures PairInv(S, T.(frames := T.frames[..|T.frames| - 1]), s, t, log)
  {
    var T' := T.(frames := T.frames[..|T.frames| - 1]);
    forall i | 0 <= i < |T'.frames| && Mid(T'.frames[i]) && T'.frames[i].next == s
      ensures FrameLink(T'.frames[i], S, s, t, log)
    {
      assert T'.frames[i] == T.frames[i];
    }
  }

  lemma PopKeeps(st: State, c: nat)
    requires Inv(st) && Enabled(st, Handler(c)) && Top(st.tgt[c]).stage.SwapPending? && st.tgt[c].pending == {}
    ensures Inv(Apply(st, Handler(c)))
  {
    hide Inv, PairInv;
    var st' := ApplyHandler(st, c);
    var S, S', T, T' := st.src[c], st'.src[c], st.tgt[c], st'.tgt[c];
    At(st, c, c);
    assert FrameOk(Top(T), st.n) && T' == T.(frames := T.frames[..|T.frames| - 1]);
    At(st, c, c);
    forall u | 0 <= u < st.n ensures PairInv(S', st.tgt[u], c, u, st.log) {
      At(st, c, u);
      QuietPair(S, S', st.tgt[u], c, u, st.log);
    }
    forall v | 0 <= v < st.n ensures PairAt(st', v, c) {
      At(st, v, c);
      PopPair(st'.src[v], T, v, c, st.log);
    }
    assert PollAt(st', c);
    AssembleQuietly(st, st', c, c);
  }

  lemma LoopMoveKeeps(st: State, c: nat)
    requires Inv(st) && c < st.n && st.tgt[c].frames != [] && Top(st.tgt[c]).stage.AtSource?
    ensures var f := Top(st.tgt[c]);
      && (f.next == st.n ==> Inv(SetStage(st, c, f.(sources := {}, next := 0, stage := SwapPending))))
      && (f.next < st.n && f.next !in f.sources ==> Inv(SetStage(st, c, f.(next := f.next + 1))))
  {
    var f := Top(st.tgt[c]);
    At(st, c, c);
    assert FrameOk(f, st.n);
    if f.next == st.n {
      TopKeeps(st, c, f.(sources := {}, next := 0, stage := SwapPending));
    } else if f.next !in f.sources {
      TopKeeps(st, c, f.(next := f.next + 1));
    }
  }

  lemma LoadActiveKeeps(st: State, c: nat)
    requires Inv(st) && c < st.n && st.tgt[c].frames != [] && Top(st.tgt[c]).stage.AtSource?
    requires Top(st.tgt[c]).next < st.n && Top(st.tgt[c]).next in Top(st.tgt[c]).sources
    ensures Inv(SetStage(st, c, Top(st.tgt[c]).(stage := ReadSequence)))
  {
    At(st, c, c);
    assert FrameOk(Top(st.tgt[c]), st.n);
    TopOwner(st, c);
    TopKeeps(st, c, Top(st.tgt[c]).(stage := ReadSequence));
  }

  lemma AtSourceEffect(st: State, c: nat)
    requires Enabled(st, Handler(c)) && Top(st.tgt[c]).stage.AtSource?
    ensures var f := Top(st.tgt[c]);
      && (f.next == st.n ==> Apply(st, Handler(c)) == SetStage(st, c, f.(sources := {}, next := 0, stage := SwapPending)))
      && (f.next < st.n && f.next !in f.sources ==> Apply(st, Handler(c)) == SetStage(st, c, f.(next := f.next + 1)))
      && (f.next < st.n && f.next in f.sources && f.next != c && st.src[f.next].active ==>
            Apply(st, Handler(c)) == SetStage(st, c, f.(stage := ReadSequence)))
  {
  }

  lemma AtSourceKeeps(st: State, c: nat)
    requires Inv(st) && Enabled(st, Handler(c)) && Top(st.tgt[c]).stage.AtSource?
    ensures Inv(Apply(st, Handler(c)))
  {
    AtSourceEffect(st, c);
    var f := Top(st.tgt[c]);
    if f.next < st.n && f.next in f.sources {
      TopOwner(st, c);
      LoadActiveKeeps(st, c);
    } else {
      LoopMoveKeeps(st, c);
    }
  }

  /** A register load: the next stage carries the published sequence. */
  lemma LoadKeeps(st: State, c: nat, stage: Stage)
    requires Inv(st) && c < st.n && st.tgt[c].frames != [] && Mid(Top(st.tgt[c])) && Top(st.tgt[c]).next < st.n
    requires !Top(st.tgt[c]).stage.Acknowledge?
    requires (stage.ReadObserved? || stage.ReadAction?) && stage.sequence == st.src[Top(st.tgt[c]).next].sequence
    ensures Inv(SetStage(st, c, Top(st.tgt[c]).(stage := stage)))
  {
    At(st, c, c);
    assert FrameOk(Top(st.tgt[c]), st.n);
    TopOwner(st, c);
    TopKeeps(st, c, Top(st.tgt[c]).(stage := stage));
  }

  lemma ReadSequenceKeeps(st: State, c: nat)
    requires Inv(st) && Enabled(st, Handler(c)) && Top(st.tgt[c]).stage.ReadSequence?
    ensures Inv(Apply(st, Handler(c)))
  {
    LoadKeeps(st, c, ReadObserved(st.src[Top(st.tgt[c]).next].sequence));
  }

  /** The stale-sequence assertion cannot fire. */
  lemma Fresh(st: State, c: nat)
    requires Inv(st) && c < st.n && st.tgt[c].frames != []
    requires Top(st.tgt[c]).stage.ReadObserved? && Top(st.tgt[c]).next < st.n
    ensures var f := Top(st.tgt[c]);
      f.stage.sequence == st.src[f.next].sequence && f.stage.sequence > st.tgt[c].observed[f.next]
  {
    var T, f := st.tgt[c], Top(st.tgt[c]);
    At(st, c, c);
    assert FrameOk(f, st.n);
    TopOwner(st, c);
    At(st, f.next, c);
    assert FrameLink(T.frames[|T.frames| - 1], st.src[f.next], f.next, c, st.log);
    NotAcknowledging(T, f.next, st.n);
  }

  lemma ReadObservedKeeps(st: State, c: nat)
    requires Inv(st) && Enabled(st, Handler(c)) && Top(st.tgt[c]).stage.ReadObserved?
    ensures Inv(Apply(st, Handler(c)))
  {
    Fresh(st, c);
    LoadKeeps(st, c, ReadAction(Top(st.tgt[c]).stage.sequence));
  }

  /** While the one owner of `s` is not acknowledging, nobody is. */
  lemma NotAcknowledging(T: Target, s: nat, n: nat)
    requires TargetInv(T, n) && T.frames != [] && Owns(Top(T), s) && Claims(T.frames, s) == 1
    requires !(Top(T).stage.Acknowledge? && Top(T).next == s)
    ensures Acks(T.frames, s) == 0
  {
    var rest := T.frames[..|T.frames| - 1];
    AcksAtMostClaims(rest, s, n);
  }

  /** A barrier runs: the top activation moves on and the history records the fence. */
  lemma FencePair(S: Source, T: Target, f: Frame, s: nat, t: nat, log: seq<Event>, ev: Event)
    requires s < |T.observed| && T.frames != [] && PairInv(S, T, s, t, log)
    requires Owns(f, s) == Owns(Top(T), s)
    requires !Top(T).stage.Acknowledge? && !f.stage.Acknowledge?
    requires Mid(f) && f.next == s ==> FrameLink(f, S, s, t, log + [ev])
    ensures PairInv(S, T.(frames := SetTop(T.frames, f)), s, t, log + [ev])
  {
    PairInvGrows(S, T, s, t, log, [ev]);
    TopPair(S, T, f, s, t, log + [ev]);
  }

  lemma RecordFence(st: State, c: nat, stage: Stage, ev: Event)
    requires Inv(st) && c < st.n && st.tgt[c].frames != [] && Mid(Top(st.tgt[c])) && Top(st.tgt[c]).next < st.n
    requires !Top(st.tgt[c]).stage.Acknowledge? && !stage.Acknowledge? && ev.Fence?
    requires stage.InstructionFence? || stage.StoreObserved?
    requires var f := Top(st.tgt[c]).(stage := stage);
      FrameLink(f, st.src[f.next], f.next, c, st.log + [ev])
    ensures Inv(SetStage(st, c, Top(st.tgt[c]).(stage := stage)).(log := st.log + [ev]))
  {
    var T, f := st.tgt[c], Top(st.tgt[c]).(stage := stage);
    var st' := SetStage(st, c, f).(log := st.log + [ev]);
    At(st, c, c);
    assert FrameOk(Top(T), st.n);
    forall v | 0 <= v < st.n ensures PairAt(st', v, c) {
      At(st, v, c);
      FencePair(st.src[v], T, f, v, c, st.log, ev);
    }
    SetTopTarget(T, f, st.n);
    TargetStep(st, st', c, [ev]);
  }

  lemma FenceKeeps(st: State, c: nat)
    requires Inv(st) && Enabled(st, Handler(c))
    requires Top(st.tgt[c]).stage.ReadAction? || Top(st.tgt[c]).stage.InstructionFence?
    ensures Inv(Apply(st, Handler(c)))
  {
    hide Inv, HistoryInv, StopInv, SourceInv;
    var T, f := st.tgt[c], Top(st.tgt[c]);
    var s := f.next;
    At(st, c, c);
    assert FrameOk(f, st.n);
    TopOwner(st, c);
    var r, q := st.src[s].pc.r, f.stage.sequence;
    assert FrameLink(T.frames[|T.frames| - 1], st.src[s], s, c, st.log) by {
      At(st, s, c);
    }
    var ev := Fence(c, s, q, if f.stage.ReadAction? then MemoryBarrier else InstructionBarrier);
    var stage := if f.stage.ReadAction? && r.action == REMOTE_SYNC_INSTRUCTION then InstructionFence(q) else StoreObserved(q);
    FenceRecorded(st.log, r, c, s, ev, f.stage, stage);
    RecordFence(st, c, stage, ev);
  }

  lemma FenceRecorded(log: seq<Event>, r: Request, t: nat, s: nat, ev: Event, before: Stage, after: Stage)
    requires r.begun < |log| && ValidAction(r.action)
    requires
      || (before.ReadAction? && ev == Fence(t, s, r.sequence, MemoryBarrier)
          && after == if r.action == REMOTE_SYNC_MEMORY then StoreObserved(r.sequence) else InstructionFence(r.sequence))
      || (before.InstructionFence? && ev == Fence(t, s, r.sequence, InstructionBarrier)
          && after == StoreObserved(r.sequence) && r.action == REMOTE_SYNC_INSTRUCTION && MemoryFenced(log, r, t, s))
    ensures after.InstructionFence? ==> MemoryFenced(log + [ev], r, t, s)
    ensures after.StoreObserved? ==> Fenced(log + [ev], r, t, s)
  {
    var log' := log + [ev];
    assert log'[|log|] == ev;
    if before.InstructionFence? {
      var i :| r.begun < i < |log| && log[i] == Fence(t, s, r.sequence, MemoryBarrier);
      assert log'[i] == log[i];
    }
  }

  lemma StoreObservedPair(S: Source, T: Target, T': Target, s: nat, t: nat, n: nat, log: seq<Event>)
    requires s < n && TargetInv(T, n) && T.frames != [] && PairInv(S, T, s, t, log)
    requires Top(T).stage.StoreObserved? && Mid(Top(T)) && Top(T).next < n
    requires T' == T.(observed := T.observed[Top(T).next := Top(T).stage.sequence],
                      frames := SetTop(T.frames, Top(T).(stage := Acknowledge)))
    requires s == Top(T).next ==> t in S.remaining && Reached(S.pc, t)
    ensures PairInv(S, T', s, t, log)
  {
    var f := Top(T).(stage := Acknowledge);
    SetTopCounts(T.frames, f, s);
    if s == f.next { assert FrameLink(T.frames[|T.frames| - 1], S, s, t, log); }
    forall i | 0 <= i < |T'.frames| && Mid(T'.frames[i]) && T'.frames[i].next == s
      ensures FrameLink(T'.frames[i], S, s, t, log)
    {
      if i < |T.frames| - 1 { assert T'.frames[i] == T.frames[i]; }
    }
  }

  lemma StoreObservedKeeps(st: State, c: nat)
    requires Inv(st) && Enabled(st, Handler(c)) && Top(st.tgt[c]).stage.StoreObserved?
    ensures Inv(Apply(st, Handler(c)))
  {
    var T, f := st.tgt[c], Top(st.tgt[c]);
    var T' := T.(observed := T.observed[f.next := f.stage.sequence], frames := SetTop(T.frames, f.(stage := Acknowledge)));
    At(st, c, c);
    assert FrameOk(f, st.n);
    TopOwner(st, c);
    SetTopTarget(T, f.(stage := Acknowledge), st.n);
    ReplaceTarget(st, c, T');
  }

  lemma ReplaceTarget(st: State, c: nat, T': Target)
    requires Inv(st) && c < st.n && st.tgt[c].frames != [] && TargetInv(T', st.n)
    requires var T, f := st.tgt[c], Top(st.tgt[c]);
      && f.stage.StoreObserved? && f.next < st.n
      && c in st.src[f.next].remaining && Reached(st.src[f.next].pc, c)
      && T' == T.(observed := T.observed[f.next := f.stage.sequence], frames := SetTop(T.frames, f.(stage := Acknowledge)))
    ensures Inv(st.(tgt := st.tgt[c := T']))
  {
    var st' := st.(tgt := st.tgt[c := T']);
    At(st, c, c);
    forall v | 0 <= v < st.n ensures PairAt(st', v, c) {
      At(st, v, c);
      StoreObservedPair(st.src[v], st.tgt[c], T', v, c, st.n, st.log);
    }
    assert st.log + [] == st.log;
    TargetStep(st, st', c, []);
  }

  /** The acknowledged pair leaves the remaining mask, fenced. */
  lemma AcknowledgePair(S: Source, S': Source, T: Target, T': Target, s: nat, t: nat, n: nat, log: seq<Event>)
    requires s < n && TargetInv(T, n) && T.frames != [] && PairInv(S, T, s, t, log)
    requires Top(T).stage.Acknowledge? && Top(T).next == s && t in S.remaining && Claims(T.frames, s) == 1
    requires S' == S.(remaining := S.remaining - {t})
    requires T' == T.(frames := SetTop(T.frames, Top(T).(next := s + 1, stage := AtSource)))
    ensures PairInv(S', T', s, t, log)
  {
    var f := Top(T).(next := s + 1, stage := AtSource);
    SetTopCounts(T.frames, f, s);
    assert FrameLink(T.frames[|T.frames| - 1], S, s, t, log);
    forall i | 0 <= i < |T'.frames| && Mid(T'.frames[i]) && T'.frames[i].next == s
      ensures FrameLink(T'.frames[i], S', s, t, log)
    {
      assert i < |T.frames| - 1 && T'.frames[i] == T.frames[i];
    }
  }

  lemma AcknowledgeOther(S: Source, T: Target, f: Frame, v: nat, t: nat, log: seq<Event>)
    requires v < |T.observed| && T.frames != [] && PairInv(S, T, v, t, log)
    requires Top(T).next != v && f == Top(T).(next := Top(T).next + 1, stage := AtSource)
    ensures PairInv(S, T.(frames := SetTop(T.frames, f)), v, t, log)
  {
    TopPair(S, T, f, v, t, log);
  }

  lemma AcknowledgeEffect(st: State, c: nat)
    requires Enabled(st, Handler(c)) && Top(st.tgt[c]).stage.Acknowledge? && c in st.src[Top(st.tgt[c]).next].remaining
    ensures var f := Top(st.tgt[c]);
      var S := st.src[f.next];
      Apply(st, Handler(c)) ==
        st.(src := st.src[f.next := S.(remaining := S.remaining - {c})],
            tgt := st.tgt[c := st.tgt[c].(frames := SetTop(st.tgt[c].frames, f.(next := f.next + 1, stage := AtSource)))])
  {
  }

  lemma AcknowledgeKeeps(st: State, c: nat)
    requires Inv(st) && Enabled(st, Handler(c)) && Top(st.tgt[c]).stage.Acknowledge?
    ensures Inv(Apply(st, Handler(c)))
  {
    hide Inv, PairInv, Apply;
    var f := Top(st.tgt[c]);
    var s := f.next;
    At(st, c, c);
    assert FrameOk(f, st.n);
    TopOwner(st, c);
    AcknowledgeEffect(st, c);
    var st' := Apply(st, Handler(c));
    AcknowledgePairs(st, st', s, c);
    At(st, s, c);
    SetTopTarget(st.tgt[c], f.(next := s + 1, stage := AtSource), st.n);
    AssembleQuietly(st, st', s, c);
  }

  lemma AcknowledgePairs(st: State, st': State, s: nat, c: nat)
    requires Inv(st) && c < st.n && s < st.n && st.tgt[c].frames != []
    requires Top(st.tgt[c]).stage.Acknowledge? && Top(st.tgt[c]).next == s
    requires c in st.src[s].remaining && Claims(st.tgt[c].frames, s) == 1
    requires Shape(st') && st'.n == st.n && st'.log == st.log
    requires st'.src == st.src[s := st.src[s].(remaining := st.src[s].remaining - {c})]
    requires st'.tgt == st.tgt[c := st.tgt[c].(frames := SetTop(st.tgt[c].frames, Top(st.tgt[c]).(next := s + 1, stage := AtSource)))]
    ensures forall v | 0 <= v < st.n :: PairAt(st', v, c)
    ensures forall u | 0 <= u < st.n :: PairAt(st', s, u)
  {
    var T, S, S' := st.tgt[c], st.src[s], st'.src[s];
    forall v | 0 <= v < st.n ensures PairAt(st', v, c) {
      At(st, v, c);
      if v == s { AcknowledgePair(S, S', T, st'.tgt[c], s, c, st.n, st.log); }
      else { AcknowledgeOther(st.src[v], T, Top(T).(next := s + 1, stage := AtSource), v, c, st.log); }
    }
    forall u | 0 <= u < st.n ensures PairAt(st', s, u) {
      At(st, s, u);
      if u == c { assert PairAt(st', s, c); } else { AcknowledgeElsewhere(S, S', st.tgt[u], s, u, c, st.log); }
    }
  }

  lemma AcknowledgeElsewhere(S: Source, S': Source, T: Target, s: nat, u: nat, c: nat, log: seq<Event>)
    requires s < |T.observed| && PairInv(S, T, s, u, log) && u != c
    requires S' == S.(remaining := S.remaining - {c})
    ensures PairInv(S', T, s, u, log)
  {
    forall i | 0 <= i < |T.frames| && Mid(T.frames[i]) && T.frames[i].next == s
      ensures FrameLink(T.frames[i], S', s, u, log)
    {
      assert FrameLink(T.frames[i], S, s, u, log);
    }
  }

  lemma HandlerKeeps(st: State, c: nat)
    requires Inv(st) && Enabled(st, Handler(c))
    ensures Inv(Apply(st, Handler(c)))
  {
    match Top(st.tgt[c]).stage
    case SwapPending => if st.tgt[c].pending == {} { PopKeeps(st, c); } else { SwapKeeps(st, c); }
    case AtSource => AtSourceKeeps(st, c);
    case ReadSequence => ReadSequenceKeeps(st, c);
    case ReadObserved(_) => ReadObservedKeeps(st, c);
    case ReadAction(_) => FenceKeeps(st, c);
    case InstructionFence(_) => FenceKeeps(st, c);
    case StoreObserved(_) => StoreObservedKeeps(st, c);
    case Acknowledge => AcknowledgeKeeps(st, c);
  }

  lemma StepKeeps(st: State, l: Label)
    requires Inv(st) && Enabled(st, l)
    ensures Inv(Apply(st, l))
  {
    match l
    case Start(c, targets, action) => StartKeeps(st, c, targets, action);
    case Spurious(c) => SpuriousKeeps(st, c);
    case Interrupt(c) => InterruptKeeps(st, c);
    case Handler(c) => HandlerKeeps(st, c);
    case Main(c, e, x) => MainKeeps(st, c, e, x);
  }
}
