/**
  What every step of the rendezvous keeps.  A step changes at most one source
  record and one target record, so the invariant is stated per source, per
  target and per (source, target) pair.
*/
module RendezvousInvariant {
  import opened Common
  import opened Rendezvous

  /** The activation swapped `s` out of the pending mask and has not acknowledged it. */
  predicate Owns(f: Frame, s: nat) {
    s in f.sources && f.next <= s
  }

  /** How many activations on a CPU hold `s` claimed. */
  function Claims(frames: seq<Frame>, s: nat): nat {
    if frames == [] then 0
    else Claims(frames[..|frames| - 1], s) + Count(Owns(frames[|frames| - 1], s))
  }

  /** How many activations have stored the observed sequence of `s` and are about to acknowledge it. */
  function Acks(frames: seq<Frame>, s: nat): nat {
    if frames == [] then 0
    else Acks(frames[..|frames| - 1], s) + Count(frames[|frames| - 1].stage.Acknowledge? && frames[|frames| - 1].next == s)
  }

  predicate Mid(f: Frame) {
    !f.stage.SwapPending? && !f.stage.AtSource?
  }

  // --- what a program counter says about one target ---

  /** The sequence number of the current submission has been published. */
  predicate Published(pc: Pc) {
    match pc
    case Idle => false
    case SwapActive(_) => false
    case LoadRemaining(_) => false
    case StoreAction(_) => false
    case LoadSequence(_) => false
    case StoreSequence(_) => false
    case _ => true
  }

  /** `t` is in the remaining mask and about to be put into its pending mask. */
  predicate Inserting(pc: Pc, t: nat) {
    pc.InsertPending? && pc.k == t
  }

  /** `s` was taken back out of the pending mask of `t` after a rejected IPI. */
  predicate RollingBack(pc: Pc, t: nat) {
    pc.RemoveRemaining? && pc.k == t
  }

  predicate SentBefore(sent: SendResult, t: nat) {
    sent.AllSent? || t < sent.target
  }

  /** The loop has passed `t`: if it is a target, it must run the barrier. */
  predicate Delivered(pc: Pc, t: nat) {
    match pc
    case InsertRemaining(_, k) => t < k
    case InsertPending(_, k) => t < k
    case SendIpi(_, k) => t <= k
    case RemovePending(_, k, _) => t <= k
    case RemoveRemaining(_, k, _) => t < k
    case WaitLoad(_, sent) => SentBefore(sent, t)
    case Polling(_, sent) => SentBefore(sent, t)
    case CheckTimeout(_, sent) => SentBefore(sent, t)
    case ClearAction(_, sent) => SentBefore(sent, t)
    case ClearActive(_, sent) => SentBefore(sent, t)
    case _ => false
  }

  /** The loop has reached `t`, so `t` may be in the remaining mask. */
  predicate Reached(pc: Pc, t: nat) {
    || Delivered(pc, t)
    || Inserting(pc, t)
    || RollingBack(pc, t)
    || ((pc.WaitLoad? || pc.Polling? || pc.CheckTimeout? || pc.ClearAction? || pc.ClearActive?)
        && pc.sent.FailedAt? && t == pc.sent.target)
  }

  // --- the history ---

  ghost predicate MemoryFenced(log: seq<Event>, r: Request, t: nat, s: nat) {
    exists i :: r.begun < i < |log| && log[i] == Fence(t, s, r.sequence, MemoryBarrier)
  }

  /** `t` ran the requested barrier for this request, after the request was published. */
  ghost predicate Fenced(log: seq<Event>, r: Request, t: nat, s: nat) {
    if r.action == REMOTE_SYNC_MEMORY then MemoryFenced(log, r, t, s)
    else
      exists i, j :: r.begun < i < j < |log|
        && log[i] == Fence(t, s, r.sequence, MemoryBarrier) && log[j] == Fence(t, s, r.sequence, InstructionBarrier)
  }

  /** `Ok`: every target ran the barrier.  `Err`: every target before the failing one did. */
  ghost predicate Fulfilled(log: seq<Event>, s: nat, r: Request, sent: SendResult) {
    && r.begun < |log|
    && log[r.begun] == Begin(s, r)
    && (sent.FailedAt? ==> sent.target in r.targets)
    && (forall t | t in r.targets && SentBefore(sent, t) :: Fenced(log, r, t, s))
  }

  // --- the invariant ---

  predicate GoodArgs(r: Request, s: nat, online: set<nat>) {
    ValidAction(r.action) && r.targets != {} && r.targets <= online && s !in r.targets
  }

  ghost predicate SourceInv(S: Source, s: nat, n: nat, online: set<nat>, log: seq<Event>) {
    && S.sequence <= USIZE_MAX
    && (S.active <==> !S.pc.Idle? && !S.pc.SwapActive?)
    && (!S.pc.Idle? ==> GoodArgs(S.pc.r, s, online))
    && (S.pc.Idle? || S.pc.SwapActive? || S.pc.LoadRemaining? || S.pc.StoreAction? || S.pc.ClearActive? ==>
          S.action == REMOTE_SYNC_NONE)
    && (S.pc.StoreSequence? ==> S.pc.r.sequence == S.sequence + 1 && S.sequence < USIZE_MAX)
    && (Published(S.pc) || S.pc.LoadSequence? || S.pc.StoreSequence? ==>
          (if S.pc.ClearActive? then true else S.action == S.pc.r.action))
    && (Published(S.pc) ==>
          && S.pc.r.sequence == S.sequence
          && S.pc.r.begun < |log|
          && log[S.pc.r.begun] == Begin(s, S.pc.r))
    && (S.pc.InsertRemaining? ==> S.pc.k <= n)
    && (S.pc.InsertPending? || S.pc.SendIpi? || S.pc.RemovePending? || S.pc.RemoveRemaining? ==>
          S.pc.k < n && S.pc.k in S.pc.r.targets)
    && (S.pc.WaitLoad? || S.pc.Polling? || S.pc.CheckTimeout? || S.pc.ClearAction? || S.pc.ClearActive? ==>
          (S.pc.sent.FailedAt? ==> S.pc.sent.target in S.pc.r.targets && S.pc.sent.target < n))
    && (S.pc.ClearAction? || S.pc.ClearActive? ==> S.remaining == {})
    && (forall t | t in S.remaining :: t < n && Published(S.pc) && t in S.pc.r.targets && Reached(S.pc, t))
  }

  predicate FrameOk(f: Frame, n: nat) {
    && f.next <= n
    && (forall s | s in f.sources :: s < n)
    && (f.stage.SwapPending? ==> f.sources == {})
    && (Mid(f) ==> f.next in f.sources)
  }

  predicate TargetInv(T: Target, n: nat) {
    && |T.observed| == n
    && (forall s | s in T.pending :: s < n)
    && (forall i | 0 <= i < |T.frames| :: FrameOk(T.frames[i], n))
  }

  /** The registers of a suspended or running activation agree with the request it is serving. */
  ghost predicate FrameLink(f: Frame, S: Source, s: nat, t: nat, log: seq<Event>) {
    && Published(S.pc)
    && (match f.stage
        case SwapPending => true
        case AtSource => true
        case ReadSequence => true
        case ReadObserved(q) => q == S.sequence
        case ReadAction(q) => q == S.sequence
        case InstructionFence(q) =>
          q == S.sequence && S.pc.r.action == REMOTE_SYNC_INSTRUCTION && MemoryFenced(log, S.pc.r, t, s)
        case StoreObserved(q) => q == S.sequence && Fenced(log, S.pc.r, t, s)
        case Acknowledge => Fenced(log, S.pc.r, t, s))
  }

  /** The ownership law: `t` is in `remaining[s]` exactly when the pair is in one
      of the four places, and the sum says it is never in two. */
  predicate Ownership(S: Source, T: Target, s: nat, t: nat) {
    Count(t in S.remaining)
    == Count(Inserting(S.pc, t)) + Count(s in T.pending) + Claims(T.frames, s) + Count(RollingBack(S.pc, t))
  }

  ghost predicate PairInv(S: Source, T: Target, s: nat, t: nat, log: seq<Event>)
    requires s < |T.observed|
  {
    && Ownership(S, T, s, t)
    && T.observed[s] <= S.sequence
    && (Published(S.pc) && t in S.pc.r.targets && !Reached(S.pc, t) ==> T.observed[s] < S.sequence)
    && (t in S.remaining ==> (T.observed[s] == S.sequence <==> Acks(T.frames, s) > 0))
    && (forall i | 0 <= i < |T.frames| && Mid(T.frames[i]) && T.frames[i].next == s ::
          FrameLink(T.frames[i], S, s, t, log))
    && (Published(S.pc) && t in S.pc.r.targets && Delivered(S.pc, t) && t !in S.remaining ==>
          Fenced(log, S.pc.r, t, s))
  }

  ghost predicate PollInv(S: Source, T: Target) {
    && (S.pc.Polling? ==> T.frames != [])
    && (forall i | 0 <= i < |T.frames| :: T.frames[i].poll <==> i == 0 && S.pc.Polling?)
  }

  /** Every submission that has returned was fulfilled by then. */
  ghost predicate HistoryInv(log: seq<Event>) {
    forall j | 0 <= j < |log| && log[j].Return? ::
      Fulfilled(log[..j], log[j].source, log[j].r, log[j].sent)
  }

  /** The panics that remain possible: bad arguments, the deadline, and 2^64 submissions by one CPU. */
  predicate Tolerated(why: Reason) {
    why in {CallerInvalidAction, CallerOfflineTarget, CallerTargetsItself, WaitTimeout, SequenceWrapped}
  }

  ghost predicate StopInv(st: State) {
    forall c | c in st.stopped ::
      && Tolerated(st.stopped[c])
      && (st.stopped[c] == SequenceWrapped ==> c < |st.src| && st.src[c].sequence == USIZE_MAX)
  }

  ghost predicate SourceAt(st: State, s: nat)
    requires Shape(st) && s < st.n
  {
    SourceInv(st.src[s], s, st.n, st.online, st.log)
  }

  ghost predicate TargetAt(st: State, t: nat)
    requires Shape(st) && t < st.n
  {
    TargetInv(st.tgt[t], st.n)
  }

  ghost predicate PairAt(st: State, s: nat, t: nat)
    requires Shape(st) && s < st.n && t < st.n
  {
    PairInv(st.src[s], st.tgt[t], s, t, st.log)
  }

  ghost predicate PollAt(st: State, c: nat)
    requires Shape(st) && c < st.n
  {
    PollInv(st.src[c], st.tgt[c])
  }

  ghost predicate Inv(st: State) {
    && Shape(st)
    && (forall c | c in st.online :: c < st.n)
    && (forall s | 0 <= s < st.n :: SourceAt(st, s))
    && (forall t | 0 <= t < st.n :: TargetAt(st, t))
    && (forall s, t | 0 <= s < st.n && 0 <= t < st.n :: PairAt(st, s, t))
    && (forall c | 0 <= c < st.n :: PollAt(st, c))
    && HistoryInv(st.log)
    && StopInv(st)
  }

  /** The parts of the invariant that concern source `s` and target `t`. */
  lemma At(st: State, s: nat, t: nat)
    requires Inv(st) && s < st.n && t < st.n
    ensures Shape(st)
    ensures PairInv(st.src[s], st.tgt[t], s, t, st.log)
    ensures SourceInv(st.src[s], s, st.n, st.online, st.log)
    ensures TargetInv(st.tgt[t], st.n)
    ensures PollInv(st.src[s], st.tgt[s]) && PollInv(st.src[t], st.tgt[t])
  {
    assert PairAt(st, s, t) && SourceAt(st, s) && TargetAt(st, t) && PollAt(st, s) && PollAt(st, t);
  }

  // --- counting lemmas ---

  lemma {:induction false} ClaimsPositive(frames: seq<Frame>, i: nat, s: nat)
    requires i < |frames| && Owns(frames[i], s)
    ensures Claims(frames, s) >= 1
  {
    if i < |frames| - 1 { ClaimsPositive(frames[..|frames| - 1], i, s); }
  }

  lemma {:induction false} AcksAtMostClaims(frames: seq<Frame>, s: nat, n: nat)
    requires forall i | 0 <= i < |frames| :: FrameOk(frames[i], n)
    ensures Acks(frames, s) <= Claims(frames, s)
  {
    if frames != [] { AcksAtMostClaims(frames[..|frames| - 1], s, n); }
  }

  lemma SetTopCounts(frames: seq<Frame>, f: Frame, s: nat)
    requires frames != []
    ensures var top := frames[|frames| - 1];
      && Claims(SetTop(frames, f), s) == Claims(frames, s) - Count(Owns(top, s)) + Count(Owns(f, s))
      && Acks(SetTop(frames, f), s) ==
           Acks(frames, s) - Count(top.stage.Acknowledge? && top.next == s) + Count(f.stage.Acknowledge? && f.next == s)
  {
    assert SetTop(frames, f)[..|frames| - 1] == frames[..|frames| - 1];
  }

  lemma PushCounts(frames: seq<Frame>, f: Frame, s: nat)
    ensures Claims(frames + [f], s) == Claims(frames, s) + Count(Owns(f, s))
    ensures Acks(frames + [f], s) == Acks(frames, s) + Count(f.stage.Acknowledge? && f.next == s)
  {
    assert (frames + [f])[..|frames|] == frames;
  }

  // --- the history only grows ---

  lemma FencedGrows(log: seq<Event>, more: seq<Event>, r: Request, t: nat, s: nat)
    ensures MemoryFenced(log, r, t, s) ==> MemoryFenced(log + more, r, t, s)
    ensures Fenced(log, r, t, s) ==> Fenced(log + more, r, t, s)
  {
    if MemoryFenced(log, r, t, s) {
      var i :| r.begun < i < |log| && log[i] == Fence(t, s, r.sequence, MemoryBarrier);
      assert (log + more)[i] == log[i];
    }
    if Fenced(log, r, t, s) && r.action != REMOTE_SYNC_MEMORY {
      var i, j :| r.begun < i < j < |log|
        && log[i] == Fence(t, s, r.sequence, MemoryBarrier) && log[j] == Fence(t, s, r.sequence, InstructionBarrier);
      assert (log + more)[i] == log[i] && (log + more)[j] == log[j];
    }
  }

  lemma PairInvGrows(S: Source, T: Target, s: nat, t: nat, log: seq<Event>, more: seq<Event>)
    requires s < |T.observed| && PairInv(S, T, s, t, log)
    ensures PairInv(S, T, s, t, log + more)
  {
    if Published(S.pc) { FencedGrows(log, more, S.pc.r, t, s); }
  }

  lemma SourceInvGrows(S: Source, s: nat, n: nat, online: set<nat>, log: seq<Event>, more: seq<Event>)
    requires SourceInv(S, s, n, online, log)
    ensures SourceInv(S, s, n, online, log + more)
  {
  }

  lemma HistoryGrows(log: seq<Event>, e: Event)
    requires HistoryInv(log)
    requires e.Return? ==> Fulfilled(log, e.source, e.r, e.sent)
    ensures HistoryInv(log + [e])
  {
    var log' := log + [e];
    forall j | 0 <= j < |log'| && log'[j].Return?
      ensures Fulfilled(log'[..j], log'[j].source, log'[j].r, log'[j].sent)
    {
      if j < |log| { assert log'[..j] == log[..j]; } else { assert log'[..j] == log; }
    }
  }

  /** A step that rewrites source record `s` and target record `t` keeps the
      invariant when the rewritten records fit every record they meet. */
  lemma Assemble(st: State, st': State, s: nat, t: nat, more: seq<Event>)
    requires Inv(st) && Shape(st') && s < st.n && t < st.n
    requires st'.n == st.n && st'.online == st.online && st'.log == st.log + more
    requires st'.src == st.src[s := st'.src[s]] && st'.tgt == st.tgt[t := st'.tgt[t]]
    requires SourceInv(st'.src[s], s, st.n, st.online, st'.log) && TargetInv(st'.tgt[t], st.n)
    requires forall u | 0 <= u < st.n :: PairAt(st', s, u)
    requires forall v | 0 <= v < st.n :: PairAt(st', v, t)
    requires PollInv(st'.src[s], st'.tgt[s]) && PollInv(st'.src[t], st'.tgt[t])
    requires HistoryInv(st'.log) && StopInv(st')
    ensures Inv(st')
  {
    forall v | 0 <= v < st.n ensures SourceAt(st', v) {
      if v != s { assert SourceAt(st, v); SourceInvGrows(st.src[v], v, st.n, st.online, st.log, more); }
    }
    forall u | 0 <= u < st.n ensures TargetAt(st', u) {
      if u != t { assert TargetAt(st, u); }
    }
    forall v, u | 0 <= v < st.n && 0 <= u < st.n ensures PairAt(st', v, u) {
      if v != s && u != t { assert PairAt(st, v, u); PairInvGrows(st.src[v], st.tgt[u], v, u, st.log, more); }
    }
    forall c | 0 <= c < st.n ensures PollAt(st', c) {
      if c != s && c != t { assert PollAt(st, c); }
    }
  }
}
