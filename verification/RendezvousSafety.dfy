/** What holds in every reachable state of every interleaving. */
module RendezvousSafety {
  import opened Rendezvous
  import opened RendezvousInvariant
  import opened RendezvousSteps

  lemma BootInv(n: nat, online: set<nat>)
    requires forall c | c in online :: c < n
    ensures Inv(Boot(n, online))
  {
    var st := Boot(n, online);
    forall s, t | 0 <= s < n && 0 <= t < n ensures PairAt(st, s, t) {
      assert Claims(st.tgt[t].frames, s) == 0;
    }
  }

  lemma {:induction false} RunKeeps(a: State, labels: seq<Label>, b: State)
    requires Inv(a) && Leads(a, labels, b)
    ensures Inv(b)
    decreases |labels|
  {
    if labels != [] {
      StepKeeps(a, labels[0]);
      RunKeeps(Apply(a, labels[0]), labels[1..], b);
    }
  }

  lemma Always(n: nat, online: set<nat>, st: State)
    requires Reachable(n, online, st)
    ensures Inv(st)
  {
    var labels :| Leads(Boot(n, online), labels, st);
    BootInv(n, online);
    RunKeeps(Boot(n, online), labels, st);
  }

  /** Some activation on the CPU holds `s` claimed. */
  ghost predicate Claimed(T: Target, s: nat) {
    exists i :: 0 <= i < |T.frames| && Owns(T.frames[i], s)
  }

  lemma {:induction false} ClaimsCount(frames: seq<Frame>, s: nat)
    ensures Claims(frames, s) == 0 ==> forall i | 0 <= i < |frames| :: !Owns(frames[i], s)
    ensures Claims(frames, s) >= 1 ==> exists i :: 0 <= i < |frames| && Owns(frames[i], s)
    ensures Claims(frames, s) <= 1 ==>
      forall i, j | 0 <= i < j < |frames| :: !(Owns(frames[i], s) && Owns(frames[j], s))
  {
    if frames != [] {
      var rest := frames[..|frames| - 1];
      ClaimsCount(rest, s);
      forall i | 0 <= i < |rest| ensures frames[i] == rest[i] {}
      if Claims(rest, s) >= 1 {
        var i :| 0 <= i < |rest| && Owns(rest[i], s);
        assert Owns(frames[i], s);
      }
      if Claims(frames, s) <= 1 {
        forall i, j | 0 <= i < j < |frames| ensures !(Owns(frames[i], s) && Owns(frames[j], s)) {
          if j == |frames| - 1 && Owns(frames[j], s) { assert frames[i] == rest[i]; }
        }
      }
    }
  }

  /** `t` is in `remaining[s]` exactly when the pair is being inserted, pending,
      claimed by one activation, or being rolled back, and never two of these. */
  lemma OwnershipLaw(n: nat, online: set<nat>, st: State, s: nat, t: nat)
    requires Reachable(n, online, st) && s < st.n && t < st.n && Shape(st)
    ensures var S, T := st.src[s], st.tgt[t];
      && (t in S.remaining <==>
            Inserting(S.pc, t) || s in T.pending || Claimed(T, s) || RollingBack(S.pc, t))
      && (s in T.pending ==> !Inserting(S.pc, t) && !Claimed(T, s) && !RollingBack(S.pc, t))
      && (Claimed(T, s) ==> !Inserting(S.pc, t) && !RollingBack(S.pc, t))
      && (forall i, j | 0 <= i < j < |T.frames| :: !(Owns(T.frames[i], s) && Owns(T.frames[j], s)))
  {
    Always(n, online, st);
    At(st, s, t);
    ClaimsCount(st.tgt[t].frames, s);
  }

  /** No assertion of the protocol fires: only bad arguments, the deadline and a
      wrapped 64-bit sequence can stop a CPU, the last only at the largest value. */
  lemma AssertionsHold(n: nat, online: set<nat>, st: State, c: nat)
    requires Reachable(n, online, st) && c in st.stopped
    ensures st.stopped[c] in {CallerInvalidAction, CallerOfflineTarget, CallerTargetsItself, WaitTimeout, SequenceWrapped}
    ensures st.stopped[c] == SequenceWrapped ==> c < |st.src| && st.src[c].sequence == USIZE_MAX
  {
    Always(n, online, st);
  }

  /** Wherever the submitting side asserts something it is true, in every reachable state. */
  lemma SubmitAssertionsTrue(n: nat, online: set<nat>, st: State, c: nat)
    requires Reachable(n, online, st) && Enabled(st, Main(c, Accepted, false))
    ensures var S := st.src[c];
      && (S.pc.SwapActive? ==> !S.active)
      && (S.pc.LoadRemaining? ==> S.remaining == {})
      && (S.pc.InsertRemaining? && S.pc.k in S.pc.r.targets ==> S.pc.k !in S.remaining)
      && (S.pc.InsertPending? ==> c !in st.tgt[S.pc.k].pending)
      && (S.pc.RemoveRemaining? ==> S.pc.k in S.remaining)
  {
    Always(n, online, st);
    StepKeeps(st, Main(c, Accepted, false));
    OnlyTolerated(Apply(st, Main(c, Accepted, false)), c);
    OnlineInRange(st);
    At(st, c, c);
  }

  /** And wherever the handler does. */
  lemma HandlerAssertionsTrue(n: nat, online: set<nat>, st: State, c: nat)
    requires Reachable(n, online, st) && Enabled(st, Handler(c))
    ensures var f := Top(st.tgt[c]);
      && (f.stage.AtSource? && f.next < st.n && f.next in f.sources ==> f.next != c && st.src[f.next].active)
      && (f.stage.ReadObserved? ==> f.stage.sequence > st.tgt[c].observed[f.next])
      && (f.stage.ReadAction? ==> st.src[f.next].action in {1, 2})
      && (f.stage.Acknowledge? ==> c in st.src[f.next].remaining)
  {
    Always(n, online, st);
    StepKeeps(st, Handler(c));
    OnlyTolerated(Apply(st, Handler(c)), c);
  }

  lemma OnlyTolerated(st: State, c: nat)
    requires Inv(st)
    ensures c in st.stopped ==> Tolerated(st.stopped[c])
  {
  }

  /** The loop indices never leave the arrays, so no step is blocked by `Enabled`'s range checks. */
  lemma IndicesInRange(n: nat, online: set<nat>, st: State, c: nat)
    requires Reachable(n, online, st) && c < st.n && Shape(st)
    ensures PcOk(st, st.src[c].pc)
    ensures forall i | 0 <= i < |st.tgt[c].frames| :: CursorOk(st, st.tgt[c].frames[i])
  {
    Always(n, online, st);
    At(st, c, c);
    forall i | 0 <= i < |st.tgt[c].frames| ensures CursorOk(st, st.tgt[c].frames[i]) {
      assert FrameOk(st.tgt[c].frames[i], st.n);
    }
  }

  /** A submission that returned `Ok` had every target run the requested barrier for
      its sequence number between publication and return; one that returned `Err`
      had every target before the failing one do so. */
  lemma ReturnMeansFenced(n: nat, online: set<nat>, st: State, j: nat, t: nat)
    requires Reachable(n, online, st) && j < |st.log| && st.log[j].Return?
    requires t in st.log[j].r.targets && (st.log[j].sent.AllSent? || t < st.log[j].sent.target)
    ensures var r, s := st.log[j].r, st.log[j].source;
      && r.begun < j && st.log[r.begun] == Begin(s, r)
      && (exists i :: r.begun < i < j
            && st.log[i] == Fence(t, s, r.sequence, MemoryBarrier)
            && (r.action == REMOTE_SYNC_INSTRUCTION ==>
                  exists k :: i < k < j && st.log[k] == Fence(t, s, r.sequence, InstructionBarrier)))
  {
    Always(n, online, st);
    var r, s, past := st.log[j].r, st.log[j].source, st.log[..j];
    assert Fulfilled(past, s, r, st.log[j].sent);
    assert Fenced(past, r, t, s);
    if r.action == REMOTE_SYNC_MEMORY {
      var i :| r.begun < i < |past| && past[i] == Fence(t, s, r.sequence, MemoryBarrier);
      assert st.log[i] == past[i];
    } else {
      var i, k :| r.begun < i < k < |past|
        && past[i] == Fence(t, s, r.sequence, MemoryBarrier) && past[k] == Fence(t, s, r.sequence, InstructionBarrier);
      assert st.log[i] == past[i] && st.log[k] == past[k];
    }
  }

  /** Outside a submission no mask and no activation mentions the CPU as a source. */
  lemma IdleLeavesNoTrace(n: nat, online: set<nat>, st: State, s: nat, t: nat)
    requires Reachable(n, online, st) && Shape(st) && s < st.n && t < st.n && st.src[s].pc.Idle?
    ensures st.src[s].remaining == {} && !st.src[s].active && st.src[s].action == REMOTE_SYNC_NONE
    ensures s !in st.tgt[t].pending && !Claimed(st.tgt[t], s)
  {
    Always(n, online, st);
    At(st, s, t);
    ClaimsCount(st.tgt[t].frames, s);
  }

  // --- sequence numbers name submissions ---

  ghost predicate Fresher(st: State) {
    forall i | 0 <= i < |st.log| && !st.log[i].Fence? ::
      && st.log[i].source < |st.src|
      && st.log[i].r.sequence <= st.src[st.log[i].source].sequence
      && (st.log[i].Return? && Published(st.src[st.log[i].source].pc) ==>
            st.log[i].r.sequence < st.src[st.log[i].source].sequence)
  }

  ghost predicate BeginsIncrease(log: seq<Event>) {
    forall i, j | 0 <= i < j < |log| && log[i].Begin? && log[j].Begin? && log[i].source == log[j].source ::
      log[i].r.sequence < log[j].r.sequence
  }

  /** The fence at `j` serves a submission that has been published and has not returned. */
  ghost predicate InWindow(log: seq<Event>, j: nat)
    requires j < |log| && log[j].Fence?
  {
    && (exists b :: 0 <= b < j && log[b].Begin? && log[b].source == log[j].source
          && log[b].r.sequence == log[j].sequence && log[j].target in log[b].r.targets
          && (log[j].kind.InstructionBarrier? ==> log[b].r.action == REMOTE_SYNC_INSTRUCTION))
    && (forall i | 0 <= i < j && log[i].Return? && log[i].source == log[j].source ::
          log[i].r.sequence < log[j].sequence)
  }

  ghost predicate WindowInv(st: State) {
    && Fresher(st)
    && BeginsIncrease(st.log)
    && (forall j | 0 <= j < |st.log| && st.log[j].Fence? :: InWindow(st.log, j))
  }

  // Which labels write to the history, and what the others leave alone.
  predicate Publishes(st: State, l: Label) requires Enabled(st, l) {
    l.Main? && st.src[l.cpu].pc.StoreSequence?
  }

  predicate Returns(st: State, l: Label) requires Enabled(st, l) {
    l.Main? && st.src[l.cpu].pc.ClearActive?
  }

  predicate RunsFence(st: State, l: Label) requires Enabled(st, l) {
    l.Handler? && (Top(st.tgt[l.cpu]).stage.ReadAction? || Top(st.tgt[l.cpu]).stage.InstructionFence?)
  }

  lemma MainHistory(st: State, l: Label)
    requires Enabled(st, l) && l.Main? && !Publishes(st, l) && !Returns(st, l)
    ensures var st' := Apply(st, l);
      && st'.log == st.log && |st'.src| == |st.src|
      && (forall s | 0 <= s < st.n ::
            st'.src[s].sequence == st.src[s].sequence && Published(st'.src[s].pc) == Published(st.src[s].pc))
  {
  }

  lemma HandlerHistory(st: State, l: Label)
    requires Enabled(st, l) && l.Handler? && !RunsFence(st, l)
    ensures var st' := Apply(st, l);
      && st'.log == st.log && |st'.src| == |st.src|
      && (forall s | 0 <= s < st.n ::
            st'.src[s].sequence == st.src[s].sequence && Published(st'.src[s].pc) == Published(st.src[s].pc))
  {
  }

  lemma WindowStep(st: State, l: Label)
    requires Inv(st) && WindowInv(st) && Enabled(st, l)
    ensures WindowInv(Apply(st, l))
  {
    hide Inv, ApplyHandler;
    if l.Main? {
      if Publishes(st, l) || Returns(st, l) { EdgeWindow(st, l); } else { MainHistory(st, l); }
    } else if l.Handler? {
      if RunsFence(st, l) { FenceWindow(st, l); } else { HandlerHistory(st, l); }
    }
  }

  lemma FenceEffect(st: State, l: Label)
    requires Inv(st) && Enabled(st, l) && RunsFence(st, l)
    ensures var f := Top(st.tgt[l.cpu]);
      var st' := Apply(st, l);
      && f.next < st.n && Published(st.src[f.next].pc) && l.cpu in st.src[f.next].pc.r.targets
      && st'.src == st.src
      && |st'.log| == |st.log| + 1 && st'.log == st.log + [st'.log[|st.log|]]
      && var e := st'.log[|st.log|];
         && e.Fence? && e.source == f.next && e.target == l.cpu && e.sequence == st.src[f.next].sequence
         && (e.kind.InstructionBarrier? ==> st.src[f.next].pc.r.action == REMOTE_SYNC_INSTRUCTION)
  {
    var c, f := l.cpu, Top(st.tgt[l.cpu]);
    At(st, c, c);
    assert FrameOk(f, st.n);
    TopOwner(st, c);
    At(st, f.next, c);
    assert FrameLink(st.tgt[c].frames[|st.tgt[c].frames| - 1], st.src[f.next], f.next, c, st.log);
  }

  lemma FenceWindow(st: State, l: Label)
    requires Inv(st) && WindowInv(st) && Enabled(st, l) && RunsFence(st, l)
    ensures WindowInv(Apply(st, l))
  {
    FenceEffect(st, l);
    var st', s := Apply(st, l), Top(st.tgt[l.cpu]).next;
    AppendFence(st, st', s, st'.log[|st.log|]);
  }

  lemma AppendFence(st: State, st': State, s: nat, e: Event)
    requires Inv(st) && WindowInv(st) && s < st.n && Published(st.src[s].pc) && st'.src == st.src
    requires st'.log == st.log + [e] && e.Fence? && e.source == s && e.sequence == st.src[s].sequence
    requires e.target in st.src[s].pc.r.targets
    requires e.kind.InstructionBarrier? ==> st.src[s].pc.r.action == REMOTE_SYNC_INSTRUCTION
    ensures WindowInv(st')
  {
    At(st, s, s);
    var r, log' := st.src[s].pc.r, st'.log;
    forall j | 0 <= j < |log'| && log'[j].Fence? ensures InWindow(log', j) {
      if j == |st.log| { assert log'[r.begun] == Begin(s, r); } else { WindowGrows(st.log, e, j); }
    }
  }

  lemma WindowGrows(log: seq<Event>, e: Event, j: nat)
    requires j < |log| && log[j].Fence? && InWindow(log, j)
    ensures InWindow(log + [e], j)
  {
    var b :| 0 <= b < j && log[b].Begin? && log[b].source == log[j].source
      && log[b].r.sequence == log[j].sequence && log[j].target in log[b].r.targets
      && (log[j].kind.InstructionBarrier? ==> log[b].r.action == REMOTE_SYNC_INSTRUCTION);
    assert (log + [e])[b] == log[b];
  }

  lemma EdgeWindow(st: State, l: Label)
    requires Inv(st) && WindowInv(st) && Enabled(st, l) && (Publishes(st, l) || Returns(st, l))
    ensures WindowInv(Apply(st, l))
  {
    hide Inv, InWindow;
    var c, st' := l.cpu, Apply(st, l);
    At(st, c, c);
    var e := st'.log[|st.log|];
    forall j | 0 <= j < |st'.log| && st'.log[j].Fence? ensures InWindow(st'.log, j) {
      WindowGrows(st.log, e, j);
    }
  }

  lemma {:induction false} RunKeepsWindow(a: State, labels: seq<Label>, b: State)
    requires Inv(a) && WindowInv(a) && Leads(a, labels, b)
    ensures WindowInv(b)
    decreases |labels|
  {
    if labels != [] {
      StepKeeps(a, labels[0]);
      WindowStep(a, labels[0]);
      RunKeepsWindow(Apply(a, labels[0]), labels[1..], b);
    }
  }

  /** Sequence numbers of one CPU strictly increase, so a number names one submission; and
      a target only ever runs barriers for submissions that are published and have not returned. */
  lemma FencesOnlyInWindow(n: nat, online: set<nat>, st: State)
    requires Reachable(n, online, st)
    ensures BeginsIncrease(st.log)
    ensures forall j | 0 <= j < |st.log| && st.log[j].Fence? :: InWindow(st.log, j)
  {
    var labels :| Leads(Boot(n, online), labels, st);
    BootInv(n, online);
    RunKeepsWindow(Boot(n, online), labels, st);
  }
}
