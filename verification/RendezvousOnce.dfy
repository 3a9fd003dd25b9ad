/** Every target runs each barrier of a submission at most once. */
module RendezvousOnce {
  import opened Rendezvous
  import opened RendezvousInvariant
  import opened RendezvousSteps
  import opened RendezvousSafety
  import opened RendezvousResults

  /** An activation at this stage has already run the barrier. */
  predicate Past(stage: Stage, kind: FenceKind) {
    stage.StoreObserved? || (kind.MemoryBarrier? && stage.InstructionFence?)
  }

  /** The barrier for the current request of `s` is behind the target: the sequence
      number is stored, or an activation is on its way to store it. */
  ghost predicate Behind(T: Target, S: Source, s: nat, kind: FenceKind)
    requires s < |T.observed|
  {
    T.observed[s] == S.sequence || exists i :: 0 <= i < |T.frames| && T.frames[i].next == s && Past(T.frames[i].stage, kind)
  }

  ghost predicate BehindAt(st: State, s: nat, t: nat, kind: FenceKind)
    requires Shape(st) && s < st.n && t < st.n
  {
    Published(st.src[s].pc) && Fence(t, s, st.src[s].sequence, kind) in st.log ==> Behind(st.tgt[t], st.src[s], s, kind)
  }

  ghost predicate Distinct(log: seq<Event>) {
    forall i, j | 0 <= i < j < |log| && log[i].Fence? && log[j].Fence? :: log[i] != log[j]
  }

  ghost predicate OnceInv(st: State)
    requires Shape(st)
  {
    && Distinct(st.log)
    && (forall s, t, kind | 0 <= s < st.n && 0 <= t < st.n :: BehindAt(st, s, t, kind))
  }

  /** What a step of the handler does to the observed numbers and the frames below the top. */
  predicate LeavesBelow(st: State, c: nat, s: nat, st': State)
    requires Shape(st) && c < st.n && s < st.n
  {
    && |st'.src| == |st'.tgt| == st.n && st'.src[s].sequence == st.src[s].sequence
    && |st'.tgt[c].observed| == st.n && st'.tgt[c].observed[s] == st.tgt[c].observed[s]
    && |st'.tgt[c].frames| >= |st.tgt[c].frames| - 1
    && forall i | 0 <= i < |st.tgt[c].frames| - 1 :: st'.tgt[c].frames[i] == st.tgt[c].frames[i]
  }

  lemma LoopLeaves(st: State, c: nat, s: nat)
    requires Enabled(st, Handler(c)) && s < st.n && !Mid(Top(st.tgt[c]))
    ensures LeavesBelow(st, c, s, Apply(st, Handler(c)))
  {
  }

  lemma StageLeaves(st: State, c: nat, s: nat)
    requires Enabled(st, Handler(c)) && s < st.n && Mid(Top(st.tgt[c]))
    requires !(Top(st.tgt[c]).next == s && Top(st.tgt[c]).stage.StoreObserved?)
    ensures LeavesBelow(st, c, s, Apply(st, Handler(c)))
  {
  }

  lemma TopBehind(st: State, c: nat, s: nat, kind: FenceKind)
    requires Inv(st) && Enabled(st, Handler(c)) && s < st.n && Published(st.src[s].pc)
    requires Top(st.tgt[c]).next == s && Past(Top(st.tgt[c]).stage, kind)
    ensures var st' := Apply(st, Handler(c));
      Shape(st') && st'.n == st.n && Behind(st'.tgt[c], st'.src[s], s, kind)
  {
    var st', f := Apply(st, Handler(c)), Top(st.tgt[c]);
    At(st, s, c);
    assert FrameLink(st.tgt[c].frames[|st.tgt[c].frames| - 1], st.src[s], s, c, st.log);
    if f.stage.InstructionFence? {
      assert Top(st'.tgt[c]).stage.StoreObserved? && Top(st'.tgt[c]).next == s;
    }
  }

  /** The handler leaves a barrier behind only by running it or by storing the number. */
  lemma HandlerBehind(st: State, c: nat, s: nat, kind: FenceKind)
    requires Inv(st) && Enabled(st, Handler(c)) && s < st.n && Published(st.src[s].pc)
    requires Behind(st.tgt[c], st.src[s], s, kind)
    ensures var st' := Apply(st, Handler(c));
      Shape(st') && st'.n == st.n && Behind(st'.tgt[c], st'.src[s], s, kind)
  {
    hide Apply, PairInv, SourceInv;
    var T, st' := st.tgt[c], Apply(st, Handler(c));
    StepKeeps(st, Handler(c));
    SameCount(st, Handler(c));
    if Top(T).next == s && Past(Top(T).stage, kind) {
      TopBehind(st, c, s, kind);
    } else {
      if Mid(Top(T)) { StageLeaves(st, c, s); } else { LoopLeaves(st, c, s); }
      if T.observed[s] != st.src[s].sequence {
        var i :| 0 <= i < |T.frames| && T.frames[i].next == s && Past(T.frames[i].stage, kind);
        assert st'.tgt[c].frames[i] == T.frames[i];
      }
    }
  }

  /** Every other step leaves the numbers alone and only adds frames. */
  lemma MainLeaves(st: State, l: Label, s: nat, t: nat)
    requires Enabled(st, l) && l.Main? && s < st.n && t < st.n && !Publishes(st, l)
    ensures var st' := Apply(st, l);
      && |st'.src| == |st'.tgt| == st.n && st'.src[s].sequence == st.src[s].sequence
      && st'.tgt[t].observed == st.tgt[t].observed && st.tgt[t].frames <= st'.tgt[t].frames
  {
    if !Returns(st, l) { MainHistory(st, l); }
  }

  lemma CallLeaves(st: State, l: Label, s: nat, t: nat)
    requires Enabled(st, l) && !l.Main? && !l.Handler? && s < st.n && t < st.n
    ensures var st' := Apply(st, l);
      && |st'.src| == |st'.tgt| == st.n && st'.src[s].sequence == st.src[s].sequence
      && st'.tgt[t].observed == st.tgt[t].observed && st.tgt[t].frames <= st'.tgt[t].frames
  {
  }

  lemma HandlerElsewhere(st: State, c: nat, s: nat, t: nat)
    requires Enabled(st, Handler(c)) && s < st.n && t < st.n && t != c
    ensures var st' := Apply(st, Handler(c));
      && |st'.src| == |st'.tgt| == st.n && st'.src[s].sequence == st.src[s].sequence
      && st'.tgt[t].observed == st.tgt[t].observed && st.tgt[t].frames <= st'.tgt[t].frames
  {
  }

  lemma PublishLeaves(st: State, l: Label, s: nat, t: nat)
    requires Enabled(st, l) && Publishes(st, l) && s < st.n && t < st.n && s != l.cpu
    ensures var st' := Apply(st, l);
      && |st'.src| == |st'.tgt| == st.n && st'.src[s].sequence == st.src[s].sequence
      && st'.tgt[t].observed == st.tgt[t].observed && st.tgt[t].frames <= st'.tgt[t].frames
  {
  }

  lemma BehindStays(st: State, l: Label, s: nat, t: nat, kind: FenceKind)
    requires Inv(st) && Enabled(st, l) && s < st.n && t < st.n && Published(st.src[s].pc)
    requires !(Publishes(st, l) && l.cpu == s) && Behind(st.tgt[t], st.src[s], s, kind)
    ensures Shape(Apply(st, l)) && Apply(st, l).n == st.n && Behind(Apply(st, l).tgt[t], Apply(st, l).src[s], s, kind)
  {
    hide Apply, PairInv, SourceInv;
    StepKeeps(st, l);
    SameCount(st, l);
    if l.Handler? && l.cpu == t { HandlerBehind(st, t, s, kind); }
    else {
      if l.Handler? { HandlerElsewhere(st, l.cpu, s, t); }
      else if !l.Main? { CallLeaves(st, l, s, t); }
      else if Publishes(st, l) { PublishLeaves(st, l, s, t); }
      else { MainLeaves(st, l, s, t); }
      var T, T' := st.tgt[t], Apply(st, l).tgt[t];
      if T.observed[s] != st.src[s].sequence {
        var i :| 0 <= i < |T.frames| && T.frames[i].next == s && Past(T.frames[i].stage, kind);
        assert T'.frames[i] == T.frames[i];
      }
    }
  }

  /** The barrier about to run is not behind. */
  lemma NotBehind(st: State, l: Label)
    requires Inv(st) && Enabled(st, l) && RunsFence(st, l)
    ensures var f := Top(st.tgt[l.cpu]);
      && f.next < st.n && Published(st.src[f.next].pc) && f.stage.sequence == st.src[f.next].sequence
      && !Behind(st.tgt[l.cpu], st.src[f.next], f.next, if f.stage.ReadAction? then MemoryBarrier else InstructionBarrier)
  {
    hide Inv, SourceInv, PollInv;
    var c, T, f := l.cpu, st.tgt[l.cpu], Top(st.tgt[l.cpu]);
    var s, top := f.next, |T.frames| - 1;
    At(st, c, c);
    assert FrameOk(f, st.n);
    TopOwner(st, c);
    At(st, s, c);
    assert FrameLink(T.frames[top], st.src[s], s, c, st.log);
    NotAcknowledging(T, s, st.n);
    forall i | 0 <= i < top ensures !(Mid(T.frames[i]) && T.frames[i].next == s) {
      if Mid(T.frames[i]) && T.frames[i].next == s {
        assert FrameOk(T.frames[i], st.n);
        ClaimsPositive(T.frames[..top], i, s);
        assert false;
      }
    }
  }

  /** A new fence is after the barrier: whoever ran it is behind it now. */
  lemma NowBehind(st: State, l: Label)
    requires Inv(st) && Enabled(st, l) && RunsFence(st, l)
    ensures var f := Top(st.tgt[l.cpu]);
      var kind := if f.stage.ReadAction? then MemoryBarrier else InstructionBarrier;
      && f.next < st.n && Shape(Apply(st, l)) && Apply(st, l).n == st.n
      && Apply(st, l).log == st.log + [Fence(l.cpu, f.next, f.stage.sequence, kind)]
      && Behind(Apply(st, l).tgt[l.cpu], Apply(st, l).src[f.next], f.next, kind)
  {
    var st', f := Apply(st, l), Top(st.tgt[l.cpu]);
    FenceEffect(st, l);
    TopOwnerOf(st, l.cpu);
    StepKeeps(st, l);
    assert Top(st'.tgt[l.cpu]).next == f.next;
  }

  lemma TopOwnerOf(st: State, c: nat)
    requires Inv(st) && c < st.n && st.tgt[c].frames != [] && Mid(Top(st.tgt[c])) && Top(st.tgt[c]).next < st.n
    ensures ValidAction(st.src[Top(st.tgt[c]).next].action)
  {
    At(st, c, c);
    assert FrameOk(Top(st.tgt[c]), st.n);
    TopOwner(st, c);
  }

  /** No fence bears a number that has not been published. */
  lemma FencesAreOld(st: State, s: nat, t: nat, kind: FenceKind, q: nat)
    requires WindowInv(st) && s < |st.src| && q > st.src[s].sequence
    ensures Fence(t, s, q, kind) !in st.log
  {
    forall j | 0 <= j < |st.log| ensures st.log[j] != Fence(t, s, q, kind) {
      if st.log[j].Fence? { assert InWindow(st.log, j); }
    }
  }

  lemma PublishedBefore(st: State, l: Label, s: nat)
    requires Enabled(st, l) && s < st.n && !(Publishes(st, l) && l.cpu == s)
    ensures |Apply(st, l).src| == st.n && (Published(Apply(st, l).src[s].pc) ==> Published(st.src[s].pc))
    ensures Apply(st, l).src[s].sequence == st.src[s].sequence
  {
    if l.Main? && !Publishes(st, l) && !Returns(st, l) { MainHistory(st, l); }
    if l.Handler? && !RunsFence(st, l) { HandlerHistory(st, l); }
  }

  lemma NewNumber(st: State, l: Label)
    requires Inv(st) && Enabled(st, l) && Publishes(st, l)
    ensures |Apply(st, l).src| == st.n && Apply(st, l).src[l.cpu].sequence > st.src[l.cpu].sequence
  {
    At(st, l.cpu, l.cpu);
  }

  lemma PairOnce(st: State, l: Label, s: nat, t: nat, kind: FenceKind)
    requires Inv(st) && WindowInv(st) && Enabled(st, l) && s < st.n && t < st.n && BehindAt(st, s, t, kind)
    ensures Shape(Apply(st, l)) && Apply(st, l).n == st.n && BehindAt(Apply(st, l), s, t, kind)
  {
    hide Apply, PairInv, SourceInv, Behind, WindowInv;
    var st' := Apply(st, l);
    StepKeeps(st, l);
    SameCount(st, l);
    HistoryStep(st, l);
    if Publishes(st, l) && l.cpu == s {
      NewNumber(st, l);
      FencesAreOld(st, s, t, kind, st'.src[s].sequence);
    } else {
      PublishedBefore(st, l, s);
      var e := Fence(t, s, st.src[s].sequence, kind);
      if Published(st'.src[s].pc) {
        if e in st.log { BehindStays(st, l, s, t, kind); }
        else if e in st'.log { NewFence(st, l, e); }
      }
    }
  }

  /** A fence that a step adds is the one `NowBehind` speaks of. */
  lemma NewFence(st: State, l: Label, e: Event)
    requires Inv(st) && Enabled(st, l) && e.Fence? && e !in st.log && e in Apply(st, l).log
    ensures Shape(Apply(st, l)) && Apply(st, l).n == st.n && e.source < st.n && e.target < st.n
    ensures Behind(Apply(st, l).tgt[e.target], Apply(st, l).src[e.source], e.source, e.kind)
  {
    hide Apply, Inv;
    HistoryStep(st, l);
    if RunsFence(st, l) {
      NowBehind(st, l);
    } else {
      NoFence(st, l);
    }
  }

  lemma NoFence(st: State, l: Label)
    requires Enabled(st, l) && !RunsFence(st, l)
    ensures Apply(st, l).log == st.log || Publishes(st, l) || Returns(st, l)
  {
    if l.Main? && !Publishes(st, l) && !Returns(st, l) { MainHistory(st, l); }
    if l.Handler? { HandlerHistory(st, l); }
  }

  lemma DistinctStep(st: State, l: Label)
    requires Inv(st) && OnceInv(st) && Enabled(st, l)
    ensures Distinct(Apply(st, l).log)
  {
    hide Apply, Inv, Behind;
    HistoryStep(st, l);
    if RunsFence(st, l) {
      NotBehind(st, l);
      NowBehind(st, l);
      var f := Top(st.tgt[l.cpu]);
      assert BehindAt(st, f.next, l.cpu, if f.stage.ReadAction? then MemoryBarrier else InstructionBarrier);
    } else {
      NoFence(st, l);
    }
  }

  lemma OnceStep(st: State, l: Label)
    requires Inv(st) && WindowInv(st) && OnceInv(st) && Enabled(st, l)
    ensures Shape(Apply(st, l)) && OnceInv(Apply(st, l))
  {
    hide Apply, WindowInv, Distinct, BehindAt;
    StepKeeps(st, l);
    SameCount(st, l);
    DistinctStep(st, l);
    forall s, t, kind | 0 <= s < st.n && 0 <= t < st.n ensures BehindAt(Apply(st, l), s, t, kind) {
      PairOnce(st, l, s, t, kind);
    }
  }

  lemma {:induction false} OnceRun(a: State, labels: seq<Label>, b: State)
    requires Inv(a) && WindowInv(a) && Shape(a) && OnceInv(a) && Leads(a, labels, b)
    ensures Shape(b) && OnceInv(b)
    decreases |labels|
  {
    hide Apply, Enabled, WindowInv, OnceInv;
    if labels != [] {
      StepKeeps(a, labels[0]);
      WindowStep(a, labels[0]);
      OnceStep(a, labels[0]);
      OnceRun(Apply(a, labels[0]), labels[1..], b);
    }
  }

  /** No target runs the same barrier twice for one submission. */
  lemma FencedOnce(n: nat, online: set<nat>, st: State, i: nat, j: nat)
    requires Reachable(n, online, st) && i < j < |st.log| && st.log[i].Fence? && st.log[j].Fence?
    ensures st.log[i] != st.log[j]
  {
    var labels :| Leads(Boot(n, online), labels, st);
    BootInv(n, online);
    OnceRun(Boot(n, online), labels, st);
  }
}
