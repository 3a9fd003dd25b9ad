/**
  What can be counted in a run of the rendezvous: submissions and their sequence
  numbers, filled masks and the IPIs that announce them, and the ways to stop.
*/
module RendezvousCounts {
  import opened Common
  import opened Rendezvous
  import opened RendezvousInvariant
  import opened RendezvousSteps
  import opened RendezvousSafety
  import opened RendezvousWakeup
  import opened RendezvousResults

  // --- submissions ---

  /** How many submissions `s` has published. */
  function Begins(log: seq<Event>, s: nat): nat {
    if log == [] then 0
    else Begins(log[..|log| - 1], s) + Count(log[|log| - 1].Begin? && log[|log| - 1].source == s)
  }

  lemma BeginsMore(log: seq<Event>, e: Event, s: nat)
    ensures Begins(log + [e], s) == Begins(log, s) + Count(e.Begin? && e.source == s)
  {
    assert (log + [e])[..|log|] == log;
  }

  lemma SequenceStep(st: State, l: Label, s: nat)
    requires Inv(st) && Enabled(st, l) && s < st.n
    ensures |Apply(st, l).src| == st.n
    ensures Apply(st, l).src[s].sequence == st.src[s].sequence + Count(Publishes(st, l) && l.cpu == s)
  {
    if l.Main? && !Publishes(st, l) && !Returns(st, l) { MainHistory(st, l); }
    if l.Handler? && !RunsFence(st, l) { HandlerHistory(st, l); }
    if Publishes(st, l) { At(st, l.cpu, l.cpu); }
  }

  ghost predicate Numbered(st: State) {
    && (forall s | 0 <= s < |st.src| :: st.src[s].sequence == Begins(st.log, s))
    && (forall j | 0 <= j < |st.log| && st.log[j].Begin? ::
          && GoodArgs(st.log[j].r, st.log[j].source, st.online)
          && st.log[j].r.sequence == Begins(st.log[..j], st.log[j].source) + 1)
  }

  lemma NumberedStep(st: State, l: Label)
    requires Inv(st) && Numbered(st) && Enabled(st, l)
    ensures Numbered(Apply(st, l))
  {
    hide Apply, Inv;
    var st' := Apply(st, l);
    HistoryStep(st, l);
    SameCount(st, l);
    if Publishes(st, l) { At(st, l.cpu, l.cpu); }
    StepKeeps(st, l);
    KeepsSize(st');
    forall s | 0 <= s < st.n ensures st'.src[s].sequence == Begins(st'.log, s) {
      SequenceStep(st, l, s);
      if st'.log != st.log { BeginsMore(st.log, st'.log[|st.log|], s); }
    }
    forall j | 0 <= j < |st'.log| && st'.log[j].Begin?
      ensures GoodArgs(st'.log[j].r, st'.log[j].source, st'.online)
      ensures st'.log[j].r.sequence == Begins(st'.log[..j], st'.log[j].source) + 1
    {
      if j < |st.log| { assert st'.log[..j] == st.log[..j] && st'.log[j] == st.log[j]; }
      else { assert st'.log[..j] == st.log; }
    }
  }

  lemma KeepsSize(st: State)
    requires Inv(st)
    ensures |st.src| == st.n && |st.tgt| == st.n
  {
  }

  lemma {:induction false} NumberedRun(a: State, labels: seq<Label>, b: State)
    requires Inv(a) && Numbered(a) && Leads(a, labels, b)
    ensures Numbered(b) && b.online == a.online
    decreases |labels|
  {
    if labels != [] {
      StepKeeps(a, labels[0]);
      SameCount(a, labels[0]);
      NumberedStep(a, labels[0]);
      NumberedRun(Apply(a, labels[0]), labels[1..], b);
    }
  }

  /** The k-th submission of a CPU has sequence number k, a valid action, and a
      non-empty set of online targets without the caller. */
  lemma SubmissionsAreNumbered(n: nat, online: set<nat>, st: State, j: nat)
    requires Reachable(n, online, st) && j < |st.log| && st.log[j].Begin?
    ensures var s, r := st.log[j].source, st.log[j].r;
      && r.sequence == Begins(st.log[..j], s) + 1 && r.begun == j
      && r.action in {1, 2} && r.targets != {} && r.targets <= online && s !in r.targets
  {
    var labels :| Leads(Boot(n, online), labels, st);
    BootInv(n, online);
    NumberedRun(Boot(n, online), labels, st);
    BegunRun(Boot(n, online), labels, st, j);
  }

  lemma {:induction false} BegunRun(a: State, labels: seq<Label>, b: State, j: nat)
    requires Leads(a, labels, b) && j < |b.log| && b.log[j].Begin?
    requires j < |a.log| && a.log[j].Begin? ==> a.log[j].r.begun == j
    ensures b.log[j].r.begun == j
    decreases |labels|
  {
    if labels != [] {
      HistoryStep(a, labels[0]);
      BegunRun(Apply(a, labels[0]), labels[1..], b, j);
    }
  }

  // --- announcements ---

  function Sending(pc: Pc, t: nat): nat { Count(pc.SendIpi? && pc.k == t) }

  /** How many CPUs are about to send an IPI to `t`. */
  function Senders(src: seq<Source>, t: nat): nat {
    if src == [] then 0 else Senders(src[..|src| - 1], t) + Sending(src[|src| - 1].pc, t)
  }

  lemma {:induction false} SendersUpdate(src: seq<Source>, src': seq<Source>, c: nat, t: nat)
    requires c < |src| && |src'| == |src| && forall s | 0 <= s < |src| && s != c :: src'[s].pc == src[s].pc
    ensures Senders(src', t) + Sending(src[c].pc, t) == Senders(src, t) + Sending(src'[c].pc, t)
    decreases |src|
  {
    var last := |src| - 1;
    if c < last {
      SendersUpdate(src[..last], src'[..last], c, t);
    } else {
      SendersAlike(src[..last], src'[..last], t);
    }
  }

  lemma {:induction false} SendersAlike(src: seq<Source>, src': seq<Source>, t: nat)
    requires |src'| == |src| && forall s | 0 <= s < |src| :: Sending(src'[s].pc, t) == Sending(src[s].pc, t)
    ensures Senders(src', t) == Senders(src, t)
  {
    if src != [] { SendersAlike(src[..|src| - 1], src'[..|src| - 1], t); }
  }

  /** The step is a `send_ipi(t)` of the rendezvous, accepted or not. */
  function Announces(st: State, l: Label, t: nat): nat
    requires Enabled(st, l)
  {
    Count(l.Main? && st.src[l.cpu].pc.SendIpi? && st.src[l.cpu].pc.k == t)
  }

  /** The step puts a source into the empty mask of `t`. */
  function Fills(st: State, l: Label, t: nat): nat
    requires Enabled(st, l) && t < st.n
  {
    Count(st.tgt[t].pending == {} && t < |Apply(st, l).tgt| && Apply(st, l).tgt[t].pending != {})
  }

  /** How often the run sends an IPI to `t`, and how often it fills its empty mask. */
  function Announced(a: State, labels: seq<Label>, t: nat): nat
    decreases |labels|
  {
    if labels == [] || !Enabled(a, labels[0]) then 0
    else Announces(a, labels[0], t) + Announced(Apply(a, labels[0]), labels[1..], t)
  }

  function Filled(a: State, labels: seq<Label>, t: nat): nat
    decreases |labels|
  {
    if labels == [] || !Enabled(a, labels[0]) || t >= a.n then 0
    else Fills(a, labels[0], t) + Filled(Apply(a, labels[0]), labels[1..], t)
  }

  lemma MainAnnounces(st: State, l: Label, t: nat)
    requires Enabled(st, l) && l.Main? && t < st.n
    ensures |Apply(st, l).src| == st.n
    ensures Sending(Apply(st, l).src[l.cpu].pc, t) + Announces(st, l, t) == Sending(st.src[l.cpu].pc, t) + Fills(st, l, t)
  {
    if !AtMask(st.src[l.cpu].pc) { MasksAlone(st, l, t); }
  }

  /** Away from the masks nothing is filled, by a step of the main context. */
  lemma MasksAlone(st: State, l: Label, t: nat)
    requires Enabled(st, l) && l.Main? && t < st.n && !AtMask(st.src[l.cpu].pc)
    ensures Fills(st, l, t) == 0 && Announces(st, l, t) == 0
    ensures |Apply(st, l).src| == st.n && !Apply(st, l).src[l.cpu].pc.SendIpi?
  {
  }

  lemma HandlerAnnounces(st: State, l: Label, t: nat)
    requires Enabled(st, l) && l.Handler? && t < st.n
    ensures Fills(st, l, t) == 0 && |Apply(st, l).src| == st.n
    ensures forall s | 0 <= s < st.n :: Apply(st, l).src[s].pc.SendIpi? || st.src[s].pc.SendIpi? ==> Apply(st, l).src[s].pc == st.src[s].pc
  {
  }

  lemma CallAnnounces(st: State, l: Label, t: nat)
    requires Enabled(st, l) && !l.Main? && !l.Handler? && t < st.n
    ensures Fills(st, l, t) == 0 && |Apply(st, l).src| == st.n
    ensures forall s | 0 <= s < st.n :: Sending(Apply(st, l).src[s].pc, t) == Sending(st.src[s].pc, t)
  {
  }

  lemma AnnouncesStep(st: State, l: Label, t: nat)
    requires Enabled(st, l) && t < st.n
    ensures Senders(Apply(st, l).src, t) + Announces(st, l, t) == Senders(st.src, t) + Fills(st, l, t)
  {
    hide Apply;
    if l.Main? {
      MainAnnounces(st, l, t);
      forall s | 0 <= s < st.n && s != l.cpu ensures Apply(st, l).src[s].pc == st.src[s].pc { OnlyOwnPc(st, l, s); }
      SendersUpdate(st.src, Apply(st, l).src, l.cpu, t);
    } else if l.Handler? {
      HandlerAnnounces(st, l, t);
      SendersAlike(st.src, Apply(st, l).src, t);
    } else {
      CallAnnounces(st, l, t);
      SendersAlike(st.src, Apply(st, l).src, t);
    }
  }

  /** Every time a mask becomes non-empty exactly one `send_ipi` follows or is still due:
      no announcement is left out, and coalesced sources send none. */
  lemma {:induction false} OneIpiPerFill(a: State, labels: seq<Label>, b: State, t: nat)
    requires Leads(a, labels, b) && t < a.n
    ensures Announced(a, labels, t) + Senders(b.src, t) == Filled(a, labels, t) + Senders(a.src, t)
    decreases |labels|
  {
    hide Apply, Enabled, Announces, Fills, Senders;
    if labels != [] {
      AnnouncesStep(a, labels[0], t);
      SameCount(a, labels[0]);
      OneIpiPerFill(Apply(a, labels[0]), labels[1..], b, t);
    }
  }

  lemma {:induction false} NoSenders(src: seq<Source>, t: nat)
    requires forall s | 0 <= s < |src| :: src[s].pc.Idle?
    ensures Senders(src, t) == 0
  {
    if src != [] { NoSenders(src[..|src| - 1], t); }
  }

  /** From boot, once every submission has returned, the rendezvous has sent exactly as many IPIs as masks were filled. */
  lemma SettledIpis(n: nat, online: set<nat>, labels: seq<Label>, st: State, t: nat)
    requires Leads(Boot(n, online), labels, st) && t < n && forall s | 0 <= s < |st.src| :: st.src[s].pc.Idle?
    ensures Announced(Boot(n, online), labels, t) == Filled(Boot(n, online), labels, t)
  {
    OneIpiPerFill(Boot(n, online), labels, st, t);
    NoSenders(Boot(n, online).src, t);
    NoSenders(st.src, t);
  }

  // --- stopping ---

  /** Why a step stops its CPU: a bad call, an expired deadline, or no sequence number left. */
  function HaltReason(st: State, l: Label): Option<Reason>
    requires Enabled(st, l)
  {
    match l
    case Start(c, targets, action) =>
      if action != 1 && action != 2 then Some(CallerInvalidAction)
      else if exists t :: t in targets && t !in st.online then Some(CallerOfflineTarget)
      else if c in targets then Some(CallerTargetsItself)
      else None
    case Main(c, _, expired) =>
      if st.src[c].pc.CheckTimeout? && expired then Some(WaitTimeout)
      else if st.src[c].pc.LoadSequence? && st.src[c].sequence == 0xFFFF_FFFF_FFFF_FFFF then Some(SequenceWrapped)
      else None
    case _ => None
  }

  /** Without the invariant there is one more possibility: an assertion of the protocol. */
  lemma StopEffect(st: State, l: Label)
    requires Enabled(st, l)
    ensures var stopped := Apply(st, l).stopped;
      || stopped == (match HaltReason(st, l) case None => st.stopped case Some(why) => st.stopped[l.cpu := why])
      || (l.cpu in stopped && !Tolerated(stopped[l.cpu]))
  {
    if l.Start? { assert (exists t :: t in l.targets && t !in st.online) <==> !(l.targets <= st.online); }
  }

  /** In a reachable state a step stops its CPU exactly for these reasons; no other panic can occur. */
  lemma StopsExactly(n: nat, online: set<nat>, st: State, l: Label)
    requires Reachable(n, online, st) && Enabled(st, l)
    ensures Apply(st, l).stopped ==
      match HaltReason(st, l) case None => st.stopped case Some(why) => st.stopped[l.cpu := why]
  {
    hide Apply, Enabled, Tolerated;
    Always(n, online, st);
    StepKeeps(st, l);
    StopEffect(st, l);
  }
}
