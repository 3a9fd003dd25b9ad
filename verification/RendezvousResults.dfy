/**
  What callers of the rendezvous learn: an error comes back exactly when an IPI of
  this submission was rejected, and it is the rejected one; sequence numbers count
  submissions; a mask that fills up is announced by exactly one IPI.
*/
module RendezvousResults {
  import opened Common
  import opened Rendezvous
  import opened RendezvousInvariant
  import opened RendezvousSteps
  import opened RendezvousSafety
  import opened RendezvousWakeup

  // --- runs, from their end ---

  lemma {:induction false} LeadsLast(a: State, labels: seq<Label>, b: State) returns (mid: State)
    requires Leads(a, labels, b) && labels != []
    ensures Leads(a, labels[..|labels| - 1], mid) && Enabled(mid, labels[|labels| - 1])
    ensures b == Apply(mid, labels[|labels| - 1])
    decreases |labels|
  {
    hide Apply, Enabled;
    if |labels| == 1 {
      mid := a;
    } else {
      var rest := labels[1..];
      mid := LeadsLast(Apply(a, labels[0]), rest, b);
      assert rest[..|rest| - 1] == labels[..|labels| - 1][1..];
    }
  }

  lemma {:induction false} OneOutcome(a: State, labels: seq<Label>, b: State, c: State)
    requires Leads(a, labels, b) && Leads(a, labels, c)
    ensures b == c
    decreases |labels|
  {
    if labels != [] { OneOutcome(Apply(a, labels[0]), labels[1..], b, c); }
  }

  // --- errors ---

  /** In `st`, `l` is the answer that the IPI of request `r` of `s` to `t` is rejected with `e`. */
  predicate Refuses(st: State, l: Label, s: nat, r: Request, t: nat, e: nat) {
    l.Main? && l.cpu == s && l.sendError == Rejected(e) && s < |st.src| && st.src[s].pc == SendIpi(r, t)
  }

  ghost predicate WasRefused(a: State, labels: seq<Label>, s: nat, r: Request, t: nat, e: nat) {
    exists i, mid :: 0 <= i < |labels| && Leads(a, labels[..i], mid) && Refuses(mid, labels[i], s, r, t, e)
  }

  /** The submission `r` is on its way out with the error `e` from target `t`. */
  predicate Carries(pc: Pc, r: Request, t: nat, e: nat) {
    match pc
    case RemovePending(r', k, error) => r' == r && k == t && error == e
    case RemoveRemaining(r', k, error) => r' == r && k == t && error == e
    case WaitLoad(r', sent) => r' == r && sent == FailedAt(t, e)
    case Polling(r', sent) => r' == r && sent == FailedAt(t, e)
    case CheckTimeout(r', sent) => r' == r && sent == FailedAt(t, e)
    case ClearAction(r', sent) => r' == r && sent == FailedAt(t, e)
    case ClearActive(r', sent) => r' == r && sent == FailedAt(t, e)
    case _ => false
  }

  lemma RefusedEarlier(a: State, labels: seq<Label>, l: Label, s: nat, r: Request, t: nat, e: nat)
    requires WasRefused(a, labels, s, r, t, e)
    ensures WasRefused(a, labels + [l], s, r, t, e)
  {
    hide Leads, Refuses;
    var i, mid :| 0 <= i < |labels| && Leads(a, labels[..i], mid) && Refuses(mid, labels[i], s, r, t, e);
    assert (labels + [l])[..i] == labels[..i] && (labels + [l])[i] == labels[i];
  }

  lemma RefusedNow(a: State, labels: seq<Label>, st: State, l: Label, s: nat, r: Request, t: nat, e: nat)
    requires Leads(a, labels, st) && Refuses(st, l, s, r, t, e)
    ensures WasRefused(a, labels + [l], s, r, t, e)
  {
    hide Leads, Refuses;
    assert (labels + [l])[..|labels|] == labels && (labels + [l])[|labels|] == l;
  }

  lemma RefusedSplits(a: State, labels: seq<Label>, st: State, l: Label, s: nat, r: Request, t: nat, e: nat)
    requires Leads(a, labels, st) && WasRefused(a, labels + [l], s, r, t, e)
    ensures WasRefused(a, labels, s, r, t, e) || Refuses(st, l, s, r, t, e)
  {
    hide Leads, Refuses;
    var all := labels + [l];
    var i, mid :| 0 <= i < |all| && Leads(a, all[..i], mid) && Refuses(mid, all[i], s, r, t, e);
    if i < |labels| {
      assert all[..i] == labels[..i] && all[i] == labels[i];
    } else {
      assert all[..i] == labels;
      OneOutcome(a, labels, st, mid);
    }
  }

  /** A step other than the return keeps what a submission carries, and only a rejection adds to it. */
  lemma CarryMain(st: State, l: Label, r: Request, t: nat, e: nat)
    requires Enabled(st, l) && l.Main? && !Returns(st, l)
    ensures |Apply(st, l).src| == st.n
    ensures Carries(Apply(st, l).src[l.cpu].pc, r, t, e) <==>
      Carries(st.src[l.cpu].pc, r, t, e) || Refuses(st, l, l.cpu, r, t, e)
  {
  }

  lemma OnlyOwnPc(st: State, l: Label, s: nat)
    requires Enabled(st, l) && l.Main? && s < st.n && l.cpu != s
    ensures |Apply(st, l).src| == st.n && Apply(st, l).src[s].pc == st.src[s].pc
  {
  }

  lemma CarryOther(st: State, l: Label, s: nat, r: Request, t: nat, e: nat)
    requires Enabled(st, l) && !l.Main? && s < st.n
    ensures |Apply(st, l).src| == st.n
    ensures Carries(Apply(st, l).src[s].pc, r, t, e) <==> Carries(st.src[s].pc, r, t, e)
  {
  }

  ghost predicate Returned(log: seq<Event>, s: nat, r: Request, sent: SendResult) {
    exists j :: 0 <= j < |log| && log[j] == Return(s, r, sent)
  }

  /** Who carries or returned an error was rejected, and who was rejected carries or returned it. */
  ghost predicate ToldAt(a: State, labels: seq<Label>, st: State, s: nat, r: Request, t: nat, e: nat)
    requires s < |st.src|
  {
    && (WasRefused(a, labels, s, r, t, e) <==> Carries(st.src[s].pc, r, t, e) || Returned(st.log, s, r, FailedAt(t, e)))
    && (WasRefused(a, labels, s, r, t, e) ==>
          forall sent :: Returned(st.log, s, r, sent) ==> sent == FailedAt(t, e))
  }

  lemma ReturnedGrows(log: seq<Event>, ev: Event, s: nat, r: Request, sent: SendResult)
    ensures Returned(log + [ev], s, r, sent) <==> Returned(log, s, r, sent) || ev == Return(s, r, sent)
  {
    var log' := log + [ev];
    if Returned(log, s, r, sent) {
      var j :| 0 <= j < |log| && log[j] == Return(s, r, sent);
      assert log'[j] == log[j];
    }
    if ev == Return(s, r, sent) { assert log'[|log|] == ev; }
  }

  /** A published submission has not returned. */
  lemma NotYetReturned(st: State, s: nat, sent: SendResult)
    requires Inv(st) && WindowInv(st) && s < st.n && Published(st.src[s].pc)
    ensures !Returned(st.log, s, st.src[s].pc.r, sent)
  {
    At(st, s, s);
  }

  /** What a step appends to the history. */
  lemma HistoryStep(st: State, l: Label)
    requires Enabled(st, l)
    ensures var st' := Apply(st, l);
      if Publishes(st, l) then st'.log == st.log + [Begin(l.cpu, st.src[l.cpu].pc.r.(begun := |st.log|))]
      else if Returns(st, l) then st'.log == st.log + [Return(l.cpu, st.src[l.cpu].pc.r, st.src[l.cpu].pc.sent)]
      else st'.log == st.log || (|st'.log| == |st.log| + 1 && st'.log == st.log + [st'.log[|st.log|]] && st'.log[|st.log|].Fence?)
  {
    if l.Main? && !Publishes(st, l) && !Returns(st, l) { MainHistory(st, l); }
    if l.Handler? && !RunsFence(st, l) { HandlerHistory(st, l); }
  }

  /** Only a return adds one. */
  lemma ReturnedStep(st: State, l: Label, s: nat, r: Request, sent: SendResult)
    requires Enabled(st, l)
    ensures Returned(Apply(st, l).log, s, r, sent) <==>
      Returned(st.log, s, r, sent) || (Returns(st, l) && l.cpu == s && st.src[s].pc == ClearActive(r, sent))
  {
    hide Apply, Returned;
    HistoryStep(st, l);
    var log' := Apply(st, l).log;
    if log' != st.log { ReturnedGrows(st.log, log'[|st.log|], s, r, sent); }
  }

  lemma ToldStep(a: State, labels: seq<Label>, st: State, l: Label, s: nat, r: Request, t: nat, e: nat)
    requires Leads(a, labels, st) && Inv(st) && WindowInv(st) && Enabled(st, l) && s < st.n
    requires ToldAt(a, labels, st, s, r, t, e)
    ensures |Apply(st, l).src| == st.n && ToldAt(a, labels + [l], Apply(st, l), s, r, t, e)
  {
    hide Apply, Leads, WasRefused, Returned, Inv, WindowInv;
    var st' := Apply(st, l);
    if WasRefused(a, labels, s, r, t, e) { RefusedEarlier(a, labels, l, s, r, t, e); }
    if Refuses(st, l, s, r, t, e) {
      RefusedNow(a, labels, st, l, s, r, t, e);
      forall sent ensures !Returned(st.log, s, r, sent) { NotYetReturned(st, s, sent); }
    }
    if WasRefused(a, labels + [l], s, r, t, e) { RefusedSplits(a, labels, st, l, s, r, t, e); }
    forall sent ensures Returned(st'.log, s, r, sent) <==>
      Returned(st.log, s, r, sent) || (Returns(st, l) && l.cpu == s && st.src[s].pc == ClearActive(r, sent))
    {
      ReturnedStep(st, l, s, r, sent);
    }
    if Returns(st, l) && l.cpu == s { ReturnTold(st, l, r, t, e); }
    else if l.Main? && l.cpu == s { CarryMain(st, l, r, t, e); }
    else if l.Main? { OnlyOwnPc(st, l, s); }
    else { CarryOther(st, l, s, r, t, e); }
  }

  lemma ReturnTold(st: State, l: Label, r: Request, t: nat, e: nat)
    requires Inv(st) && WindowInv(st) && Enabled(st, l) && Returns(st, l)
    ensures |Apply(st, l).src| == st.n && !Carries(Apply(st, l).src[l.cpu].pc, r, t, e)
    ensures forall sent :: !Returned(st.log, l.cpu, st.src[l.cpu].pc.r, sent)
  {
    forall sent ensures !Returned(st.log, l.cpu, st.src[l.cpu].pc.r, sent) { NotYetReturned(st, l.cpu, sent); }
  }

  lemma {:induction false} ToldRun(
    n: nat, online: set<nat>, labels: seq<Label>, st: State, s: nat, r: Request, t: nat, e: nat)
    requires (forall c | c in online :: c < n) && Leads(Boot(n, online), labels, st) && s < n
    ensures st.n == n && Inv(st) && WindowInv(st) && ToldAt(Boot(n, online), labels, st, s, r, t, e)
    decreases |labels|
  {
    var a := Boot(n, online);
    if labels == [] {
      BootInv(n, online);
    } else {
      hide Apply, Inv, WindowInv, ToldAt;
      var front, l := labels[..|labels| - 1], labels[|labels| - 1];
      var mid := LeadsLast(a, labels, st);
      ToldRun(n, online, front, mid, s, r, t, e);
      StepKeeps(mid, l);
      WindowStep(mid, l);
      ToldStep(a, front, mid, l, s, r, t, e);
      assert front + [l] == labels;
      SameCount(mid, l);
    }
  }

  lemma SameCount(st: State, l: Label)
    requires Enabled(st, l)
    ensures Apply(st, l).n == st.n && Apply(st, l).online == st.online
  {
  }

  /** A submission returns `Err(e)` from target `t` if and only if `send_ipi(t)` was
      rejected with `e` while this submission was sending to it. */
  lemma ErrExactly(n: nat, online: set<nat>, labels: seq<Label>, st: State, j: nat, t: nat, e: nat)
    requires (forall c | c in online :: c < n) && Leads(Boot(n, online), labels, st)
    requires j < |st.log| && st.log[j].Return?
    ensures st.log[j].sent == FailedAt(t, e) <==>
      WasRefused(Boot(n, online), labels, st.log[j].source, st.log[j].r, t, e)
  {
    var s, r := st.log[j].source, st.log[j].r;
    SourcesExist(n, online, labels, st, j);
    ToldRun(n, online, labels, st, s, r, t, e);
    assert Returned(st.log, s, r, st.log[j].sent);
    if WasRefused(Boot(n, online), labels, s, r, t, e) { assert st.log[j].sent == FailedAt(t, e); }
  }

  lemma SourcesExist(n: nat, online: set<nat>, labels: seq<Label>, st: State, j: nat)
    requires (forall c | c in online :: c < n) && Leads(Boot(n, online), labels, st)
    requires j < |st.log| && st.log[j].Return?
    ensures st.log[j].source < n && st.n == n
  {
    BootInv(n, online);
    RunKeepsWindow(Boot(n, online), labels, st);
    RunKeeps(Boot(n, online), labels, st);
    SameSize(Boot(n, online), labels, st);
  }

  lemma {:induction false} SameSize(a: State, labels: seq<Label>, b: State)
    requires Leads(a, labels, b)
    ensures b.n == a.n && b.online == a.online
    decreases |labels|
  {
    if labels != [] {
      SameCount(a, labels[0]);
      SameSize(Apply(a, labels[0]), labels[1..], b);
    }
  }

  /** While every IPI is accepted, every submission returns `Ok` and has fenced every target. */
  lemma AcceptedReturnsOk(n: nat, online: set<nat>, labels: seq<Label>, st: State, j: nat, t: nat)
    requires (forall c | c in online :: c < n) && Leads(Boot(n, online), labels, st) && NoRejection(labels)
    requires j < |st.log| && st.log[j].Return?
    ensures st.log[j].sent == AllSent
    ensures t in st.log[j].r.targets ==>
      exists i :: st.log[j].r.begun < i < j && st.log[i] == Fence(t, st.log[j].source, st.log[j].r.sequence, MemoryBarrier)
  {
    var sent := st.log[j].sent;
    if sent.FailedAt? {
      ErrExactly(n, online, labels, st, j, sent.target, sent.error);
      assert false;
    }
    if t in st.log[j].r.targets {
      assert Reachable(n, online, st);
      ReturnMeansFenced(n, online, st, j, t);
    }
  }
}
