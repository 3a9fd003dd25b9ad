/**
  What the shutdown report of os/src/shutdown.rs says about the run behind it:
  whom the leader asked, that it waited for them, and what it told the firmware.
*/
module ShutdownReport {
  import opened Common
  import opened Shutdown

  // --- runs, from their end ---

  lemma {:induction false} LeadsLast(a: State, labels: seq<Label>, b: State) returns (mid: State)
    requires Leads(a, labels, b) && labels != []
    ensures Leads(a, labels[..|labels| - 1], mid) && Enabled(mid, labels[|labels| - 1])
    ensures b == Apply(mid, labels[|labels| - 1])
    decreases |labels|
  {
    hide Apply, Enabled;
    if |labels| == 1 {
      mid := a;
    } else {
      var rest := labels[1..];
      mid := LeadsLast(Apply(a, labels[0]), rest, b);
      assert rest[..|rest| - 1] == labels[..|labels| - 1][1..];
    }
  }

  /** The run takes label `l` in state `mid`. */
  ghost predicate Takes(a: State, labels: seq<Label>, mid: State, l: Label) {
    exists i :: 0 <= i < |labels| && labels[i] == l && Leads(a, labels[..i], mid)
  }

  lemma TakesMore(a: State, labels: seq<Label>, mid: State, l: Label, more: Label)
    requires Takes(a, labels, mid, l)
    ensures Takes(a, labels + [more], mid, l)
  {
    hide Leads;
    var i :| 0 <= i < |labels| && labels[i] == l && Leads(a, labels[..i], mid);
    assert (labels + [more])[..i] == labels[..i] && (labels + [more])[i] == labels[i];
  }

  lemma TakesLast(a: State, labels: seq<Label>, st: State, l: Label)
    requires Leads(a, labels, st)
    ensures Takes(a, labels + [l], st, l)
  {
    hide Leads;
    assert (labels + [l])[..|labels|] == labels && (labels + [l])[|labels|] == l;
  }

  /** CPU `c` loaded the online mask, and `requested` is what it saw without itself. */
  ghost predicate Chose(a: State, labels: seq<Label>, c: nat, requested: set<nat>) {
    exists mid, x :: Takes(a, labels, mid, Main(c, x)) && c < |mid.cpus| && mid.cpus[c].pc == LoadOnline
      && requested == mid.online - {EffectiveId(mid.cpus[c])}
  }

  /** Waiting for `requested`, `c` found the mask `stopped`, with the deadline passed or not. */
  ghost predicate Found(a: State, labels: seq<Label>, c: nat, requested: set<nat>, stopped: set<nat>, expired: bool) {
    exists mid :: Takes(a, labels, mid, Main(c, expired)) && c < |mid.cpus| && mid.cpus[c].pc == LoadStopped(requested)
      && mid.stopped == stopped
  }

  /** And that ended the wait: nobody was missing, or the deadline had passed. */
  ghost predicate EndedWait(a: State, labels: seq<Label>, c: nat, requested: set<nat>, stopped: set<nat>) {
    exists expired :: Found(a, labels, c, requested, stopped, expired) && (requested <= stopped || expired)
  }

  lemma ChoseMore(a: State, labels: seq<Label>, c: nat, requested: set<nat>, l: Label)
    requires Chose(a, labels, c, requested)
    ensures Chose(a, labels + [l], c, requested)
  {
    hide Takes;
    var mid, x :| Takes(a, labels, mid, Main(c, x)) && c < |mid.cpus| && mid.cpus[c].pc == LoadOnline
      && requested == mid.online - {EffectiveId(mid.cpus[c])};
    TakesMore(a, labels, mid, Main(c, x), l);
  }

  lemma EndedMore(a: State, labels: seq<Label>, c: nat, requested: set<nat>, stopped: set<nat>, l: Label)
    requires EndedWait(a, labels, c, requested, stopped)
    ensures EndedWait(a, labels + [l], c, requested, stopped)
  {
    hide Takes;
    var expired :| Found(a, labels, c, requested, stopped, expired) && (requested <= stopped || expired);
    var mid :| Takes(a, labels, mid, Main(c, expired)) && c < |mid.cpus| && mid.cpus[c].pc == LoadStopped(requested)
      && mid.stopped == stopped;
    TakesMore(a, labels, mid, Main(c, expired), l);
    assert Found(a, labels + [l], c, requested, stopped, expired);
  }

  /** Every requested CPU of the topology was sent a stop interrupt. */
  ghost predicate AllSent(log: seq<Event>, c: nat, requested: set<nat>, n: nat) {
    forall t | t in requested && t < n :: StopSent(c, t) in log
  }

  ghost predicate PcTold(a: State, labels: seq<Label>, st: State, c: nat)
    requires c < |st.cpus|
  {
    var pc := st.cpus[c].pc;
    && (Requests(pc) ==> Chose(a, labels, c, pc.requested))
    && (pc.SendStops? ==> AllSent(st.log, c, pc.requested, pc.k))
    && (pc.LoadStopped? || pc.LoadFailure? || pc.StoreResetting? ==> AllSent(st.log, c, pc.requested, |st.cpus|))
    && (pc.LoadFailure? || pc.StoreResetting? ==> EndedWait(a, labels, c, pc.requested, pc.stopped))
    && (pc.Reset? ==> exists e :: e in st.log && e.Reported? && e.cpu == c && e.failure == pc.failure)
  }

  ghost predicate EventTold(a: State, labels: seq<Label>, log: seq<Event>, e: Event, n: nat) {
    && (e.StopSent? ==> exists requested :: Chose(a, labels, e.cpu, requested) && e.target in requested)
    && (e.Reported? ==> ReportOk(a, labels, log, e, n))
  }

  ghost predicate ReportOk(a: State, labels: seq<Label>, log: seq<Event>, e: Event, n: nat)
    requires e.Reported?
  {
    && Chose(a, labels, e.cpu, e.requested) && AllSent(log, e.cpu, e.requested, n)
    && exists stopped :: EndedWait(a, labels, e.cpu, e.requested, stopped)
         && e.stopped == e.requested * stopped && e.missing == e.requested - stopped
  }

  ghost predicate Told(a: State, labels: seq<Label>, st: State) {
    && (forall c | 0 <= c < |st.cpus| :: PcTold(a, labels, st, c))
    && (forall e | e in st.log :: EventTold(a, labels, st.log, e, |st.cpus|))
  }

  // --- every step keeps it ---

  /** Nobody writes the record of another CPU, and the history only grows, by at most one event. */
  lemma Frame(st: State, l: Label)
    requires Enabled(st, l)
    ensures var st' := Apply(st, l);
      && |st'.cpus| == |st.cpus| && (forall c | 0 <= c < |st.cpus| && c != l.cpu :: st'.cpus[c] == st.cpus[c])
      && (st'.log == st.log || (|st'.log| == |st.log| + 1 && st'.log == st.log + [st'.log[|st.log|]]))
  {
  }

  lemma SentMore(log: seq<Event>, log': seq<Event>, c: nat, requested: set<nat>, n: nat)
    requires AllSent(log, c, requested, n) && log <= log'
    ensures AllSent(log', c, requested, n)
  {
    forall t | t in requested && t < n ensures StopSent(c, t) in log' {
      var i :| 0 <= i < |log| && log[i] == StopSent(c, t);
      assert log'[i] == log[i];
    }
  }

  /** What was known of a program counter stays known. */
  lemma PcStays(a: State, labels: seq<Label>, st: State, l: Label, st': State, c: nat)
    requires c < |st.cpus| == |st'.cpus| && st'.cpus[c].pc == st.cpus[c].pc && st.log <= st'.log
    requires PcTold(a, labels, st, c)
    ensures PcTold(a, labels + [l], st', c)
  {
    hide Chose, EndedWait, AllSent;
    var pc := st.cpus[c].pc;
    if Requests(pc) {
      ChoseMore(a, labels, c, pc.requested, l);
      if pc.SendStops? { SentMore(st.log, st'.log, c, pc.requested, pc.k); }
      if AllSent(st.log, c, pc.requested, |st.cpus|) { SentMore(st.log, st'.log, c, pc.requested, |st.cpus|); }
      if pc.LoadFailure? || pc.StoreResetting? { EndedMore(a, labels, c, pc.requested, pc.stopped, l); }
    }
    if pc.Reset? {
      var e :| e in st.log && e.Reported? && e.cpu == c && e.failure == pc.failure;
      assert e in st'.log;
    }
  }

  lemma LoadsOnline(a: State, labels: seq<Label>, st: State, c: nat, x: bool)
    requires Leads(a, labels, st) && c < |st.cpus| && st.cpus[c].pc == LoadOnline
    ensures Chose(a, labels + [Main(c, x)], c, st.online - {EffectiveId(st.cpus[c])})
  {
    hide Leads, Takes;
    TakesLast(a, labels, st, Main(c, x));
  }

  lemma Ends(a: State, labels: seq<Label>, st: State, c: nat, x: bool, requested: set<nat>)
    requires Leads(a, labels, st) && c < |st.cpus| && st.cpus[c].pc == LoadStopped(requested)
    requires requested <= st.stopped || x
    ensures EndedWait(a, labels + [Main(c, x)], c, requested, st.stopped)
  {
    hide Leads, Takes;
    TakesLast(a, labels, st, Main(c, x));
    assert Found(a, labels + [Main(c, x)], c, requested, st.stopped, x);
  }

  /** Sending the stop interrupts, one CPU at a time. */
  lemma SendsTold(a: State, labels: seq<Label>, st: State, c: nat, x: bool)
    requires Enabled(st, Main(c, x)) && PcTold(a, labels, st, c) && st.cpus[c].pc.SendStops?
    ensures PcTold(a, labels + [Main(c, x)], Apply(st, Main(c, x)), c)
  {
    hide Chose, EndedWait;
    var pc, st' := st.cpus[c].pc, Apply(st, Main(c, x));
    ChoseMore(a, labels, c, pc.requested, Main(c, x));
    if pc.k < |st.cpus| && pc.k in pc.requested { assert st'.log[|st.log|] == StopSent(c, pc.k); }
    forall t | t in pc.requested && t < pc.k ensures StopSent(c, t) in st'.log { assert StopSent(c, t) in st.log; }
  }

  lemma MainTold(a: State, labels: seq<Label>, st: State, c: nat, x: bool)
    requires Leads(a, labels, st) && Enabled(st, Main(c, x)) && PcTold(a, labels, st, c)
    ensures c < |Apply(st, Main(c, x)).cpus| && PcTold(a, labels + [Main(c, x)], Apply(st, Main(c, x)), c)
  {
    hide Leads, Chose, EndedWait;
    var pc, st' := st.cpus[c].pc, Apply(st, Main(c, x));
    if pc.SendStops? {
      SendsTold(a, labels, st, c, x);
    } else {
      if pc.LoadOnline? { LoadsOnline(a, labels, st, c, x); }
      if Requests(pc) {
        ChoseMore(a, labels, c, pc.requested, Main(c, x));
        if pc.LoadFailure? || pc.StoreResetting? { EndedMore(a, labels, c, pc.requested, pc.stopped, Main(c, x)); }
        if AllSent(st.log, c, pc.requested, |st.cpus|) { SentMore(st.log, st'.log, c, pc.requested, |st.cpus|); }
      }
      if pc.LoadStopped? && (pc.requested <= st.stopped || x) { Ends(a, labels, st, c, x, pc.requested); }
      if pc.StoreResetting? { assert st'.log[|st.log|].Reported?; }
    }
  }

  lemma EventStays(a: State, labels: seq<Label>, l: Label, log: seq<Event>, log': seq<Event>, e: Event, n: nat)
    requires EventTold(a, labels, log, e, n) && log <= log'
    ensures EventTold(a, labels + [l], log', e, n)
  {
    hide Chose, EndedWait, AllSent;
    if e.Reported? {
      ChoseMore(a, labels, e.cpu, e.requested, l);
      SentMore(log, log', e.cpu, e.requested, n);
      var stopped :| EndedWait(a, labels, e.cpu, e.requested, stopped)
        && e.stopped == e.requested * stopped && e.missing == e.requested - stopped;
      EndedMore(a, labels, e.cpu, e.requested, stopped, l);
    }
    if e.StopSent? {
      var requested :| Chose(a, labels, e.cpu, requested) && e.target in requested;
      ChoseMore(a, labels, e.cpu, requested, l);
    }
  }

  lemma NewStop(st: State, l: Label)
    requires Enabled(st, l) && |Apply(st, l).log| == |st.log| + 1 && Apply(st, l).log[|st.log|].StopSent?
    ensures l.Main? && st.cpus[l.cpu].pc.SendStops?
    ensures var e := Apply(st, l).log[|st.log|]; e.cpu == l.cpu && e.target in st.cpus[l.cpu].pc.requested
  {
  }

  /** The report is printed from the leader's registers. */
  lemma NewReport(st: State, l: Label)
    requires Enabled(st, l) && |Apply(st, l).log| == |st.log| + 1 && Apply(st, l).log[|st.log|].Reported?
    ensures l.Main? && st.cpus[l.cpu].pc.StoreResetting?
    ensures var pc, e := st.cpus[l.cpu].pc, Apply(st, l).log[|st.log|];
      e == Reported(l.cpu, pc.requested, pc.stopped * pc.requested, pc.requested - pc.stopped, pc.failure)
  {
  }

  lemma ToldStep(a: State, labels: seq<Label>, st: State, l: Label)
    requires Leads(a, labels, st) && Told(a, labels, st) && Enabled(st, l)
    ensures Told(a, labels + [l], Apply(st, l))
  {
    hide Leads, Apply, PcTold, EventTold;
    var st' := Apply(st, l);
    Frame(st, l);
    forall c | 0 <= c < |st.cpus| ensures PcTold(a, labels + [l], st', c) { OneToldStep(a, labels, st, l, c); }
    forall e | e in st'.log ensures EventTold(a, labels + [l], st'.log, e, |st'.cpus|) {
      if e in st.log { EventStays(a, labels, l, st.log, st'.log, e, |st.cpus|); }
      else { NewTold(a, labels, st, l, e); }
    }
  }

  lemma OneToldStep(a: State, labels: seq<Label>, st: State, l: Label, c: nat)
    requires Leads(a, labels, st) && Told(a, labels, st) && Enabled(st, l) && c < |st.cpus|
    ensures |Apply(st, l).cpus| == |st.cpus| && PcTold(a, labels + [l], Apply(st, l), c)
  {
    hide Leads;
    Frame(st, l);
    if c != l.cpu || l.Online? { PcStays(a, labels, st, l, Apply(st, l), c); }
    else if l.Main? { MainTold(a, labels, st, c, l.expired); }
    else if l.Poll? && st.phase == RUNNING { PcStays(a, labels, st, l, Apply(st, l), c); }
  }

  lemma NewTold(a: State, labels: seq<Label>, st: State, l: Label, e: Event)
    requires Told(a, labels, st) && Enabled(st, l) && e in Apply(st, l).log && e !in st.log
    ensures EventTold(a, labels + [l], Apply(st, l).log, e, |Apply(st, l).cpus|)
  {
    hide Apply, Chose, EndedWait, AllSent;
    Frame(st, l);
    var st' := Apply(st, l);
    assert e == st'.log[|st.log|];
    if e.StopSent? {
      NewStop(st, l);
      assert PcTold(a, labels, st, l.cpu);
      ChoseMore(a, labels, l.cpu, st.cpus[l.cpu].pc.requested, l);
    }
    if e.Reported? {
      NewReport(st, l);
      var c, pc := l.cpu, st.cpus[l.cpu].pc;
      assert PcTold(a, labels, st, c);
      ChoseMore(a, labels, c, pc.requested, l);
      SentMore(st.log, st'.log, c, pc.requested, |st.cpus|);
      EndedMore(a, labels, c, pc.requested, pc.stopped, l);
    }
  }

  lemma {:induction false} ToldRun(a: State, labels: seq<Label>, b: State)
    requires Boot(a) && Leads(a, labels, b)
    ensures Told(a, labels, b)
    decreases |labels|
  {
    hide Apply, PcTold;
    if labels == [] {
      forall c | 0 <= c < |b.cpus| ensures PcTold(a, labels, b, c) { StartsTold(a, c); }
    } else {
      var front, l := labels[..|labels| - 1], labels[|labels| - 1];
      var mid := LeadsLast(a, labels, b);
      ToldRun(a, front, mid);
      ToldStep(a, front, mid, l);
      assert front + [l] == labels;
    }
  }

  lemma StartsTold(a: State, c: nat)
    requires Boot(a) && c < |a.cpus|
    ensures PcTold(a, [], a, c)
  {
  }

  // --- the promises ---

  /** The CPUs in the report are the online ones at the leader's load without the leader; each was sent
      a stop; stopped and missing are what the leader found in its last look at the stopped mask; and it
      only stopped looking because nobody was missing or the deadline had passed. */
  lemma LeaderWaits(a: State, labels: seq<Label>, b: State, i: nat)
    requires Boot(a) && Leads(a, labels, b) && i < |b.log| && b.log[i].Reported?
    ensures var e := b.log[i];
      && Chose(a, labels, e.cpu, e.requested)
      && (forall t | t in e.requested && t < |b.cpus| :: StopSent(e.cpu, t) in b.log)
      && exists stopped, expired ::
           && Found(a, labels, e.cpu, e.requested, stopped, expired)
           && e.stopped == e.requested * stopped && e.missing == e.requested - stopped
           && (e.missing == {} || expired)
  {
    hide Chose;
    ToldRun(a, labels, b);
    var e := b.log[i];
    assert EventTold(a, labels, b.log, e, |b.cpus|);
    var stopped :| EndedWait(a, labels, e.cpu, e.requested, stopped)
      && e.stopped == e.requested * stopped && e.missing == e.requested - stopped;
    var expired :| Found(a, labels, e.cpu, e.requested, stopped, expired) && (e.requested <= stopped || expired);
  }

  /** Nobody else is sent one. */
  lemma OnlyRequestedAreStopped(a: State, labels: seq<Label>, b: State, i: nat)
    requires Boot(a) && Leads(a, labels, b) && i < |b.log| && b.log[i].StopSent?
    ensures exists requested :: Chose(a, labels, b.log[i].cpu, requested) && b.log[i].target in requested
  {
    ToldRun(a, labels, b);
    assert EventTold(a, labels, b.log, b.log[i], |b.cpus|);
  }

  /** It goes on looking exactly while somebody is missing and the deadline has not passed. */
  lemma LooksUntil(st: State, c: nat, expired: bool)
    requires Enabled(st, Main(c, expired)) && st.cpus[c].pc.LoadStopped?
    ensures Apply(st, Main(c, expired)) == st <==> !expired && exists t :: t in st.cpus[c].pc.requested && t !in st.stopped
  {
    var requested := st.cpus[c].pc.requested;
    assert requested <= st.stopped <==> forall t | t in requested :: t in st.stopped;
  }

  /** The flag handed to the firmware is the reported one. */
  lemma ResetAsReported(a: State, labels: seq<Label>, b: State, c: nat)
    requires Boot(a) && Leads(a, labels, b) && c < |b.cpus| && b.cpus[c].pc.Reset?
    ensures exists e :: e in b.log && e.Reported? && e.cpu == c && e.failure == b.cpus[c].pc.failure
  {
    ToldRun(a, labels, b);
    assert PcTold(a, labels, b, c);
  }

  /** A call that comes after the election never leads: the leader itself goes straight to the raw reset,
      any other CPU masks its interrupts, joins the stopped mask and parks; its failure is kept either way. */
  lemma LateCall(st: State, c: nat, failure: bool, x: bool)
    requires Enabled(st, Call(c, failure)) && st.leader.Some?
    ensures var st3 := Apply(Apply(Apply(st, Call(c, failure)), Main(c, x)), Main(c, x));
      && st3.leader == st.leader && st3.phase == st.phase && st3.failure == (st.failure || failure)
      && if st.leader.value == EffectiveId(st.cpus[c]) then st3.cpus[c].pc == RawReset && st3.stopped == st.stopped
         else
           var st4 := Apply(st3, Main(c, x));
           && st4.cpus[c].pc == Parked && st4.cpus[c].masked
           && st4.stopped == st.stopped + match st.cpus[c].id case Some(i) => {i} case None => {}
  {
  }

  /** An interrupted CPU parks once the phase has left `RUNNING`, and goes on undisturbed before. */
  lemma PollParks(st: State, c: nat, x: bool)
    requires Enabled(st, Poll(c))
    ensures st.phase == RUNNING ==> Apply(st, Poll(c)) == st
    ensures st.phase != RUNNING ==>
      var st2 := Apply(Apply(st, Poll(c)), Main(c, x));
      && st2.cpus[c].pc == Parked && st2.cpus[c].masked && st2.leader == st.leader && st2.phase == st.phase
      && st2.stopped == st.stopped + match st.cpus[c].id case Some(i) => {i} case None => {}
  {
  }

  // --- a shutdown that goes well ---

  lemma {:induction false} LeadsThen(a: State, first: seq<Label>, b: State, second: seq<Label>, c: State)
    requires Leads(a, first, b) && Leads(b, second, c)
    ensures Leads(a, first + second, c)
    decreases |first|
  {
    hide Apply, Enabled;
    if first == [] {
      assert first + second == second;
    } else {
      LeadsThen(Apply(a, first[0]), first[1..], b, second, c);
      assert (first + second)[1..] == first[1..] + second;
    }
  }

  lemma Next(a: State, labels: seq<Label>, st: State, l: Label, st': State)
    requires Leads(a, labels, st) && Enabled(st, l) && st' == Apply(st, l)
    ensures Leads(a, labels + [l], st')
  {
    assert Leads(st', [], st');
    LeadsThen(a, labels, st, [l], st');
  }

  lemma Wins(a: State, c: nat, failure: bool) returns (labels: seq<Label>, b: State)
    requires Boot(a) && c < |a.cpus|
    ensures Leads(a, labels, b)
    ensures b == Goto(a, c, MaskInterrupts).(
      leader := Some(EffectiveId(a.cpus[c])), failure := failure, log := [Raised(c, failure), Elected(c)])
  {
    hide Leads;
    var s1 := Goto(a, c, RaiseFailure(failure));
    var s2 := Goto(s1, c, ElectLeader).(failure := failure, log := [Raised(c, failure)]);
    b := Goto(s2, c, MaskInterrupts).(leader := Some(EffectiveId(a.cpus[c])), log := [Raised(c, failure), Elected(c)]);
    Nothing(a);
    Next(a, [], a, Call(c, failure), s1);
    labels := [] + [Call(c, failure)];
    Next(a, labels, s1, Main(c, false), s2);
    labels := labels + [Main(c, false)];
    Next(a, labels, s2, Main(c, false), b);
    labels := labels + [Main(c, false)];
  }

  lemma Nothing(a: State)
    ensures Leads(a, [], a)
  {
  }

  /** The state once `c` leads and has announced the stop. */
  lemma Announces(a: State, c: nat, failure: bool) returns (labels: seq<Label>, b: State)
    requires Boot(a) && c < |a.cpus|
    ensures Leads(a, labels, b)
    ensures var me := match a.cpus[c].id case None => 0 case Some(id) => id;
      b == State(a.cpus[c := Cpu(a.cpus[c].id, SendStops(a.online - {me}, 0), true)], Some(me), STOPPING, {}, failure,
                 a.online, [Raised(c, failure), Elected(c)])
  {
    hide Leads;
    var me := EffectiveId(a.cpus[c]);
    var s3;
    labels, s3 := Wins(a, c, failure);
    var s4 := Mask(Goto(s3, c, LoadOnline), c);
    var s5 := Goto(s4, c, StoreStopping(a.online - {me}));
    b := Goto(s5, c, SendStops(a.online - {me}, 0)).(phase := STOPPING);
    Next(a, labels, s3, Main(c, false), s4);
    labels := labels + [Main(c, false)];
    Next(a, labels, s4, Main(c, false), s5);
    labels := labels + [Main(c, false)];
    Next(a, labels, s5, Main(c, false), b);
    labels := labels + [Main(c, false)];
  }

  /** The stop interrupts go out, one CPU after the other. */
  lemma {:induction false} SendsAll(st: State, c: nat, requested: set<nat>, k: nat) returns (labels: seq<Label>, b: State)
    requires c < |st.cpus| && st.cpus[c].pc == SendStops(requested, k) && k <= |st.cpus|
    ensures Leads(st, labels, b) && b == Goto(st, c, LoadStopped(requested)).(log := b.log)
    decreases |st.cpus| - k
  {
    var next := Apply(st, Main(c, false));
    assert Leads(st, [], st);
    Next(st, [], st, Main(c, false), next);
    if k == |st.cpus| {
      labels, b := [] + [Main(c, false)], next;
    } else {
      var rest;
      rest, b := SendsAll(next, c, requested, k + 1);
      labels := [] + [Main(c, false)] + rest;
      LeadsThen(st, [] + [Main(c, false)], next, rest, b);
    }
  }

  /** One interrupted CPU parks. */
  lemma ParksOne(st: State, k: nat) returns (labels: seq<Label>, b: State)
    requires k < |st.cpus| && st.cpus[k].pc == Working && !st.cpus[k].masked && st.phase != RUNNING
    ensures Leads(st, labels, b)
    ensures b == st.(cpus := st.cpus[k := Cpu(st.cpus[k].id, Parked, true)],
                     stopped := match st.cpus[k].id case Some(i) => st.stopped + {i} case None => st.stopped)
  {
    hide Leads;
    var s1 := Apply(st, Poll(k));
    b := Apply(s1, Main(k, false));
    Nothing(st);
    Next(st, [], st, Poll(k), s1);
    Next(st, [] + [Poll(k)], s1, Main(k, false), b);
    labels := [] + [Poll(k)] + [Main(k, false)];
  }

  /** The interrupted CPUs park, one after the other. */
  lemma {:induction false} ParksAll(st: State, c: nat, k: nat) returns (labels: seq<Label>, b: State)
    requires c < |st.cpus| && k <= |st.cpus| && st.phase != RUNNING
    requires forall d | k <= d < |st.cpus| && d != c :: st.cpus[d].pc == Working && !st.cpus[d].masked
    ensures Leads(st, labels, b) && |b.cpus| == |st.cpus| && b == st.(cpus := b.cpus, stopped := b.stopped)
    ensures b.cpus[c] == st.cpus[c] && forall d | 0 <= d < |b.cpus| :: b.cpus[d].id == st.cpus[d].id
    ensures st.stopped <= b.stopped
    ensures forall d | k <= d < |b.cpus| && d != c ::
      b.cpus[d].pc == Parked && (st.cpus[d].id.Some? ==> st.cpus[d].id.value in b.stopped)
    ensures forall d | 0 <= d < k :: b.cpus[d] == st.cpus[d]
    decreases |st.cpus| - k
  {
    if k == |st.cpus| {
      labels, b := [], st;
    } else if k == c {
      labels, b := ParksAll(st, c, k + 1);
    } else {
      hide Leads;
      var one, mid := ParksOne(st, k);
      var rest;
      rest, b := ParksAll(mid, c, k + 1);
      labels := one + rest;
      LeadsThen(st, one, mid, rest, b);
    }
  }

  /** With nobody missing the leader reports and resets. */
  lemma Concludes(st: State, c: nat, requested: set<nat>) returns (labels: seq<Label>, b: State)
    requires c < |st.cpus| && st.cpus[c].pc == LoadStopped(requested) && requested <= st.stopped
    ensures Leads(st, labels, b) && b == Goto(st, c, Reset(st.failure)).(phase := RESETTING,
      log := st.log + [FailureLoaded(c, st.failure)] + [Reported(c, requested, requested, {}, st.failure)])
  {
    hide Leads;
    var s1 := Goto(st, c, LoadFailure(requested, st.stopped));
    var s2 := Goto(s1, c, StoreResetting(requested, st.stopped, st.failure)).(log := st.log + [FailureLoaded(c, st.failure)]);
    b := Apply(s2, Main(c, false));
    Nothing(st);
    Next(st, [], st, Main(c, false), s1);
    Next(st, [] + [Main(c, false)], s1, Main(c, false), s2);
    Next(st, [] + [Main(c, false)] + [Main(c, false)], s2, Main(c, false), b);
    labels := [] + [Main(c, false)] + [Main(c, false)] + [Main(c, false)];
    assert st.stopped * requested == requested && requested - st.stopped == {};
  }

  /** Any CPU can lead a shutdown in which every online CPU stops: the report has nobody missing and carries the caller's flag. */
  lemma CleanShutdown(a: State, c: nat, failure: bool) returns (labels: seq<Label>, b: State)
    requires Boot(a) && c < |a.cpus|
    requires forall i | i in a.online :: exists d :: 0 <= d < |a.cpus| && a.cpus[d].id == Some(i)
    ensures Leads(a, labels, b) && |b.cpus| == |a.cpus| && b.cpus[c].pc == Reset(failure) && b.phase == RESETTING
    ensures var me := match a.cpus[c].id case None => 0 case Some(id) => id;
      Reported(c, a.online - {me}, a.online - {me}, {}, failure) in b.log
    ensures forall d | 0 <= d < |b.cpus| && d != c :: b.cpus[d].pc == Parked
  {
    hide Leads;
    var first, s1 := Announces(a, c, failure);
    var requested := s1.cpus[c].pc.requested;
    var second, s2 := SendsAll(s1, c, requested, 0);
    var third, s3 := ParksAll(s2, c, 0);
    LeadsThen(a, first, s1, second, s2);
    LeadsThen(a, first + second, s2, third, s3);
    forall i | i in requested ensures i in s3.stopped {
      var d :| 0 <= d < |a.cpus| && a.cpus[d].id == Some(i);
      assert d != c;
      assert s2.cpus[d].id == Some(i);
    }
    var fourth;
    fourth, b := Concludes(s3, c, requested);
    labels := first + second + third + fourth;
    LeadsThen(a, first + second + third, s3, fourth, b);
    assert b.log[|b.log| - 1] == Reported(c, requested, requested, {}, failure);
  }
}
