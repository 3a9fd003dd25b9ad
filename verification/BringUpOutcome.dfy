/**
  How the bring-up of os/src/cpu.rs ends: every topology can come up; once all
  CPUs are online the boot CPU opens the gate; a CPU that failed for good keeps
  it closed and makes the boot CPU panic.
*/
module BringUpOutcome {
  import opened Common
  import opened BringUp

  // --- a CPU that failed for good ---

  /** An entry that got past the check of its state and will still write for logical id `i`. */
  ghost predicate Underway(st: State, i: nat) {
    exists k :: 0 <= k < |st.entries| && st.entries[k].logical == i
      && (st.entries[k].pc.StoreOnline? || st.entries[k].pc.PublishMask?)
  }

  /** `i` was asked to start, is marked failed and not online, and nobody is about to change that. */
  ghost predicate Doomed(st: State, i: nat) {
    && Shape(st) && 1 <= i < |st.hw| && i < Asked(st)
    && st.states[i] == FAILED && i !in st.online && !Underway(st, i)
  }

  lemma DoomedEntry(st: State, k: nat, i: nat)
    requires Inv(st) && Doomed(st, i) && Enabled(st, Step(k))
    ensures Doomed(Apply(st, Step(k)), i)
  {
    assert EntryInv(st, k);
    var st' := Apply(st, Step(k));
    forall j | 0 <= j < |st'.entries| && st'.entries[j].logical == i
      ensures !st'.entries[j].pc.StoreOnline? && !st'.entries[j].pc.PublishMask?
    {
      assert st.entries[j].logical == i;
    }
  }

  lemma DoomedStays(st: State, l: Label, i: nat)
    requires Inv(st) && Doomed(st, i) && Enabled(st, l)
    ensures Doomed(Apply(st, l), i)
  {
    match l
    case Enter(h, c) =>
      var st' := Apply(st, l);
      forall j | 0 <= j < |st'.entries| && st'.entries[j].logical == i
        ensures !st'.entries[j].pc.StoreOnline? && !st'.entries[j].pc.PublishMask?
      {
        if j < |st.entries| { assert st.entries[j].logical == i; }
      }
    case Step(k) => DoomedEntry(st, k, i);
    case Boot(trouble) => DoomedBoot(st, trouble, i);
  }

  lemma DoomedBoot(st: State, trouble: bool, i: nat)
    requires Inv(st) && Doomed(st, i) && Enabled(st, Boot(trouble))
    ensures Doomed(Apply(st, Boot(trouble)), i)
  {
    assert i in Possible(st);
  }

  lemma {:induction false} DoomedRun(a: State, labels: seq<Label>, b: State, i: nat)
    requires Inv(a) && Doomed(a, i) && Leads(a, labels, b)
    ensures Inv(b) && Doomed(b, i)
    decreases |labels|
  {
    if labels != [] {
      StepKeeps(a, labels[0]);
      DoomedStays(a, labels[0], i);
      DoomedRun(Apply(a, labels[0]), labels[1..], b, i);
    }
  }

  /** From then on, whatever happens, the gate stays closed and no secondary runs tasks. */
  lemma GateNeverOpens(a: State, first: seq<Label>, b: State, second: seq<Label>, c: State, i: nat)
    requires Initial(a) && Leads(a, first, b) && Doomed(b, i) && Leads(b, second, c)
    ensures !c.active && i < |c.states| && c.states[i] == FAILED && forall k | 0 <= k < |c.entries| :: !c.entries[k].pc.RunTasks?
  {
    RunKeeps(a, first, b);
    DoomedRun(b, second, c, i);
    assert i in Possible(c);
    forall k | 0 <= k < |c.entries| ensures !c.entries[k].pc.RunTasks? { assert EntryInv(c, k); }
  }

  /** How far the boot CPU is from its panic. */
  function Distance(boot: BootPc, n: nat, i: nat): nat {
    var m := 2 * n + 5;
    match boot
    case BootPanicked(_) => 0
    case MarkMissing(j, _) => if j <= n then n - j + 1 else 0
    case Scan(j, _) => if j <= i then i - j + 1 else if j <= n then 2 * m + (n - j) else 0
    case LoadOnline => m
    case StartHart(j) => if j <= n then 3 * m + 2 * (n - j) else 0
    case Request(j) => if j <= n then 3 * m + 2 * (n - j) + 1 else 0
    case _ => 0
  }

  /** Every step of the boot CPU brings it closer to a panic, and nobody else moves it. */
  lemma DoomedPanics(st: State, l: Label, i: nat)
    requires Inv(st) && Doomed(st, i) && Enabled(st, l)
    ensures l.Boot? ==> Distance(Apply(st, l).boot, |st.hw|, i) < Distance(st.boot, |st.hw|, i)
    ensures !l.Boot? ==> Apply(st, l).boot == st.boot
    ensures Distance(st.boot, |st.hw|, i) == 0 <==> st.boot.BootPanicked?
  {
    assert i in Possible(st);
  }

  /** A refusal of an asked CPU that is not online dooms it exactly when no entry for it is on its way out. */
  lemma RefusalDooms(st: State, k: nat)
    requires Inv(st) && Enabled(st, Step(k)) && (st.entries[k].pc.FailMismatch? || st.entries[k].pc.FailTransition?)
    requires 1 <= st.entries[k].logical < |st.hw|
    ensures var i := st.entries[k].logical;
      Doomed(Apply(st, Step(k)), i) <==> i < Asked(st) && i !in st.online && !Underway(st, i)
  {
    var i, st' := st.entries[k].logical, Apply(st, Step(k));
    if j :| 0 <= j < |st.entries| && st.entries[j].logical == i && (st.entries[j].pc.StoreOnline? || st.entries[j].pc.PublishMask?) {
      assert st'.entries[j] == st.entries[j];
    }
    if j :| 0 <= j < |st'.entries| && st'.entries[j].logical == i && (st'.entries[j].pc.StoreOnline? || st'.entries[j].pc.PublishMask?) {
      assert st'.entries[j] == st.entries[j];
    }
  }

  // --- everybody online ---

  /** All possible CPUs are online, none is marked failed, and the boot CPU waits for them. */
  predicate Ready(st: State) {
    && Shape(st) && st.online == Possible(st) && (forall c | 1 <= c < |st.hw| :: st.states[c] != FAILED)
    && (st.boot.LoadOnline? || st.boot.OpenGate? || (st.boot.Scan? && 1 <= st.boot.i <= |st.hw|))
  }

  function ToGate(boot: BootPc, n: nat): nat {
    match boot
    case OpenGate => 1
    case LoadOnline => 2
    case Scan(j, _) => if j <= n then 3 + n - j else 0
    case _ => 0
  }

  /** Before the deadline each step of the boot CPU brings it closer to opening the gate, and the last one opens it. */
  lemma ReadyOpens(st: State)
    requires Ready(st)
    ensures Enabled(st, Boot(false))
    ensures var st' := Apply(st, Boot(false));
      if st.boot.OpenGate? then st'.active && st'.boot == Running
      else Ready(st') && ToGate(st'.boot, |st.hw|) < ToGate(st.boot, |st.hw|)
  {
  }

  /** The boot CPU gives up exactly when the firmware refuses a start, a CPU is marked failed, or the deadline passes. */
  lemma BootGivesUp(st: State, trouble: bool)
    requires Inv(st) && Enabled(st, Boot(trouble)) && !GivesUp(st.boot)
    ensures GivesUp(Apply(st, Boot(trouble)).boot) <==>
      || (trouble && st.boot.StartHart?)
      || (trouble && st.boot.Scan? && st.boot.i == |st.hw|)
      || (st.boot.Scan? && st.boot.i < |st.hw| && st.states[st.boot.i] == FAILED)
  {
  }

  /** A CPU-local block is free when an entry comes to install it. */
  lemma InstallsOnce(a: State, labels: seq<Label>, b: State, k: nat)
    requires Initial(a) && Leads(a, labels, b) && k < |b.entries| && b.entries[k].pc.Install?
    ensures b.entries[k].logical < |b.installed| && !b.installed[b.entries[k].logical]
  {
    RunKeeps(a, labels, b);
    assert EntryInv(b, k);
  }

  // --- a run in which everybody comes up ---

  lemma {:induction false} LeadsThen(a: State, first: seq<Label>, b: State, second: seq<Label>, c: State)
    requires Leads(a, first, b) && Leads(b, second, c)
    ensures Leads(a, first + second, c)
    decreases |first|
  {
    hide Apply, Enabled;
    if first == [] {
      assert first + second == second;
    } else {
      LeadsThen(Apply(a, first[0]), first[1..], b, second, c);
      assert (first + second)[1..] == first[1..] + second;
    }
  }

  lemma LeadsOne(a: State, l: Label)
    requires Enabled(a, l)
    ensures Leads(a, [l], Apply(a, l))
  {
    assert Leads(Apply(a, l), [], Apply(a, l));
  }

  /** The boot CPU asks CPU `i` and all after it. */
  lemma {:induction false} AskRest(st: State, i: nat) returns (labels: seq<Label>, b: State)
    requires Shape(st) && st.boot == Request(i) && 1 <= i <= |st.hw|
    ensures Leads(st, labels, b) && Shape(b) && b == st.(states := b.states, boot := LoadOnline)
    ensures forall c | 0 <= c < MAX_CPUS :: b.states[c] == if i <= c < |st.hw| then START_REQUESTED else st.states[c]
    decreases |st.hw| - i
  {
    var s1 := Apply(st, Boot(false));
    LeadsOne(st, Boot(false));
    if i == |st.hw| {
      labels, b := [Boot(false)], s1;
    } else {
      LeadsOne(s1, Boot(false));
      var s2 := Apply(s1, Boot(false));
      LeadsThen(st, [Boot(false)], s1, [Boot(false)], s2);
      var rest;
      rest, b := AskRest(s2, i + 1);
      labels := [Boot(false)] + [Boot(false)] + rest;
      LeadsThen(st, [Boot(false)] + [Boot(false)], s2, rest, b);
    }
  }

  /** One more step of the last entry. */
  lemma LastMoves(a: State, labels: seq<Label>, st: State, k: nat, st': State)
    requires Leads(a, labels, st) && Enabled(st, Step(k)) && st' == Apply(st, Step(k))
    ensures Leads(a, labels + [Step(k)], st')
  {
    LeadsOne(st, Step(k));
    LeadsThen(a, labels, st, [Step(k)], st');
  }

  /** A hart that enters with the right ids after it was asked claims its block. */
  lemma ClaimsBlock(st: State, i: nat) returns (labels: seq<Label>, b: State)
    requires Shape(st) && 1 <= i < |st.hw| && st.states[i] == START_REQUESTED && !st.installed[i]
    ensures Leads(st, labels, b)
    ensures b == st.(states := st.states[i := EARLY], installed := st.installed[i := true],
                     entries := st.entries + [Entry(st.hw[i], i, LoadEarly)])
  {
    hide Leads;
    var h, k := st.hw[i], |st.entries|;
    var e1 := st.(entries := st.entries + [Entry(h, i, CheckIds)]);
    LeadsOne(st, Enter(h, i));
    labels := [Enter(h, i)];
    var e2 := st.(entries := st.entries + [Entry(h, i, CasEarly)]);
    LastMoves(st, labels, e1, k, e2);
    labels := labels + [Step(k)];
    var e3 := st.(entries := st.entries + [Entry(h, i, Install)], states := st.states[i := EARLY]);
    LastMoves(st, labels, e2, k, e3);
    labels := labels + [Step(k)];
    b := e3.(entries := st.entries + [Entry(h, i, LoadEarly)], installed := st.installed[i := true]);
    LastMoves(st, labels, e3, k, b);
    labels := labels + [Step(k)];
  }

  /** And publishes itself. */
  lemma BringOne(st: State, i: nat) returns (labels: seq<Label>, b: State)
    requires Shape(st) && 1 <= i < |st.hw| && st.states[i] == START_REQUESTED && !st.installed[i]
    ensures Leads(st, labels, b)
    ensures b == st.(states := st.states[i := ONLINE], installed := st.installed[i := true], online := st.online + {i},
                     entries := st.entries + [Entry(st.hw[i], i, Gate)])
  {
    hide Leads;
    var h, k := st.hw[i], |st.entries|;
    var e4;
    labels, e4 := ClaimsBlock(st, i);
    var e5 := e4.(entries := st.entries + [Entry(h, i, StoreOnline)]);
    LastMoves(st, labels, e4, k, e5);
    labels := labels + [Step(k)];
    var e6 := e5.(entries := st.entries + [Entry(h, i, PublishMask)], states := st.states[i := ONLINE]);
    LastMoves(st, labels, e5, k, e6);
    labels := labels + [Step(k)];
    b := e6.(entries := st.entries + [Entry(h, i, Gate)], online := st.online + {i});
    LastMoves(st, labels, e6, k, b);
    labels := labels + [Step(k)];
  }

  /** From entry `from` on, CPUs 1, 2, ... up to `i` have entered, in order, and stand at `pc`. */
  predicate Came(st: State, from: nat, i: nat, pc: EntryPc) {
    && 1 <= i <= |st.hw| && |st.entries| == from + i - 1
    && forall c | 1 <= c < i :: st.entries[from + c - 1] == Entry(st.hw[c], c, pc)
  }

  lemma {:induction false} BringRest(st: State, from: nat, i: nat) returns (labels: seq<Label>, b: State)
    requires Shape(st) && Came(st, from, i, Gate) && st.online == UpTo(i)
    requires forall c | i <= c < |st.hw| :: st.states[c] == START_REQUESTED && !st.installed[c]
    ensures Leads(st, labels, b) && Shape(b) && b.hw == st.hw && b.boot == st.boot && b.rejected == st.rejected
    ensures b.active == st.active && Came(b, from, |st.hw|, Gate) && b.online == UpTo(|st.hw|)
    decreases |st.hw| - i
  {
    if i == |st.hw| {
      labels, b := [], st;
    } else {
      var one, mid := BringOne(st, i);
      assert mid.online == UpTo(i + 1);
      var rest;
      rest, b := BringRest(mid, from, i + 1);
      labels := one + rest;
      LeadsThen(st, one, mid, rest, b);
    }
  }

  /** Once the gate is open the waiting entries run, one after the other. */
  lemma {:induction false} RunRest(st: State, from: nat, i: nat) returns (labels: seq<Label>, b: State)
    requires Shape(st) && st.active && 1 <= i <= |st.hw| && |st.entries| == from + |st.hw| - 1
    requires forall c | 1 <= c < |st.hw| :: st.entries[from + c - 1] == Entry(st.hw[c], c, if c < i then RunTasks else Gate)
    ensures Leads(st, labels, b) && b == st.(entries := b.entries) && Came(b, from, |st.hw|, RunTasks)
    decreases |st.hw| - i
  {
    if i == |st.hw| {
      labels, b := [], st;
    } else {
      var k := from + i - 1;
      assert st.entries[k] == Entry(st.hw[i], i, Gate);
      var mid := Move(st, k, RunTasks);
      LeadsOne(st, Step(k));
      var rest;
      rest, b := RunRest(mid, from, i + 1);
      labels := [Step(k)] + rest;
      LeadsThen(st, [Step(k)], mid, rest, b);
    }
  }

  /** With every CPU published, the boot CPU opens the gate. */
  lemma OpenNow(st: State) returns (b: State)
    requires Shape(st) && st.boot == LoadOnline && st.online == UpTo(|st.hw|)
    ensures Leads(st, [Boot(false)] + [Boot(false)], b) && b == st.(boot := Running, active := true)
  {
    var s1 := st.(boot := OpenGate);
    b := st.(boot := Running, active := true);
    LeadsOne(st, Boot(false));
    LeadsOne(s1, Boot(false));
    LeadsThen(st, [Boot(false)], s1, [Boot(false)], b);
  }

  /** From the start of `start_parked_secondaries`, whatever entered before, all CPUs can come up. */
  lemma ComesUp(st: State) returns (labels: seq<Label>, b: State)
    requires Shape(st) && st.boot == MarkSelf && st.online == {0} && !st.active
    requires forall c | 1 <= c < |st.hw| :: !st.installed[c]
    ensures Leads(st, labels, b) && b.active && b.hw == st.hw && b.rejected == st.rejected
    ensures b.online == UpTo(|st.hw|) && Came(b, |st.entries|, |st.hw|, RunTasks)
  {
    var s1 := Apply(st, Boot(false));
    LeadsOne(st, Boot(false));
    assert UpTo(1) == {0};
    if |st.hw| == 1 {
      LeadsOne(s1, Boot(false));
      b := Apply(s1, Boot(false));
      labels := [Boot(false)] + [Boot(false)];
      LeadsThen(st, [Boot(false)], s1, [Boot(false)], b);
    } else {
      var ask, asked := AskRest(s1, 1);
      var come, here := BringRest(asked, |st.entries|, 1);
      var open := OpenNow(here);
      var run;
      run, b := RunRest(open, |st.entries|, 1);
      LeadsThen(st, [Boot(false)], s1, ask, asked);
      LeadsThen(st, [Boot(false)] + ask, asked, come, here);
      LeadsThen(st, [Boot(false)] + ask + come, here, [Boot(false)] + [Boot(false)], open);
      labels := [Boot(false)] + ask + come + ([Boot(false)] + [Boot(false)]) + run;
      LeadsThen(st, [Boot(false)] + ask + come + ([Boot(false)] + [Boot(false)]), open, run, b);
    }
  }

  /** For every topology there is a run in which every secondary runs tasks under its own ids. */
  lemma EveryoneComesUp(a: State) returns (labels: seq<Label>, b: State)
    requires Initial(a)
    ensures Leads(a, labels, b) && b.active && b.rejected == {} && |b.entries| == |a.hw| - 1
    ensures forall c | 1 <= c < |a.hw| :: c in b.online && b.entries[c - 1] == Entry(a.hw[c], c, RunTasks)
  {
    labels, b := ComesUp(a);
  }

  /** A refusal that comes before the boot CPU asks is forgotten: the request overwrites the failure. */
  lemma RefusalForgotten(a: State) returns (labels: seq<Label>, b: State)
    requires Initial(a) && |a.hw| >= 2
    ensures Leads(a, labels, b) && b.active && 1 in b.rejected
  {
    var h := a.hw[1] + 1;
    var s1 := a.(entries := [Entry(h, 1, CheckIds)]);
    var s2 := a.(entries := [Entry(h, 1, FailMismatch)]);
    var s3 := a.(entries := [Entry(h, 1, TurnedAway)], states := a.states[1 := FAILED], rejected := {1});
    LeadsOne(a, Enter(h, 1));
    LastMoves(a, [Enter(h, 1)], s1, 0, s2);
    LastMoves(a, [Enter(h, 1)] + [Step(0)], s2, 0, s3);
    var rest;
    rest, b := ComesUp(s3);
    labels := [Enter(h, 1)] + [Step(0)] + [Step(0)] + rest;
    LeadsThen(a, [Enter(h, 1)] + [Step(0)] + [Step(0)], s3, rest, b);
  }

  /** After the deadline exactly the CPUs that the last look did not show are marked failed, and the boot CPU panics. */
  lemma {:induction false} DeadlineMarks(st: State, i: nat, observed: set<nat>) returns (labels: seq<Label>, b: State)
    requires Shape(st) && st.boot == MarkMissing(i, observed) && 1 <= i <= |st.hw|
    ensures Leads(st, labels, b) && |b.states| == |st.states| && b == st.(states := b.states, boot := BootPanicked(|st.hw|))
    ensures forall c | 0 <= c < |st.states| :: b.states[c] == if i <= c < |st.hw| && c !in observed then FAILED else st.states[c]
    decreases |st.hw| - i
  {
    var next := Apply(st, Boot(false));
    LeadsOne(st, Boot(false));
    if i == |st.hw| {
      labels, b := [Boot(false)], next;
    } else {
      var rest;
      rest, b := DeadlineMarks(next, i + 1, observed);
      labels := [Boot(false)] + rest;
      LeadsThen(st, [Boot(false)], next, rest, b);
    }
  }

  /** Every topology that discovery can return is one the protocol starts from. */
  lemma EveryTopologyStarts(hw: seq<nat>) returns (a: State)
    requires 0 < |hw| <= 12 && Distinct(hw)
    ensures Initial(a) && a.hw == hw
  {
    a := State(hw, seq(12, _ => OFFLINE), seq(12, i => i == 0), {0}, false, MarkSelf, [], {});
  }
}
