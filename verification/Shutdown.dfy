/**
  Shutdown leader election of os/src/shutdown.rs: any CPU may call `shutdown`,
  or panic into it again at any point, while the others poll `stop_requested`
  from their interrupt handlers.  One label is one atomic operation.
*/
module Shutdown {
  import opened Common

  datatype Phase = RUNNING | STOPPING | RESETTING

  function Rank(p: Phase): nat {
    match p case RUNNING => 0 case STOPPING => 1 case RESETTING => 2
  }

  /** Each name is the operation the CPU performs next inside `begin`, `complete` or `stop_current_cpu`. */
  datatype Pc =
    | Working
    | RaiseFailure(failure: bool)
    | ElectLeader
    | MaskInterrupts
    | LoadOnline
    | StoreStopping(requested: set<nat>)
    | SendStops(requested: set<nat>, k: nat)
    | LoadStopped(requested: set<nat>)
    | LoadFailure(requested: set<nat>, stopped: set<nat>)
    | StoreResetting(requested: set<nat>, stopped: set<nat>, failure: bool)
    | PublishStopped
    | Parked
    | Reset(failure: bool)
    | RawReset

  datatype Cpu = Cpu(id: Option<nat>, pc: Pc, masked: bool)

  datatype Event =
    | Raised(cpu: nat, failure: bool)
    | Elected(cpu: nat)
    | StopSent(cpu: nat, target: nat)
    | FailureLoaded(cpu: nat, failure: bool)
    | Reported(cpu: nat, requested: set<nat>, stopped: set<nat>, missing: set<nat>, failure: bool)

  datatype State = State(
    cpus: seq<Cpu>, leader: Option<nat>, phase: Phase, stopped: set<nat>, failure: bool, online: set<nat>,
    log: seq<Event>)

  /** `Call` is `shutdown(failure)`; a panic on a CPU that is already inside it is another `Call`.
      `Main` is told whether the leader's deadline has passed. */
  datatype Label =
    | Call(cpu: nat, failure: bool)
    | Poll(cpu: nat)
    | Online(cpu: nat, id: nat)
    | Main(cpu: nat, expired: bool)

  /** `try_current_id().unwrap_or(0)`. */
  function EffectiveId(c: Cpu): nat {
    match c.id case None => 0 case Some(i) => i
  }

  predicate DistinctIds(cpus: seq<Cpu>) {
    forall i, j | 0 <= i < j < |cpus| :: EffectiveId(cpus[i]) != EffectiveId(cpus[j])
  }

  predicate Halted(pc: Pc) {
    pc.Parked? || pc.Reset? || pc.RawReset?
  }

  predicate Enabled(st: State, l: Label) {
    && l.cpu < |st.cpus|
    && !Halted(st.cpus[l.cpu].pc)
    && match l
       case Call(c, _) => true
       case Poll(c) => !st.cpus[c].masked   // stop_requested runs from interrupt entry
       case Online(_, _) => true
       case Main(c, _) => !st.cpus[c].pc.Working?
  }

  function Goto(st: State, c: nat, pc: Pc): State
    requires c < |st.cpus|
  {
    st.(cpus := st.cpus[c := st.cpus[c].(pc := pc)])
  }

  function Apply(st: State, l: Label): State
    requires Enabled(st, l)
  {
    match l
    case Call(c, failure) => Goto(st, c, RaiseFailure(failure))
    case Poll(c) => if st.phase == RUNNING then st else Mask(Goto(st, c, PublishStopped), c)
    case Online(_, id) => st.(online := st.online + {id})
    case Main(c, expired) => ApplyMain(st, c, expired)
  }

  function Mask(st: State, c: nat): State
    requires c < |st.cpus|
  {
    st.(cpus := st.cpus[c := st.cpus[c].(masked := true)])
  }

  function ApplyMain(st: State, c: nat, expired: bool): State
    requires Enabled(st, Main(c, expired))
  {
    var me := EffectiveId(st.cpus[c]);
    match st.cpus[c].pc
    case RaiseFailure(f) =>
      Goto(st, c, ElectLeader).(failure := st.failure || f, log := st.log + [Raised(c, f)])
    case ElectLeader =>
      if st.leader == None then Goto(st, c, MaskInterrupts).(leader := Some(me), log := st.log + [Elected(c)])
      else if st.leader.value == me then Goto(st, c, RawReset)
      else Mask(Goto(st, c, PublishStopped), c)
    case MaskInterrupts => Mask(Goto(st, c, LoadOnline), c)
    case LoadOnline => Goto(st, c, StoreStopping(st.online - {me}))
    case StoreStopping(requested) => Goto(st, c, SendStops(requested, 0)).(phase := STOPPING)
    case SendStops(requested, k) =>
      if k >= |st.cpus| then Goto(st, c, LoadStopped(requested))
      else if k !in requested then Goto(st, c, SendStops(requested, k + 1))
      else Goto(st, c, SendStops(requested, k + 1)).(log := st.log + [StopSent(c, k)])
    case LoadStopped(requested) =>
      if requested <= st.stopped || expired then Goto(st, c, LoadFailure(requested, st.stopped))
      else st
    case LoadFailure(requested, stopped) =>
      Goto(st, c, StoreResetting(requested, stopped, st.failure)).(log := st.log + [FailureLoaded(c, st.failure)])
    case StoreResetting(requested, stopped, f) =>
      Goto(st, c, Reset(f)).(phase := RESETTING,
        log := st.log + [Reported(c, requested, stopped * requested, requested - stopped, f)])
    case PublishStopped =>
      Goto(st, c, Parked).(stopped := match st.cpus[c].id case Some(i) => st.stopped + {i} case None => st.stopped)
  }

  predicate Boot(st: State) {
    && st.leader == None && st.phase == RUNNING && st.stopped == {} && !st.failure && st.log == []
    && (forall c | 0 <= c < |st.cpus| :: st.cpus[c].pc == Working && !st.cpus[c].masked)
    && DistinctIds(st.cpus)
  }

  ghost predicate Leads(a: State, labels: seq<Label>, b: State)
    decreases |labels|
  {
    if labels == [] then a == b
    else Enabled(a, labels[0]) && Leads(Apply(a, labels[0]), labels[1..], b)
  }

  // --- the invariant ---

  /** Points of `begin` and `complete` that only the elected CPU reaches. */
  predicate Leading(pc: Pc) {
    match pc
    case MaskInterrupts => true
    case LoadOnline => true
    case StoreStopping(_) => true
    case SendStops(_, _) => true
    case LoadStopped(_) => true
    case LoadFailure(_, _) => true
    case StoreResetting(_, _, _) => true
    case Reset(_) => true
    case _ => false
  }

  predicate Requests(pc: Pc) {
    pc.StoreStopping? || pc.SendStops? || pc.LoadStopped? || pc.LoadFailure? || pc.StoreResetting?
  }

  predicate IsLeader(st: State, c: nat)
    requires c < |st.cpus|
  {
    st.leader == Some(EffectiveId(st.cpus[c]))
  }

  predicate Stopping(pc: Pc) {
    pc.PublishStopped? || pc.Parked?
  }

  ghost predicate RaisedBefore(log: seq<Event>) {
    exists i :: 0 <= i < |log| && log[i].Raised? && log[i].failure
  }

  /** Where the leader stands determines the phase. */
  predicate PhaseOk(pc: Pc, phase: Phase) {
    match pc
    case MaskInterrupts => phase == RUNNING
    case LoadOnline => phase == RUNNING
    case StoreStopping(_) => phase == RUNNING
    case SendStops(_, _) => phase == STOPPING
    case LoadStopped(_) => phase == STOPPING
    case LoadFailure(_, _) => phase == STOPPING
    case StoreResetting(_, _, _) => phase == STOPPING
    case _ => true
  }

  ghost predicate CpuInv(st: State, c: nat)
    requires c < |st.cpus|
  {
    var cpu := st.cpus[c];
    && (Leading(cpu.pc) || cpu.pc.RawReset? ==> IsLeader(st, c))
    && PhaseOk(cpu.pc, st.phase)
    && (IsLeader(st, c) ==> !Stopping(cpu.pc))
    && (Leading(cpu.pc) && !cpu.pc.MaskInterrupts? ==> cpu.masked)
    && (IsLeader(st, c) && st.phase != RUNNING ==> cpu.masked)
    && (Stopping(cpu.pc) ==> st.leader.Some?)
    && (Requests(cpu.pc) ==> EffectiveId(cpu) !in cpu.pc.requested)
    && (cpu.pc.LoadFailure? || cpu.pc.StoreResetting? ==> cpu.pc.stopped <= st.stopped)
    && (cpu.pc.StoreResetting? ==> FailureLoaded(c, cpu.pc.failure) in st.log)
    && (cpu.id.Some? && cpu.id.value in st.stopped ==> cpu.pc.Parked?)
  }

  ghost predicate Inv(st: State) {
    && DistinctIds(st.cpus)
    && (forall c | 0 <= c < |st.cpus| :: CpuInv(st, c))
    && (st.phase != RUNNING ==> st.leader.Some?)
    && (st.failure <==> RaisedBefore(st.log))
    && LogInv(st.log, st)
  }

  ghost predicate LogInv(log: seq<Event>, st: State) {
    forall i | 0 <= i < |log| :: EventInv(log, i, st)
  }

  ghost predicate EventInv(log: seq<Event>, i: nat, st: State)
    requires i < |log|
  {
    match log[i]
    case Raised(_, _) => true
    case StopSent(_, _) => true
    case Elected(c) => c < |st.cpus| && IsLeader(st, c) && (forall j | 0 <= j < i :: !log[j].Elected?)
    case FailureLoaded(c, f) => f <==> RaisedBefore(log[..i])
    case Reported(c, requested, stopped, missing, f) =>
      && c < |st.cpus| && IsLeader(st, c)
      && EffectiveId(st.cpus[c]) !in requested
      && stopped + missing == requested && stopped !! missing
      && stopped <= st.stopped
      && FailureLoaded(c, f) in log[..i]
  }

  // --- preservation ---

  lemma SameLeader(st: State, c: nat, d: nat)
    requires DistinctIds(st.cpus) && c < |st.cpus| && d < |st.cpus| && IsLeader(st, c) && IsLeader(st, d)
    ensures c == d
  {
  }

  lemma RaisedGrows(log: seq<Event>, e: Event)
    ensures RaisedBefore(log + [e]) <==> RaisedBefore(log) || (e.Raised? && e.failure)
  {
    var log' := log + [e];
    if RaisedBefore(log) {
      var i :| 0 <= i < |log| && log[i].Raised? && log[i].failure;
      assert log'[i] == log[i];
    }
    if e.Raised? && e.failure { assert log'[|log|] == e; }
  }

  /** Later events do not change what earlier events promise. */
  lemma LogGrows(st: State, st': State, more: seq<Event>)
    requires Inv(st) && st'.log == st.log + more && |more| <= 1
    requires |st'.cpus| == |st.cpus| && (forall c | 0 <= c < |st.cpus| :: st'.cpus[c].id == st.cpus[c].id)
    requires st.leader.Some? ==> st'.leader == st.leader
    requires st.stopped <= st'.stopped
    requires |more| == 1 ==> EventInv(st'.log, |st.log|, st')
    ensures LogInv(st'.log, st')
  {
    forall i | 0 <= i < |st'.log| ensures EventInv(st'.log, i, st') {
      if i < |st.log| {
        assert EventInv(st.log, i, st);
        assert st'.log[..i] == st.log[..i];
      }
    }
  }

  /** A step of `c` that only the record of `c` and the shared words notice. */
  lemma CpuStep(st: State, st': State, c: nat)
    requires Inv(st) && c < |st.cpus| && |st'.cpus| == |st.cpus| && st'.cpus == st.cpus[c := st'.cpus[c]]
    requires st'.cpus[c].id == st.cpus[c].id && CpuInv(st', c)
    requires st'.leader == st.leader || (st.leader == None && st'.leader == Some(EffectiveId(st.cpus[c])))
    requires st'.phase == st.phase || IsLeader(st, c)
    requires st'.stopped == st.stopped || (st.cpus[c].id.Some? && st'.stopped == st.stopped + {st.cpus[c].id.value})
    requires st.log <= st'.log
    ensures DistinctIds(st'.cpus) && forall d | 0 <= d < |st'.cpus| :: CpuInv(st', d)
  {
    forall d | 0 <= d < |st'.cpus| ensures CpuInv(st', d) {
      assert CpuInv(st, d);
      if d != c {
        assert EffectiveId(st.cpus[c]) != EffectiveId(st.cpus[d]);
        assert IsLeader(st', d) ==> IsLeader(st, d);
      }
    }
  }

  /** What a step of the main context may do to the shared words. */
  predicate SharedAfter(st: State, c: nat, st': State)
    requires c < |st.cpus|
  {
    && |st'.cpus| == |st.cpus| && st'.cpus == st.cpus[c := st'.cpus[c]] && st'.cpus[c].id == st.cpus[c].id
    && (st'.leader == st.leader || (st.leader == None && st'.leader == Some(EffectiveId(st.cpus[c]))))
    && (st'.phase == st.phase || IsLeader(st, c))
    && (st'.stopped == st.stopped || (st.cpus[c].id.Some? && st'.stopped == st.stopped + {st.cpus[c].id.value}))
    && (st'.phase != RUNNING ==> st'.leader.Some?)
    && st.log <= st'.log
  }

  lemma MainShared(st: State, c: nat, x: bool)
    requires Enabled(st, Main(c, x)) && (Leading(st.cpus[c].pc) ==> IsLeader(st, c)) && (st.phase != RUNNING ==> st.leader.Some?)
    ensures SharedAfter(st, c, Apply(st, Main(c, x)))
  {
  }

  lemma LeaderOwn(st: State, c: nat, x: bool)
    requires Enabled(st, Main(c, x)) && CpuInv(st, c) && (st.phase != RUNNING ==> st.leader.Some?) && Leading(st.cpus[c].pc)
    ensures c < |Apply(st, Main(c, x)).cpus| && CpuInv(Apply(st, Main(c, x)), c)
  {
    var st' := Apply(st, Main(c, x));
    if st.cpus[c].pc.LoadFailure? { assert st'.log[|st.log|] == FailureLoaded(c, st.failure); }
  }

  lemma ElectionOwn(st: State, c: nat, x: bool)
    requires Enabled(st, Main(c, x)) && CpuInv(st, c) && (st.phase != RUNNING ==> st.leader.Some?) && st.cpus[c].pc.ElectLeader?
    ensures c < |Apply(st, Main(c, x)).cpus| && CpuInv(Apply(st, Main(c, x)), c)
  {
    var st' := Apply(st, Main(c, x));
    assert st'.stopped == st.stopped && st'.phase == st.phase && st'.cpus[c].id == st.cpus[c].id;
    assert st.cpus[c].id.Some? ==> st.cpus[c].id.value !in st.stopped;
  }

  lemma OtherOwn(st: State, c: nat, x: bool)
    requires Enabled(st, Main(c, x)) && CpuInv(st, c) && (st.phase != RUNNING ==> st.leader.Some?)
    requires st.cpus[c].pc.RaiseFailure? || st.cpus[c].pc.PublishStopped?
    ensures c < |Apply(st, Main(c, x)).cpus| && CpuInv(Apply(st, Main(c, x)), c)
  {
  }

  lemma MainCpu(st: State, c: nat, x: bool)
    requires Inv(st) && Enabled(st, Main(c, x))
    ensures SharedAfter(st, c, Apply(st, Main(c, x))) && CpuInv(Apply(st, Main(c, x)), c)
  {
    hide Apply, SharedAfter, LogInv;
    assert CpuInv(st, c);
    MainShared(st, c, x);
    if Leading(st.cpus[c].pc) { LeaderOwn(st, c, x); }
    else if st.cpus[c].pc.ElectLeader? { ElectionOwn(st, c, x); }
    else { OtherOwn(st, c, x); }
  }

  lemma MainLog(st: State, c: nat, x: bool)
    requires Inv(st) && Enabled(st, Main(c, x))
    ensures var st' := Apply(st, Main(c, x));
      (st'.failure <==> RaisedBefore(st'.log)) && LogInv(st'.log, st')
  {
    var st', pc := Apply(st, Main(c, x)), st.cpus[c].pc;
    MainCpu(st, c, x);
    assert CpuInv(st, c);
    if |st'.log| != |st.log| {
      var e := st'.log[|st.log|];
      assert st'.log == st.log + [e] && st'.log[..|st.log|] == st.log;
      RaisedGrows(st.log, e);
      if e.Elected? {
        forall j | 0 <= j < |st.log| ensures !st'.log[j].Elected? { assert EventInv(st.log, j, st); }
      }
      LogGrows(st, st', [e]);
    } else {
      assert st.log + [] == st.log;
      LogGrows(st, st', []);
    }
  }

  lemma StepKeeps(st: State, l: Label)
    requires Inv(st) && Enabled(st, l)
    ensures Inv(Apply(st, l))
  {
    var st', c := Apply(st, l), l.cpu;
    match l
    case Main(_, x) =>
      MainCpu(st, c, x);
      CpuStep(st, st', c);
      MainLog(st, c, x);
    case _ =>
      assert CpuInv(st, c);
      CpuStep(st, st', c);
      assert st.log + [] == st.log;
      LogGrows(st, st', []);
  }

  /** The masks, the flag and the phase only move one way, and a halted CPU has no step. */
  predicate Onward(a: State, b: State) {
    && Rank(a.phase) <= Rank(b.phase) && |b.cpus| == |a.cpus|
    && a.online <= b.online && a.stopped <= b.stopped && (a.failure ==> b.failure)
    && (a.leader.Some? ==> b.leader == a.leader)
    && (forall c | 0 <= c < |a.cpus| && Halted(a.cpus[c].pc) :: b.cpus[c] == a.cpus[c])
  }

  lemma LeaderOnward(st: State, c: nat, x: bool)
    requires Enabled(st, Main(c, x)) && PhaseOk(st.cpus[c].pc, st.phase)
    ensures var st' := Apply(st, Main(c, x));
      && Rank(st.phase) <= Rank(st'.phase) && st'.online == st.online && (st.failure ==> st'.failure)
      && (st.leader.Some? ==> st'.leader == st.leader)
  {
  }

  lemma StepOnward(st: State, l: Label)
    requires Inv(st) && Enabled(st, l)
    ensures Onward(st, Apply(st, l))
  {
    hide LogInv;
    assert CpuInv(st, l.cpu);
    if l.Main? {
      hide Apply;
      LeaderOnward(st, l.cpu, l.expired);
      MainShared(st, l.cpu, l.expired);
    }
  }

  lemma {:induction false} RunKeeps(a: State, labels: seq<Label>, b: State)
    requires Inv(a) && Leads(a, labels, b)
    ensures Inv(b) && Onward(a, b)
    decreases |labels|
  {
    if labels != [] {
      hide Apply, Enabled, Inv;
      StepKeeps(a, labels[0]);
      StepOnward(a, labels[0]);
      RunKeeps(Apply(a, labels[0]), labels[1..], b);
    }
  }

  lemma Always(a: State, labels: seq<Label>, b: State)
    requires Boot(a) && Leads(a, labels, b)
    ensures Inv(b)
  {
    RunKeeps(a, labels, b);
  }

  // --- the promises ---

  /** Over a whole run one CPU at most is ever elected, at most once; it never parks,
      and every CPU past the election is that one. */
  lemma OneLeader(a: State, labels: seq<Label>, b: State)
    requires Boot(a) && Leads(a, labels, b)
    ensures forall i, j | 0 <= i < |b.log| && 0 <= j < |b.log| && b.log[i].Elected? && b.log[j].Elected? :: i == j
    ensures forall i | 0 <= i < |b.log| && b.log[i].Elected? ::
      && b.log[i].cpu < |b.cpus| && b.cpus[b.log[i].cpu].pc != Parked && b.cpus[b.log[i].cpu].pc != PublishStopped
      && b.leader == Some(match b.cpus[b.log[i].cpu].id case None => 0 case Some(id) => id)
    ensures forall c, d | 0 <= c < |b.cpus| && 0 <= d < |b.cpus| && Leading(b.cpus[c].pc) && Leading(b.cpus[d].pc) :: c == d
  {
    Always(a, labels, b);
    forall i, j | 0 <= i < |b.log| && 0 <= j < |b.log| && b.log[i].Elected? && b.log[j].Elected? ensures i == j {
      assert EventInv(b.log, i, b) && EventInv(b.log, j, b);
    }
    forall i | 0 <= i < |b.log| && b.log[i].Elected?
      ensures b.log[i].cpu < |b.cpus| && IsLeader(b, b.log[i].cpu) && !Stopping(b.cpus[b.log[i].cpu].pc)
    {
      assert EventInv(b.log, i, b);
      assert CpuInv(b, b.log[i].cpu);
    }
    forall c, d | 0 <= c < |b.cpus| && 0 <= d < |b.cpus| && Leading(b.cpus[c].pc) && Leading(b.cpus[d].pc) ensures c == d {
      assert CpuInv(b, c) && CpuInv(b, d);
      SameLeader(b, c, d);
    }
  }

  /** The phase only moves running, stopping, resetting; the masks only grow; the failure flag and the leader stay. */
  lemma PhaseOnlyAdvances(a: State, first: seq<Label>, b: State, second: seq<Label>, c: State)
    requires Boot(a) && Leads(a, first, b) && Leads(b, second, c)
    ensures b.phase == STOPPING ==> c.phase != RUNNING
    ensures b.phase == RESETTING ==> c.phase == RESETTING
    ensures b.online <= c.online && b.stopped <= c.stopped && (b.failure ==> c.failure)
    ensures b.leader.Some? ==> c.leader == b.leader
  {
    Always(a, first, b);
    RunKeeps(b, second, c);
  }

  /** A CPU in the stopped mask is parked and takes no further step. */
  lemma StoppedForGood(a: State, first: seq<Label>, b: State, second: seq<Label>, c: State, k: nat)
    requires Boot(a) && Leads(a, first, b) && Leads(b, second, c)
    requires k < |b.cpus| && b.cpus[k].id.Some? && b.cpus[k].id.value in b.stopped
    ensures k < |c.cpus| && c.cpus[k] == b.cpus[k] && b.cpus[k].pc == Parked
    ensures forall l: Label :: l.cpu == k ==> !Enabled(b, l)
  {
    Always(a, first, b);
    assert CpuInv(b, k);
    RunKeeps(b, second, c);
  }

  /** The report splits the requested CPUs into stopped and missing, excludes the leader,
      counts as stopped only CPUs that are, and carries the loaded failure flag. */
  lemma ReportIsAccurate(a: State, labels: seq<Label>, b: State, i: nat)
    requires Boot(a) && Leads(a, labels, b) && i < |b.log| && b.log[i].Reported?
    ensures var e := b.log[i];
      && e.stopped + e.missing == e.requested && e.stopped !! e.missing
      && e.cpu < |b.cpus| && EffectiveId(b.cpus[e.cpu]) !in e.requested
      && (forall k | 0 <= k < |b.cpus| && b.cpus[k].id.Some? && b.cpus[k].id.value in e.stopped :: b.cpus[k].pc == Parked)
      && (exists j :: 0 <= j < i && b.log[j] == FailureLoaded(e.cpu, e.failure))
  {
    Always(a, labels, b);
    assert EventInv(b.log, i, b);
    var e, past := b.log[i], b.log[..i];
    assert FailureLoaded(e.cpu, e.failure) in past;
    var j :| 0 <= j < |past| && past[j] == FailureLoaded(e.cpu, e.failure);
    assert b.log[j] == past[j];
    forall k | 0 <= k < |b.cpus| && b.cpus[k].id.Some? && b.cpus[k].id.value in e.stopped ensures b.cpus[k].pc == Parked {
      assert CpuInv(b, k);
    }
  }

  /** The flag the leader loads is set exactly when some `begin(true)` came before the load. */
  lemma FailureIsNotLost(a: State, labels: seq<Label>, b: State, i: nat)
    requires Boot(a) && Leads(a, labels, b) && i < |b.log| && b.log[i].FailureLoaded?
    ensures b.log[i].failure <==> exists j :: 0 <= j < i && b.log[j].Raised? && b.log[j].failure
  {
    Always(a, labels, b);
    assert EventInv(b.log, i, b);
    var past := b.log[..i];
    if RaisedBefore(past) {
      var j :| 0 <= j < |past| && past[j].Raised? && past[j].failure;
      assert b.log[j] == past[j];
    }
    if j :| 0 <= j < i && b.log[j].Raised? && b.log[j].failure {
      assert past[j] == b.log[j];
    }
  }
}
