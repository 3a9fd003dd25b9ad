/**
  Application-processor bring-up: topology discovery (os/src/cpu.rs), the
  secondary entry path (os/src/main.rs), the online barrier and the scheduler
  gate.  Any hart may enter at any time, any number of times, with any ids.
*/
module BringUp {
  import opened Common

  // ------------------------------------------------------------------
  // Topology discovery
  // ------------------------------------------------------------------

  datatype DiscoverError = DuplicateId(id: nat) | TooManyCpus | NoCpus | BootAbsent

  datatype Discovery = Topology(hardwareIds: seq<nat>) | Refused(error: DiscoverError)

  predicate Distinct(ids: seq<nat>) {
    forall i, j | 0 <= i < j < |ids| :: ids[i] != ids[j]
  }

  /** Where `id` first occurs among the first `count` slots, or `count`. */
  method Position(ids: array<nat>, count: nat, id: nat) returns (k: nat)
    requires count <= ids.Length
    ensures k <= count && id !in ids[..k] && (k < count ==> ids[k] == id)
  {
    k := 0;
    while k < count && ids[k] != id
      invariant k <= count && id !in ids[..k]
    {
      k := k + 1;
    }
  }

  /** Fills the table in device-tree order, refusing duplicates and overflow, then
      swaps the boot hart into slot 0. */
  method Discover(compatible: seq<nat>, boot: nat) returns (r: Discovery)
    ensures r.Topology? <==> Distinct(compatible) && 0 < |compatible| <= MAX_CPUS && boot in compatible
    ensures r.Topology? ==>
      && multiset(r.hardwareIds) == multiset(compatible)
      && |r.hardwareIds| == |compatible| && r.hardwareIds[0] == boot
      && Distinct(r.hardwareIds)
    ensures r == Refused(NoCpus) <==> compatible == []
    ensures r == Refused(BootAbsent) ==> boot !in compatible
    ensures r == Refused(TooManyCpus) ==> |compatible| > MAX_CPUS
    ensures r.Refused? && r.error.DuplicateId? ==> r.error.id in compatible && !Distinct(compatible)
  {
    hide Distinct;
    DistinctNone(compatible);
    var table := new nat[MAX_CPUS](_ => 0);
    var count := 0;
    while count < |compatible|
      invariant count <= |compatible| && count <= MAX_CPUS
      invariant table[..count] == compatible[..count]
      invariant Distinct(compatible[..count])
    {
      var id := compatible[count];
      var seen := Position(table, count, id);
      if seen < count {
        Repeats(compatible, seen, count) by { assert compatible[seen] == table[..count][seen]; }
        return Refused(DuplicateId(id));
      }
      if count >= MAX_CPUS {
        return Refused(TooManyCpus);
      }
      DistinctMore(compatible, count) by { assert table[..count] == compatible[..count]; }
      table[count] := id;
      assert table[..count + 1] == table[..count] + [id] == compatible[..count + 1];
      count := count + 1;
    }
    assert compatible[..count] == compatible;
    if count == 0 {
      return Refused(NoCpus);
    }
    var bootIndex := Position(table, count, boot);
    if bootIndex == count {
      return Refused(BootAbsent);
    }
    assert boot in compatible by { assert compatible[bootIndex] == table[..count][bootIndex]; }
    table[0], table[bootIndex] := table[bootIndex], table[0];
    assert table[..count] == compatible[0 := compatible[bootIndex]][bootIndex := compatible[0]];
    SwapKeeps(compatible, bootIndex);
    r := Topology(table[..count]);
  }

  lemma Repeats(ids: seq<nat>, i: nat, j: nat)
    requires i < j < |ids| && ids[i] == ids[j]
    ensures !Distinct(ids)
  {
  }

  lemma DistinctNone(ids: seq<nat>)
    ensures Distinct(ids[..0])
  {
  }

  lemma DistinctMore(ids: seq<nat>, n: nat)
    requires n < |ids| && Distinct(ids[..n]) && forall i | 0 <= i < n :: ids[i] != ids[n]
    ensures Distinct(ids[..n + 1])
  {
    forall i, j | 0 <= i < j < n + 1 ensures ids[i] != ids[j] {
      if j < n { assert ids[..n][i] != ids[..n][j]; }
    }
  }

  lemma SwapKeeps(ids: seq<nat>, k: nat)
    requires k < |ids|
    ensures var s := ids[0 := ids[k]][k := ids[0]];
      multiset(s) == multiset(ids) && (Distinct(ids) ==> Distinct(s))
  {
  }

  // ------------------------------------------------------------------
  // The boot protocol
  // ------------------------------------------------------------------

  datatype CpuState = OFFLINE | START_REQUESTED | EARLY | ONLINE | FAILED

  /** A call of `rust_secondary_main`; each name is the operation it performs next. */
  datatype EntryPc =
    | CheckIds
    | FailMismatch
    | CasEarly
    | FailTransition
    | Install
    | LoadEarly
    | StoreOnline
    | PublishMask
    | Gate
    | RunTasks
    | TurnedAway
    | Panicked(why: Panic)

  datatype Panic = InstalledTwice | WrongState

  datatype Entry = Entry(hardware: nat, logical: nat, pc: EntryPc)

  /** `start_parked_secondaries` and `activate_scheduler_aps` on the boot CPU. */
  datatype BootPc =
    | MarkSelf
    | Request(i: nat)
    | StartHart(i: nat)
    | LoadOnline
    | Scan(i: nat, observed: set<nat>)
    | MarkMissing(i: nat, observed: set<nat>)
    | OpenGate
    | Running
    | BootPanicked(asked: nat)

  datatype State = State(
    hw: seq<nat>, states: seq<CpuState>, installed: seq<bool>, online: set<nat>, active: bool,
    boot: BootPc, entries: seq<Entry>, rejected: set<nat>)

  /** `Enter` is a hart arriving with arbitrary arguments; `Boot` is told what the firmware or the clock said. */
  datatype Label =
    | Enter(hardware: nat, logical: nat)
    | Step(entry: nat)
    | Boot(trouble: bool)

  predicate Initial(st: State) {
    && 0 < |st.hw| <= MAX_CPUS && Distinct(st.hw)
    && |st.states| == |st.installed| == MAX_CPUS
    && (forall i | 0 <= i < MAX_CPUS :: st.states[i] == OFFLINE && (st.installed[i] <==> i == 0))
    && st.online == {0} && !st.active && st.boot == MarkSelf && st.entries == [] && st.rejected == {}
  }

  predicate Shape(st: State) {
    |st.states| == |st.installed| == MAX_CPUS && 0 < |st.hw| <= MAX_CPUS
  }

  predicate Enabled(st: State, l: Label) {
    && Shape(st)
    && match l
       case Enter(_, _) => true
       case Step(k) =>
         && k < |st.entries|
         && !st.entries[k].pc.RunTasks? && !st.entries[k].pc.TurnedAway? && !st.entries[k].pc.Panicked?
         && (st.entries[k].pc.CheckIds? || st.entries[k].logical < MAX_CPUS)
       case Boot(_) =>
         && !st.boot.Running? && !st.boot.BootPanicked?
         && (st.boot.Request? || st.boot.StartHart? || st.boot.Scan? || st.boot.MarkMissing? ==> st.boot.i <= |st.hw|)
         && (st.boot.StartHart? ==> st.boot.i < |st.hw|)
  }

  function UpTo(n: nat): (s: set<nat>)
    ensures forall c: nat :: c in s <==> c < n
  {
    if n == 0 then {} else UpTo(n - 1) + {n - 1}
  }

  function Possible(st: State): set<nat> {
    UpTo(|st.hw|)
  }

  function Move(st: State, k: nat, pc: EntryPc): State
    requires k < |st.entries|
  {
    st.(entries := st.entries[k := st.entries[k].(pc := pc)])
  }

  function Apply(st: State, l: Label): State
    requires Enabled(st, l)
  {
    match l
    case Enter(h, i) => st.(entries := st.entries + [Entry(h, i, CheckIds)])
    case Step(k) => ApplyEntry(st, k)
    case Boot(trouble) => ApplyBoot(st, trouble)
  }

  function ApplyEntry(st: State, k: nat): State
    requires Enabled(st, Step(k))
  {
    var e := st.entries[k];
    var i := e.logical;
    match e.pc
    case CheckIds =>
      if i >= |st.hw| || st.hw[i] != e.hardware then
        if i < MAX_CPUS then Move(st, k, FailMismatch) else Move(st, k, TurnedAway)
      else Move(st, k, CasEarly)
    case FailMismatch => Move(st, k, TurnedAway).(states := st.states[i := FAILED], rejected := st.rejected + {i})
    case CasEarly =>
      if st.states[i] == START_REQUESTED then Move(st, k, Install).(states := st.states[i := EARLY])
      else Move(st, k, FailTransition)
    case FailTransition => Move(st, k, TurnedAway).(states := st.states[i := FAILED], rejected := st.rejected + {i})
    case Install =>
      if st.installed[i] then Move(st, k, Panicked(InstalledTwice))
      else Move(st, k, LoadEarly).(installed := st.installed[i := true])
    case LoadEarly =>
      if st.states[i] != EARLY then Move(st, k, Panicked(WrongState)) else Move(st, k, StoreOnline)
    case StoreOnline => Move(st, k, PublishMask).(states := st.states[i := ONLINE])
    case PublishMask => Move(st, k, Gate).(online := st.online + {i})
    case Gate => if st.active then Move(st, k, RunTasks) else st
  }

  function ApplyBoot(st: State, trouble: bool): State
    requires Enabled(st, Boot(trouble))
  {
    match st.boot
    case MarkSelf =>
      st.(states := st.states[0 := ONLINE], boot := if |st.hw| > 1 then Request(1) else OpenGate)
    case Request(i) =>
      if i == |st.hw| then st.(boot := LoadOnline)
      else st.(states := st.states[i := START_REQUESTED], boot := StartHart(i))
    case StartHart(i) =>
      if trouble then st.(states := st.states[i := FAILED], boot := BootPanicked(i + 1))
      else st.(boot := Request(i + 1))
    case LoadOnline => if st.online == Possible(st) then st.(boot := OpenGate) else st.(boot := Scan(1, st.online))
    case Scan(i, observed) =>
      if i == |st.hw| then st.(boot := if trouble then MarkMissing(1, observed) else LoadOnline)
      else if i < MAX_CPUS && st.states[i] == FAILED then st.(boot := BootPanicked(|st.hw|))
      else st.(boot := Scan(i + 1, observed))
    case MarkMissing(i, observed) =>
      // the deadline has passed: whoever the last look did not show is marked, then the boot CPU panics
      if i == |st.hw| || i >= MAX_CPUS then st.(boot := BootPanicked(|st.hw|))
      else if i in observed then st.(boot := MarkMissing(i + 1, observed))
      else st.(states := st.states[i := FAILED], boot := MarkMissing(i + 1, observed))
    case OpenGate => st.(active := true, boot := Running)
  }

  ghost predicate Leads(a: State, labels: seq<Label>, b: State)
    decreases |labels|
  {
    if labels == [] then a == b
    else Enabled(a, labels[0]) && Leads(Apply(a, labels[0]), labels[1..], b)
  }

  // --- the invariant ---

  /** The entry got past `secondary_mark_early`. */
  predicate Passed(pc: EntryPc) {
    pc.Install? || pc.LoadEarly? || pc.StoreOnline? || pc.PublishMask? || pc.Gate? || pc.RunTasks? || pc.Panicked?
  }

  predicate Published(pc: EntryPc) {
    pc.Gate? || pc.RunTasks?
  }

  /** Logical ids below this bound have been asked to start. */
  function Asked(st: State): nat {
    match st.boot
    case MarkSelf => 1
    case Request(i) => i
    case StartHart(i) => i + 1
    case BootPanicked(n) => n
    case _ => |st.hw|
  }

  /** The boot CPU is giving up or has. */
  predicate GivesUp(boot: BootPc) {
    boot.MarkMissing? || boot.BootPanicked?
  }

  predicate EntryInv(st: State, k: nat)
    requires Shape(st) && k < |st.entries|
  {
    var e := st.entries[k];
    && (!e.pc.CheckIds? && !e.pc.TurnedAway? ==> e.logical < MAX_CPUS)
    && (e.pc.CasEarly? || e.pc.FailTransition? || Passed(e.pc) ==>
          e.logical < |st.hw| && st.hw[e.logical] == e.hardware)
    && (Passed(e.pc) ==> 1 <= e.logical < Asked(st) && st.states[e.logical] != START_REQUESTED)
    && (e.pc.Install? ==> !st.installed[e.logical])
    && (e.pc.Install? || e.pc.LoadEarly? ==>
          st.states[e.logical] == EARLY || e.logical in st.rejected || GivesUp(st.boot))
    && (e.pc.RunTasks? ==> st.active)
    && (Published(e.pc) ==> e.logical in st.online)
    && (e.pc.Panicked? ==> e.pc.why == WrongState && (e.logical in st.rejected || GivesUp(st.boot)))
  }

  ghost predicate PublishedBy(st: State, c: nat) {
    exists k :: 0 <= k < |st.entries| && Published(st.entries[k].pc) && st.entries[k].logical == c
  }

  predicate InstalledInv(st: State, i: nat)
    requires Shape(st) && i < MAX_CPUS
  {
    st.installed[i] && i != 0 ==>
      && st.states[i] != START_REQUESTED && i < Asked(st)
      && !(exists k :: 0 <= k < |st.entries| && st.entries[k].logical == i && st.entries[k].pc.Install?)
  }

  ghost predicate Inv(st: State) {
    && Shape(st) && Distinct(st.hw)
    && Asked(st) <= |st.hw|
    && (st.boot.Scan? || st.boot.MarkMissing? ==> 1 <= st.boot.i <= |st.hw|)
    && (st.boot.Request? || st.boot.StartHart? ==> st.boot.i >= 1)
    && (forall i | Asked(st) <= i < MAX_CPUS :: st.states[i] != START_REQUESTED)
    && st.states[0] != START_REQUESTED
    && (forall k | 0 <= k < |st.entries| :: EntryInv(st, k))
    && (forall j, k | 0 <= j < k < |st.entries| && Passed(st.entries[j].pc) && Passed(st.entries[k].pc) ::
          st.entries[j].logical != st.entries[k].logical)
    && (forall i | 0 <= i < MAX_CPUS :: InstalledInv(st, i))
    && (forall c | c in st.online :: c < |st.hw| && (c == 0 || PublishedBy(st, c)))
    && 0 in st.online
    && (st.boot.OpenGate? || st.active ==> st.online == Possible(st))
    && (st.active <==> st.boot.Running?)
  }

  // --- preservation ---

  lemma EnterKeeps(st: State, h: nat, i: nat)
    requires Inv(st)
    ensures Inv(Apply(st, Enter(h, i)))
  {
    var st' := Apply(st, Enter(h, i));
    forall k | 0 <= k < |st'.entries| ensures EntryInv(st', k) {
      if k < |st.entries| { assert EntryInv(st, k); }
    }
    forall c | c in st.online ensures c == 0 || PublishedBy(st', c) {
      if c != 0 { StillPublished(st, st', c); }
    }
    forall j | 0 <= j < MAX_CPUS ensures InstalledInv(st', j) { assert InstalledInv(st, j); }
  }

  /** A published entry stays published. */
  lemma StillPublished(st: State, st': State, c: nat)
    requires PublishedBy(st, c) && |st.entries| <= |st'.entries|
    requires forall k | 0 <= k < |st.entries| ::
      st'.entries[k].logical == st.entries[k].logical && (Published(st.entries[k].pc) ==> Published(st'.entries[k].pc))
    ensures PublishedBy(st', c)
  {
    var k :| 0 <= k < |st.entries| && Published(st.entries[k].pc) && st.entries[k].logical == c;
    assert Published(st'.entries[k].pc);
  }

  /** What a step of entry `k` may do to the shared words. */
  ghost predicate EntryMove(st: State, k: nat, st': State)
    requires Shape(st) && k < |st.entries|
  {
    && Shape(st')
    && st' == st.(entries := st'.entries, states := st'.states, installed := st'.installed,
                  online := st'.online, rejected := st'.rejected)
    && |st'.entries| == |st.entries| && st'.entries == st.entries[k := st.entries[k].(pc := st'.entries[k].pc)]
    && var i := st.entries[k].logical;
       && (Published(st.entries[k].pc) ==> Published(st'.entries[k].pc))
       && (Passed(st'.entries[k].pc) && !Passed(st.entries[k].pc) ==> i < MAX_CPUS && st.states[i] == START_REQUESTED)
       && (forall j | 0 <= j < MAX_CPUS && j != i :: st'.states[j] == st.states[j] && st'.installed[j] == st.installed[j])
       && (i < MAX_CPUS ==>
             && (st'.states[i] == st.states[i]
                 || (st'.states[i] == FAILED && i in st'.rejected)
                 || (Passed(st'.entries[k].pc) && !st'.entries[k].pc.Panicked? && st'.states[i] != START_REQUESTED))
             && (st'.installed[i] == st.installed[i] || st.entries[k].pc.Install?)
             && (st'.entries[k].pc.Install? ==> st.states[i] == START_REQUESTED))
       && st.rejected <= st'.rejected
       && (st'.online == st.online || (st'.online == st.online + {i} && i < |st.hw| && Published(st'.entries[k].pc)))
  }

  lemma EntriesKeep(st: State, st': State, k: nat, j: nat)
    requires Inv(st) && k < |st.entries| && EntryMove(st, k, st') && EntryInv(st', k) && j < |st.entries|
    ensures EntryInv(st', j)
  {
    assert EntryInv(st, j) && EntryInv(st, k);
  }

  lemma OnlineKeeps(st: State, st': State, k: nat, c: nat)
    requires Inv(st) && k < |st.entries| && EntryMove(st, k, st') && c in st'.online
    ensures c < |st.hw| && (c == 0 || PublishedBy(st', c))
  {
    if c != 0 {
      if c in st.online { StillPublished(st, st', c); } else { assert Published(st'.entries[k].pc); }
    }
  }

  lemma PassedDiffer(st: State, st': State, k: nat, a: nat, b: nat)
    requires Inv(st) && k < |st.entries| && EntryMove(st, k, st') && a < b < |st.entries|
    requires Passed(st'.entries[a].pc) && Passed(st'.entries[b].pc)
    ensures st'.entries[a].logical != st'.entries[b].logical
  {
    assert EntryInv(st, a) && EntryInv(st, b);
  }

  lemma InstalledKeeps(st: State, st': State, k: nat, j: nat)
    requires Inv(st) && k < |st.entries| && EntryMove(st, k, st') && EntryInv(st', k) && j < MAX_CPUS
    ensures InstalledInv(st', j)
  {
    assert InstalledInv(st, j) && EntryInv(st, k);
  }

  lemma EntryStep(st: State, st': State, k: nat)
    requires Inv(st) && k < |st.entries| && EntryMove(st, k, st') && EntryInv(st', k)
    ensures Inv(st')
  {
    forall j | 0 <= j < |st.entries| ensures EntryInv(st', j) { EntriesKeep(st, st', k, j); }
    forall c | c in st'.online ensures c < |st.hw| && (c == 0 || PublishedBy(st', c)) { OnlineKeeps(st, st', k, c); }
    forall a, b | 0 <= a < b < |st'.entries| && Passed(st'.entries[a].pc) && Passed(st'.entries[b].pc)
      ensures st'.entries[a].logical != st'.entries[b].logical
    {
      PassedDiffer(st, st', k, a, b);
    }
    forall j | 0 <= j < MAX_CPUS ensures InstalledInv(st', j) { InstalledKeeps(st, st', k, j); }
  }

  lemma RefusalKeeps(st: State, k: nat)
    requires Inv(st) && Enabled(st, Step(k))
    requires st.entries[k].pc.CheckIds? || st.entries[k].pc.FailMismatch? || st.entries[k].pc.FailTransition?
    ensures Inv(Apply(st, Step(k)))
  {
    assert EntryInv(st, k);
    EntryStep(st, Apply(st, Step(k)), k);
  }

  lemma CasKeeps(st: State, k: nat)
    requires Inv(st) && Enabled(st, Step(k)) && st.entries[k].pc.CasEarly?
    ensures Inv(Apply(st, Step(k)))
  {
    assert EntryInv(st, k);
    assert InstalledInv(st, st.entries[k].logical);
    EntryStep(st, Apply(st, Step(k)), k);
  }

  lemma PassedKeeps(st: State, k: nat)
    requires Inv(st) && Enabled(st, Step(k)) && Passed(st.entries[k].pc)
    ensures Inv(Apply(st, Step(k)))
  {
    assert EntryInv(st, k);
    if !st.entries[k].pc.Gate? || st.active { EntryStep(st, Apply(st, Step(k)), k); }
  }

  lemma BootEntries(st: State, st': State)
    requires Inv(st) && Shape(st') && st'.hw == st.hw && st'.entries == st.entries && st'.installed == st.installed
    requires st'.online == st.online && st'.rejected == st.rejected && (st.active ==> st'.active)
    requires Asked(st) <= Asked(st') && (GivesUp(st.boot) ==> GivesUp(st'.boot))
    requires forall i | 0 <= i < MAX_CPUS ::
      || st'.states[i] == st.states[i]
      || (st'.states[i] == START_REQUESTED && i == Asked(st))
      || (st'.states[i] == FAILED && GivesUp(st'.boot))
      || (i == 0 && st'.states[i] == ONLINE)
    ensures forall k | 0 <= k < |st.entries| :: EntryInv(st', k)
    ensures forall j | 0 <= j < MAX_CPUS :: InstalledInv(st', j)
    ensures forall c | c in st'.online :: c == 0 || PublishedBy(st', c)
  {
    forall k | 0 <= k < |st.entries| ensures EntryInv(st', k) { assert EntryInv(st, k); }
    forall j | 0 <= j < MAX_CPUS ensures InstalledInv(st', j) { assert InstalledInv(st, j); }
    forall c | c in st.online ensures c == 0 || PublishedBy(st', c) {
      if c != 0 { StillPublished(st, st', c); }
    }
  }

  lemma BootKeeps(st: State, trouble: bool)
    requires Inv(st) && Enabled(st, Boot(trouble))
    ensures Inv(Apply(st, Boot(trouble)))
  {
    hide EntryInv, InstalledInv;
    BootEntries(st, Apply(st, Boot(trouble)));
  }

  lemma StepKeeps(st: State, l: Label)
    requires Inv(st) && Enabled(st, l)
    ensures Inv(Apply(st, l))
  {
    match l
    case Enter(h, i) => EnterKeeps(st, h, i);
    case Step(k) =>
      if Passed(st.entries[k].pc) { PassedKeeps(st, k); }
      else if st.entries[k].pc.CasEarly? { CasKeeps(st, k); }
      else { RefusalKeeps(st, k); }
    case Boot(trouble) => BootKeeps(st, trouble);
  }

  lemma {:induction false} RunKeeps(a: State, labels: seq<Label>, b: State)
    requires Inv(a) && Leads(a, labels, b)
    ensures Inv(b)
    decreases |labels|
  {
    if labels != [] {
      StepKeeps(a, labels[0]);
      RunKeeps(Apply(a, labels[0]), labels[1..], b);
    }
  }

  // --- the promises ---

  /** At most one entry per logical id gets past `secondary_mark_early`, and it carries
      the hardware id the topology assigns to that logical id. */
  lemma OneHartPerId(a: State, labels: seq<Label>, b: State)
    requires Initial(a) && Leads(a, labels, b)
    ensures forall k | 0 <= k < |b.entries| && Passed(b.entries[k].pc) ::
      1 <= b.entries[k].logical < |b.hw| && b.hw[b.entries[k].logical] == b.entries[k].hardware
    ensures forall j, k | 0 <= j < k < |b.entries| && Passed(b.entries[j].pc) && Passed(b.entries[k].pc) ::
      b.entries[j].logical != b.entries[k].logical && b.entries[j].hardware != b.entries[k].hardware
  {
    RunKeeps(a, labels, b);
    forall k | 0 <= k < |b.entries| && Passed(b.entries[k].pc)
      ensures 1 <= b.entries[k].logical < |b.hw| && b.hw[b.entries[k].logical] == b.entries[k].hardware
    {
      assert EntryInv(b, k);
    }
  }

  /** The gate stays closed until every possible CPU has published online. */
  lemma GateStaysClosed(a: State, labels: seq<Label>, b: State)
    requires Initial(a) && Leads(a, labels, b) && b.active
    ensures forall c | 0 <= c < |b.hw| :: c in b.online
  {
    RunKeeps(a, labels, b);
    forall c | 0 <= c < |b.hw| ensures c in b.online { assert c in Possible(b); }
  }

  /** No secondary runs tasks before the gate opens and every possible CPU has published online. */
  lemma NobodyRunsEarly(a: State, labels: seq<Label>, b: State, k: nat, c: nat)
    requires Initial(a) && Leads(a, labels, b)
    requires k < |b.entries| && b.entries[k].pc.RunTasks? && 1 <= c < |b.hw|
    ensures c in b.online && b.active
    ensures exists j :: (0 <= j < |b.entries| && Published(b.entries[j].pc)
                         && b.entries[j].logical == c && b.entries[j].hardware == b.hw[c])
  {
    RunKeeps(a, labels, b);
    assert EntryInv(b, k);
    assert c in Possible(b) && c in b.online;
    assert PublishedBy(b, c);
    var j :| 0 <= j < |b.entries| && Published(b.entries[j].pc) && b.entries[j].logical == c;
    assert EntryInv(b, j);
  }

  /** The CPU-local block is never installed twice, and the publication assertion
      fires only after a hart was refused under the same id or the boot CPU gave up. */
  lemma EntryPanics(a: State, labels: seq<Label>, b: State, k: nat)
    requires Initial(a) && Leads(a, labels, b) && k < |b.entries| && b.entries[k].pc.Panicked?
    ensures b.entries[k].pc.why == WrongState
    ensures b.entries[k].logical in b.rejected || b.boot.MarkMissing? || b.boot.BootPanicked?
  {
    RunKeeps(a, labels, b);
    assert EntryInv(b, k);
  }
}
