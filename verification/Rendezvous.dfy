/**
  The remote barrier rendezvous of os/src/cpu.rs as a state machine.

  Every CPU runs `submit_remote_sync` in its main context and any number of
  nested activations of `handle_remote_sync_ipi`.  One label is one atomic
  operation on shared memory (or a purely local loop step); labels of different
  CPUs interleave freely and memory is sequentially consistent.
*/
module Rendezvous {

  const REMOTE_SYNC_NONE: nat := 0
  const REMOTE_SYNC_MEMORY: nat := 1
  const REMOTE_SYNC_INSTRUCTION: nat := 2
  const USIZE_MAX: nat := 0xFFFF_FFFF_FFFF_FFFF

  predicate ValidAction(action: nat) {
    action == REMOTE_SYNC_MEMORY || action == REMOTE_SYNC_INSTRUCTION
  }

  /** Every way a CPU can stop in this protocol: one reason per assertion or panic. */
  datatype Reason =
    | CallerInvalidAction
    | CallerOfflineTarget
    | CallerTargetsItself
    | NestedSubmit
    | IncompleteReuse
    | SequenceWrapped
    | TargetAlreadyPending
    | SourceAlreadyPending
    | RollbackLostTarget
    | WaitTimeout
    | HandlerTargetedSource
    | HandlerInactiveRequest
    | HandlerStaleSequence
    | HandlerInvalidAction
    | HandlerAlreadyCompleted

  /** The arguments and locals of one submission; `begun` is the position in the
      history at which its sequence number was published. */
  datatype Request = Request(targets: set<nat>, action: nat, sequence: nat, begun: nat)

  datatype SendResult = AllSent | FailedAt(target: nat, error: nat)

  /** Where the main context of a CPU stands; each name is the operation it performs next. */
  datatype Pc =
    | Idle
    | SwapActive(r: Request)
    | LoadRemaining(r: Request)
    | StoreAction(r: Request)
    | LoadSequence(r: Request)
    | StoreSequence(r: Request)
    | InsertRemaining(r: Request, k: nat)
    | InsertPending(r: Request, k: nat)
    | SendIpi(r: Request, k: nat)
    | RemovePending(r: Request, k: nat, error: nat)
    | RemoveRemaining(r: Request, k: nat, error: nat)
    | WaitLoad(r: Request, sent: SendResult)
    | Polling(r: Request, sent: SendResult)
    | CheckTimeout(r: Request, sent: SendResult)
    | ClearAction(r: Request, sent: SendResult)
    | ClearActive(r: Request, sent: SendResult)

  /** One activation of `handle_remote_sync_ipi`: the swapped-out mask, the loop
      index and the next operation.  `poll` marks the call made by the wait loop. */
  datatype Frame = Frame(poll: bool, sources: set<nat>, next: nat, stage: Stage)

  datatype Stage =
    | SwapPending
    | AtSource
    | ReadSequence
    | ReadObserved(sequence: nat)
    | ReadAction(sequence: nat)
    | InstructionFence(sequence: nat)
    | StoreObserved(sequence: nat)
    | Acknowledge

  /** `REMOTE_SYNC_REQUESTS[cpu]` and the main context of that CPU. */
  datatype Source = Source(pc: Pc, active: bool, sequence: nat, action: nat, remaining: set<nat>)

  /** `REMOTE_SYNC_PENDING_SOURCES[cpu]`, its observed-sequence row, the IPI
      latched at it and its handler activations (innermost last). */
  datatype Target = Target(pending: set<nat>, observed: seq<nat>, ipi: bool, frames: seq<Frame>)

  datatype FenceKind = MemoryBarrier | InstructionBarrier

  datatype Event =
    | Begin(source: nat, r: Request)
    | Fence(target: nat, source: nat, sequence: nat, kind: FenceKind)
    | Return(source: nat, r: Request, sent: SendResult)

  datatype State = State(
    n: nat, online: set<nat>, src: seq<Source>, tgt: seq<Target>, log: seq<Event>, stopped: map<nat, Reason>)

  /** `Start` is a call by the kernel, `Spurious` an IPI sent for another purpose;
      `Main` is told what `send_ipi` answered and whether the deadline has passed. */
  datatype Label =
    | Start(cpu: nat, targets: set<nat>, action: nat)
    | Spurious(cpu: nat)
    | Interrupt(cpu: nat)
    | Handler(cpu: nat)
    | Main(cpu: nat, sendError: SendError, expired: bool)

  datatype SendError = Accepted | Rejected(error: nat)

  function Boot(n: nat, online: set<nat>): State {
    State(n, online,
          seq(n, _ => Source(Idle, false, 0, REMOTE_SYNC_NONE, {})),
          seq(n, _ => Target({}, seq(n, _ => 0), false, [])),
          [], map[])
  }

  predicate Shape(st: State) {
    && |st.src| == |st.tgt| == st.n
    && (forall c | 0 <= c < st.n :: |st.tgt[c].observed| == st.n)
  }

  predicate Enabled(st: State, l: Label) {
    && Shape(st)
    && l.cpu < st.n
    && l.cpu !in st.stopped
    && match l {
         case Start(c, _, _) => st.src[c].pc.Idle? && st.tgt[c].frames == []
         case Spurious(_) => true
         case Interrupt(c) => st.tgt[c].ipi
         case Handler(c) => st.tgt[c].frames != [] && CursorOk(st, st.tgt[c].frames[|st.tgt[c].frames| - 1])
         case Main(c, _, _) => st.tgt[c].frames == [] && !st.src[c].pc.Idle? && !st.src[c].pc.Polling?
                               && PcOk(st, st.src[c].pc)
       }
  }

  // The array indices the code is about to use are in range; part of what every run keeps.
  predicate CursorOk(st: State, f: Frame) {
    f.stage.SwapPending? || (if f.stage.AtSource? then f.next <= st.n else f.next < st.n)
  }

  predicate PcOk(st: State, pc: Pc) {
    match pc
    case InsertRemaining(_, k) => k <= st.n
    case InsertPending(_, k) => k < st.n
    case SendIpi(_, k) => k < st.n
    case RemovePending(_, k, _) => k < st.n
    case _ => true
  }

  function Apply(st: State, l: Label): State
    requires Enabled(st, l)
  {
    match l
    case Start(c, targets, action) => ApplyStart(st, c, targets, action)
    case Spurious(c) => st.(tgt := st.tgt[c := st.tgt[c].(ipi := true)])
    case Interrupt(c) =>
      // trap entry clears the latched IPI, then calls the handler
      var T := st.tgt[c];
      st.(tgt := st.tgt[c := T.(ipi := false, frames := T.frames + [Frame(false, {}, 0, SwapPending)])])
    case Handler(c) => ApplyHandler(st, c)
    case Main(c, sendError, expired) => ApplyMain(st, c, sendError, expired)
  }

  function Stop(st: State, c: nat, why: Reason): State {
    st.(stopped := st.stopped[c := why])
  }

  function Goto(st: State, c: nat, pc: Pc): State
    requires c < |st.src|
  {
    st.(src := st.src[c := st.src[c].(pc := pc)])
  }

  function ApplyStart(st: State, c: nat, targets: set<nat>, action: nat): State
    requires Shape(st) && c < st.n
  {
    if !ValidAction(action) then Stop(st, c, CallerInvalidAction)
    else if !(targets <= st.online) then Stop(st, c, CallerOfflineTarget)
    else if c in targets then Stop(st, c, CallerTargetsItself)
    else if targets == {} then st
    else Goto(st, c, SwapActive(Request(targets, action, 0, 0)))
  }

  function ApplyMain(st: State, c: nat, sendError: SendError, expired: bool): State
    requires Enabled(st, Main(c, sendError, expired))
  {
    var S := st.src[c];
    match S.pc
    case SwapActive(r) =>
      if S.active then Stop(st, c, NestedSubmit)
      else st.(src := st.src[c := S.(pc := LoadRemaining(r), active := true)])
    case LoadRemaining(r) =>
      if S.remaining != {} then Stop(st, c, IncompleteReuse)
      else Goto(st, c, StoreAction(r))
    case StoreAction(r) =>
      st.(src := st.src[c := S.(pc := LoadSequence(r), action := r.action)])
    case LoadSequence(r) =>
      if S.sequence == USIZE_MAX then Stop(st, c, SequenceWrapped)
      else Goto(st, c, StoreSequence(r.(sequence := S.sequence + 1)))
    case StoreSequence(r) =>
      var r' := r.(begun := |st.log|);
      st.(src := st.src[c := S.(pc := InsertRemaining(r', 0), sequence := r.sequence)],
          log := st.log + [Begin(c, r')])
    case InsertRemaining(r, k) =>
      if k == st.n then Goto(st, c, WaitLoad(r, AllSent))
      else if k !in r.targets then Goto(st, c, InsertRemaining(r, k + 1))
      else if k in S.remaining then Stop(st, c, TargetAlreadyPending)
      else st.(src := st.src[c := S.(pc := InsertPending(r, k), remaining := S.remaining + {k})])
    case InsertPending(r, k) =>
      var T := st.tgt[k];
      if c in T.pending then Stop(st, c, SourceAlreadyPending)
      else
        st.(src := st.src[c := S.(pc := if T.pending == {} then SendIpi(r, k) else InsertRemaining(r, k + 1))],
            tgt := st.tgt[k := T.(pending := T.pending + {c})])
    case SendIpi(r, k) =>
      (match sendError
       case Accepted =>
         st.(src := st.src[c := S.(pc := InsertRemaining(r, k + 1))],
             tgt := st.tgt[k := st.tgt[k].(ipi := true)])
       case Rejected(error) => Goto(st, c, RemovePending(r, k, error)))
    case RemovePending(r, k, error) =>
      var T := st.tgt[k];
      st.(src := st.src[c := S.(pc := if c in T.pending then RemoveRemaining(r, k, error)
                                      else WaitLoad(r, FailedAt(k, error)))],
          tgt := st.tgt[k := T.(pending := T.pending - {c})])
    case RemoveRemaining(r, k, error) =>
      if k !in S.remaining then Stop(st, c, RollbackLostTarget)
      else st.(src := st.src[c := S.(pc := WaitLoad(r, FailedAt(k, error)), remaining := S.remaining - {k})])
    case WaitLoad(r, sent) =>
      if S.remaining == {} then Goto(st, c, ClearAction(r, sent))
      else st.(src := st.src[c := S.(pc := Polling(r, sent))],
               tgt := st.tgt[c := st.tgt[c].(frames := [Frame(true, {}, 0, SwapPending)])])
    case CheckTimeout(r, sent) =>
      if expired then Stop(st, c, WaitTimeout) else Goto(st, c, WaitLoad(r, sent))
    case ClearAction(r, sent) =>
      st.(src := st.src[c := S.(pc := ClearActive(r, sent), action := REMOTE_SYNC_NONE)])
    case ClearActive(r, sent) =>
      st.(src := st.src[c := S.(pc := Idle, active := false)],
          log := st.log + [Return(c, r, sent)])
  }

  /** The innermost handler activation of CPU `c` performs its next operation. */
  function ApplyHandler(st: State, c: nat): State
    requires Enabled(st, Handler(c))
  {
    var T := st.tgt[c];
    var f := T.frames[|T.frames| - 1];
    if f.stage.SwapPending? then
      if T.pending == {} then PopFrame(st, c)
      else st.(tgt := st.tgt[c := T.(pending := {}, frames := SetTop(T.frames, f.(sources := T.pending, next := 0, stage := AtSource)))])
    else if f.stage.AtSource? then
      if f.next == st.n then SetStage(st, c, f.(sources := {}, next := 0, stage := SwapPending))
      else if f.next !in f.sources then SetStage(st, c, f.(next := f.next + 1))
      else if f.next == c then Stop(st, c, HandlerTargetedSource)
      else if !st.src[f.next].active then Stop(st, c, HandlerInactiveRequest)
      else SetStage(st, c, f.(stage := ReadSequence))
    else
      var s := f.next;
      match f.stage
      case ReadSequence => SetStage(st, c, f.(stage := ReadObserved(st.src[s].sequence)))
      case ReadObserved(q) =>
        if q <= T.observed[s] then Stop(st, c, HandlerStaleSequence)
        else SetStage(st, c, f.(stage := ReadAction(q)))
      case ReadAction(q) =>
        var action := st.src[s].action;
        if !ValidAction(action) then Stop(st, c, HandlerInvalidAction)
        else SetStage(st, c, f.(stage := if action == REMOTE_SYNC_MEMORY then StoreObserved(q) else InstructionFence(q)))
             .(log := st.log + [Fence(c, s, q, MemoryBarrier)])
      case InstructionFence(q) =>
        SetStage(st, c, f.(stage := StoreObserved(q))).(log := st.log + [Fence(c, s, q, InstructionBarrier)])
      case StoreObserved(q) =>
        st.(tgt := st.tgt[c := T.(observed := T.observed[s := q], frames := SetTop(T.frames, f.(stage := Acknowledge)))])
      case Acknowledge =>
        var S := st.src[s];
        if c !in S.remaining then Stop(st, c, HandlerAlreadyCompleted)
        else SetStage(st.(src := st.src[s := S.(remaining := S.remaining - {c})]), c,
                      f.(next := s + 1, stage := AtSource))
  }

  function SetTop(frames: seq<Frame>, f: Frame): seq<Frame>
    requires frames != []
  {
    frames[..|frames| - 1] + [f]
  }

  function SetStage(st: State, c: nat, f: Frame): State
    requires Shape(st) && c < st.n && st.tgt[c].frames != []
  {
    st.(tgt := st.tgt[c := st.tgt[c].(frames := SetTop(st.tgt[c].frames, f))])
  }

  /** The swap found nothing: the activation returns, to the wait loop when it is the polling call. */
  function PopFrame(st: State, c: nat): State
    requires Shape(st) && c < st.n && st.tgt[c].frames != []
  {
    var T := st.tgt[c];
    var popped := st.(tgt := st.tgt[c := T.(frames := T.frames[..|T.frames| - 1])]);
    match st.src[c].pc
    case Polling(r, sent) =>
      if |T.frames| == 1 then Goto(popped, c, CheckTimeout(r, sent)) else popped
    case _ => popped
  }

  /** `b` is what running the labels from `a`, in order, leads to. */
  ghost predicate Leads(a: State, labels: seq<Label>, b: State)
    decreases |labels|
  {
    if labels == [] then a == b
    else Enabled(a, labels[0]) && Leads(Apply(a, labels[0]), labels[1..], b)
  }

  ghost predicate Reachable(n: nat, online: set<nat>, st: State) {
    && (forall c | c in online :: c < n)
    && exists labels :: Leads(Boot(n, online), labels, st)
  }
}
