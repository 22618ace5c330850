/**
 The life of a container as one handle sees it (libcontainer/state_linux.go and the methods of
 libcontainer/container_linux.go that use it). The handle remembers a state; the world changes under
 it: the init comes and dies, somebody starts the container, somebody freezes its cgroup.
 */
module Lifecycle {
  /** The types that implement containerState. */
  datatype Kind = Stopped | Running | Created | Paused | Restored | Loaded

  /**
   The init as a process (alive, and whether SIGKILL was sent to it), whether the first process of a
   start, from which the init descends, is alive, the freezer, and the exec FIFO.
   */
  datatype World = World(alive: bool, killed: bool, stage0: bool, frozen: bool, fifo: bool)

  /**
   The process whose pid and start time the handle holds. A start saves those of its first process, and
   replaces them when the init is ready; a handle that is loaded in between holds the former.
   */
  datatype Record = NoRecord | OfStage0 | OfInit

  /** How far a start by this handle is: none in progress, a process spawned, or the init ready and on record. */
  datatype Start = Resting | Spawned | Recorded

  /** The handle: its state, whether it has an init process, what it holds of it, and its own start. */
  datatype State = State(kind: Kind, proc: bool, record: Record, start: Start, w: World)

  datatype Outcome =
    | Ok | InvalidTransition | ErrRunning | ErrPaused | ErrNotRunning | ErrNotPaused | AlreadyHasInit | SystemError

  datatype Result = Result(s: State, o: Outcome)

  /** The container has an init process, and the process that was recorded is alive. */
  predicate HasInit(s: State) {
    s.proc && ((s.record == OfInit && s.w.alive) || (s.record == OfStage0 && s.w.stage0))
  }

  /** SIGKILL goes to the process that the handle holds. */
  function Kill9(s: State): World { if s.record == OfStage0 then s.w else s.w.(killed := true) }

  // ----- transitions -----

  function Transition(s: State, to: Kind): Result {
    var install := Result(s.(kind := to), Ok);
    var stay := Result(s, Ok);
    var invalid := Result(s, InvalidTransition);
    match s.kind
    case Stopped =>
      if to == Running || to == Restored then install else if to == Stopped then stay else invalid
    case Running =>
      if to == Stopped then (if HasInit(s) then Result(s, ErrRunning) else install)
      else if to == Paused then install
      else if to == Running then stay
      else invalid
    case Created =>
      if to == Running || to == Paused || to == Stopped then install else if to == Created then stay else invalid
    case Paused =>
      if to == Running || to == Stopped then install else if to == Paused then stay else invalid
    case Restored => if to == Stopped || to == Running then stay else invalid
    case Loaded => install
  }

  /** The pairs of different states between which a handle may go; a loaded one may become anything. */
  const EDGES: set<(Kind, Kind)> := {
    (Stopped, Running), (Stopped, Restored), (Running, Stopped), (Running, Paused),
    (Created, Running), (Created, Paused), (Created, Stopped), (Paused, Running), (Paused, Stopped)}

  /**
   What a transition does: it installs the state along an edge, except that a running handle does not stop
   while the process it holds is alive; it leaves things as they are for the same state, and for a restored
   handle that is to run or stop; and it is invalid otherwise.
   */
  lemma TransitionMeans(s: State, to: Kind)
    ensures var r := Transition(s, to);
      && (r.o == Ok && r.s == s.(kind := to) <==>
            || s.kind == Loaded || (s.kind == to && to != Restored)
            || ((s.kind, to) in EDGES && !(s.kind == Running && to == Stopped && HasInit(s))))
      && (r == Result(s, ErrRunning) <==> s.kind == Running && to == Stopped && HasInit(s))
      && (s.kind == Restored ==> r == Result(s, if to in {Stopped, Running} then Ok else InvalidTransition))
      && (r.o in {Ok, ErrRunning, InvalidTransition}) && (r.o != Ok ==> r.s == s)
  {
  }

  /** The state that the world implies. */
  function Implied(s: State): Kind {
    if s.w.frozen then Paused
    else if !HasInit(s) then Stopped
    else if s.w.fifo then Created
    else Running
  }

  function Refresh(s: State, freezerRead: bool): Result {
    if !freezerRead then Result(s, SystemError) else Transition(s, Implied(s))
  }

  /** Exactly when the world has moved where the handle's state does not allow it to go. */
  lemma RefreshFailsIff(s: State)
    ensures Refresh(s, true).o == InvalidTransition <==>
      match s.kind
      case Stopped => s.w.frozen || (HasInit(s) && s.w.fifo)
      case Running => !s.w.frozen && HasInit(s) && s.w.fifo
      case Paused => !s.w.frozen && HasInit(s) && s.w.fifo
      case Restored => s.w.frozen || (HasInit(s) && s.w.fifo)
      case _ => false
    ensures Refresh(s, true).o == Ok || Refresh(s, true).o == InvalidTransition
  {
  }

  /**
   A refresh that succeeds leaves the handle in the state that the world implies, if and only if the
   container is not a restored one; a restored one stays as it is, whatever happens to its init.
   */
  lemma RestoredStays(s: State)
    requires Refresh(s, true).o == Ok
    ensures Refresh(s, true).s.kind == Implied(s) <==> s.kind != Restored
    ensures s.kind == Restored ==> Refresh(s, true).s == s
  {
  }

  /** What a refresh that succeeds finds, for every handle but a restored one. */
  lemma StatusMeans(s: State)
    requires Refresh(s, true).o == Ok && s.kind != Restored
    ensures Refresh(s, true).s == s.(kind :=
      if s.w.frozen then Paused
      else if !s.proc || s.record == NoRecord || (if s.record == OfInit then !s.w.alive else !s.w.stage0) then Stopped
      else if s.w.fifo then Created
      else Running)
  {
  }

  // ----- operations -----

  /** Whether the configuration has hooks, and how those for Poststop end. */
  datatype Hooks = NoHooks | HooksSucceed | HooksFail

  /** Whether the PID namespace is private; if it is not, how signalling every process of the cgroup ends. */
  datatype Pids = Private | SharedSignalled | SharedFailed(rootless: bool, hasCgroup: bool)

  /** What the system calls of an operation answer. */
  datatype Env = Env(freezerRead: bool, freeze: bool, cgroup: bool, rdt: bool, dir: bool, hooks: Hooks, pids: Pids)

  function PauseOp(s: State, e: Env): Result {
    var r := Refresh(s, e.freezerRead);
    if r.o != Ok then r
    else if r.s.kind == Running || r.s.kind == Restored || r.s.kind == Created then
      if !e.freeze then Result(r.s, SystemError)
      else Transition(r.s.(w := r.s.w.(frozen := true)), Paused)
    else Result(r.s, ErrNotRunning)
  }

  function ResumeOp(s: State, e: Env): Result {
    var r := Refresh(s, e.freezerRead);
    if r.o != Ok then r
    else if r.s.kind != Paused then Result(r.s, ErrNotPaused)
    else if !e.freeze then Result(r.s, SystemError)
    else Transition(r.s.(w := r.s.w.(frozen := false)), Running)
  }

  /** What a state's own destroy method does before it calls destroy, or why it refuses. */
  function BeforeDestroy(s: State, e: Env): Result
    requires s.kind != Loaded
  {
    match s.kind
    case Stopped => Result(s, Ok)
    case Running => if HasInit(s) then Result(s, ErrRunning) else Result(s, Ok)
    case Created => Result(s.(w := Kill9(s)), Ok)
    case Paused =>
      if HasInit(s) then Result(s, ErrPaused)
      else if !e.freeze then Result(s, SystemError)
      else Result(s.(w := s.w.(frozen := false)), Ok)
    case Restored => Result(s, Ok)
  }

  /** A loaded handle finds its real state first. */
  function StateDestroy(s: State, e: Env): (r: Result)
    ensures r.o == Ok ==> r.s.kind != Loaded
  {
    if s.kind == Loaded then
      var r := Refresh(s, e.freezerRead);
      if r.o != Ok then r else BeforeDestroy(r.s, e)
    else BeforeDestroy(s, e)
  }

  /** The point where destroy starts to remove things; a shared PID namespace is cleared first. */
  function DestroyPoint(s: State, e: Env): (r: Result)
    ensures r.o == Ok ==> r.s.kind != Loaded
  {
    var r := StateDestroy(s, e);
    if r.o == Ok && e.pids == SharedSignalled then Result(r.s.(w := r.s.w.(killed := true)), Ok) else r
  }

  /** The Poststop hooks are given the container's state, for which it is refreshed. */
  function PoststopHooks(s: State, e: Env): Result {
    if e.hooks == NoHooks then Result(s, Ok)
    else
      var r := Refresh(s, e.freezerRead);
      if r.o == Ok && e.hooks == HooksFail then Result(r.s, SystemError) else r
  }

  /** Removing the cgroup, the RDT group and the state directory, and then the Poststop hooks. */
  function Remove(s: State, e: Env): Result {
    if !e.cgroup || !e.rdt || !e.dir then Result(s, SystemError)
    else
      var r := PoststopHooks(s.(proc := false, w := s.w.(fifo := false)), e);
      Result(r.s.(kind := Stopped), r.o)
  }

  function DestroyOp(s: State, e: Env): Result {
    var r := DestroyPoint(s, e);
    if r.o != Ok then r else Remove(r.s, e)
  }

  /** SIGKILL to the process that the handle holds, and a thaw. */
  function SignalOp(s: State, e: Env): Result {
    if !HasInit(s) then Result(s, ErrNotRunning)
    else Result(s.(w := Kill9(s).(frozen := s.w.frozen && !e.freeze)), Ok)
  }

  function KillOp(s: State, e: Env): Result {
    match e.pids
    case Private => SignalOp(s, e)
    case SharedSignalled => Result(s.(w := s.w.(killed := true, frozen := s.w.frozen && !e.freeze)), Ok)
    case SharedFailed(rootless, hasCgroup) =>
      if rootless then SignalOp(s, e)
      else Result(s, if !hasCgroup && !HasInit(s) then ErrNotRunning else SystemError)
  }

  /** When SIGKILL is delivered, and to whom. */
  lemma KillMeans(s: State, e: Env)
    ensures var r := KillOp(s, e);
      && (r.o == Ok <==> e.pids == SharedSignalled || (HasInit(s) && (e.pids == Private || e.pids.rootless)))
      && (r.o == Ok ==> r.s == s.(w := s.w.(
            killed := s.w.killed || s.record != OfStage0 || e.pids == SharedSignalled,
            frozen := s.w.frozen && !e.freeze)))
      && (r.o != Ok ==> r.s == s)
  {
  }

  // ----- starting an init -----

  /** The FIFO is made and the process is spawned; its start time is not recorded yet. */
  function BeginStart(s: State): Result {
    if s.record != NoRecord then Result(s, AlreadyHasInit)
    else if s.w.fifo then Result(s, SystemError)
    else Result(s.(proc := true, start := Spawned, w := World(true, false, true, s.w.frozen, true)), Ok)
  }

  /** The handler of procReady: the state is changed first, the start time recorded after it is saved. */
  function MarkReady(s: State, saved: bool): Result {
    var created := s.(kind := Created);
    if saved then Result(created.(record := OfInit, start := Recorded), Ok) else Result(created, SystemError)
  }

  /** A failed start kills its process and removes the FIFO. */
  function FailStart(s: State): State {
    s.(start := Resting, w := s.w.(alive := false, stage0 := false, fifo := false))
  }

  /** A state query for the Poststart hooks that fails also fails the start, but kills nothing. */
  function AbandonStart(s: State): State { s.(start := Resting, w := s.w.(fifo := false)) }

  /** When an init can be started, and what is then there. */
  lemma StartMeans(s: State)
    ensures var r := BeginStart(s);
      && (r.o == Ok <==> s.record == NoRecord && !s.w.fifo)
      && (r.o == AlreadyHasInit <==> s.record != NoRecord)
      && (r.o != Ok ==> r.s == s)
      && (r.o == Ok ==>
            r.s == State(s.kind, true, NoRecord, Spawned, World(true, false, true, s.w.frozen, true)))
  {
  }

  /** A start that fails before the init is on record can be tried again. */
  lemma FailedStartCanBeRetried(s: State)
    requires s.record == NoRecord
    ensures !FailStart(s).w.alive && FailStart(s).start == Resting && BeginStart(FailStart(s)).o == Ok
  {
  }

  // ----- runs -----

  /** What can happen next. A start that is in progress holds the handle's lock. */
  datatype Op =
    | Status(e: Env) | Pause(e: Env) | Resume(e: Env) | Destroy(e: Env) | Kill(e: Env)
    | Begin | Query(e: Env) | ReadyIs(saved: bool) | Fail | Abandon | Finish
    | InitDies | InitComes | Stage0Ends | OthersFreeze | OthersThaw | OthersStart

  /** Init comes: a start by another handle gets to its init after this handle was loaded. */
  predicate Enabled(s: State, op: Op) {
    match op
    case Query(_) => s.start != Resting
    case ReadyIs(_) => s.start == Spawned
    case Fail => s.start != Resting
    case Abandon => s.start == Recorded
    case Finish => s.start == Recorded
    case InitDies => true
    case InitComes => s.record == OfStage0 && s.w.stage0
    case Stage0Ends => true
    case OthersFreeze => true
    case OthersThaw => true
    case OthersStart => true
    case _ => s.start == Resting
  }

  function Apply(s: State, op: Op): Result {
    match op
    case Status(e) => Refresh(s, e.freezerRead)
    case Pause(e) => PauseOp(s, e)
    case Resume(e) => ResumeOp(s, e)
    case Destroy(e) => DestroyOp(s, e)
    case Kill(e) => KillOp(s, e)
    case Begin => BeginStart(s)
    case Query(e) => Refresh(s, e.freezerRead)
    case ReadyIs(saved) => MarkReady(s, saved)
    case Fail => Result(FailStart(s), Ok)
    case Abandon => Result(AbandonStart(s), Ok)
    case Finish => Result(s.(start := Resting), Ok)
    case InitDies => Result(s.(w := s.w.(alive := false)), Ok)
    case InitComes => Result(s.(w := s.w.(alive := true, killed := false)), Ok)
    case Stage0Ends => Result(s.(w := s.w.(stage0 := false)), Ok)
    case OthersFreeze => Result(s.(w := s.w.(frozen := true)), Ok)
    case OthersThaw => Result(s.(w := s.w.(frozen := false)), Ok)
    case OthersStart => Result(s.(w := s.w.(fifo := false)), Ok)
  }

  const FRESH: State := State(Stopped, false, NoRecord, Resting, World(false, false, false, false, false))

  /** A handle made by Create, or one made by Load, which holds what was saved last. */
  predicate Initial(s: State) {
    s == FRESH || (s.kind == Loaded && s.proc && s.record != NoRecord && s.start == Resting)
  }

  ghost predicate IsRun(states: seq<State>, ops: seq<Op>) {
    && |states| == |ops| + 1 && Initial(states[0])
    && forall i :: 0 <= i < |ops| ==> Enabled(states[i], ops[i]) && states[i + 1] == Apply(states[i], ops[i]).s
  }

  // ----- the invariant -----

  predicate Inv(s: State) {
    && (s.kind == Stopped ==> !HasInit(s))
    && (s.start == Resting && s.w.alive && s.record != OfStage0 ==> s.w.killed || (s.proc && s.record == OfInit))
    && (s.start == Spawned ==> s.proc && s.record == NoRecord)
    && (s.start == Recorded ==> s.proc && s.record == OfInit && (s.kind == Running ==> !s.w.fifo))
    && (s.kind == Loaded ==> s.record != NoRecord && s.start == Resting)
    && (s.kind == Created ==> s.proc)
    && s.kind != Restored
  }

  lemma InvApply(s: State, op: Op)
    requires Inv(s) && Enabled(s, op)
    ensures Inv(Apply(s, op).s)
  {
    match op
    case Status(e) => InvRefresh(s, e);
    case Pause(e) => InvPause(s, e);
    case Resume(e) => InvPause(s, e);
    case Destroy(e) => InvDestroy(s, e);
    case Kill(_) =>
    case Begin =>
    case Query(e) => InvRefresh(s, e);
    case ReadyIs(_) =>
    case Fail =>
    case Abandon =>
    case Finish =>
    case InitDies =>
    case InitComes =>
    case Stage0Ends =>
    case OthersFreeze =>
    case OthersThaw =>
    case OthersStart =>
  }

  lemma InvRefresh(s: State, e: Env)
    requires Inv(s)
    ensures Inv(Refresh(s, e.freezerRead).s)
    ensures var r := Refresh(s, e.freezerRead).s; r == s.(kind := r.kind)
  {
  }

  lemma InvPause(s: State, e: Env)
    requires Inv(s) && s.start == Resting
    ensures Inv(PauseOp(s, e).s) && Inv(ResumeOp(s, e).s)
  {
    hide Refresh;
    InvRefresh(s, e);
  }

  /** What the outcome of pausing tells its caller, and exactly when it succeeds. */
  lemma PauseMeans(s: State, e: Env)
    ensures var r := PauseOp(s, e);
      && (r.o == Ok ==> r.s.kind == Paused && r.s.w == s.w.(frozen := true))
      && (r.o == Ok <==>
            && e.freezerRead && e.freeze && HasInit(s) && !s.w.frozen && s.kind != Restored
            && Refresh(s, true).o == Ok)
      && (Inv(s) && s.start == Resting ==> Inv(r.s))
  {
    if Inv(s) && s.start == Resting { InvPause(s, e); }
    hide Inv;
  }

  lemma ResumeMeans(s: State, e: Env)
    ensures var r := ResumeOp(s, e);
      && (r.o == Ok ==> r.s.kind == Running && r.s.w == s.w.(frozen := false))
      && (r.o == Ok <==> e.freezerRead && e.freeze && s.w.frozen && Refresh(s, true).o == Ok)
      && (Inv(s) && s.start == Resting ==> Inv(r.s))
  {
    if Inv(s) && s.start == Resting { InvPause(s, e); }
    hide Inv;
  }

  lemma InvDestroy(s: State, e: Env)
    requires Inv(s) && s.start == Resting
    ensures Inv(DestroyOp(s, e).s)
    ensures var r := DestroyPoint(s, e);
      Inv(r.s) && r.s.start == Resting && (r.o == Ok ==> (Over(r.s.w) <==> ReachesInit(s, e)))
  {
    hide DestroyPoint, Remove;
    DestroyPointMeans(s, e);
    RemoveMeans(DestroyPoint(s, e).s, e);
  }

  /** Everything is removed, whatever becomes of the hooks, or nothing is changed. */
  lemma RemoveMeans(s: State, e: Env)
    ensures var r := Remove(s, e);
      if e.cgroup && e.rdt && e.dir then r.s == State(Stopped, false, s.record, s.start, s.w.(fifo := false))
      else r == Result(s, SystemError)
  {
  }

  /** The init is dead, or has been sent SIGKILL. */
  predicate Over(w: World) { !w.alive || w.killed }

  /** It is so already, or the handle holds the init, or every process of the cgroup is signalled. */
  predicate ReachesInit(s: State, e: Env) { Over(s.w) || s.record != OfStage0 || e.pids == SharedSignalled }

  lemma DestroyPointMeans(s: State, e: Env)
    requires Inv(s) && s.start == Resting
    ensures var r := DestroyPoint(s, e);
      && Inv(r.s) && r.s.start == Resting && r.s.record == s.record
      && (r.o == Ok ==> (Over(r.s.w) <==> ReachesInit(s, e)))
  {
  }

  /**
   Exactly when destroy gets to removing things: a loaded handle finds its state first, a running or paused
   one must not have a live process, and a paused one must be thawed.
   */
  lemma DestroyPointIff(s: State, e: Env)
    ensures DestroyPoint(s, e).o == Ok <==>
      match s.kind
      case Running => !HasInit(s)
      case Paused => !HasInit(s) && e.freeze
      case Loaded => e.freezerRead && if s.w.frozen then !HasInit(s) && e.freeze else !HasInit(s) || s.w.fifo
      case _ => true
  {
  }

  /**
   Exactly when destroy succeeds: it gets to removing things, everything can be removed, and there are no
   hooks, or they succeed and the state can be queried for them. It cannot for a stopped or restored handle
   whose cgroup is frozen.
   */
  lemma DestroySucceedsIff(s: State, e: Env)
    ensures DestroyOp(s, e).o == Ok <==>
      var r := DestroyPoint(s, e);
      && r.o == Ok && e.cgroup && e.rdt && e.dir
      && (|| e.hooks == NoHooks
          || (e.hooks == HooksSucceed && e.freezerRead && !(r.s.w.frozen && r.s.kind in {Stopped, Restored})))
  {
    hide DestroyPoint;
  }

  /** What the outcome of destroy tells its caller. */
  lemma DestroyMeans(s: State, e: Env)
    ensures var r := DestroyOp(s, e);
      && (r.o == Ok ==> r.s.kind == Stopped && !r.s.proc && !r.s.w.fifo)
      && (r.o == ErrRunning || r.o == ErrPaused ==> HasInit(r.s))
      && (Inv(s) && s.start == Resting ==>
            Inv(r.s) && (r.o == Ok ==> (Over(r.s.w) <==> ReachesInit(s, e))))
  {
    if Inv(s) && s.start == Resting { InvDestroy(s, e); }
    var r := DestroyPoint(s, e);
    assert r.o == ErrRunning || r.o == ErrPaused ==> HasInit(r.s);
    hide DestroyPoint, Inv;
  }

  lemma {:induction false} InvRun(states: seq<State>, ops: seq<Op>, i: nat)
    requires IsRun(states, ops) && i < |states|
    ensures Inv(states[i])
  {
    if i > 0 {
      InvRun(states, ops, i - 1);
      InvApply(states[i - 1], ops[i - 1]);
    }
  }

  /**
   In every run, the process that a stopped handle holds is not alive; and unless that is the first process
   of a start, or its own start is in progress, the init is dead or has been sent SIGKILL.
   */
  lemma StoppedHasNoInit(states: seq<State>, ops: seq<Op>, i: nat)
    requires IsRun(states, ops) && i < |states| && states[i].kind == Stopped
    ensures !HasInit(states[i])
    ensures states[i].start == Resting && states[i].record != OfStage0 ==> Over(states[i].w)
  {
    InvRun(states, ops, i);
  }

  /**
   In every run, when destroy starts to remove things the init is dead or has been sent SIGKILL, if and
   only if it was so before, or the handle does not hold the first process of a start for the init, or
   the PID namespace is shared and its processes could be signalled.
   */
  lemma DestroyIsSafeIff(states: seq<State>, ops: seq<Op>, i: nat, e: Env)
    requires IsRun(states, ops) && i < |states| && states[i].start == Resting && DestroyPoint(states[i], e).o == Ok
    ensures Over(DestroyPoint(states[i], e).s.w) <==> ReachesInit(states[i], e)
  {
    InvRun(states, ops, i);
    InvDestroy(states[i], e);
  }

  /** A handle holds the first process of a start if and only if it was loaded with it. */
  lemma {:induction false} RecordIsLoaded(states: seq<State>, ops: seq<Op>, i: nat)
    requires IsRun(states, ops) && i < |states|
    ensures states[i].record == OfStage0 <==> states[0].record == OfStage0
  {
    hide Apply, Enabled, Inv, Initial;
    if i > 0 {
      RecordIsLoaded(states, ops, i - 1);
      InvRun(states, ops, i - 1);
      RecordStays(states[i - 1], ops[i - 1]);
    }
  }

  lemma RecordStays(s: State, op: Op)
    requires Inv(s) && Enabled(s, op)
    ensures Apply(s, op).s.record == OfStage0 <==> s.record == OfStage0
  {
    hide DestroyPoint, Remove, Refresh, Transition;
    match op
    case Status(e) => InvRefresh(s, e);
    case Query(e) => InvRefresh(s, e);
    case Pause(e) => PauseKeeps(s, e);
    case Resume(e) => PauseKeeps(s, e);
    case Destroy(e) =>
      DestroyPointMeans(s, e);
      RemoveMeans(DestroyPoint(s, e).s, e);
    case _ =>
  }

  lemma PauseKeeps(s: State, e: Env)
    ensures PauseOp(s, e).s.record == s.record && ResumeOp(s, e).s.record == s.record
  {
  }

  /** In every run, a handle that holds a process holds it for good, so that it starts no second init. */
  lemma {:induction false} OneInitPerHandle(states: seq<State>, ops: seq<Op>, i: nat, j: nat)
    requires IsRun(states, ops) && i <= j < |states| && states[i].record != NoRecord
    ensures states[j].record == states[i].record && BeginStart(states[j]).o == AlreadyHasInit
  {
    hide Apply, Enabled, Inv, Initial;
    if i < j {
      OneInitPerHandle(states, ops, i, j - 1);
      InvRun(states, ops, j - 1);
      RecordIsKept(states[j - 1], ops[j - 1]);
    }
  }

  lemma RecordIsKept(s: State, op: Op)
    requires Inv(s) && Enabled(s, op) && s.record != NoRecord
    ensures Apply(s, op).s.record == s.record
  {
    hide DestroyPoint, Remove, Refresh, Transition;
    match op
    case Status(e) => InvRefresh(s, e);
    case Query(e) => InvRefresh(s, e);
    case Pause(e) => PauseKeeps(s, e);
    case Resume(e) => PauseKeeps(s, e);
    case Destroy(e) =>
      DestroyPointMeans(s, e);
      RemoveMeans(DestroyPoint(s, e).s, e);
    case _ =>
  }

  /**
   A handle that was loaded while the container was being created: its first process has ended, the init
   is alive, the handle says stopped, and destroying it removes everything and signals nobody.
   */
  lemma DestroyDuringCreation() returns (s: State)
    ensures Initial(s) && s.w.alive && !s.w.killed
    ensures Refresh(s, true).s.kind == Stopped
    ensures var r := DestroyOp(s, ALL_FINE); r.o == Ok && r.s.w.alive && !r.s.w.killed
  {
    s := State(Loaded, true, OfStage0, Resting, World(true, false, false, false, true));
  }

  /** In every run, destroying a created container finds an init process to send SIGKILL to. */
  lemma CreatedHasInit(states: seq<State>, ops: seq<Op>, i: nat, freezerRead: bool)
    requires IsRun(states, ops) && i < |states|
    ensures states[i].kind == Created ==> states[i].proc
    ensures var r := Refresh(states[i], freezerRead).s; r.kind == Created ==> r.proc
  {
    InvRun(states, ops, i);
  }

  /**
   In every run, exactly when a state query of a start is an invalid transition: the handle says stopped
   and the cgroup is frozen, or an earlier query found it frozen and the container waits to be started.
   */
  lemma CreationQueryFailsIff(states: seq<State>, ops: seq<Op>, i: nat)
    requires IsRun(states, ops) && i < |states| && states[i].start != Resting
    ensures var s := states[i];
      Refresh(s, true).o == InvalidTransition <==>
        || (s.kind == Stopped && s.w.frozen)
        || (s.kind == Paused && !s.w.frozen && s.w.fifo && s.w.alive && s.start == Recorded)
    ensures Refresh(states[i], true).o == Ok || Refresh(states[i], true).o == InvalidTransition
  {
    InvRun(states, ops, i);
  }

  // ----- pausing before the start -----

  const ALL_FINE: Env := Env(true, true, true, true, true, HooksSucceed, Private)

  /**
   Pausing and resuming a container with a live init makes its handle say running; the next refresh
   then fails if and only if the container had not been started.
   */
  lemma PauseAndResume(s: State)
    requires HasInit(s) && !s.w.frozen && (s.kind == Created || s.kind == Running) && Refresh(s, true).o == Ok
    ensures PauseOp(s, ALL_FINE).o == Ok
    ensures var resumed := ResumeOp(PauseOp(s, ALL_FINE).s, ALL_FINE);
      && resumed.o == Ok && resumed.s.kind == Running
      && (Refresh(resumed.s, true).o == InvalidTransition <==> s.w.fifo)
  {
  }

  /** Pausing what is paused, and resuming what is not, are errors that change nothing but the state found. */
  lemma PauseOrResumeTwice(s: State)
    requires Refresh(s, true).o == Ok && s.kind != Restored
    ensures s.w.frozen <==> PauseOp(s, ALL_FINE) == Result(s.(kind := Paused), ErrNotRunning)
    ensures !s.w.frozen <==> ResumeOp(s, ALL_FINE) == Result(s.(kind := Implied(s)), ErrNotPaused)
  {
  }

  /** It happens to a handle that has just created its container. */
  lemma PauseAndResumeCreated() returns (states: seq<State>, ops: seq<Op>)
    ensures IsRun(states, ops)
    ensures Refresh(states[|states| - 1], true).o == InvalidTransition
  {
    ops := [Begin, ReadyIs(true), Finish, Pause(ALL_FINE), Resume(ALL_FINE)];
    var s0 := FRESH;
    var s1 := State(Stopped, true, NoRecord, Spawned, World(true, false, true, false, true));
    var s2 := State(Created, true, OfInit, Recorded, World(true, false, true, false, true));
    var s3 := s2.(start := Resting);
    var s4 := State(Paused, true, OfInit, Resting, World(true, false, true, true, true));
    var s5 := State(Running, true, OfInit, Resting, World(true, false, true, false, true));
    states := [s0, s1, s2, s3, s4, s5];
    assert Apply(s0, ops[0]).s == s1 && Apply(s1, ops[1]).s == s2 && Apply(s2, ops[2]).s == s3;
    assert Apply(s3, ops[3]).s == s4 && Apply(s4, ops[4]).s == s5;
  }

  /** Only this handle freezes, and not before the container is started. */
  predicate TameOp(s: State, op: Op) {
    op != OthersFreeze && (op.Pause? ==> !s.w.fifo)
  }

  predicate Tame(s: State) {
    && (s.w.frozen ==> s.record != NoRecord && (s.kind == Paused || s.kind == Loaded))
    && ((s.kind == Running || s.kind == Paused || (s.kind == Loaded && s.w.frozen)) && HasInit(s) ==> !s.w.fifo)
  }

  lemma TameApply(s: State, op: Op)
    requires Inv(s) && Tame(s) && Enabled(s, op) && TameOp(s, op)
    ensures Tame(Apply(s, op).s)
  {
    hide Refresh, PauseOp, ResumeOp, DestroyOp;
    match op
    case Status(e) => TameRefresh(s, e);
    case Pause(e) => TamePause(s, e);
    case Resume(e) => TameResume(s, e);
    case Destroy(e) => TameDestroy(s, e);
    case Kill(_) =>
    case Begin =>
    case Query(e) => TameRefresh(s, e);
    case ReadyIs(_) =>
    case Fail =>
    case Abandon =>
    case Finish =>
    case InitDies =>
    case InitComes =>
    case Stage0Ends =>
    case OthersThaw =>
    case OthersStart =>
  }

  lemma TameRefresh(s: State, e: Env)
    requires Inv(s) && Tame(s)
    ensures Tame(Refresh(s, e.freezerRead).s)
  {
  }

  lemma TamePause(s: State, e: Env)
    requires Inv(s) && Tame(s) && !s.w.fifo && s.start == Resting
    ensures Tame(PauseOp(s, e).s)
  {
  }

  lemma TameResume(s: State, e: Env)
    requires Inv(s) && Tame(s) && s.start == Resting
    ensures Tame(ResumeOp(s, e).s)
  {
  }

  lemma TameDestroy(s: State, e: Env)
    requires Inv(s) && Tame(s) && s.start == Resting
    ensures Tame(DestroyOp(s, e).s)
  {
    var r := DestroyPoint(s, e);
    assert Tame(r.s) && (r.o == Ok ==> !r.s.w.frozen);
    hide DestroyPoint;
  }

  lemma {:induction false} TameRun(states: seq<State>, ops: seq<Op>, i: nat)
    requires IsRun(states, ops) && i < |states| && Tame(states[0])
    requires forall k :: 0 <= k < |ops| ==> TameOp(states[k], ops[k])
    ensures Tame(states[i])
  {
    if i > 0 {
      TameRun(states, ops, i - 1);
      InvRun(states, ops, i - 1);
      TameApply(states[i - 1], ops[i - 1]);
    }
  }

  /** In every run in which that is kept, the handle can always be refreshed. */
  lemma TameHandlesRefresh(states: seq<State>, ops: seq<Op>, i: nat)
    requires IsRun(states, ops) && i < |states| && Tame(states[0])
    requires forall k :: 0 <= k < |ops| ==> TameOp(states[k], ops[k])
    ensures Refresh(states[i], true).o == Ok
  {
    TameRun(states, ops, i);
    InvRun(states, ops, i);
  }

  // ----- the handle as an object -----

  class Container {
    var kind: Kind
    var proc: bool
    var record: Record
    var start: Start
    var w: World

    function Value(): State
      reads this
    {
      State(kind, proc, record, start, w)
    }

    constructor ()
      ensures Initial(Value()) && kind == Stopped
    {
      kind, proc, record, start := Stopped, false, NoRecord, Resting;
      w := World(false, false, false, false, false);
    }

    method TransitionTo(to: Kind) returns (o: Outcome)
      modifies this
      ensures Result(Value(), o) == Transition(old(Value()), to)
      ensures o == Ok ==> kind == to || kind == Restored
      ensures o != Ok ==> Value() == old(Value())
    {
      o := Ok;
      match kind {
        case Stopped =>
          if to == Running || to == Restored {
            kind := to;
          } else if to != Stopped {
            o := InvalidTransition;
          }
        case Running =>
          if to == Stopped {
            if HasInit(Value()) {
              o := ErrRunning;
            } else {
              kind := to;
            }
          } else if to == Paused {
            kind := to;
          } else if to != Running {
            o := InvalidTransition;
          }
        case Created =>
          if to == Running || to == Paused || to == Stopped {
            kind := to;
          } else if to != Created {
            o := InvalidTransition;
          }
        case Paused =>
          if to == Running || to == Stopped {
            kind := to;
          } else if to != Paused {
            o := InvalidTransition;
          }
        case Restored =>
          if to != Stopped && to != Running {
            o := InvalidTransition;
          }
        case Loaded =>
          kind := to;
      }
    }

    method RefreshState(freezerRead: bool) returns (o: Outcome)
      modifies this
      ensures Result(Value(), o) == Refresh(old(Value()), freezerRead)
      ensures o == Ok ==> (kind == Implied(Value()) <==> old(kind) != Restored)
      ensures o != Ok ==> Value() == old(Value())
      ensures old(Inv(Value())) ==> Inv(Value())
    {
      if !freezerRead {
        return SystemError;
      }
      if w.frozen {
        o := TransitionTo(Paused);
      } else if !HasInit(Value()) {
        o := TransitionTo(Stopped);
      } else if w.fifo {
        o := TransitionTo(Created);
      } else {
        o := TransitionTo(Running);
      }
    }

    method PauseContainer(e: Env) returns (o: Outcome)
      modifies this
      ensures Result(Value(), o) == PauseOp(old(Value()), e)
      ensures o == Ok ==> kind == Paused && w == old(w).(frozen := true)
      ensures o == Ok <==>
        && e.freezerRead && e.freeze
        && old(HasInit(Value()) && !w.frozen && kind != Restored && Refresh(Value(), true).o == Ok)
      ensures old(Inv(Value()) && start == Resting) ==> Inv(Value())
    {
      hide Inv, Refresh, Transition, HasInit;
      PauseMeans(Value(), e);
      o := RefreshState(e.freezerRead);
      if o != Ok {
        return;
      }
      if kind != Running && kind != Restored && kind != Created {
        return ErrNotRunning;
      }
      if !e.freeze {
        return SystemError;
      }
      w := w.(frozen := true);
      o := TransitionTo(Paused);
    }

    method ResumeContainer(e: Env) returns (o: Outcome)
      modifies this
      ensures Result(Value(), o) == ResumeOp(old(Value()), e)
      ensures o == Ok ==> kind == Running && w == old(w).(frozen := false)
      ensures o == Ok <==> e.freezerRead && e.freeze && old(w.frozen && Refresh(Value(), true).o == Ok)
      ensures old(Inv(Value()) && start == Resting) ==> Inv(Value())
    {
      hide Inv, Refresh, Transition, HasInit;
      ResumeMeans(Value(), e);
      o := RefreshState(e.freezerRead);
      if o != Ok {
        return;
      }
      if kind != Paused {
        return ErrNotPaused;
      }
      if !e.freeze {
        return SystemError;
      }
      w := w.(frozen := false);
      o := TransitionTo(Running);
    }

    method RunPoststopHooks(e: Env) returns (o: Outcome)
      modifies this
      ensures Result(Value(), o) == PoststopHooks(old(Value()), e)
    {
      if e.hooks == NoHooks {
        return Ok;
      }
      o := RefreshState(e.freezerRead);
      if o == Ok && e.hooks == HooksFail {
        o := SystemError;
      }
    }

    /** The part that all states share. */
    method RemoveAll(e: Env) returns (o: Outcome)
      modifies this
      ensures Result(Value(), o) == Remove(old(Value()), e)
      ensures if e.cgroup && e.rdt && e.dir
        then Value() == State(Stopped, false, old(record), old(start), old(w).(fifo := false))
        else Value() == old(Value()) && o != Ok
      ensures o == Ok <==>
        && e.cgroup && e.rdt && e.dir
        && (|| e.hooks == NoHooks
            || (e.hooks == HooksSucceed && e.freezerRead && !old(w.frozen && kind in {Stopped, Restored})))
    {
      if !e.cgroup || !e.rdt || !e.dir {
        return SystemError;
      }
      w := w.(fifo := false);
      proc := false;
      o := RunPoststopHooks(e);
      kind := Stopped;
    }

    /** The part that each state does for itself, and the signal to a shared PID namespace. */
    method PrepareDestroy(e: Env) returns (o: Outcome)
      modifies this
      ensures Result(Value(), o) == DestroyPoint(old(Value()), e)
    {
      o := Ok;
      if kind == Loaded {
        o := RefreshState(e.freezerRead);
        if o != Ok {
          return;
        }
      }
      match kind {
        case Running =>
          if HasInit(Value()) {
            return ErrRunning;
          }
        case Created =>
          w := Kill9(Value());
        case Paused =>
          if HasInit(Value()) {
            return ErrPaused;
          }
          if !e.freeze {
            return SystemError;
          }
          w := w.(frozen := false);
        case _ =>
      }
      if e.pids == SharedSignalled {
        w := w.(killed := true);
      }
    }

    method DestroyContainer(e: Env) returns (o: Outcome)
      modifies this
      ensures Result(Value(), o) == DestroyOp(old(Value()), e)
      ensures o == Ok ==> kind == Stopped && !proc && !w.fifo
      ensures o == Ok <==>
        && old(DestroyPoint(Value(), e).o) == Ok && e.cgroup && e.rdt && e.dir
        && (|| e.hooks == NoHooks
            || (e.hooks == HooksSucceed && e.freezerRead
                && !old(DestroyPoint(Value(), e).s.w.frozen && DestroyPoint(Value(), e).s.kind in {Stopped, Restored})))
      ensures o == Ok && old(Inv(Value()) && start == Resting) ==>
        (Over(w) <==> old(ReachesInit(Value(), e)))
      ensures o == ErrRunning || o == ErrPaused ==> HasInit(Value())
      ensures old(Inv(Value()) && start == Resting) ==> Inv(Value())
    {
      hide DestroyPoint, Remove, Inv, HasInit, Over, ReachesInit;
      DestroyMeans(Value(), e);
      DestroySucceedsIff(Value(), e);
      o := PrepareDestroy(e);
      if o == Ok {
        o := RemoveAll(e);
      }
    }
  }
}
