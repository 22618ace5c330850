/**
 The order of the child's own work, in every run of the synchronisation protocol
 (linuxStandardInit.Init in libcontainer/standard_init_linux.go, linuxSetnsInit.Init in
 libcontainer/setns_init_linux.go, prepareRootfs in libcontainer/rootfs_linux.go): what the child has
 done, and what it has asked for, says what it had done before.
 */
module WorkOrder {
  import opened Wrappers
  import opened Queues
  import opened SyncProtocol

  /** The mount at a position, counted from 0. */
  function Nth(ms: Mounts, k: nat): Mount
    requires k < Count(ms)
  {
    if k == 0 then ms.first else Nth(ms.others, k - 1)
  }

  function Drop(ms: Mounts, k: nat): Mounts
    requires k <= Count(ms)
  {
    if k == 0 then ms else Drop(ms.others, k - 1)
  }

  // ----- what may come next -----

  /** What the child has done when it asks. */
  predicate MayAsk(c: Config, r: Request, local: set<LocalOp>, mounted: nat) {
    match r
    case PleaseMount(m) => c.standard && Prepare in local && mounted < Count(c.mounts) && Nth(c.mounts, mounted) == m
    case Hooks => c.standard && Prepare in local && mounted == Count(c.mounts) && Pivot !in local
    case Ready => Prepare in local && (c.standard ==> Finish in local) && FinalizeNamespace !in local
    case Seccomp => LoadSeccomp in local
  }

  /** What the child has done when it does something. */
  predicate MayDo(c: Config, op: LocalOp, local: set<LocalOp>, mounted: nat, closed: bool) {
    match op
    case Prepare => local == {} && mounted == 0
    case DoMount => c.standard && Prepare in local && Pivot !in local && mounted < Count(c.mounts)
    case Pivot => c.standard && Prepare in local && mounted == Count(c.mounts)
    case Finish => Pivot in local
    case LoadSeccomp =>
      c.seccomp && Prepare in local && (c.standard ==> Finish in local)
      && (c.noNewPrivileges ==> FinalizeNamespace in local)
    case FinalizeNamespace =>
      Prepare in local && (c.standard ==> Finish in local)
      && (c.seccomp && !c.noNewPrivileges ==> LoadSeccomp in local)
    case WriteFifo => c.standard && closed && local == Required(c) - {WriteFifo}
  }

  predicate AfterReady(op: LocalOp) { op == LoadSeccomp || op == FinalizeNamespace || op == WriteFifo }

  /** Every step of a script comes in its turn. */
  predicate InSequence(c: Config, t: Script, local: set<LocalOp>, mounted: nat, closed: bool) {
    match t
    case Nil => true
    case Ask(r, n) => MayAsk(c, r, local, mounted) && InSequence(c, n, local, mounted, closed)
    case Local(op, n) =>
      && MayDo(c, op, local, mounted, closed) && (AfterReady(op) ==> !Asks(n, Ready))
      && InSequence(c, n, local + {op}, mounted + (if op == DoMount then 1 else 0), closed)
    case Close(n) => local >= Required(c) - {WriteFifo} && InSequence(c, n, local, mounted, true)
  }

  // ----- the scripts -----

  /** What is done when all mounts are. */
  function Mounted(c: Config): set<LocalOp> { {Prepare} + if c.mounts == NoMounts then {} else {DoMount} }

  lemma {:induction false} CountOfDrop(ms: Mounts, k: nat)
    requires k <= Count(ms)
    ensures Count(Drop(ms, k)) == Count(ms) - k
    ensures k < Count(ms) ==> Drop(ms, k) == Mounts(Nth(ms, k), Drop(ms, k + 1))
  {
    if k > 0 { CountOfDrop(ms.others, k - 1); }
  }

  lemma {:induction false} MountScriptInSequence(c: Config, k: nat, next: Script)
    requires c.standard && k <= Count(c.mounts)
    requires InSequence(c, next, Mounted(c), Count(c.mounts), false)
    ensures var local := {Prepare} + if k == 0 then {} else {DoMount};
      InSequence(c, MountScript(c, Drop(c.mounts, k), next), local, k, false)
    decreases Count(c.mounts) - k
  {
    CountOfDrop(c.mounts, k);
    var local: set<LocalOp> := {Prepare} + if k == 0 then {} else {DoMount};
    if k == Count(c.mounts) {
      assert Drop(c.mounts, k) == NoMounts && local == Mounted(c);
    } else {
      MountScriptInSequence(c, k + 1, next);
      assert local + {DoMount} == {Prepare} + {DoMount};
      var rest := Local(DoMount, MountScript(c, Drop(c.mounts, k + 1), next));
      assert InSequence(c, rest, local, k, false);
    }
  }

  /** What is done when the child is about to say that it is ready. */
  function SetUp(c: Config): set<LocalOp> { if c.standard then Mounted(c) + {Pivot} + {Finish} else {Prepare} }

  function MountCount(c: Config): nat { if c.standard then Count(c.mounts) else 0 }

  function Last(c: Config): Script { if c.standard then Local(WriteFifo, Nil) else Nil }

  lemma LastInSequence(c: Config)
    ensures var local := SetUp(c) + {FinalizeNamespace} + (if c.seccomp then {LoadSeccomp} else {});
      && local == Required(c) - {WriteFifo}
      && InSequence(c, Close(Last(c)), local, MountCount(c), false) && !Asks(Close(Last(c)), Ready)
  {
    var local := SetUp(c) + {FinalizeNamespace} + (if c.seccomp then {LoadSeccomp} else {});
    assert local == Required(c) - {WriteFifo};
    assert InSequence(c, Last(c), local, MountCount(c), true);
  }

  lemma SeccompScriptInSequence(c: Config, here: bool, next: Script, local: set<LocalOp>)
    requires c.seccomp && here ==> !Asks(next, Ready) && MayDo(c, LoadSeccomp, local, MountCount(c), false)
    requires InSequence(c, next, local + (if c.seccomp && here then {LoadSeccomp} else {}), MountCount(c), false)
    ensures InSequence(c, SeccompScript(c, here, next), local, MountCount(c), false)
  {
    if c.seccomp && here {
      assert InSequence(c, Ask(Seccomp, next), local + {LoadSeccomp}, MountCount(c), false);
    } else {
      assert local + {} == local;
    }
  }

  lemma SeccompScriptAsksReady(c: Config, here: bool, next: Script)
    requires !Asks(next, Ready)
    ensures !Asks(SeccompScript(c, here, next), Ready)
  {
    assert !Asks(Ask(Seccomp, next), Ready);
  }

  lemma ReadyScriptInSequence(c: Config)
    ensures InSequence(c, ReadyScript(c, Last(c)), SetUp(c), MountCount(c), false)
  {
    hide SeccompScript;
    LastInSequence(c);
    var early, late := c.seccomp && !c.noNewPrivileges, c.seccomp && c.noNewPrivileges;
    var before := SetUp(c) + if early then {LoadSeccomp} else {};
    var after := before + {FinalizeNamespace};
    assert after + (if late then {LoadSeccomp} else {}) ==
           SetUp(c) + {FinalizeNamespace} + (if c.seccomp then {LoadSeccomp} else {});
    SeccompScriptInSequence(c, c.noNewPrivileges, Close(Last(c)), after);
    SeccompScriptAsksReady(c, c.noNewPrivileges, Close(Last(c)));
    var finalize := Local(FinalizeNamespace, SeccompScript(c, c.noNewPrivileges, Close(Last(c))));
    assert InSequence(c, finalize, before, MountCount(c), false) && !Asks(finalize, Ready);
    SeccompScriptInSequence(c, !c.noNewPrivileges, finalize, SetUp(c));
  }

  lemma ScriptInSequence(c: Config)
    ensures InSequence(c, ChildScript(c), {}, 0, false)
  {
    hide ReadyScript, MountScript;
    ReadyScriptInSequence(c);
    if c.standard {
      var ready := ReadyScript(c, Last(c));
      var finish := Local(Finish, ready);
      assert InSequence(c, finish, Mounted(c) + {Pivot}, Count(c.mounts), false);
      var t := Ask(Hooks, Local(Pivot, finish));
      assert InSequence(c, Local(Pivot, finish), Mounted(c), Count(c.mounts), false);
      MountScriptInSequence(c, 0, t);
      assert {} + {Prepare} == {Prepare} + {};
    } else {
      assert {} + {Prepare} == SetUp(c);
    }
  }

  // ----- the invariant -----

  /** What the child has done says what it had done before. */
  predicate Progress(c: Config, log: Log, closed: bool) {
    var local := log.local;
    && local <= Required(c)
    && (local != {} ==> Prepare in local)
    && log.mounted <= MountCount(c) && (DoMount in local <==> log.mounted > 0)
    && (Pivot in local ==> log.mounted == Count(c.mounts))
    && (Finish in local ==> Pivot in local)
    && (c.standard && (LoadSeccomp in local || FinalizeNamespace in local) ==> Finish in local)
    && (c.seccomp && !c.noNewPrivileges && FinalizeNamespace in local ==> LoadSeccomp in local)
    && (c.noNewPrivileges && LoadSeccomp in local ==> FinalizeNamespace in local)
    && (closed ==> local >= Required(c) - {WriteFifo})
    && (WriteFifo in local ==> closed && local == Required(c))
    && (LoadSeccomp in local || FinalizeNamespace in local || WriteFifo in local ==> ReadyOk(c, log.done))
  }

  predicate Pending(s: State, r: Request, e: Effect) {
    || (s.toParent.Items? && s.toParent.head == Req(r))
    || Does(s.parent.todo, e)
    || e in s.log.done
  }

  /** What runc does for the child, or is asked to do, says what the child had done before it asked. */
  predicate Requested(c: Config, s: State) {
    && (Pending(s, Hooks, SetCgroup) ==> c.standard && s.log.mounted == Count(c.mounts))
    && (Pending(s, Ready, MarkReady) ==> Prepare in s.log.local && (c.standard ==> Finish in s.log.local))
    && (Pending(s, Seccomp, GetSeccompFd) ==> LoadSeccomp in s.log.local)
  }

  predicate Orderly(c: Config, s: State) {
    && InSequence(c, s.child.rest, s.log.local, s.log.mounted, s.child.closed)
    && Progress(c, s.log, s.child.closed) && Requested(c, s)
  }

  lemma OrderlyStart(c: Config)
    ensures Orderly(c, Start(c))
  {
    hide ChildScript;
    ScriptInSequence(c);
  }

  // ----- every step keeps it -----

  /** Which request makes runc do something. */
  predicate ForRequest(e: Effect, r: Request) {
    && (e == SetCgroup ==> r == Hooks) && (e == MarkReady ==> r == Ready) && (e == GetSeccompFd ==> r == Seccomp)
  }

  predicate AllFor(t: Todo, r: Request) {
    match t
    case Do(e, n) => ForRequest(e, r) && AllFor(n, r)
    case Send(_, n) => AllFor(n, r)
    case _ => true
  }

  lemma DoesFor(t: Todo, r: Request, e: Effect)
    requires AllFor(t, r) && Does(t, e)
    ensures ForRequest(e, r)
  {
  }

  lemma HandlerDoes(c: Config, r: Request)
    ensures AllFor(Handler(c, r), r)
  {
    var reply := Send(Reply(HooksDone, false, false), Done);
    var created := Do(CreateRuntime, reply);
    assert AllFor(created, r);
    assert AllFor(if c.runtimeHooks then Do(QueryState, Do(Prestart, created)) else reply, r);
    var run := Send(Reply(Run, false, false), Done);
    assert AllFor(if c.standard then Do(SaveState, run) else run, r);
    var after := Do(Forward, Done);
    assert AllFor(if c.standard then Do(QueryState, after) else after, r);
    if r.PleaseMount? { assert AllFor(Send(File(r.mount.source), Done), r); }
  }

  lemma ProgressGoesOn(c: Config, log: Log, log': Log, closed: bool)
    requires Progress(c, log, closed) && log.done <= log'.done
    requires log' == log.(done := log'.done, error := log'.error)
    ensures Progress(c, log', closed)
  {
    hide Required;
  }

  lemma OrderlyServe(c: Config, s: State)
    requires Inv(c, s) && Orderly(c, s) && s.parent.mode == Serving && Serve(c, s).Some?
    ensures Orderly(c, Serve(c, s).value)
  {
    hide Inv, InSequence, Progress, Handler;
    ProgressGoesOn(c, s.log, Serve(c, s).value.log, s.child.closed);
    if s.toParent.Items? { OneAtATime(c, s); }
    if s.parent.todo == Done && s.toParent.Items? && s.toParent.head.Req? {
      var r := s.toParent.head.r;
      HandlerDoes(c, r);
      if Does(Handler(c, r), SetCgroup) { DoesFor(Handler(c, r), r, SetCgroup); }
      if Does(Handler(c, r), MarkReady) { DoesFor(Handler(c, r), r, MarkReady); }
      if Does(Handler(c, r), GetSeccompFd) { DoesFor(Handler(c, r), r, GetSeccompFd); }
    }
  }

  lemma OneAtATime(c: Config, s: State)
    requires Inv(c, s) && s.parent.mode == Serving && s.toParent.Items?
    ensures s.toParent.rest == Empty
  {
    hide Past, Shape, Outcome, OnTheWay, Unanswered;
  }

  lemma OrderlyParentStep(c: Config, s: State)
    requires Inv(c, s) && Orderly(c, s) && ParentStep(c, s).Some?
    ensures Orderly(c, ParentStep(c, s).value)
  {
    hide Inv, InSequence, Progress, Serve, Does;
    if s.parent.mode == Serving { OrderlyServe(c, s); }
  }

  lemma OrderlyWork(c: Config, s: State)
    requires Inv(c, s) && Orderly(c, s) && s.child.phase == Running
    ensures Orderly(c, Work(s.child, s))
  {
    hide Shape, Outcome, OnTheWay, Unanswered, ChildScript, Does;
    match s.child.rest
    case Nil =>
    case Ask(r, n) =>
    case Local(op, n) => OneMore(c, s.log, op, n, s.child.closed);
    case Close(n) =>
  }

  lemma OneMore(c: Config, log: Log, op: LocalOp, n: Script, closed: bool)
    requires Progress(c, log, closed) && MayDo(c, op, log.local, log.mounted, closed)
    requires AfterReady(op) ==> ReadyOk(c, log.done)
    ensures Progress(c, Worked(log, op), closed)
  {
    hide ReadyOk;
  }

  lemma OrderlyChildStep(c: Config, s: State)
    requires Inv(c, s) && Orderly(c, s) && ChildStep(s).Some?
    ensures Orderly(c, ChildStep(s).value)
  {
    if s.child.phase == Running {
      OrderlyWork(c, s);
    } else {
      hide Past, Shape, Outcome, OnTheWay, Unanswered, Progress, Does, Work;
    }
  }

  lemma OrderlyFaults(c: Config, s: State, s': State)
    requires Inv(c, s) && Orderly(c, s) && Faults(s, s')
    ensures Orderly(c, s')
  {
    hide Inv, InSequence, Does;
  }

  lemma OrderlyNext(c: Config, s: State, s': State)
    requires Inv(c, s) && Orderly(c, s) && Next(c, s, s')
    ensures Orderly(c, s')
  {
    hide Inv, ParentStep, ChildStep, Faults, Orderly;
    if ParentStep(c, s) == Some(s') {
      OrderlyParentStep(c, s);
    } else if ChildStep(s) == Some(s') {
      OrderlyChildStep(c, s);
    } else {
      OrderlyFaults(c, s, s');
    }
  }

  lemma {:induction false} OrderlyRun(c: Config, run: seq<State>, i: nat)
    requires IsRun(c, run) && i < |run|
    ensures Orderly(c, run[i])
  {
    hide Inv, Next, Orderly, Start;
    if i == 0 {
      OrderlyStart(c);
    } else {
      OrderlyRun(c, run, i - 1);
      InvRun(c, run, i - 1);
      OrderlyNext(c, run[i - 1], run[i]);
    }
  }

  // ----- what holds of every run -----

  /** The child's work is done in order, in every state of every run. */
  lemma WorkIsOrdered(c: Config, run: seq<State>, i: nat)
    requires IsRun(c, run) && i < |run|
    ensures var local, done := run[i].log.local, run[i].log.done;
      // the root is changed after every mount, and the rest of the setup comes after it
      && (local != {} ==> Prepare in local)
      && run[i].log.mounted <= MountCount(c)
      && (Pivot in local ==> c.standard && run[i].log.mounted == Count(c.mounts))
      && (Finish in local ==> Pivot in local)
      // the filter is loaded, and privileges are dropped, after the child was told to go on
      && (LoadSeccomp in local || FinalizeNamespace in local ==> ReadyOk(c, done) && (c.standard ==> Finish in local))
      // the filter is loaded before privileges are dropped, or with no_new_privs after it
      && (c.seccomp && !c.noNewPrivileges && FinalizeNamespace in local ==> LoadSeccomp in local)
      && (LoadSeccomp in local ==> c.seccomp && (c.noNewPrivileges ==> FinalizeNamespace in local))
      // the socket is closed after all of that, and the exec FIFO comes last
      && (run[i].child.closed ==> local >= Required(c) - {WriteFifo})
      && (WriteFifo in local ==> c.standard && run[i].child.closed && ReadyOk(c, done) && local == Required(c))
  {
    OrderlyRun(c, run, i);
  }

  /** runc is asked for each thing when the child's work has come to it, in every state of every run. */
  lemma RequestsAreOrdered(c: Config, run: seq<State>, i: nat)
    requires IsRun(c, run) && i < |run|
    ensures var s := run[i];
      // a mount's source is asked for when that mount is next
      && ((s.child.phase == Waiting || s.child.phase == WaitingFile) && s.child.rest.Ask? && s.child.rest.r.PleaseMount?
          ==> s.log.mounted < Count(c.mounts) && Nth(c.mounts, s.log.mounted) == s.child.rest.r.mount)
      // the cgroup is set and hooks run when everything is mounted
      && (SetCgroup in s.log.done ==> s.log.mounted == Count(c.mounts))
      // the child says it is ready when its setup is done
      && (MarkReady in s.log.done ==> Prepare in s.log.local && (c.standard ==> Finish in s.log.local))
      // the notify fd is taken when the filter is loaded
      && (GetSeccompFd in s.log.done ==> LoadSeccomp in s.log.local)
  {
    OrderlyRun(c, run, i);
  }

  // ----- a start that fails -----

  /** Once runc has reported a failure the child is not left behind. */
  predicate NoneLeft(s: State) { s.parent.mode == Returned(false) ==> !Alive(s.child) }

  lemma NoneLeftNext(c: Config, s: State, s': State)
    requires NoneLeft(s) && Inv(c, s) && Runs(c, s, s')
    ensures NoneLeft(s')
  {
    hide Past, Shape, Outcome, OnTheWay, Unanswered, Serve;
    if ParentStep(c, s) == Some(s') && s.parent.mode == Serving { ServingDoesNotReturn(c, s); }
  }

  lemma ServingDoesNotReturn(c: Config, s: State)
    requires s.parent.mode == Serving && Serve(c, s).Some?
    ensures !Serve(c, s).value.parent.mode.Returned?
  {
  }

  /**
   If nothing but runc's own refusals goes wrong, a start that returns an error has killed its child or
   seen it exit.
   */
  lemma {:induction false} FailureLeavesNone(c: Config, run: seq<State>, i: nat)
    requires IsFaultFree(c, run) && i < |run|
    ensures run[i].parent.mode == Returned(false) ==> !Alive(run[i].child)
  {
    assert IsRun(c, run);
    if i > 0 {
      FailureLeavesNone(c, run, i - 1);
      InvRun(c, run, i - 1);
      NoneLeftNext(c, run[i - 1], run[i]);
    }
  }
}
