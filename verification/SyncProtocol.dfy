/**
 The synchronisation protocol between runc and the `runc init` it started (libcontainer/sync.go,
 the parseSync callbacks of libcontainer/process_linux.go, and the child scripts of
 libcontainer/standard_init_linux.go and libcontainer/setns_init_linux.go).

 The child follows a script of local work and requests; runc reads requests and works through the
 handler of each. Packets travel on a SOCK_SEQPACKET pair. Local work may fail, sends may fail, and
 either process may be killed at any point.
 */
module SyncProtocol {
  import opened Wrappers
  import opened Queues

  // ----- what is configured -----

  datatype IdMapping = IdMapping(userNsPath: string, uids: nat, gids: nat, listsAreNil: bool)

  datatype MaybeIdMapping = NoMapping | Mapping(m: IdMapping)

  /** A mount, and whether the child can stat its source when it gets there. */
  datatype Mount = Mount(
    source: string, data: string, bind: bool, idMapping: MaybeIdMapping, recAttrIdMap: bool, canStat: bool)

  datatype Mounts = NoMounts | Mounts(first: Mount, others: Mounts)

  datatype Config = Config(
    standard: bool,          // a container's init; otherwise a process that joins a container
    mounts: Mounts,
    rootless: bool,
    runtimeHooks: bool,      // Prestart or CreateRuntime hooks exist
    rdt: bool,
    seccomp: bool,
    notify: bool,            // loading the seccomp filter yields a notify fd
    listenerPath: bool,
    noNewPrivileges: bool)

  // ----- packets -----

  datatype Request = PleaseMount(mount: Mount) | Hooks | Ready | Seccomp

  datatype ReplyType = MountFd | HooksDone | Run | SeccompDone

  datatype Packet =
    | Req(r: Request)
    | Error
    | Reply(t: ReplyType, hasFd: bool, hasArg: bool)
    | File(name: string)

  /** How many requests are in the queue. */
  function Requests(q: Queue<Packet>): nat {
    match q
    case Empty => 0
    case Items(h, r) => (if h.Req? then 1 else 0) + Requests(r)
  }

  lemma AddRequests(q: Queue<Packet>, p: Packet)
    ensures Requests(q.Add(p)) == Requests(q) + if p.Req? then 1 else 0
  {
  }

  /** What answers a request, packet by packet. */
  function Answers(r: Request): Queue<Packet> {
    match r
    case PleaseMount(m) => Items(Reply(MountFd, true, true), One(File(m.source)))
    case Hooks => One(Reply(HooksDone, false, false))
    case Ready => One(Reply(Run, false, false))
    case Seccomp => One(Reply(SeccompDone, false, false))
  }

  // ----- the child's script -----

  datatype LocalOp = Prepare | DoMount | Pivot | Finish | LoadSeccomp | FinalizeNamespace | WriteFifo

  datatype Script =
    | Nil
    | Ask(r: Request, next: Script)
    | Local(op: LocalOp, next: Script)
    | Close(next: Script)

  /** The child asks runc for the source when it cannot open or map it itself. */
  predicate WantsSource(c: Config, m: Mount) {
    m.idMapping.Mapping? || (m.bind && !c.rootless && !m.canStat)
  }

  function MountScript(c: Config, ms: Mounts, next: Script): Script {
    match ms
    case NoMounts => next
    case Mounts(m, others) =>
      var rest := Local(DoMount, MountScript(c, others, next));
      if WantsSource(c, m) then Ask(PleaseMount(m), rest) else rest
  }

  /** Loading the filter, which happens at one of two places. */
  function SeccompScript(c: Config, here: bool, next: Script): Script {
    if !c.seccomp || !here then next
    else Local(LoadSeccomp, if c.notify then Ask(Seccomp, next) else next)
  }

  /** What both kinds of child do from the point where they are ready. */
  function ReadyScript(c: Config, last: Script): Script {
    Ask(Ready,
      SeccompScript(c, !c.noNewPrivileges,
        Local(FinalizeNamespace,
          SeccompScript(c, c.noNewPrivileges, Close(last)))))
  }

  function ChildScript(c: Config): Script {
    if c.standard then
      Local(Prepare,
        MountScript(c, c.mounts,
          Ask(Hooks, Local(Pivot, Local(Finish, ReadyScript(c, Local(WriteFifo, Nil)))))))
    else
      Local(Prepare, ReadyScript(c, Nil))
  }

  // ----- runc's handlers -----

  datatype Effect =
    | OpenSource | SetCgroup | SetRdt | QueryState | Prestart | CreateRuntime
    | MarkReady | SetRlimits | SaveState | GetSeccompFd | Forward

  datatype Todo =
    | Done
    | Do(e: Effect, next: Todo)
    | Send(p: Packet, next: Todo)
    | Refuse(r: Request)
    | Panic(r: Request)

  function Handler(c: Config, r: Request): Todo {
    match r
    case PleaseMount(m) =>
      if !c.standard then Panic(r)
      else if c.rootless || !m.bind then Refuse(r)
      else Do(OpenSource, Send(Reply(MountFd, true, true), Send(File(m.source), Done)))
    case Hooks =>
      if !c.standard then Panic(r)
      else
        var hooks :=
          if c.runtimeHooks
          then Do(QueryState, Do(Prestart, Do(CreateRuntime, Send(Reply(HooksDone, false, false), Done))))
          else Send(Reply(HooksDone, false, false), Done);
        Do(SetCgroup, if c.rdt then Do(SetRdt, hooks) else hooks)
    case Ready =>
      var reply := Send(Reply(Run, false, false), Done);
      Do(MarkReady, Do(SetRlimits, if c.standard then Do(SaveState, reply) else reply))
    case Seccomp =>
      if !c.listenerPath then Refuse(r)
      else
        var after := Do(Forward, Done);
        Do(GetSeccompFd, Send(Reply(SeccompDone, false, false), if c.standard then Do(QueryState, after) else after))
  }

  /** What a handler still owes the child, packet by packet. */
  function Owed(t: Todo): Queue<Packet> {
    match t
    case Done => Empty
    case Do(_, n) => Owed(n)
    case Send(p, n) => Items(p, Owed(n))
    case Refuse(r) => Answers(r)
    case Panic(r) => Answers(r)
  }

  // ----- states -----

  datatype Phase = Running | Waiting | WaitingFile | Failing | Exited | Execed | Killed | Confused

  datatype Child = Child(rest: Script, phase: Phase, closed: bool)

  datatype Mode = Serving | Failed | Ended | Shut(ok: bool) | Returned(ok: bool) | Dead

  datatype Parent = Parent(todo: Todo, mode: Mode)

  /**
   What runc has done, what the child has done and how many mounts, whether runc has read an error, and
   whether the child had an error that it could not report.
   */
  datatype Log = Log(done: set<Effect>, local: set<LocalOp>, mounted: nat, error: bool, unreported: bool)

  datatype State = State(child: Child, parent: Parent, toParent: Queue<Packet>, toChild: Queue<Packet>, log: Log)

  function Start(c: Config): State {
    State(Child(ChildScript(c), Running, false), Parent(Done, Serving), Empty, Empty,
      Log({}, {}, 0, false, false))
  }

  /** The child's end of the socket is closed. */
  predicate ChildGone(d: Child) {
    d.closed || d.phase == Exited || d.phase == Execed || d.phase == Killed
  }

  /** runc's end of the socket is closed. */
  predicate ParentGone(m: Mode) { m.Returned? || m.Dead? }

  /** The child reads end of file once it has drained its queue. */
  predicate WriteShut(m: Mode) { m.Shut? || ParentGone(m) }

  // ----- one step of each process -----

  /** The receive loop: read a packet, or work on the handler of the last one. */
  function Serve(c: Config, s: State): Option<State> {
    match s.parent.todo
    case Done =>
      (match s.toParent
       case Empty => if ChildGone(s.child) then Some(s.(parent := Parent(Done, Ended))) else None
       case Items(Req(r), q) => Some(s.(toParent := q, parent := Parent(Handler(c, r), Serving)))
       case Items(_, q) => Some(s.(toParent := q, parent := Parent(Done, Failed), log := s.log.(error := true))))
    case Do(e, n) => Some(s.(parent := Parent(n, Serving), log := s.log.(done := s.log.done + {e})))
    case Send(p, n) =>
      if ChildGone(s.child) then Some(s.(parent := s.parent.(mode := Failed)))
      else Some(s.(parent := Parent(n, Serving), toChild := s.toChild.Add(p)))
    case Refuse(_) => Some(s.(parent := s.parent.(mode := Failed)))
    case Panic(_) => Some(s.(parent := s.parent.(mode := Dead)))
  }

  /** SIGKILL; what has exited or become the user's program stays that. */
  function Kill(d: Child): Child {
    if d.phase == Exited || d.phase == Execed then d else d.(phase := Killed)
  }

  function ParentStep(c: Config, s: State): Option<State> {
    match s.parent.mode
    case Serving => Serve(c, s)
    case Failed => Some(s.(parent := s.parent.(mode := Shut(false))))
    case Ended => Some(s.(parent := s.parent.(mode := Shut(MarkReady in s.log.done))))
    case Shut(ok) =>
      if ok then Some(s.(parent := s.parent.(mode := Returned(true))))
      else if c.standard then Some(s.(parent := s.parent.(mode := Returned(false)), child := Kill(s.child)))
      else if s.child.phase == Exited || s.child.phase == Killed
      then Some(s.(parent := s.parent.(mode := Returned(false))))
      else None
    case _ => None
  }

  function Wanted(r: Request): ReplyType {
    match r
    case PleaseMount(_) => MountFd
    case Hooks => HooksDone
    case Ready => Run
    case Seccomp => SeccompDone
  }

  /** The child reads a packet where it expects the reply to its request. */
  function Take(d: Child, p: Packet): Child
    requires d.rest.Ask?
  {
    if !p.Reply? || p.t != Wanted(d.rest.r) then d.(phase := Confused)
    else if d.rest.r.PleaseMount? then
      if p.hasFd && p.hasArg then d.(phase := WaitingFile) else d.(phase := Confused)
    else if p.hasFd || p.hasArg then d.(phase := Confused)
    else d.(rest := d.rest.next, phase := Running)
  }

  /** The child reads a packet where it expects the file that comes with a reply. */
  function TakeFile(d: Child, p: Packet): Child
    requires d.rest.Ask?
  {
    if p.File? && d.rest.r.PleaseMount? && p.name == d.rest.r.mount.source
    then d.(rest := d.rest.next, phase := Running)
    else d.(phase := Confused)
  }

  function Worked(log: Log, op: LocalOp): Log {
    log.(local := log.local + {op}, mounted := log.mounted + if op == DoMount then 1 else 0)
  }

  function Work(d: Child, s: State): State
    requires d.phase == Running
  {
    match d.rest
    case Nil => s.(child := d.(phase := Execed))
    case Ask(r, _) =>
      if ParentGone(s.parent.mode) then s.(child := d.(phase := Failing))
      else s.(child := d.(phase := Waiting), toParent := s.toParent.Add(Req(r)))
    case Local(op, n) => s.(child := d.(rest := n), log := Worked(s.log, op))
    case Close(n) => s.(child := d.(rest := n, closed := true))
  }

  function ChildStep(s: State): Option<State> {
    var d := s.child;
    match d.phase
    case Running => Some(Work(d, s))
    case Failing =>
      Some(s.(child := d.(phase := Exited),
              toParent := if d.closed || ParentGone(s.parent.mode) then s.toParent else s.toParent.Add(Error)))
    case Exited => None
    case Execed => None
    case Killed => None
    case Confused => None
    case _ =>
      if !d.rest.Ask? then Some(s.(child := d.(phase := Confused)))
      else if s.toChild == Empty then
        if WriteShut(s.parent.mode) then Some(s.(child := d.(phase := Failing))) else None
      else Some(s.(toChild := s.toChild.rest,
                   child := if d.phase == Waiting then Take(d, s.toChild.head) else TakeFile(d, s.toChild.head)))
  }

  /** A step of one of the processes. */
  ghost predicate Runs(c: Config, s: State, s': State) {
    ParentStep(c, s) == Some(s') || ChildStep(s) == Some(s')
  }

  /**
   A fault: an effect or a send of a handler fails, local work, a request or the error report of the child
   fails, killing the child fails, or a process is killed.
   */
  ghost predicate Faults(s: State, s': State) {
    || (s.parent.mode == Serving && (s.parent.todo.Send? || (s.parent.todo.Do? && s.parent.todo.e != MarkReady))
        && s' == s.(parent := s.parent.(mode := Failed)))
    || (s.parent.mode == Shut(false) && s' == s.(parent := s.parent.(mode := Returned(false))))
    || (!ParentGone(s.parent.mode) && s' == s.(parent := s.parent.(mode := Dead)))
    || (s.child.phase == Running && !s.child.rest.Close?
        && s' == s.(child := s.child.(phase := Failing)))
    || (s.child.phase == Failing && !s.child.closed
        && s' == s.(child := s.child.(phase := Exited), log := s.log.(unreported := true)))
    || (Alive(s.child) && s' == s.(child := s.child.(phase := Killed)))
  }

  predicate Alive(d: Child) {
    d.phase == Running || d.phase == Waiting || d.phase == WaitingFile || d.phase == Failing
  }

  ghost predicate Next(c: Config, s: State, s': State) { Runs(c, s, s') || Faults(s, s') }

  ghost predicate IsRun(c: Config, run: seq<State>) {
    && run != [] && run[0] == Start(c)
    && forall i :: 0 < i < |run| ==> Next(c, run[i - 1], run[i])
  }

  ghost predicate IsFaultFree(c: Config, run: seq<State>) {
    && run != [] && run[0] == Start(c)
    && forall i :: 0 < i < |run| ==> Runs(c, run[i - 1], run[i])
  }

  // ----- the invariant: packets -----

  /** Where the child's request and its answer can be. */
  predicate Link(s: State) {
    match s.child.phase
    case Running => s.toParent == Empty && s.toChild == Empty && Owed(s.parent.todo) == Empty
    case Execed => s.toParent == Empty && s.toChild == Empty && Owed(s.parent.todo) == Empty
    case Waiting =>
      && s.child.rest.Ask?
      && (|| (s.toParent == One(Req(s.child.rest.r)) && s.toChild == Empty && Owed(s.parent.todo) == Empty)
          || (s.toParent == Empty && s.toChild.Append(Owed(s.parent.todo)) == Answers(s.child.rest.r)))
    case WaitingFile =>
      && s.child.rest.Ask? && s.child.rest.r.PleaseMount? && s.toParent == Empty
      && s.toChild.Append(Owed(s.parent.todo)) == One(File(s.child.rest.r.mount.source))
    case Failing => s.parent.mode == Serving ==> s.toParent == Empty && Owed(s.parent.todo) == Empty
    case Exited =>
      s.parent.mode == Serving ==>
        && Owed(s.parent.todo) == Empty
        && (s.toParent == One(Error) || ((s.child.closed || s.log.unreported) && s.toParent == Empty))
    case Killed =>
      s.parent.mode == Serving ==>
        s.toParent == Empty || s.toParent == One(Error)
        || (s.toParent.Items? && s.toParent.head.Req? && s.toParent.rest == Empty && Owed(s.parent.todo) == Empty)
    case Confused => false
  }

  /** How many requests runc has not fully answered. */
  function Unanswered(s: State): nat {
    Requests(s.toParent) + if Owed(s.parent.todo) == Empty then 0 else 1
  }

  // ----- the invariant: order -----

  /** Everything that has to be done before the child may change its root. */
  predicate HooksOk(c: Config, done: set<Effect>) {
    && SetCgroup in done && (c.rdt ==> SetRdt in done)
    && (c.runtimeHooks ==> Prestart in done && CreateRuntime in done)
  }

  /** Everything that has to be done before the child may go on to exec. */
  predicate ReadyOk(c: Config, done: set<Effect>) {
    MarkReady in done && SetRlimits in done && (c.standard ==> SaveState in done)
  }

  predicate Backed(c: Config, p: Packet, done: set<Effect>) {
    && (p == Reply(HooksDone, false, false) ==> HooksOk(c, done))
    && (p == Reply(Run, false, false) ==> ReadyOk(c, done))
    && (p == Reply(SeccompDone, false, false) ==> GetSeccompFd in done)
    && (p == Reply(MountFd, true, true) ==> OpenSource in done)
  }

  /** What has to be done before an effect. */
  predicate Timely(c: Config, e: Effect, done: set<Effect>) {
    && (e == OpenSource ==> c.standard && !c.rootless)
    && (e == SetCgroup ==> c.standard)
    && (e == SetRdt ==> c.rdt && SetCgroup in done)
    && (e == Prestart ==> c.runtimeHooks && SetCgroup in done && (c.rdt ==> SetRdt in done) && QueryState in done)
    && (e == CreateRuntime ==> Prestart in done)
    && (e == SetRlimits ==> MarkReady in done)
    && (e == SaveState ==> c.standard && SetRlimits in done)
    && (e == GetSeccompFd ==> c.listenerPath)
    && (e == Forward ==> GetSeccompFd in done && (c.standard ==> QueryState in done))
  }

  /** A handler does its effects in order, and all of them before it sends. */
  predicate Promise(c: Config, t: Todo, done: set<Effect>) {
    match t
    case Do(e, n) =>
      && Timely(c, e, done)
      && (e == MarkReady ==> Sends(n, Reply(Run, false, false)))
      && Promise(c, n, done + {e})
    case Send(p, n) =>
      && Backed(c, p, done)
      && (p == Reply(SeccompDone, false, false) ==> Does(n, Forward))
      && Promise(c, n, done)
    case Panic(_) => false
    case _ => true
  }

  predicate Does(t: Todo, e: Effect) {
    match t
    case Do(f, n) => f == e || Does(n, e)
    case Send(_, n) => Does(n, e)
    case _ => false
  }

  predicate Asks(t: Script, r: Request) {
    match t
    case Nil => false
    case Ask(q, n) => q == r || Asks(n, r)
    case Local(_, n) => Asks(n, r)
    case Close(n) => Asks(n, r)
  }

  predicate AsksNothing(t: Script) {
    match t
    case Nil => true
    case Ask(_, _) => false
    case Local(_, n) => AsksNothing(n)
    case Close(n) => AsksNothing(n)
  }

  /** The local work in a script. */
  function Ops(t: Script): set<LocalOp> {
    match t
    case Nil => {}
    case Ask(_, n) => Ops(n)
    case Local(op, n) => {op} + Ops(n)
    case Close(n) => Ops(n)
  }

  /** The number of mounts in a script. */
  function MountsLeft(t: Script): nat {
    match t
    case Nil => 0
    case Ask(_, n) => MountsLeft(n)
    case Local(op, n) => (if op == DoMount then 1 else 0) + MountsLeft(n)
    case Close(n) => MountsLeft(n)
  }

  predicate Closes(t: Script) {
    match t
    case Nil => false
    case Ask(_, n) => Closes(n)
    case Local(_, n) => Closes(n)
    case Close(n) => true
  }

  predicate Allowed(c: Config, r: Request) { c.standard || r == Ready || r == Seccomp }

  /** The shape of a script: hooks before the change of root, no request after the close. */
  predicate Ordered(c: Config, t: Script) {
    match t
    case Nil => true
    case Ask(r, n) => Allowed(c, r) && Ordered(c, n)
    case Local(op, n) => (op == Pivot ==> c.standard && !Asks(n, Hooks)) && Ordered(c, n)
    case Close(n) => AsksNothing(n) && Ordered(c, n)
  }

  predicate Shape(c: Config, d: Child) {
    && Ordered(c, d.rest)
    && (d.closed ==> AsksNothing(d.rest))
    && (d.closed || Closes(d.rest))
    && (d.phase == Execed ==> d.rest == Nil)
  }

  /** What the child has passed has been done. */
  predicate Past(c: Config, t: Script, log: Log) {
    && (c.standard && !Asks(t, Hooks) ==> HooksOk(c, log.done))
    && (!Asks(t, Ready) ==> ReadyOk(c, log.done))
    && (Pivot in log.local ==> c.standard && HooksOk(c, log.done))
    && Ops(t) + log.local == Ops(ChildScript(c))
    && MountsLeft(t) + log.mounted == MountsLeft(ChildScript(c))
  }

  /** What was done was done in time. */
  predicate InTime(c: Config, done: set<Effect>) {
    forall e <- done :: Timely(c, e, done)
  }

  /** What is on its way has been done, and only requests that have a handler are sent. */
  predicate OnTheWay(c: Config, s: State) {
    && Promise(c, s.parent.todo, s.log.done)
    && InTime(c, s.log.done)
    && (s.toChild.Items? ==> Backed(c, s.toChild.head, s.log.done))
    && (s.toParent.Items? && s.toParent.head.Req? ==> Allowed(c, s.toParent.head.r))
  }

  predicate Sends(t: Todo, p: Packet) {
    match t
    case Do(_, n) => Sends(n, p)
    case Send(q, n) => q == p || Sends(n, p)
    case _ => false
  }

  predicate IsOk(m: Mode) { m == Ended || m == Shut(true) || m == Returned(true) }

  /** What runc's own progress says about the child. */
  predicate Outcome(c: Config, s: State) {
    && (IsOk(s.parent.mode) ==>
          && s.parent.todo == Done && s.toParent == Empty
          && (s.child.closed || s.child.phase == Killed || (s.child.phase == Exited && s.log.unreported)))
    && (s.log.error ==> s.parent.mode != Serving && !IsOk(s.parent.mode))
    && (MarkReady in s.log.done ==> ReadyOk(c, s.log.done) || Sends(s.parent.todo, Reply(Run, false, false)))
    && (s.parent.mode == Shut(true) || s.parent.mode == Returned(true) ==> MarkReady in s.log.done)
    && Forwards(c, s)
  }

  /** The notify fd of a child that was told to go on is forwarded, or will be. */
  predicate Forwards(c: Config, s: State) {
    c.seccomp && c.notify
    && (!Asks(s.child.rest, Seccomp) || (s.toChild.Items? && s.toChild.head == Reply(SeccompDone, false, false)))
    ==> Forward in s.log.done || Does(s.parent.todo, Forward)
  }

  predicate Inv(c: Config, s: State) {
    && Link(s) && Unanswered(s) <= 1
    && Shape(c, s.child) && Past(c, s.child.rest, s.log)
    && OnTheWay(c, s) && Outcome(c, s)
  }

  // ----- the start -----

  lemma MountScriptShape(c: Config, ms: Mounts, next: Script)
    requires c.standard && Ordered(c, next) && Closes(next)
    requires Asks(next, Hooks) && Asks(next, Ready)
    ensures var t := MountScript(c, ms, next); Ordered(c, t) && Closes(t) && Asks(t, Hooks) && Asks(t, Ready)
  {
  }

  predicate Tail(c: Config, t: Script) { Ordered(c, t) && Closes(t) && !Asks(t, Hooks) }

  lemma SeccompScriptShape(c: Config, here: bool, next: Script)
    requires Tail(c, next)
    ensures Tail(c, SeccompScript(c, here, next))
  {
    assert Tail(c, Ask(Seccomp, next));
  }

  lemma ReadyScriptShape(c: Config, last: Script)
    requires AsksNothing(last) && Ordered(c, last)
    ensures Tail(c, ReadyScript(c, last)) && Asks(ReadyScript(c, last), Ready)
  {
    AsksNothingAtAll(last, Hooks);
    SeccompScriptShape(c, c.noNewPrivileges, Close(last));
    var late := Local(FinalizeNamespace, SeccompScript(c, c.noNewPrivileges, Close(last)));
    SeccompScriptShape(c, !c.noNewPrivileges, late);
  }

  lemma AsksNothingAtAll(t: Script, r: Request)
    requires AsksNothing(t)
    ensures !Asks(t, r)
  {
  }

  lemma MountScriptAsks(c: Config, ms: Mounts, next: Script, r: Request)
    requires !r.PleaseMount?
    ensures Asks(MountScript(c, ms, next), r) <==> Asks(next, r)
  {
  }

  lemma SeccompScriptAsks(c: Config, here: bool, next: Script)
    ensures Asks(SeccompScript(c, here, next), Seccomp) <==> (c.seccomp && c.notify && here) || Asks(next, Seccomp)
  {
    assert Asks(Ask(Seccomp, next), Seccomp);
  }

  /** A child hands a notify fd over if and only if its filter has one. */
  lemma ScriptAsksSeccomp(c: Config)
    ensures Asks(ChildScript(c), Seccomp) <==> c.seccomp && c.notify
  {
    hide SeccompScript, MountScript;
    var last := if c.standard then Local(WriteFifo, Nil) else Nil;
    assert !Asks(Close(last), Seccomp);
    var late := SeccompScript(c, c.noNewPrivileges, Close(last));
    SeccompScriptAsks(c, c.noNewPrivileges, Close(last));
    SeccompScriptAsks(c, !c.noNewPrivileges, Local(FinalizeNamespace, late));
    assert Asks(ReadyScript(c, last), Seccomp) <==> c.seccomp && c.notify;
    if c.standard {
      var changed := Local(Pivot, Local(Finish, ReadyScript(c, last)));
      assert Asks(changed, Seccomp) <==> c.seccomp && c.notify;
      MountScriptAsks(c, c.mounts, Ask(Hooks, changed), Seccomp);
    }
  }

  lemma ScriptShape(c: Config)
    ensures var t := ChildScript(c);
      Ordered(c, t) && Closes(t) && (c.standard ==> Asks(t, Hooks)) && Asks(t, Ready)
  {
    hide MountScript, ReadyScript;
    if c.standard {
      var last := Local(WriteFifo, Nil);
      assert AsksNothing(last) && Ordered(c, last);
      ReadyScriptShape(c, last);
      var finish := Local(Finish, ReadyScript(c, last));
      assert Tail(c, finish) && Asks(finish, Ready);
      var t := Ask(Hooks, Local(Pivot, finish));
      MountScriptShape(c, c.mounts, t);
    } else {
      ReadyScriptShape(c, Nil);
    }
  }

  lemma InvStart(c: Config)
    ensures Inv(c, Start(c))
  {
    hide ChildScript, Ordered, Closes, Asks;
    ScriptShape(c);
    if c.seccomp && c.notify { ScriptAsksSeccomp(c); }
  }

  // ----- every handler keeps its promises -----

  lemma HandlerShape(c: Config, r: Request, done: set<Effect>)
    requires Allowed(c, r)
    ensures Promise(c, Handler(c, r), done)
    ensures Owed(Handler(c, r)) == Answers(r)
  {
    match r
    case PleaseMount(m) =>
      var file := Send(File(m.source), Done);
      assert Owed(file) == One(File(m.source));
      var send := Send(Reply(MountFd, true, true), file);
      assert Promise(c, send, done + {OpenSource});
      assert Owed(send) == Items(Reply(MountFd, true, true), Owed(file));
      assert Owed(Handler(c, r)) == Owed(send);
    case Hooks => HooksHandlerShape(c, done);
    case Ready => ReadyHandlerShape(c, done);
    case Seccomp =>
      var after := Do(Forward, Done);
      var rest := if c.standard then Do(QueryState, after) else after;
      var send := Send(Reply(SeccompDone, false, false), rest);
      assert Owed(rest) == Empty;
      assert Promise(c, rest, done + {GetSeccompFd});
      assert Promise(c, send, done + {GetSeccompFd});
      assert Owed(send) == Items(Reply(SeccompDone, false, false), Owed(rest));
  }

  lemma HooksHandlerShape(c: Config, done: set<Effect>)
    requires c.standard
    ensures Promise(c, Handler(c, Hooks), done)
    ensures Owed(Handler(c, Hooks)) == Answers(Hooks)
  {
    var reply := Send(Reply(HooksDone, false, false), Done);
    var created := Do(CreateRuntime, reply);
    var hooked := Do(QueryState, Do(Prestart, created));
    var hooks := if c.runtimeHooks then hooked else reply;
    assert Owed(created) == Answers(Hooks) && Owed(hooks) == Answers(Hooks);
    var done1 := done + {SetCgroup};
    var done2 := if c.rdt then done1 + {SetRdt} else done1;
    assert c.runtimeHooks ==> Promise(c, created, done2 + {QueryState} + {Prestart});
    assert Promise(c, hooks, done2);
  }

  lemma ReadyHandlerShape(c: Config, done: set<Effect>)
    ensures Promise(c, Handler(c, Ready), done)
    ensures Owed(Handler(c, Ready)) == Answers(Ready)
  {
    var reply := Send(Reply(Run, false, false), Done);
    var saved := if c.standard then Do(SaveState, reply) else reply;
    assert Promise(c, saved, done + {MarkReady} + {SetRlimits});
    assert Sends(saved, Reply(Run, false, false)) && Owed(saved) == Answers(Ready);
  }

  // ----- runc's steps keep the invariant -----

  lemma ExecedIsClosed(c: Config, d: Child)
    requires Shape(c, d) && d.phase == Execed
    ensures d.closed
  {
  }

  lemma ServeLink(c: Config, s: State)
    requires Inv(c, s) && s.parent.mode == Serving && Serve(c, s).Some?
    ensures Link(Serve(c, s).value) && Unanswered(Serve(c, s).value) <= 1
  {
    hide Past, Shape, Outcome, Promise, Backed, InTime, Handler;
    match s.parent.todo
    case Done =>
      if s.toParent.Items? && s.toParent.head.Req? {
        HandlerShape(c, s.toParent.head.r, s.log.done);
      }
    case Do(e, n) =>
    case Send(p, n) =>
      s.toChild.AddAppend(p, Owed(n));
    case Refuse(_) =>
    case Panic(_) =>
  }

  lemma ServePast(c: Config, s: State)
    requires Inv(c, s) && s.parent.mode == Serving && Serve(c, s).Some?
    ensures Serve(c, s).value.child == s.child
    ensures Past(c, s.child.rest, Serve(c, s).value.log)
  {
    hide Link, Unanswered, Outcome, Handler, Promise, InTime, Backed, Shape;
  }

  lemma ServeOnTheWay(c: Config, s: State)
    requires Inv(c, s) && s.parent.mode == Serving && Serve(c, s).Some?
    ensures OnTheWay(c, Serve(c, s).value)
  {
    hide Past, Shape, Outcome, Handler, Unanswered;
    match s.parent.todo
    case Done =>
      assert s.toParent.Items? ==> s.toParent.rest == Empty;
      if s.toParent.Items? && s.toParent.head.Req? {
        HandlerShape(c, s.toParent.head.r, s.log.done);
      }
    case Do(e, n) =>
    case Send(p, n) =>
    case Refuse(_) =>
    case Panic(_) =>
  }

  lemma ServeOutcome(c: Config, s: State)
    requires Inv(c, s) && s.parent.mode == Serving && Serve(c, s).Some?
    ensures Outcome(c, Serve(c, s).value)
  {
    if s.child.phase == Execed { ExecedIsClosed(c, s.child); }
    hide Past, Shape, Handler, Unanswered, InTime;
    match s.parent.todo
    case Done =>
    case Do(e, n) =>
    case Send(p, n) =>
    case Refuse(_) =>
    case Panic(_) =>
  }

  lemma ParentStepInv(c: Config, s: State)
    requires Inv(c, s) && ParentStep(c, s).Some?
    ensures Inv(c, ParentStep(c, s).value)
  {
    hide Link, Past, OnTheWay, Outcome, Serve;
    if s.parent.mode == Serving {
      ServeLink(c, s);
      ServePast(c, s);
      ServeOnTheWay(c, s);
      ServeOutcome(c, s);
    } else {
      ReturnInv(c, s);
    }
  }

  lemma ReturnInv(c: Config, s: State)
    requires Inv(c, s) && s.parent.mode != Serving && ParentStep(c, s).Some?
    ensures Inv(c, ParentStep(c, s).value)
  {
    hide Serve, Past, Promise, InTime, Backed, Ordered, AsksNothing, Closes, ReadyOk, Sends;
  }

  // ----- the child's steps keep the invariant -----

  lemma WorkInv(c: Config, s: State)
    requires Inv(c, s) && s.child.phase == Running
    ensures Inv(c, Work(s.child, s))
  {
    hide HooksOk, ReadyOk, Promise, Backed, InTime, ChildScript, Sends;
    match s.child.rest
    case Nil =>
    case Ask(r, _) =>
    case Local(op, n) =>
    case Close(n) =>
  }

  lemma ChildStepInv(c: Config, s: State)
    requires Inv(c, s) && ChildStep(s).Some?
    ensures Inv(c, ChildStep(s).value)
  {
    match s.child.phase
    case Running => WorkInv(c, s);
    case Failing =>
      AddRequests(s.toParent, Error);
      hide Past, Promise, InTime, Backed, Ordered, AsksNothing, Closes, ReadyOk, Sends;
    case Waiting => ReadInv(c, s);
    case WaitingFile => ReadInv(c, s);
  }

  lemma ReadInv(c: Config, s: State)
    requires Inv(c, s) && (s.child.phase == Waiting || s.child.phase == WaitingFile) && ChildStep(s).Some?
    ensures Inv(c, ChildStep(s).value)
  {
    hide HooksOk, ReadyOk, Promise, InTime, ChildScript, Sends;
    assert s.toChild.Items? ==>
        s.toChild.Append(Owed(s.parent.todo)) == Items(s.toChild.head, s.toChild.rest.Append(Owed(s.parent.todo)));
    match s.child.rest.r
    case PleaseMount(m) =>
    case Hooks =>
    case Ready =>
    case Seccomp =>
  }

  lemma FaultsInv(c: Config, s: State, s': State)
    requires Inv(c, s) && Faults(s, s')
    ensures Inv(c, s')
  {
    hide Past, Promise, InTime, Backed, Ordered, AsksNothing, Closes, ReadyOk, Sends;
    PastSame(c, s.child.rest, s.log, s'.log);
  }

  lemma PastSame(c: Config, t: Script, log: Log, log': Log)
    requires log' == log.(unreported := log'.unreported)
    ensures Past(c, t, log') <==> Past(c, t, log)
  {
  }

  lemma InvNext(c: Config, s: State, s': State)
    requires Inv(c, s) && Next(c, s, s')
    ensures Inv(c, s')
  {
    hide Inv, ParentStep, ChildStep;
    if ParentStep(c, s) == Some(s') {
      ParentStepInv(c, s);
    } else if ChildStep(s) == Some(s') {
      ChildStepInv(c, s);
    } else {
      FaultsInv(c, s, s');
    }
  }

  lemma {:induction false} InvRun(c: Config, run: seq<State>, i: nat)
    requires IsRun(c, run) && i < |run|
    ensures Inv(c, run[i])
  {
    if i == 0 {
      InvStart(c);
    } else {
      InvRun(c, run, i - 1);
      InvNext(c, run[i - 1], run[i]);
    }
  }

  // ----- what a script contains -----

  function Count(ms: Mounts): nat {
    match ms
    case NoMounts => 0
    case Mounts(_, others) => 1 + Count(others)
  }

  /** The local work that a configuration calls for. */
  function Required(c: Config): set<LocalOp> {
    {Prepare, FinalizeNamespace}
    + (if c.standard then {Pivot, Finish, WriteFifo} else {})
    + (if c.standard && c.mounts != NoMounts then {DoMount} else {})
    + (if c.seccomp then {LoadSeccomp} else {})
  }

  lemma MountScriptDoes(c: Config, ms: Mounts, next: Script)
    ensures Ops(MountScript(c, ms, next)) == Ops(next) + (if ms == NoMounts then {} else {DoMount})
    ensures MountsLeft(MountScript(c, ms, next)) == Count(ms) + MountsLeft(next)
  {
  }

  lemma SeccompScriptDoes(c: Config, here: bool, next: Script)
    ensures Ops(SeccompScript(c, here, next)) == Ops(next) + (if c.seccomp && here then {LoadSeccomp} else {})
    ensures MountsLeft(SeccompScript(c, here, next)) == MountsLeft(next)
  {
  }

  lemma ReadyScriptDoes(c: Config, last: Script)
    ensures Ops(ReadyScript(c, last)) == Ops(last) + {FinalizeNamespace} + (if c.seccomp then {LoadSeccomp} else {})
    ensures MountsLeft(ReadyScript(c, last)) == MountsLeft(last)
  {
    hide SeccompScript;
    SeccompScriptDoes(c, c.noNewPrivileges, Close(last));
    var late := Local(FinalizeNamespace, SeccompScript(c, c.noNewPrivileges, Close(last)));
    SeccompScriptDoes(c, !c.noNewPrivileges, late);
  }

  lemma ScriptDoes(c: Config)
    ensures Ops(ChildScript(c)) == Required(c)
    ensures MountsLeft(ChildScript(c)) == if c.standard then Count(c.mounts) else 0
  {
    hide ReadyScript, MountScript, Count;
    var last := if c.standard then Local(WriteFifo, Nil) else Nil;
    ReadyScriptDoes(c, last);
    if c.standard {
      var ready := ReadyScript(c, last);
      var t := Local(Pivot, Local(Finish, ready));
      assert Ops(t) == {Pivot, Finish} + Ops(ready) && MountsLeft(t) == MountsLeft(ready);
      MountScriptDoes(c, c.mounts, Ask(Hooks, t));
    }
  }

  // ----- what holds of every run, whatever fails -----

  /** Requests and replies match, in every state of every run. */
  lemma RepliesMatch(c: Config, run: seq<State>, i: nat)
    requires IsRun(c, run) && i < |run|
    ensures var s := run[i];
      // no reply of the wrong type, with a missing or unexpected file or argument, or with another name
      && s.child.phase != Confused
      // runc always has a handler for what it is asked
      && !s.parent.todo.Panic?
      // one request at a time
      && Unanswered(s) <= 1
  {
    InvRun(c, run, i);
    hide Past, Shape, Outcome, InTime;
  }

  /** The child waits for a file exactly when the answer's file is the next packet still to come. */
  lemma FilesMatch(c: Config, run: seq<State>, i: nat)
    requires IsRun(c, run) && i < |run|
    ensures var s := run[i];
      s.child.phase == Running || s.child.phase == Waiting || s.child.phase == WaitingFile ==>
        var coming := s.toChild.Append(Owed(s.parent.todo));
        && (s.child.phase == WaitingFile <==> coming.Items? && coming.head.File?)
        && (s.child.phase == WaitingFile ==>
              s.child.rest.Ask? && s.child.rest.r.PleaseMount? && coming == One(File(s.child.rest.r.mount.source)))
  {
    InvRun(c, run, i);
    hide Past, Shape, Outcome, InTime, OnTheWay, Unanswered;
  }

  /** Effects happen in order, in every state of every run. */
  lemma EffectsAreOrdered(c: Config, run: seq<State>, i: nat)
    requires IsRun(c, run) && i < |run|
    ensures var s := run[i];
      // hooks run only if there are any, after the cgroup is set and the state is known, CreateRuntime last
      && (Prestart in s.log.done ==> c.runtimeHooks && SetCgroup in s.log.done && QueryState in s.log.done)
      && (Prestart in s.log.done && c.rdt ==> SetRdt in s.log.done)
      && (CreateRuntime in s.log.done ==> Prestart in s.log.done)
      && (SetRdt in s.log.done ==> c.rdt && SetCgroup in s.log.done)
      // the init is on record after its limits are set, which are set after it said it was ready
      && (SaveState in s.log.done ==> c.standard && SetRlimits in s.log.done)
      && (SetRlimits in s.log.done ==> MarkReady in s.log.done)
      // sources are opened only for a container that is not rootless, a notify fd is taken only for a listener
      && (OpenSource in s.log.done ==> c.standard && !c.rootless)
      && (GetSeccompFd in s.log.done ==> c.listenerPath)
      && (Forward in s.log.done ==> GetSeccompFd in s.log.done)
      // the child changes its root only after the cgroup settings and all hooks succeeded
      && (Pivot in s.log.local ==> c.standard && HooksOk(c, s.log.done))
      // procRun is sent only after the limits are set and the init is on record
      && (s.toChild.Items? && s.toChild.head == Reply(Run, false, false) ==> ReadyOk(c, s.log.done))
      // a source is opened and a notify fd is taken before the child is told so
      && (s.toChild.Items? && s.toChild.head == Reply(MountFd, true, true) ==> OpenSource in s.log.done)
      && (s.toChild.Items? && s.toChild.head == Reply(SeccompDone, false, false) ==> GetSeccompFd in s.log.done)
      // the child becomes the user's program only after all of that, and after all its own work
      && (s.child.phase == Execed ==> ReadyOk(c, s.log.done) && s.log.local == Required(c))
      && (s.child.phase == Execed && c.standard ==> s.log.mounted == Count(c.mounts))
      && (s.child.phase == Execed && c.standard ==> HooksOk(c, s.log.done))
  {
    hide Link, Unanswered, Outcome, Promise, Ordered, ChildScript;
    InvRun(c, run, i);
    ScriptDoes(c);
    var done := run[i].log.done;
    forall e | e in done ensures Timely(c, e, done) {}
  }

  /**
   runc reports success only of a child that was made ready and of which it read no error, and that closed
   its end, was killed, or gave up and could not say so; if the child closed its end it needs nothing more
   and its notify fd has been forwarded.
   */
  lemma SuccessMeansReady(c: Config, run: seq<State>, i: nat)
    requires IsRun(c, run) && i < |run| && run[i].parent.mode == Returned(true)
    ensures ReadyOk(c, run[i].log.done) && !run[i].log.error
    ensures ChildGone(run[i].child) && run[i].toParent == Empty
    ensures run[i].child.closed || run[i].child.phase == Killed
         || (run[i].child.phase == Exited && run[i].log.unreported)
    ensures run[i].child.closed ==>
      AsksNothing(run[i].child.rest) && (c.seccomp && c.notify ==> Forward in run[i].log.done)
  {
    hide Link, Unanswered, Past, OnTheWay, Ordered;
    InvRun(c, run, i);
    if run[i].child.closed { AsksNothingAtAll(run[i].child.rest, Seccomp); }
  }

  // ----- progress -----

  /** Nothing is left to do; a runc that waits for an exec'd process waits for the user's program. */
  predicate Final(c: Config, s: State) {
    && !Alive(s.child)
    && (ParentGone(s.parent.mode) || (!c.standard && s.parent.mode == Shut(false) && s.child.phase == Execed))
  }

  /** In every state of every run that is not final, one of the processes can go on. */
  lemma NoDeadlock(c: Config, run: seq<State>, i: nat) returns (s': State)
    requires IsRun(c, run) && i < |run| && !Final(c, run[i])
    ensures Runs(c, run[i], s')
  {
    var s := run[i];
    InvRun(c, run, i);
    hide Past, Outcome, OnTheWay, Unanswered, Ordered, AsksNothing, Closes;
    if ChildStep(s).Some? {
      s' := ChildStep(s).value;
    } else {
      if s.child.phase == Execed { ExecedIsClosed(c, s.child); }
      s' := ParentStep(c, s).value;
    }
  }

  function Length(t: Script): nat {
    match t
    case Nil => 0
    case Ask(_, n) => 1 + Length(n)
    case Local(_, n) => 1 + Length(n)
    case Close(n) => 1 + Length(n)
  }

  function TodoSize(t: Todo): nat {
    match t
    case Done => 0
    case Do(_, n) => 1 + TodoSize(n)
    case Send(_, n) => 2 + TodoSize(n)
    case _ => 0
  }

  function PhaseRank(p: Phase): nat {
    match p
    case Running => 22
    case Waiting => 12
    case WaitingFile => 11
    case Failing => 10
    case _ => 0
  }

  function ModeRank(m: Mode): nat {
    match m
    case Serving => 3
    case Failed => 2
    case Ended => 2
    case Shut(_) => 1
    case _ => 0
  }

  function Measure(s: State): nat {
    30 * Length(s.child.rest) + PhaseRank(s.child.phase) + 9 * s.toParent.Size()
    + s.toChild.Size() + TodoSize(s.parent.todo) + ModeRank(s.parent.mode)
  }

  lemma HandlersAreShort(c: Config, r: Request)
    ensures TodoSize(Handler(c, r)) <= 7
  {
    if r.Hooks? {
      var reply := Send(Reply(HooksDone, false, false), Done);
      var created := Do(CreateRuntime, reply);
      assert TodoSize(created) == 3;
      var hooks := if c.runtimeHooks then Do(QueryState, Do(Prestart, created)) else reply;
      assert TodoSize(hooks) <= 5;
    } else if r.Seccomp? {
      var after := Do(QueryState, Do(Forward, Done));
      assert TodoSize(after) == 2;
      assert TodoSize(Do(Forward, Done)) == 1;
    } else if r.Ready? {
      var reply := Send(Reply(Run, false, false), Done);
      assert TodoSize(Do(SaveState, reply)) == 3;
    } else {
      assert TodoSize(Send(File(r.mount.source), Done)) == 2;
    }
  }

  lemma ParentStepDecreases(c: Config, s: State)
    requires ParentStep(c, s).Some?
    ensures Measure(ParentStep(c, s).value) < Measure(s)
  {
    if s.toParent.Items? && s.toParent.head.Req? { HandlersAreShort(c, s.toParent.head.r); }
    if s.parent.todo.Send? { s.toChild.AddSize(s.parent.todo.p); }
    hide Handler, Length;
  }

  lemma ChildStepDecreases(s: State)
    requires ChildStep(s).Some?
    ensures Measure(ChildStep(s).value) < Measure(s)
  {
    if s.child.rest.Ask? { s.toParent.AddSize(Req(s.child.rest.r)); }
    s.toParent.AddSize(Error);
    hide TodoSize;
  }

  lemma MeasureDecreases(c: Config, s: State, s': State)
    requires Next(c, s, s')
    ensures Measure(s') < Measure(s)
  {
    hide ParentStep, ChildStep;
    if ParentStep(c, s) == Some(s') {
      ParentStepDecreases(c, s);
    } else if ChildStep(s) == Some(s') {
      ChildStepDecreases(s);
    }
  }

  lemma MountScriptLength(c: Config, ms: Mounts, next: Script)
    ensures Length(MountScript(c, ms, next)) <= 2 * Count(ms) + Length(next)
  {
  }

  lemma SeccompScriptLength(c: Config, here: bool, next: Script)
    ensures Length(SeccompScript(c, here, next)) <= Length(next) + if here then 2 else 0
  {
    if here { assert Length(Ask(Seccomp, next)) == 1 + Length(next); }
  }

  lemma ReadyScriptLength(c: Config, last: Script)
    ensures Length(ReadyScript(c, last)) <= 5 + Length(last)
  {
    hide SeccompScript;
    var late := SeccompScript(c, c.noNewPrivileges, Close(last));
    SeccompScriptLength(c, c.noNewPrivileges, Close(last));
    SeccompScriptLength(c, !c.noNewPrivileges, Local(FinalizeNamespace, late));
    assert Length(Close(last)) == 1 + Length(last);
    assert Length(Local(FinalizeNamespace, late)) == 1 + Length(late);
  }

  lemma StartMeasure(c: Config)
    ensures Measure(Start(c)) <= 60 * Count(c.mounts) + 325
  {
    var last := Local(WriteFifo, Nil);
    assert Length(last) == 1;
    ReadyScriptLength(c, last);
    ReadyScriptLength(c, Nil);
    var t := Local(Pivot, Local(Finish, ReadyScript(c, last)));
    assert Length(t) <= 8;
    MountScriptLength(c, c.mounts, Ask(Hooks, t));
    hide ReadyScript, MountScript;
  }

  /** Every run is over after a number of steps that grows with the number of mounts only. */
  lemma {:induction false} RunsAreShort(c: Config, run: seq<State>)
    requires IsRun(c, run)
    ensures |run| + Measure(run[|run| - 1]) <= 1 + Measure(run[0])
    ensures |run| <= 60 * Count(c.mounts) + 326
  {
    StartMeasure(c);
    hide Measure, Next, Start;
    if |run| > 1 {
      RunsAreShort(c, run[..|run| - 1]);
      MeasureDecreases(c, run[|run| - 2], run[|run| - 1]);
    }
  }

  // ----- when runc gives up -----

  ghost predicate IsPath(c: Config, s: State, path: seq<State>) {
    && path != [] && path[0] == s
    && forall i :: 0 < i < |path| ==> Next(c, path[i - 1], path[i])
  }

  predicate Execs(path: seq<State>) { path != [] && path[|path| - 1].child.phase == Execed }

  /** The child can still become the user's program. */
  ghost predicate CanExec(c: Config, s: State) {
    exists path :: IsPath(c, s, path) && Execs(path)
  }

  /** The child needs nothing more from runc than what is already on its way. */
  predicate Cleared(s: State) {
    match s.child.phase
    case Running => AsksNothing(s.child.rest)
    case Execed => true
    case Waiting => s.child.rest.Ask? && AsksNothing(s.child.rest.next) && Unanswered(s) == 0
    case WaitingFile => s.child.rest.Ask? && AsksNothing(s.child.rest.next) && Unanswered(s) == 0
    case _ => false
  }

  lemma ClearedStep(c: Config, s: State)
    requires Inv(c, s) && Cleared(s) && s.child.phase != Execed
    ensures ChildStep(s).Some? && Cleared(ChildStep(s).value)
  {
    hide Past, Outcome, OnTheWay;
    if s.child.phase == Waiting || s.child.phase == WaitingFile {
      assert s.toChild.Items? ==>
          s.toChild.Append(Owed(s.parent.todo)) == Items(s.toChild.head, s.toChild.rest.Append(Owed(s.parent.todo)));
      match s.child.rest.r
      case PleaseMount(m) =>
      case Hooks =>
      case Ready =>
      case Seccomp =>
    }
  }

  lemma {:induction false} ClearedCanExec(c: Config, s: State) returns (path: seq<State>)
    requires Inv(c, s) && Cleared(s)
    ensures IsPath(c, s, path) && Execs(path)
    decreases Measure(s)
  {
    if s.child.phase == Execed {
      path := [s];
    } else {
      ClearedStep(c, s);
      ChildStepInv(c, s);
      ChildStepDecreases(s);
      var s' := ChildStep(s).value;
      hide ChildStep, ParentStep, Faults, Inv, Measure, Cleared;
      var rest := ClearedCanExec(c, s');
      path := [s] + rest;
      LongerPath(c, s, s', rest);
    }
  }

  lemma LongerPath(c: Config, s: State, s': State, rest: seq<State>)
    requires Runs(c, s, s') && IsPath(c, s', rest) && Execs(rest)
    ensures IsPath(c, s, [s] + rest) && Execs([s] + rest)
  {
    hide Runs, Faults;
  }

  /** A child that needs more is lost once runc no longer serves. */
  predicate Lost(s: State) { s.parent.mode != Serving && !Cleared(s) }

  lemma LostNext(c: Config, s: State, s': State)
    requires Inv(c, s) && Lost(s) && Next(c, s, s')
    ensures Lost(s')
  {
    hide Inv, ParentStep, ChildStep;
    if ParentStep(c, s) == Some(s') {
      LostParentStep(c, s);
    } else if ChildStep(s) == Some(s') {
      LostChildStep(c, s);
    }
  }

  lemma LostParentStep(c: Config, s: State)
    requires Lost(s) && ParentStep(c, s).Some?
    ensures Lost(ParentStep(c, s).value)
  {
  }

  lemma LostChildStep(c: Config, s: State)
    requires Inv(c, s) && Lost(s) && ChildStep(s).Some?
    ensures Lost(ChildStep(s).value)
  {
    hide Past, Outcome, OnTheWay;
    if s.child.phase == Waiting || s.child.phase == WaitingFile {
      assert s.toChild.Items? ==>
          s.toChild.Append(Owed(s.parent.todo)) == Items(s.toChild.head, s.toChild.rest.Append(Owed(s.parent.todo)));
      match s.child.rest.r
      case PleaseMount(m) =>
      case Hooks =>
      case Ready =>
      case Seccomp =>
    }
  }

  lemma {:induction false} LostForGood(c: Config, s: State, path: seq<State>, i: nat)
    requires Inv(c, s) && Lost(s) && IsPath(c, s, path) && i < |path|
    ensures Inv(c, path[i]) && Lost(path[i]) && path[i].child.phase != Execed
  {
    if i > 0 {
      LostForGood(c, s, path, i - 1);
      InvNext(c, path[i - 1], path[i]);
      LostNext(c, path[i - 1], path[i]);
    }
  }

  /** Once runc no longer serves, the child can still exec if and only if it needs nothing more. */
  lemma ExecAfterFailure(c: Config, run: seq<State>, i: nat)
    requires IsRun(c, run) && i < |run| && run[i].parent.mode != Serving
    ensures CanExec(c, run[i]) <==> Cleared(run[i])
  {
    InvRun(c, run, i);
    if Cleared(run[i]) {
      var path := ClearedCanExec(c, run[i]);
    } else {
      forall path | IsPath(c, run[i], path)
        ensures !Execs(path)
      {
        LostForGood(c, run[i], path, |path| - 1);
      }
    }
  }

  ghost predicate Stopped(c: Config, s: State) { forall s' :: !Runs(c, s, s') }

  lemma UnansweredIsNotCleared(c: Config, s: State)
    requires Inv(c, s) && Unanswered(s) > 0
    ensures !Cleared(s)
  {
    hide Past, Outcome, OnTheWay, Shape;
  }

  lemma SuffixIsPath(c: Config, run: seq<State>, i: nat)
    requires IsRun(c, run) && i < |run|
    ensures IsPath(c, run[i], run[i..])
  {
    hide Next;
    var path := run[i..];
    forall k | 0 < k < |path|
      ensures Next(c, path[k - 1], path[k])
    {
      assert path[k - 1] == run[i + k - 1] && path[k] == run[i + k];
    }
  }

  lemma LostAtTheEnd(c: Config, run: seq<State>, i: nat)
    requires IsRun(c, run) && i < |run| && Lost(run[i])
    ensures run[|run| - 1].child.phase != Execed
  {
    hide IsRun, IsPath, Inv, Lost;
    InvRun(c, run, i);
    SuffixIsPath(c, run, i);
    LostForGood(c, run[i], run[i..], |run| - 1 - i);
  }

  lemma StoppedIsFinal(c: Config, run: seq<State>)
    requires IsRun(c, run) && Stopped(c, run[|run| - 1])
    ensures Final(c, run[|run| - 1])
  {
    if !Final(c, run[|run| - 1]) {
      var s' := NoDeadlock(c, run, |run| - 1);
    }
  }

  /** A handler that fails before its request is answered makes the child exit without exec. */
  lemma AbandonedChildExits(c: Config, run: seq<State>, i: nat)
    requires IsRun(c, run) && i < |run|
    requires run[i].parent.mode != Serving && Unanswered(run[i]) > 0 && Stopped(c, run[|run| - 1])
    ensures var d := run[|run| - 1].child; d.phase == Exited || d.phase == Killed
  {
    hide IsRun, Inv, Unanswered, Cleared, Stopped;
    InvRun(c, run, i);
    UnansweredIsNotCleared(c, run[i]);
    StoppedIsFinal(c, run);
    RepliesMatch(c, run, |run| - 1);
    LostAtTheEnd(c, run, i);
  }

  /** The state ends a run. */
  ghost predicate Reachable(c: Config, s: State) {
    exists run :: IsRun(c, run) && run[|run| - 1] == s
  }

  lemma ReachNext(c: Config, s: State, s': State)
    requires Reachable(c, s) && Next(c, s, s')
    ensures Reachable(c, s')
  {
    hide Next, Start;
    var run :| IsRun(c, run) && run[|run| - 1] == s;
    var longer := run + [s'];
    assert IsRun(c, longer);
  }

  lemma ReachServed(c: Config, s: State, e: Effect, t: Todo)
    requires Reachable(c, s) && s.parent == Parent(Do(e, t), Serving)
    ensures Reachable(c, s.(parent := Parent(t, Serving), log := s.log.(done := s.log.done + {e})))
  {
    ReachNext(c, s, ParentStep(c, s).value);
  }

  lemma ReachSent(c: Config, s: State, p: Packet, t: Todo)
    requires Reachable(c, s) && s.parent == Parent(Send(p, t), Serving) && !ChildGone(s.child)
    ensures Reachable(c, s.(parent := Parent(t, Serving), toChild := s.toChild.Add(p)))
  {
    ReachNext(c, s, ParentStep(c, s).value);
  }

  lemma ReachAsked(c: Config, s: State, r: Request, next: Script)
    requires Reachable(c, s) && s.child.rest == Ask(r, next) && s.child.phase == Running
    requires s.parent == Parent(Done, Serving) && s.toParent == Empty
    ensures Reachable(c, s.(child := s.child.(phase := Waiting), parent := Parent(Handler(c, r), Serving)))
  {
    var asked := s.(child := s.child.(phase := Waiting), toParent := One(Req(r)));
    assert ChildStep(s) == Some(asked);
    ReachNext(c, s, asked);
    ReachNext(c, asked, ParentStep(c, asked).value);
  }

  lemma ReachWorked(c: Config, s: State)
    requires Reachable(c, s) && ChildStep(s).Some?
    ensures Reachable(c, ChildStep(s).value)
  {
    ReachNext(c, s, ChildStep(s).value);
  }

  const JOINING: Config := Config(false, NoMounts, false, false, false, true, true, true, false)

  /** A process joins a container, is made ready, and loads its filter. */
  lemma ReachLoaded() returns (s: State)
    ensures Reachable(JOINING, s)
    ensures s.child == Child(Ask(Seccomp, Local(FinalizeNamespace, Close(Nil))), Running, false)
    ensures s.parent == Parent(Done, Serving) && s.toParent == Empty && s.toChild == Empty
    ensures Forward !in s.log.done && MarkReady in s.log.done
  {
    var c := JOINING;
    var loading := Local(LoadSeccomp, Ask(Seccomp, Local(FinalizeNamespace, Close(Nil))));
    var ready := Ask(Ready, loading);
    assert ChildScript(c) == Local(Prepare, ready);
    var s0 := Start(c);
    assert IsRun(c, [s0]);
    ReachWorked(c, s0);
    var s1 := s0.(child := Child(ready, Running, false), log := Log({}, {} + {Prepare}, 0, false, false));
    ReachAsked(c, s1, Ready, loading);
    var reply := Send(Reply(Run, false, false), Done);
    var s2 := s1.(
      child := Child(ready, Waiting, false), parent := Parent(Do(MarkReady, Do(SetRlimits, reply)), Serving));
    ReachServed(c, s2, MarkReady, Do(SetRlimits, reply));
    var s3 := s2.(parent := Parent(Do(SetRlimits, reply), Serving), log := s2.log.(done := {} + {MarkReady}));
    ReachServed(c, s3, SetRlimits, reply);
    var s4 := s3.(parent := Parent(reply, Serving), log := s3.log.(done := s3.log.done + {SetRlimits}));
    ReachSent(c, s4, Reply(Run, false, false), Done);
    var s5 := s4.(parent := Parent(Done, Serving), toChild := One(Reply(Run, false, false)));
    ReachWorked(c, s5);
    var s6 := s5.(toChild := Empty, child := Child(loading, Running, false));
    ReachWorked(c, s6);
    s := ChildStep(s6).value;
  }

  /** After procSeccompDone it is different: forwarding the fd fails, and the child can still exec. */
  lemma ForwardFailureDoesNotStop() returns (s: State)
    ensures Reachable(JOINING, s) && s.parent.mode == Failed && Forward !in s.log.done
    ensures CanExec(JOINING, s)
  {
    var c := JOINING;
    var s0 := ReachLoaded();
    ReachAsked(c, s0, Seccomp, s0.child.rest.next);
    var forward := Do(Forward, Done);
    var reply := Reply(SeccompDone, false, false);
    var s1 := s0.(
      child := s0.child.(phase := Waiting), parent := Parent(Do(GetSeccompFd, Send(reply, forward)), Serving));
    ReachServed(c, s1, GetSeccompFd, Send(reply, forward));
    var s2 := s1.(
      parent := Parent(Send(reply, forward), Serving), log := s1.log.(done := s1.log.done + {GetSeccompFd}));
    ReachSent(c, s2, reply, forward);
    var s3 := s2.(parent := Parent(forward, Serving), toChild := One(reply));
    s := s3.(parent := Parent(forward, Failed));
    ReachNext(c, s3, s);
    assert Cleared(s) by { assert AsksNothing(s.child.rest.next) && Owed(forward) == Empty; }
    var run :| IsRun(c, run) && run[|run| - 1] == s;
    ExecAfterFailure(c, run, |run| - 1);
  }

  /** A child gives up after it was made ready and cannot report it: runc reports success all the same. */
  lemma UnheardFailureSucceeds() returns (s: State)
    ensures Reachable(JOINING, s) && s.parent.mode == Returned(true)
    ensures s.child.phase == Exited && !s.child.closed && Forward !in s.log.done
  {
    var c := JOINING;
    var s0 := ReachLoaded();
    hide Reachable;
    var s1 := s0.(child := s0.child.(phase := Failing));
    ReachNext(c, s0, s1);
    var s2 := s1.(child := s1.child.(phase := Exited), log := s1.log.(unreported := true));
    ReachNext(c, s1, s2);
    var s3 := s2.(parent := Parent(Done, Ended));
    ReachNext(c, s2, s3);
    var s4 := s3.(parent := Parent(Done, Shut(true)));
    ReachNext(c, s3, s4);
    s := s4.(parent := Parent(Done, Returned(true)));
    ReachNext(c, s4, s);
  }
}
