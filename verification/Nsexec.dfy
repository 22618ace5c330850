/**
 The handshake of the three processes that set up a container's namespaces
 (libcontainer/nsenter/nsexec.c): stage 0 stays outside and answers requests, stage 1 enters and
 creates namespaces, stage 2 becomes the container's init. They talk over two socket pairs, in words
 that are either a tag or a pid. Any process may die at any point; the state of a dead process stays
 where it died.
 */
module Nsexec {
  import opened Wrappers
  import opened Queues

  datatype Tag =
    | USERMAP_PLS | USERMAP_ACK | RECVPID_PLS | RECVPID_ACK
    | GRANDCHILD | CHILD_FINISH | TIMEOFFSETS_PLS | TIMEOFFSETS_ACK

  /** What is on a socket. A process that expects one kind and reads the other has gone wrong. */
  datatype Word = T(tag: Tag) | Pid(pid: int)

  /** The settings that select branches: CLONE_NEWUSER, namespaces to join, and time offsets. */
  datatype Config = Config(newUser: bool, joins: bool, timeOffsets: bool)

  datatype Stage0 =
    | Clone0 | CloseChild0 | ReadTag | WriteMaps | AckMaps | ReadPid | AckPid | ForwardPids
    | WriteOffsets | AckOffsets | CloseGrand0 | SendGrandchild | ReadFinish | Exited0 | Confused0

  datatype Stage1 =
    | Unborn1 | CloseChild1 | JoinNamespaces | UnshareUser | SendMapPls | ReadMapAck | BecomeRoot
    | UnshareRest | SendOffsetsPls | ReadOffsetsAck | Clone1 | SendPidPls | SendPid | ReadPidAck
    | SendFinish1 | Exited1 | Confused1

  datatype Stage2 =
    | Unborn2 | CloseGrand1 | CloseChild0of2 | ReadGrandchild | SetIds | SendFinish2 | CloseGrand0of2
    | Returned2 | Confused2

  datatype Pids = Pids(stage1: int, stage2: int)

  /** What has been done, and the pids as the stages know them. */
  datatype Log = Log(
    pids: Pids,                  // what clone returns to stage 0 and to stage 1
    childPid: int,               // what stage 0 holds for the pid of stage 1
    readPid: int,                // the word stage 0 took for the pid of stage 2
    mapsOf: Option<int>,         // the process whose id maps were written
    offsetsOf: Option<int>,      // the process whose time offsets were written
    forwarded: Option<Pids>,     // what runc was told
    acts: Acts)

  /** The system calls of stages 1 and 2 that set the container up. */
  datatype Acts = Acts(joined: bool, newUser: bool, root: bool, unshared: bool, ids: bool)

  datatype Deaths = Deaths(d0: bool, d1: bool, d2: bool)

  datatype State = State(
    s0: Stage0, s1: Stage1, s2: Stage2,
    to0: Queue<Word>, to1: Queue<Word>,        // the socket pair of stages 0 and 1
    from2: Queue<Word>, to2: Queue<Word>,      // the socket pair of stages 0 and 2
    log: Log,
    dead: Deaths)

  ghost predicate Init(s: State) {
    && s.s0 == Clone0 && s.s1 == Unborn1 && s.s2 == Unborn2
    && s.to0 == Empty && s.to1 == Empty && s.from2 == Empty && s.to2 == Empty
    && s.log.childPid == -1 && s.log.mapsOf == None && s.log.offsetsOf == None && s.log.forwarded == None
    && s.log.acts == Acts(false, false, false, false, false)
    && s.dead == Deaths(false, false, false)
  }

  // ----- who still holds an end of a socket pair -----

  predicate Alive0(s: State) { !s.dead.d0 && s.s0 != Exited0 }
  predicate Alive1(s: State) { !s.dead.d1 && s.s1 != Unborn1 && s.s1 != Exited1 }
  predicate Alive2(s: State) { !s.dead.d2 && s.s2 != Unborn2 && s.s2 != Returned2 }

  /** sync_child_pipe[0], the end stage 0 listens to. */
  predicate ChildEndHeld(s: State) {
    || Alive1(s)
    || (Alive0(s) && (s.s0 == Clone0 || s.s0 == CloseChild0))
    || (Alive2(s) && (s.s2 == CloseGrand1 || s.s2 == CloseChild0of2))
  }

  /** sync_child_pipe[1], the end stage 1 listens to. */
  predicate ChildPeerHeld(s: State) {
    Alive0(s) || (Alive1(s) && s.s1 == CloseChild1)
  }

  /** sync_grandchild_pipe[0], the end stage 0 listens to. */
  predicate GrandEndHeld(s: State) {
    || Alive2(s)
    || Alive1(s)
    || (Alive0(s) && !(s.s0 == SendGrandchild || s.s0 == ReadFinish))
  }

  /** sync_grandchild_pipe[1], the end stage 2 listens to. */
  predicate GrandPeerHeld(s: State) {
    Alive0(s) || Alive1(s) || (Alive2(s) && s.s2 == CloseGrand1)
  }

  // ----- one step of each process -----

  /** The word that stage 0 sends to stage 1 at this point. */
  function Reply(p: Stage0): Option<Tag> {
    match p
    case AckMaps => Some(USERMAP_ACK)
    case AckPid => Some(RECVPID_ACK)
    case AckOffsets => Some(TIMEOFFSETS_ACK)
    case _ => None
  }

  /** Where stage 0 goes after a point that does not read. */
  function Next0(p: Stage0): Stage0 {
    match p
    case Clone0 => CloseChild0
    case CloseChild0 => ReadTag
    case WriteMaps => AckMaps
    case AckMaps => ReadTag
    case AckPid => ForwardPids
    case ForwardPids => ReadTag
    case WriteOffsets => AckOffsets
    case AckOffsets => ReadTag
    case CloseGrand0 => SendGrandchild
    case SendGrandchild => ReadFinish
    case _ => p
  }

  function Log0(p: Stage0, log: Log): Log {
    match p
    case Clone0 => log.(childPid := log.pids.stage1)
    case WriteMaps => log.(mapsOf := Some(log.childPid))
    case WriteOffsets => log.(offsetsOf := Some(log.childPid))
    case ForwardPids => log.(forwarded := Some(Pids(log.childPid, log.readPid)))
    case _ => log
  }

  /** The branch of the synchronisation loop that a word selects. */
  function Serve(w: Word): Stage0 {
    if w == T(USERMAP_PLS) then WriteMaps
    else if w == T(RECVPID_PLS) then ReadPid
    else if w == T(TIMEOFFSETS_PLS) then WriteOffsets
    else if w == T(CHILD_FINISH) then CloseGrand0
    else Confused0
  }

  /** Stage 0 forgets the pid of a stage 1 that is done. */
  function Served(w: Word, log: Log): Log { if w == T(CHILD_FINISH) then log.(childPid := -1) else log }

  /** Stage 0, unless it waits for a word that is not there. */
  function Move0(s: State): Option<State> {
    if s.s0 == ReadTag then
      if s.to0 == Empty then None
      else Some(s.(to0 := s.to0.rest, s0 := Serve(s.to0.head), log := Served(s.to0.head, s.log)))
    else if s.s0 == ReadPid then
      if s.to0 == Empty then None
      else if s.to0.head.Pid? then Some(s.(to0 := s.to0.rest, s0 := AckPid, log := s.log.(readPid := s.to0.head.pid)))
      else Some(s.(to0 := s.to0.rest, s0 := Confused0))
    else if s.s0 == ReadFinish then
      if s.from2 == Empty then None
      else Some(s.(from2 := s.from2.rest, s0 := if s.from2.head == T(CHILD_FINISH) then Exited0 else Confused0))
    else if s.s0 == Exited0 || s.s0 == Confused0 then None
    else Some(s.(
      s0 := Next0(s.s0),
      s1 := if s.s0 == Clone0 then CloseChild1 else s.s1,
      to1 := if Reply(s.s0).Some? then s.to1.Add(T(Reply(s.s0).value)) else s.to1,
      to2 := if s.s0 == SendGrandchild then s.to2.Add(T(GRANDCHILD)) else s.to2,
      log := Log0(s.s0, s.log)))
  }

  /** The word that stage 1 sends at this point. */
  function Request(p: Stage1, log: Log): Option<Word> {
    match p
    case SendMapPls => Some(T(USERMAP_PLS))
    case SendOffsetsPls => Some(T(TIMEOFFSETS_PLS))
    case SendPidPls => Some(T(RECVPID_PLS))
    case SendPid => Some(Pid(log.pids.stage2))
    case SendFinish1 => Some(T(CHILD_FINISH))
    case _ => None
  }

  /** The answer that stage 1 waits for at this point. */
  function Expected(p: Stage1): Option<Tag> {
    match p
    case ReadMapAck => Some(USERMAP_ACK)
    case ReadOffsetsAck => Some(TIMEOFFSETS_ACK)
    case ReadPidAck => Some(RECVPID_ACK)
    case _ => None
  }

  function Next1(c: Config, p: Stage1): Stage1 {
    match p
    case CloseChild1 => if c.joins then JoinNamespaces else if c.newUser then UnshareUser else UnshareRest
    case JoinNamespaces => if c.newUser then UnshareUser else UnshareRest
    case UnshareUser => SendMapPls
    case SendMapPls => ReadMapAck
    case ReadMapAck => BecomeRoot
    case BecomeRoot => UnshareRest
    case UnshareRest => if c.timeOffsets then SendOffsetsPls else Clone1
    case SendOffsetsPls => ReadOffsetsAck
    case ReadOffsetsAck => Clone1
    case Clone1 => SendPidPls
    case SendPidPls => SendPid
    case SendPid => ReadPidAck
    case ReadPidAck => SendFinish1
    case SendFinish1 => Exited1
    case _ => p
  }

  function Log1(p: Stage1, log: Log): Log {
    match p
    case JoinNamespaces => log.(acts := log.acts.(joined := true))
    case UnshareUser => log.(acts := log.acts.(newUser := true))
    case BecomeRoot => log.(acts := log.acts.(root := true))
    case UnshareRest => log.(acts := log.acts.(unshared := true))
    case _ => log
  }

  function Move1(c: Config, s: State): Option<State> {
    if s.s1 == Unborn1 || s.s1 == Exited1 || s.s1 == Confused1 then None
    else if Expected(s.s1).Some? then
      if s.to1 == Empty then None
      else Some(s.(to1 := s.to1.rest,
                   s1 := if s.to1.head == T(Expected(s.s1).value) then Next1(c, s.s1) else Confused1))
    else Some(s.(
      s1 := Next1(c, s.s1),
      s2 := if s.s1 == Clone1 then CloseGrand1 else s.s2,
      to0 := if Request(s.s1, s.log).Some? then s.to0.Add(Request(s.s1, s.log).value) else s.to0,
      log := Log1(s.s1, s.log)))
  }

  function Next2(p: Stage2): Stage2 {
    match p
    case CloseGrand1 => CloseChild0of2
    case CloseChild0of2 => ReadGrandchild
    case ReadGrandchild => SetIds
    case SetIds => SendFinish2
    case SendFinish2 => CloseGrand0of2
    case CloseGrand0of2 => Returned2
    case _ => p
  }

  function Move2(s: State): Option<State> {
    if s.s2 == Unborn2 || s.s2 == Returned2 || s.s2 == Confused2 then None
    else if s.s2 == ReadGrandchild then
      if s.to2 == Empty then None
      else Some(s.(to2 := s.to2.rest, s2 := if s.to2.head == T(GRANDCHILD) then SetIds else Confused2))
    else Some(s.(
      s2 := Next2(s.s2),
      from2 := if s.s2 == SendFinish2 then s.from2.Add(T(CHILD_FINISH)) else s.from2,
      log := if s.s2 == SetIds then s.log.(acts := s.log.acts.(ids := true)) else s.log))
  }

  /** The point reads or writes a socket whose other end nobody holds, and a read finds nothing left. */
  predicate Broken0(s: State) {
    || ((s.s0 == ReadTag || s.s0 == ReadPid) && s.to0 == Empty && !ChildEndHeld(s))
    || (Reply(s.s0).Some? && !ChildEndHeld(s))
    || (s.s0 == SendGrandchild && !GrandEndHeld(s))
    || (s.s0 == ReadFinish && s.from2 == Empty && !GrandEndHeld(s))
    || s.s0 == Confused0
  }

  predicate Broken1(s: State) {
    || (Expected(s.s1).Some? && s.to1 == Empty && !ChildPeerHeld(s))
    || (Request(s.s1, s.log).Some? && !ChildPeerHeld(s))
    || s.s1 == Confused1
  }

  predicate Broken2(s: State) {
    || (s.s2 == ReadGrandchild && s.to2 == Empty && !GrandPeerHeld(s))
    || (s.s2 == SendFinish2 && !GrandPeerHeld(s))
    || s.s2 == Confused2
  }

  /** A live process bails out of a broken read or write, and otherwise moves unless it is blocked. */
  function Step0(s: State): Option<State>
    requires Alive0(s)
  {
    if Broken0(s) then Some(s.(dead := s.dead.(d0 := true))) else Move0(s)
  }

  function Step1(c: Config, s: State): Option<State>
    requires Alive1(s)
  {
    if Broken1(s) then Some(s.(dead := s.dead.(d1 := true))) else Move1(c, s)
  }

  function Step2(s: State): Option<State>
    requires Alive2(s)
  {
    if Broken2(s) then Some(s.(dead := s.dead.(d2 := true))) else Move2(s)
  }

  /** A step of one of the processes. */
  ghost predicate Runs(c: Config, s: State, s': State) {
    || (Alive0(s) && Step0(s) == Some(s'))
    || (Alive1(s) && Step1(c, s) == Some(s'))
    || (Alive2(s) && Step2(s) == Some(s'))
  }

  /** A process fails in a system call, or is killed. */
  ghost predicate Dies(s: State, s': State) {
    || (Alive0(s) && s' == s.(dead := s.dead.(d0 := true)))
    || (Alive1(s) && s' == s.(dead := s.dead.(d1 := true)))
    || (Alive2(s) && s' == s.(dead := s.dead.(d2 := true)))
  }

  ghost predicate Next(c: Config, s: State, s': State) { Runs(c, s, s') || Dies(s, s') }

  /** A run: a sequence of states from an initial one. */
  ghost predicate IsRun(c: Config, run: seq<State>) {
    && run != [] && Init(run[0])
    && forall i :: 0 < i < |run| ==> Next(c, run[i - 1], run[i])
  }

  /** A run in which nothing fails. */
  ghost predicate IsFaultFree(c: Config, run: seq<State>) {
    && run != [] && Init(run[0])
    && forall i :: 0 < i < |run| ==> Runs(c, run[i - 1], run[i])
  }

  // ----- how far each process is -----

  function Rank0(p: Stage0): nat {
    match p
    case Clone0 => 22 case CloseChild0 => 21 case ReadTag => 20 case WriteMaps => 23 case AckMaps => 22
    case ReadPid => 21 case AckPid => 24 case ForwardPids => 22 case WriteOffsets => 23 case AckOffsets => 22
    case CloseGrand0 => 10 case SendGrandchild => 9 case ReadFinish => 5 case Exited0 => 0 case Confused0 => 0
  }

  function Rank1(p: Stage1): nat {
    match p
    case Unborn1 => 16 case CloseChild1 => 15 case JoinNamespaces => 14 case UnshareUser => 13 case SendMapPls => 12
    case ReadMapAck => 11 case BecomeRoot => 10 case UnshareRest => 9 case SendOffsetsPls => 8
    case ReadOffsetsAck => 7 case Clone1 => 6 case SendPidPls => 5 case SendPid => 4 case ReadPidAck => 3
    case SendFinish1 => 2 case Exited1 => 1 case Confused1 => 0
  }

  function Rank2(p: Stage2): nat {
    match p
    case Unborn2 => 8 case CloseGrand1 => 7 case CloseChild0of2 => 6 case ReadGrandchild => 5 case SetIds => 4
    case SendFinish2 => 3 case CloseGrand0of2 => 2 case Returned2 => 1 case Confused2 => 0
  }

  // ----- the invariant -----

  /** Stage 0 has nothing of stage 1 to answer. */
  predicate Idle(s: State) { s.s0 == CloseChild0 || s.s0 == ReadTag }

  predicate Quiet(s: State) { s.to0 == Empty && s.to1 == Empty }

  /** A request with a one-word answer is on its way, being served, or answered. */
  predicate InFlight(s: State, req: Tag, ack: Tag, serve: Stage0, answer: Stage0) {
    || (Idle(s) && s.to0 == One(T(req)) && s.to1 == Empty)
    || ((s.s0 == serve || s.s0 == answer) && Quiet(s))
    || (s.s0 == ReadTag && s.to0 == Empty && s.to1 == One(T(ack)))
  }

  /** What stage 0 and the first socket pair can be at each point of stage 1. */
  predicate Pair01(s: State) {
    match s.s1
    case Unborn1 => s.s0 == Clone0 && Quiet(s)
    case ReadMapAck => InFlight(s, USERMAP_PLS, USERMAP_ACK, WriteMaps, AckMaps)
    case ReadOffsetsAck => InFlight(s, TIMEOFFSETS_PLS, TIMEOFFSETS_ACK, WriteOffsets, AckOffsets)
    case SendPid =>
      s.to1 == Empty && ((Idle(s) && s.to0 == One(T(RECVPID_PLS))) || (s.s0 == ReadPid && s.to0 == Empty))
    case ReadPidAck =>
      || (Idle(s) && s.to0 == Items(T(RECVPID_PLS), One(Pid(s.log.pids.stage2))) && s.to1 == Empty)
      || (s.s0 == ReadPid && s.to0 == One(Pid(s.log.pids.stage2)) && s.to1 == Empty)
      || (s.s0 == AckPid && Quiet(s) && s.log.readPid == s.log.pids.stage2)
      || (Forwarding(s) && s.to0 == Empty && s.to1 == One(T(RECVPID_ACK)))
    case SendFinish1 => Forwarding(s) && Quiet(s)
    case Exited1 =>
      s.to1 == Empty && ((Forwarding(s) && s.to0 == One(T(CHILD_FINISH))) || (Released(s) && s.to0 == Empty))
    case Confused1 => false
    case _ => Idle(s) && Quiet(s)
  }

  /** Stage 0 has the pid, and runc has it too or is about to. */
  predicate Forwarding(s: State) {
    || (s.s0 == ForwardPids && s.log.readPid == s.log.pids.stage2)
    || (s.s0 == ReadTag && s.log.forwarded == Some(s.log.pids))
  }

  /** Stage 0 is done with stage 1. */
  predicate Released(s: State) {
    && (s.s0 == CloseGrand0 || s.s0 == SendGrandchild || s.s0 == ReadFinish || s.s0 == Exited0)
    && s.log.forwarded == Some(s.log.pids)
  }

  /** What stage 2 and the second socket pair can be at each point of stage 0. */
  predicate Pair02(s: State) {
    match s.s0
    case ReadFinish =>
      || (Waiting(s.s2) && s.to2 == One(T(GRANDCHILD)) && s.from2 == Empty)
      || ((s.s2 == SetIds || s.s2 == SendFinish2) && s.to2 == Empty && s.from2 == Empty)
      || (Finished(s.s2) && s.to2 == Empty && s.from2 == One(T(CHILD_FINISH)))
    case Exited0 => Finished(s.s2) && s.to2 == Empty && s.from2 == Empty
    case Confused0 => false
    case _ => (s.s2 == Unborn2 || Waiting(s.s2)) && s.to2 == Empty && s.from2 == Empty
  }

  predicate Waiting(p: Stage2) { p == CloseGrand1 || p == CloseChild0of2 || p == ReadGrandchild }
  predicate Finished(p: Stage2) { p == CloseGrand0of2 || p == Returned2 }

  predicate BeforeClone1(p: Stage1) { Rank1(p) >= Rank1(Clone1) }
  predicate BeforeMapAck(p: Stage1) { Rank1(p) >= Rank1(ReadMapAck) }
  predicate BeforeOffsetsAck(p: Stage1) { Rank1(p) >= Rank1(ReadOffsetsAck) }
  predicate InUserSetup(p: Stage1) { Rank1(UnshareUser) >= Rank1(p) >= Rank1(BecomeRoot) }

  /** As long as stage 0 serves stage 1 it holds the pid of stage 1, and it tells runc nothing wrong. */
  predicate KnowsChild(s: State) {
    && (s.s0 != Clone0 && Rank0(s.s0) >= Rank0(ReadTag) ==> s.log.childPid == s.log.pids.stage1)
    && (s.log.forwarded.Some? ==> s.log.forwarded.value == s.log.pids)
    && (s.log.mapsOf.Some? ==> MapsWritten(s.log)) && (s.log.offsetsOf.Some? ==> OffsetsWritten(s.log))
  }

  predicate MapsWritten(log: Log) { log.mapsOf == Some(log.pids.stage1) }
  predicate OffsetsWritten(log: Log) { log.offsetsOf == Some(log.pids.stage1) }

  /** The maps and the offsets are written before stage 1 is told so. */
  predicate Order(c: Config, s: State) {
    && (c.newUser && !BeforeMapAck(s.s1) ==> MapsWritten(s.log))
    && (s.s0 == AckMaps || s.to1 == One(T(USERMAP_ACK)) ==> MapsWritten(s.log))
    && (c.timeOffsets && !BeforeOffsetsAck(s.s1) ==> OffsetsWritten(s.log))
    && (s.s0 == AckOffsets || s.to1 == One(T(TIMEOFFSETS_ACK)) ==> OffsetsWritten(s.log))
    && (InUserSetup(s.s1) ==> c.newUser) && (s.s1 == JoinNamespaces ==> c.joins)
    && (s.s1 == SendOffsetsPls || s.s1 == ReadOffsetsAck ==> c.timeOffsets)
  }

  /** Stage 1 has passed this point. */
  predicate Beyond1(s: State, p: Stage1) { Rank1(s.s1) < Rank1(p) }

  predicate Acted(c: Config, s: State) {
    var a := s.log.acts;
    && (c.joins && Beyond1(s, JoinNamespaces) ==> a.joined)
    && (c.newUser && Beyond1(s, UnshareUser) ==> a.newUser)
    && (c.newUser && Beyond1(s, BecomeRoot) ==> a.root)
    && (Beyond1(s, UnshareRest) ==> a.unshared)
    && (Finished(s.s2) || s.s2 == SendFinish2 ==> a.ids)
  }

  /** What has been done says what was done before it. */
  predicate ActsInOrder(c: Config, s: State) {
    var a := s.log.acts;
    && (a.joined ==> Beyond1(s, JoinNamespaces) && c.joins)
    && (a.newUser ==> Beyond1(s, UnshareUser) && c.newUser)
    && (a.root ==> Beyond1(s, BecomeRoot) && c.newUser)
    && (a.unshared ==> Beyond1(s, UnshareRest))
    && (a.ids ==> s.s2 == SendFinish2 || Finished(s.s2))
    && (s.log.mapsOf.Some? || s.s0 == WriteMaps ==> Beyond1(s, SendMapPls) && c.newUser)
    && (s.log.offsetsOf.Some? || s.s0 == WriteOffsets ==> Beyond1(s, SendOffsetsPls) && c.timeOffsets)
  }

  predicate Inv(c: Config, s: State) {
    && Pair01(s) && Pair02(s) && Order(c, s) && Acted(c, s) && ActsInOrder(c, s) && KnowsChild(s)
    && (s.s2 == Unborn2 <==> BeforeClone1(s.s1))
    && s.s2 != Confused2
  }

  lemma InvInit(c: Config, s: State)
    requires Init(s)
    ensures Inv(c, s)
  {
  }

  lemma InvMove0(c: Config, s: State)
    requires Inv(c, s) && Move0(s).Some?
    ensures Inv(c, Move0(s).value)
  {
    hide Pair01, Pair02, Order, Acted, ActsInOrder, KnowsChild, Move0, BeforeClone1;
    Move0ActsInOrder(c, s);
    Move0KnowsChild(c, s);
    Move0Pair01(c, s);
    Move0Pair02(c, s);
    Move0Order(c, s);
    Move0Acted(c, s);
  }

  lemma Move0Keeps(s: State)
    requires Move0(s).Some?
    ensures var s' := Move0(s).value;
      && s'.s2 == s.s2 && s'.log.acts == s.log.acts
      && s'.s1 == (if s.s0 == Clone0 then CloseChild1 else s.s1)
      && (s'.log.mapsOf == s.log.mapsOf || s.s0 == WriteMaps)
      && (s'.log.offsetsOf == s.log.offsetsOf || s.s0 == WriteOffsets)
      && (s'.s0 == WriteMaps ==> s.s0 == ReadTag && s.to0.Items? && s.to0.head == T(USERMAP_PLS))
      && (s'.s0 == WriteOffsets ==> s.s0 == ReadTag && s.to0.Items? && s.to0.head == T(TIMEOFFSETS_PLS))
  {
  }

  /** What stage 0 reads, stage 1 has sent. */
  lemma WasSent(c: Config, s: State)
    requires Inv(c, s)
    ensures s.s0 == Clone0 ==> s.s1 == Unborn1
    ensures s.s0 == ReadTag && s.to0.Items? && s.to0.head == T(USERMAP_PLS) ==> s.s1 == ReadMapAck && c.newUser
    ensures s.s0 == ReadTag && s.to0.Items? && s.to0.head == T(TIMEOFFSETS_PLS) ==>
      s.s1 == ReadOffsetsAck && c.timeOffsets
  {
    hide Pair02, Acted, ActsInOrder, KnowsChild, MapsWritten, OffsetsWritten;
  }

  lemma Move0ActsInOrder(c: Config, s: State)
    requires Inv(c, s) && Move0(s).Some?
    ensures ActsInOrder(c, Move0(s).value)
  {
    hide Move0, Pair01, Pair02, Order, Acted, KnowsChild, MapsWritten, OffsetsWritten;
    Move0Keeps(s);
    WasSent(c, s);
  }

  lemma Move0KnowsChild(c: Config, s: State)
    requires Inv(c, s) && Move0(s).Some?
    ensures KnowsChild(Move0(s).value)
  {
    hide Pair02, Order, Acted;
    match s.s0
    case Clone0 =>
    case CloseChild0 =>
    case ReadTag =>
    case WriteMaps =>
    case AckMaps =>
    case ReadPid =>
    case AckPid =>
    case ForwardPids =>
    case WriteOffsets =>
    case AckOffsets =>
    case CloseGrand0 =>
    case SendGrandchild =>
    case ReadFinish =>
  }

  lemma Move0Acted(c: Config, s: State)
    requires Inv(c, s) && Move0(s).Some?
    ensures Acted(c, Move0(s).value)
  {
    hide Pair02, Order;
    match s.s0
    case Clone0 =>
    case CloseChild0 =>
    case ReadTag =>
    case WriteMaps =>
    case AckMaps =>
    case ReadPid =>
    case AckPid =>
    case ForwardPids =>
    case WriteOffsets =>
    case AckOffsets =>
    case CloseGrand0 =>
    case SendGrandchild =>
    case ReadFinish =>
  }

  lemma Move0Pair01(c: Config, s: State)
    requires Inv(c, s) && Move0(s).Some?
    ensures Pair01(Move0(s).value)
  {
    hide Order;
    match s.s0
    case Clone0 =>
    case CloseChild0 =>
    case ReadTag =>
    case WriteMaps =>
    case AckMaps =>
    case ReadPid =>
    case AckPid =>
    case ForwardPids =>
    case WriteOffsets =>
    case AckOffsets =>
    case CloseGrand0 =>
    case SendGrandchild =>
    case ReadFinish =>
  }

  lemma Move0Pair02(c: Config, s: State)
    requires Inv(c, s) && Move0(s).Some?
    ensures Pair02(Move0(s).value)
  {
    hide Order;
    match s.s0
    case Clone0 =>
    case CloseChild0 =>
    case ReadTag =>
    case WriteMaps =>
    case AckMaps =>
    case ReadPid =>
    case AckPid =>
    case ForwardPids =>
    case WriteOffsets =>
    case AckOffsets =>
    case CloseGrand0 =>
    case SendGrandchild =>
    case ReadFinish =>
  }

  lemma Move0Order(c: Config, s: State)
    requires Inv(c, s) && Move0(s).Some?
    ensures Order(c, Move0(s).value)
    ensures var s' := Move0(s).value; s'.s2 == s.s2 && (BeforeClone1(s'.s1) <==> BeforeClone1(s.s1))
  {
    hide Pair02, Acted, ActsInOrder;
    match s.s0
    case Clone0 =>
    case CloseChild0 =>
    case ReadTag =>
    case WriteMaps =>
    case AckMaps =>
    case ReadPid =>
    case AckPid =>
    case ForwardPids =>
    case WriteOffsets =>
    case AckOffsets =>
    case CloseGrand0 =>
    case SendGrandchild =>
    case ReadFinish =>
  }

  lemma InvMove1(c: Config, s: State)
    requires Inv(c, s) && Move1(c, s).Some?
    ensures Inv(c, Move1(c, s).value)
  {
    hide Pair01, Order, ActsInOrder;
    Move1Pair01(c, s);
    Move1Order(c, s);
    Move1ActsInOrder(c, s);
    match s.s1
    case CloseChild1 =>
    case JoinNamespaces =>
    case UnshareUser =>
    case SendMapPls =>
    case ReadMapAck =>
    case BecomeRoot =>
    case UnshareRest =>
    case SendOffsetsPls =>
    case ReadOffsetsAck =>
    case Clone1 =>
    case SendPidPls =>
    case SendPid =>
    case ReadPidAck =>
    case SendFinish1 =>
  }

  lemma Move1ActsInOrder(c: Config, s: State)
    requires Inv(c, s) && Move1(c, s).Some?
    ensures ActsInOrder(c, Move1(c, s).value)
  {
    hide Pair02, Acted, KnowsChild, MapsWritten, OffsetsWritten;
    Move1Pair01(c, s);
    hide Pair01;
    match s.s1
    case CloseChild1 =>
    case JoinNamespaces =>
    case UnshareUser =>
    case SendMapPls =>
    case ReadMapAck =>
    case BecomeRoot =>
    case UnshareRest =>
    case SendOffsetsPls =>
    case ReadOffsetsAck =>
    case Clone1 =>
    case SendPidPls =>
    case SendPid =>
    case ReadPidAck =>
    case SendFinish1 =>
  }

  lemma Move1Pair01(c: Config, s: State)
    requires Inv(c, s) && Move1(c, s).Some?
    ensures Pair01(Move1(c, s).value) && Move1(c, s).value.s1 == Next1(c, s.s1)
  {
    hide Pair02, Order;
    match s.s1
    case CloseChild1 =>
    case JoinNamespaces =>
    case UnshareUser =>
    case SendMapPls =>
    case ReadMapAck =>
    case BecomeRoot =>
    case UnshareRest =>
    case SendOffsetsPls =>
    case ReadOffsetsAck =>
    case Clone1 =>
    case SendPidPls =>
    case SendPid =>
      var pid := Pid(s.log.pids.stage2);
      assert One(T(RECVPID_PLS)).Add(pid) == Items(T(RECVPID_PLS), Empty.Add(pid));
    case ReadPidAck =>
    case SendFinish1 =>
  }

  lemma Move1Order(c: Config, s: State)
    requires Inv(c, s) && Move1(c, s).Some?
    ensures Order(c, Move1(c, s).value)
  {
    hide Pair02, Acted, ActsInOrder, KnowsChild, MapsWritten, OffsetsWritten, Request;
    Move1Keeps(c, s);
    match s.s1
    case CloseChild1 =>
    case JoinNamespaces =>
    case UnshareUser =>
    case SendMapPls =>
    case ReadMapAck =>
    case BecomeRoot =>
    case UnshareRest =>
    case SendOffsetsPls =>
    case ReadOffsetsAck =>
    case Clone1 =>
    case SendPidPls =>
    case SendPid =>
    case ReadPidAck =>
    case SendFinish1 =>
  }

  lemma Move1Keeps(c: Config, s: State)
    requires Move1(c, s).Some?
    ensures var log := Move1(c, s).value.log;
      && log == s.log.(acts := log.acts)
      && MapsWritten(log) == MapsWritten(s.log) && OffsetsWritten(log) == OffsetsWritten(s.log)
  {
    hide Next1, Request;
  }

  lemma InvMove2(c: Config, s: State)
    requires Inv(c, s) && Move2(s).Some?
    ensures Inv(c, Move2(s).value)
  {
    hide Pair01, Pair02, Order, Acted, ActsInOrder, KnowsChild, BeforeClone1, Move2;
    Move2Keeps(s);
    Move2Same(c, s);
    Move2Pair02(c, s);
    Move2Acts(c, s);
  }

  lemma Move2Same(c: Config, s: State)
    requires Inv(c, s) && Move2(s).Some?
    ensures var s' := Move2(s).value; Pair01(s') && Order(c, s') && KnowsChild(s')
  {
    hide Move2, Pair02, Acted, ActsInOrder;
    Move2Keeps(s);
  }

  lemma Move2Pair02(c: Config, s: State)
    requires Inv(c, s) && Move2(s).Some?
    ensures var s' := Move2(s).value; Pair02(s') && s'.s2 != Confused2 && s'.s2 != Unborn2 && s.s2 != Unborn2
  {
    hide Pair01, Order, Acted, ActsInOrder, KnowsChild;
    match s.s2
    case CloseGrand1 =>
    case CloseChild0of2 =>
    case ReadGrandchild =>
    case SetIds =>
    case SendFinish2 =>
    case CloseGrand0of2 =>
  }

  lemma Move2Acts(c: Config, s: State)
    requires Inv(c, s) && Move2(s).Some?
    ensures Acted(c, Move2(s).value) && ActsInOrder(c, Move2(s).value)
  {
    hide Pair01, Order, KnowsChild;
    match s.s2
    case CloseGrand1 =>
    case CloseChild0of2 =>
    case ReadGrandchild =>
    case SetIds =>
    case SendFinish2 =>
    case CloseGrand0of2 =>
  }

  lemma Move2Keeps(s: State)
    requires Move2(s).Some?
    ensures var s' := Move2(s).value;
      s' == s.(s2 := s'.s2, to2 := s'.to2, from2 := s'.from2, log := s.log.(acts := s'.log.acts))
  {
    match s.s2
    case CloseGrand1 =>
    case CloseChild0of2 =>
    case ReadGrandchild =>
    case SetIds =>
    case SendFinish2 =>
    case CloseGrand0of2 =>
  }

  /** The invariant does not speak of who is dead. */
  lemma InvDies(c: Config, s: State, s': State)
    requires Inv(c, s) && s' == s.(dead := s'.dead)
    ensures Inv(c, s')
  {
  }

  lemma InvNext(c: Config, s: State, s': State)
    requires Inv(c, s) && Next(c, s, s')
    ensures Inv(c, s')
  {
    hide Inv, Move0, Move1, Move2;
    if Move0(s) == Some(s') {
      InvMove0(c, s);
    } else if Move1(c, s) == Some(s') {
      InvMove1(c, s);
    } else if Move2(s) == Some(s') {
      InvMove2(c, s);
    } else {
      InvDies(c, s, s');
    }
  }

  lemma {:induction false} InvRun(c: Config, run: seq<State>, i: nat)
    requires IsRun(c, run) && i < |run|
    ensures Inv(c, run[i])
  {
    if i == 0 {
      InvInit(c, run[0]);
    } else {
      InvRun(c, run, i - 1);
      InvNext(c, run[i - 1], run[i]);
    }
  }

  // ----- what holds of every run, whatever fails -----

  predicate Passed2(p: Stage2) { p == SetIds || p == SendFinish2 || Finished(p) }

  /** What has been done was configured, and was done in order. */
  predicate DoneInOrder(c: Config, s: State) {
    var a := s.log.acts;
    // only what is configured is done
    && (a.joined ==> c.joins) && (a.newUser || a.root || s.log.mapsOf.Some? ==> c.newUser)
    && (s.log.offsetsOf.Some? ==> c.timeOffsets)
    // namespaces are joined before a user namespace is created, whose maps are then written
    && (a.newUser ==> (c.joins ==> a.joined))
    && (s.log.mapsOf.Some? ==> s.log.mapsOf == Some(s.log.pids.stage1) && a.newUser)
    // stage 1 becomes root in it after its own maps are written
    && (a.root ==> s.log.mapsOf == Some(s.log.pids.stage1))
    // the rest is unshared after all of that
    && (a.unshared ==> (c.joins ==> a.joined) && (c.newUser ==> a.root))
    // time offsets are written into the namespace that was unshared
    && (s.log.offsetsOf.Some? ==> s.log.offsetsOf == Some(s.log.pids.stage1) && a.unshared)
    // stage 2 exists only after all of that
    && (s.s2 != Unborn2 ==> a.unshared && (c.timeOffsets ==> s.log.offsetsOf.Some?))
  }

  lemma InvDoneInOrder(c: Config, s: State)
    requires Inv(c, s)
    ensures DoneInOrder(c, s)
  {
    hide Pair01, Pair02;
  }

  /** Safety of every state of every run. */
  lemma Safety(c: Config, run: seq<State>, i: nat)
    requires IsRun(c, run) && i < |run|
    ensures DoneInOrder(c, run[i])
    ensures var s := run[i];
      // no process reads a word it does not expect: a pid is never taken for a tag, nor a tag for a pid
      && s.s0 != Confused0 && s.s1 != Confused1 && s.s2 != Confused2
      // what runc is told, if anything, is right
      && (s.log.forwarded.Some? ==> s.log.forwarded.value == s.log.pids)
      // stage 2 goes on, and sets its ids, only after stage 1 finished and runc has the pids of both
      && (Passed2(s.s2) || s.log.acts.ids ==> s.s1 == Exited1 && s.log.forwarded.Some?)
      // stage 0 reports success only after stage 2 has set its ids and said it was done
      && (Finished(s.s2) ==> s.log.acts.ids)
      && (s.s0 == Exited0 ==> Finished(s.s2))
  {
    hide IsRun, Order, Pair01, Pair02, DoneInOrder, BeforeClone1;
    InvRun(c, run, i);
    InvDoneInOrder(c, run[i]);
    Ends(c, run[i]);
  }

  lemma Ends(c: Config, s: State)
    requires Inv(c, s)
    ensures s.s0 != Confused0 && s.s1 != Confused1 && s.s2 != Confused2
    ensures Passed2(s.s2) || s.log.acts.ids ==> s.s1 == Exited1 && s.log.forwarded.Some?
    ensures s.s0 == Exited0 ==> Finished(s.s2)
  {
    hide Order, KnowsChild;
  }

  /** As long as a process is alive, some process can go on: nobody waits for ever, even after a death. */
  lemma NoDeadlock(c: Config, run: seq<State>, i: nat) returns (s': State)
    requires IsRun(c, run) && i < |run|
    requires Alive0(run[i]) || Alive1(run[i]) || Alive2(run[i])
    ensures Runs(c, run[i], s')
  {
    InvRun(c, run, i);
    var s := run[i];
    if Alive1(s) && Step1(c, s).Some? {
      s' := Step1(c, s).value;
    } else if Alive2(s) && Step2(s).Some? {
      s' := Step2(s).value;
    } else {
      assert Alive0(s);
      s' := Step0(s).value;
    }
  }

  // ----- termination -----

  function Measure(s: State): nat {
    Rank0(s.s0) + 8 * Rank1(s.s1) + 2 * Rank2(s.s2)
    + 4 * s.to0.Size() + s.to1.Size() + s.to2.Size() + s.from2.Size()
    + (if s.dead.d0 then 0 else 1) + (if s.dead.d1 then 0 else 1) + (if s.dead.d2 then 0 else 1)
  }

  lemma Move0Decreases(s: State)
    requires Move0(s).Some? && (s.s0 == Clone0 ==> s.s1 == Unborn1)
    ensures Measure(Move0(s).value) < Measure(s)
  {
    match s.s0
    case Clone0 =>
    case CloseChild0 =>
    case ReadTag =>
    case WriteMaps =>
    case AckMaps => s.to1.AddSize(T(USERMAP_ACK));
    case ReadPid =>
    case AckPid => s.to1.AddSize(T(RECVPID_ACK));
    case ForwardPids =>
    case WriteOffsets =>
    case AckOffsets => s.to1.AddSize(T(TIMEOFFSETS_ACK));
    case CloseGrand0 =>
    case SendGrandchild => s.to2.AddSize(T(GRANDCHILD));
    case ReadFinish =>
  }

  lemma Move1Decreases(c: Config, s: State)
    requires Move1(c, s).Some? && (s.s1 == Clone1 ==> s.s2 == Unborn2)
    ensures Measure(Move1(c, s).value) < Measure(s)
  {
    hide Rank0, Rank1, Rank2, Move1;
    Move1Advances(c, s);
  }

  lemma Move1Advances(c: Config, s: State)
    requires Move1(c, s).Some? && (s.s1 == Clone1 ==> s.s2 == Unborn2)
    ensures var s' := Move1(c, s).value;
      && s' == s.(s1 := s'.s1, s2 := s'.s2, to0 := s'.to0, to1 := s'.to1, log := s'.log)
      && Rank1(s'.s1) < Rank1(s.s1) && Rank2(s'.s2) <= Rank2(s.s2)
      && s'.to0.Size() <= s.to0.Size() + 1 && s'.to1.Size() <= s.to1.Size()
  {
    hide Log1;
    match s.s1
    case CloseChild1 =>
    case JoinNamespaces =>
    case UnshareUser =>
    case SendMapPls => s.to0.AddSize(T(USERMAP_PLS));
    case ReadMapAck =>
    case BecomeRoot =>
    case UnshareRest =>
    case SendOffsetsPls => s.to0.AddSize(T(TIMEOFFSETS_PLS));
    case ReadOffsetsAck =>
    case Clone1 =>
    case SendPidPls => s.to0.AddSize(T(RECVPID_PLS));
    case SendPid => s.to0.AddSize(Pid(s.log.pids.stage2));
    case ReadPidAck =>
    case SendFinish1 => s.to0.AddSize(T(CHILD_FINISH));
  }

  lemma Move2Decreases(s: State)
    requires Move2(s).Some?
    ensures Measure(Move2(s).value) < Measure(s)
  {
    match s.s2
    case CloseGrand1 =>
    case CloseChild0of2 =>
    case ReadGrandchild =>
    case SetIds =>
    case SendFinish2 => s.from2.AddSize(T(CHILD_FINISH));
    case CloseGrand0of2 =>
  }

  lemma Births(c: Config, s: State)
    requires Inv(c, s)
    ensures s.s0 == Clone0 ==> s.s1 == Unborn1
    ensures s.s1 == Clone1 ==> s.s2 == Unborn2
  {
  }

  lemma MeasureDecreases(c: Config, s: State, s': State)
    requires Inv(c, s) && Next(c, s, s')
    ensures Measure(s') < Measure(s)
  {
    hide Inv, Move0, Move1, Move2, Measure, Broken0, Broken1, Broken2;
    Births(c, s);
    if Move0(s) == Some(s') {
      Move0Decreases(s);
    } else if Move1(c, s) == Some(s') {
      Move1Decreases(c, s);
    } else if Move2(s) == Some(s') {
      Move2Decreases(s);
    } else {
      DeathDecreases(s, s');
    }
  }

  lemma DeathDecreases(s: State, s': State)
    requires Dies(s, s')
    ensures Measure(s') < Measure(s)
  {
    hide Rank0, Rank1, Rank2;
  }

  lemma InitialMeasure(s: State)
    requires Init(s)
    ensures Measure(s) < 170
  {
  }

  /** Every run is over after a number of steps known in advance. */
  lemma {:induction false} RunsAreShort(c: Config, run: seq<State>)
    requires IsRun(c, run)
    ensures |run| + Measure(run[|run| - 1]) <= 1 + Measure(run[0]) && |run| <= 170
  {
    hide Measure, Init, Next, Inv;
    InitialMeasure(run[0]);
    if |run| > 1 {
      RunsAreShort(c, run[..|run| - 1]);
      InvRun(c, run, |run| - 2);
      MeasureDecreases(c, run[|run| - 2], run[|run| - 1]);
    }
  }

  // ----- runs without faults -----

  /** Without a fault nobody dies. */
  lemma {:induction false} FaultFreeRun(c: Config, run: seq<State>, i: nat)
    requires IsFaultFree(c, run) && i < |run|
    ensures IsRun(c, run)
    ensures !run[i].dead.d0 && !run[i].dead.d1 && !run[i].dead.d2
  {
    assert IsRun(c, run);
    if i > 0 {
      FaultFreeRun(c, run, i - 1);
      InvRun(c, run, i - 1);
      AliveStays(c, run[i - 1], run[i]);
    }
  }

  /** Nobody lets go of a socket that another still needs. */
  lemma AliveStays(c: Config, s: State, s': State)
    requires Inv(c, s) && Runs(c, s, s') && !s.dead.d0 && !s.dead.d1 && !s.dead.d2
    ensures !s'.dead.d0 && !s'.dead.d1 && !s'.dead.d2
  {
    NotBroken(c, s);
    hide Inv, Move0, Move1, Move2, Broken0, Broken1, Broken2;
    if Move0(s) == Some(s') { Move0KeepsAlive(s); }
    if Move1(c, s) == Some(s') { Move1KeepsAlive(c, s); }
    if Move2(s) == Some(s') { Move2KeepsAlive(s); }
  }

  lemma NotBroken(c: Config, s: State)
    requires Inv(c, s) && !s.dead.d0 && !s.dead.d1 && !s.dead.d2
    ensures !Broken0(s) && !Broken1(s) && !Broken2(s)
  {
    hide Order;
  }

  lemma Move0KeepsAlive(s: State)
    requires Move0(s).Some?
    ensures var s' := Move0(s).value; s'.dead == s.dead
  {
    match s.s0
    case Clone0 =>
    case CloseChild0 =>
    case ReadTag =>
    case WriteMaps =>
    case AckMaps =>
    case ReadPid =>
    case AckPid =>
    case ForwardPids =>
    case WriteOffsets =>
    case AckOffsets =>
    case CloseGrand0 =>
    case SendGrandchild =>
    case ReadFinish =>
  }

  lemma Move1KeepsAlive(c: Config, s: State)
    requires Move1(c, s).Some?
    ensures var s' := Move1(c, s).value; s'.dead == s.dead
  {
    match s.s1
    case CloseChild1 =>
    case JoinNamespaces =>
    case UnshareUser =>
    case SendMapPls =>
    case ReadMapAck =>
    case BecomeRoot =>
    case UnshareRest =>
    case SendOffsetsPls =>
    case ReadOffsetsAck =>
    case Clone1 =>
    case SendPidPls =>
    case SendPid =>
    case ReadPidAck =>
    case SendFinish1 =>
  }

  lemma Move2KeepsAlive(s: State)
    requires Move2(s).Some?
    ensures var s' := Move2(s).value; s'.dead == s.dead
  {
    match s.s2
    case CloseGrand1 =>
    case CloseChild0of2 =>
    case ReadGrandchild =>
    case SetIds =>
    case SendFinish2 =>
    case CloseGrand0of2 =>
  }

  ghost predicate Stopped(c: Config, s: State) {
    forall s' :: !Runs(c, s, s')
  }

  /** A run without faults that cannot go on has done all that is configured, and runc knows both pids. */
  lemma FaultFreeSucceeds(c: Config, run: seq<State>)
    requires IsFaultFree(c, run)
    requires Stopped(c, run[|run| - 1])
    ensures var s := run[|run| - 1];
      && s.s0 == Exited0 && s.s1 == Exited1 && s.s2 == Returned2 && s.log.forwarded == Some(s.log.pids)
      && s.log.acts == Acts(c.joins, c.newUser, c.newUser, true, true)
      && s.log.mapsOf == (if c.newUser then Some(s.log.pids.stage1) else None)
      && s.log.offsetsOf == (if c.timeOffsets then Some(s.log.pids.stage1) else None)
  {
    var i := |run| - 1;
    FaultFreeRun(c, run, i);
    if Alive0(run[i]) || Alive1(run[i]) || Alive2(run[i]) {
      var s' := NoDeadlock(c, run, i);
    }
    InvRun(c, run, i);
  }
}
