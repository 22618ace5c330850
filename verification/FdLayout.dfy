/**
 The file descriptors that a container process inherits (runner.run in src/utils_linux.go,
 newParentProcess and includeExecFifo in libcontainer/container_linux.go): the k-th extra file of a
 command becomes descriptor 3 + k of its process.
 */
module FdLayout {
  const STDIO_FD_COUNT: nat := 3

  /** The files that can be passed; a preserved file is known by its descriptor in runc. */
  datatype File =
    | Listening(i: nat) | Preserved(fd: nat)
    | Console | InitPipe | SyncPipe | LogPipe | PidfdSocket | Exe | ExecFifo

  predicate IsUser(f: File) { f.Listening? || f.Preserved? }

  /** Names of descriptors: the _LIBCONTAINER_ variables, and the command's own path. */
  datatype Name = CONSOLE | INITPIPE | SYNCPIPE | LOGPIPE | PIDFD_SOCK | FIFOFD | PATH

  /** The file that a name is about. */
  ghost function FileOf(n: Name): File {
    match n
    case CONSOLE => Console
    case INITPIPE => InitPipe
    case SYNCPIPE => SyncPipe
    case LOGPIPE => LogPipe
    case PIDFD_SOCK => PidfdSocket
    case FIFOFD => ExecFifo
    case PATH => Exe
  }

  /** Listening sockets first, then the preserved descriptors with the numbers that follow. */
  method UserFiles(listen: nat, preserve: nat) returns (files: seq<File>)
    ensures |files| == listen + preserve
    ensures forall i :: 0 <= i < listen ==> files[i] == Listening(i)
    ensures forall fd: nat :: STDIO_FD_COUNT + listen <= fd < STDIO_FD_COUNT + listen + preserve ==>
      files[fd - STDIO_FD_COUNT] == Preserved(fd)
  {
    files := seq(listen, i requires 0 <= i < listen => Listening(i));
    var baseFd := STDIO_FD_COUNT + |files|;
    var i := baseFd;
    while i < baseFd + preserve
      invariant baseFd <= i <= baseFd + preserve && |files| == i - STDIO_FD_COUNT
      invariant forall k :: 0 <= k < listen ==> files[k] == Listening(k)
      invariant forall fd: nat :: baseFd <= fd < i ==> files[fd - STDIO_FD_COUNT] == Preserved(fd)
    {
      files := files + [Preserved(i)];
      i := i + 1;
    }
  }

  /** The descriptor that each name was given, and the extra files of the command. */
  datatype Command = Command(files: seq<File>, fds: map<Name, nat>)

  /** Every name gives the descriptor where its file lands, and the user's files come first. */
  ghost predicate Fits(c: Command, user: seq<File>) {
    && user <= c.files
    && (forall k :: |user| <= k < |c.files| ==> !IsUser(c.files[k]))
    && forall n <- c.fds ::
        && STDIO_FD_COUNT <= c.fds[n] < STDIO_FD_COUNT + |c.files|
        && c.files[c.fds[n] - STDIO_FD_COUNT] == FileOf(n)
  }

  lemma UserFirst(c: Command, user: seq<File>)
    requires Fits(c, user)
    ensures |user| <= |c.files|
  {
  }

  lemma NotOfTheUser(n: Name)
    ensures !IsUser(FileOf(n))
  {
  }

  function Empty(user: seq<File>): (c: Command)
    ensures Fits(c, user) && c.fds.Keys == {}
  {
    Command(user, map[])
  }

  /** Adds a file, and names the descriptor that it will be. */
  method Add(c: Command, n: Name, f: File, ghost user: seq<File>) returns (r: Command)
    requires Fits(c, user) && f == FileOf(n)
    ensures Fits(r, user) && r.fds.Keys == c.fds.Keys + {n}
  {
    hide FileOf, IsUser;
    NotOfTheUser(n);
    var files := c.files + [f];
    r := Command(files, c.fds[n := STDIO_FD_COUNT + |files| - 1]);
  }

  function If(cond: bool, n: Name): set<Name> { if cond then {n} else {} }

  method AddIf(cond: bool, c: Command, n: Name, f: File, ghost user: seq<File>) returns (r: Command)
    requires Fits(c, user) && f == FileOf(n)
    ensures Fits(r, user) && r.fds.Keys == c.fds.Keys + If(cond, n)
  {
    hide Fits, FileOf;
    if cond {
      r := Add(c, n, f, user);
    } else {
      r := c;
    }
  }

  /** What the process is given, beside the user's files. */
  datatype Options = Options(console: bool, pidfd: bool, clonedExe: bool, init: bool)

  /** Which names are given a descriptor. */
  ghost predicate Names(c: Command, o: Options) {
    && (CONSOLE in c.fds <==> o.console)
    && INITPIPE in c.fds && SYNCPIPE in c.fds && LOGPIPE in c.fds
    && (PIDFD_SOCK in c.fds <==> o.pidfd) && (PATH in c.fds <==> o.clonedExe) && (FIFOFD in c.fds <==> o.init)
  }

  lemma KeysAre(c: Command, o: Options)
    requires c.fds.Keys == {} + If(o.console, CONSOLE) + {INITPIPE} + {SYNCPIPE} + {LOGPIPE}
      + If(o.pidfd, PIDFD_SOCK) + If(o.clonedExe, PATH) + If(o.init, FIFOFD)
    ensures Names(c, o)
  {
  }

  method NewParentProcess(user: seq<File>, o: Options) returns (c: Command, passedFilesCount: nat)
    ensures Fits(c, user) && Names(c, o)
    ensures passedFilesCount == |user|
  {
    hide Fits, IsUser, Names, If;
    c := Empty(user);
    c := AddIf(o.console, c, CONSOLE, Console, user);
    c := Add(c, INITPIPE, InitPipe, user);
    c := Add(c, SYNCPIPE, SyncPipe, user);
    c := Add(c, LOGPIPE, LogPipe, user);
    c := AddIf(o.pidfd, c, PIDFD_SOCK, PidfdSocket, user);
    c := AddIf(o.clonedExe, c, PATH, Exe, user);
    c := AddIf(o.init, c, FIFOFD, ExecFifo, user);
    passedFilesCount := |user|;
    KeysAre(c, o);
  }

  /** The file behind a descriptor of the process. */
  function At(c: Command, fd: nat): File
    requires STDIO_FD_COUNT <= fd < STDIO_FD_COUNT + |c.files|
  {
    c.files[fd - STDIO_FD_COUNT]
  }

  /** Closing from PassedFilesCount + 3 closes every internal descriptor and none of the user's. */
  lemma CloseFromIsExact(c: Command, user: seq<File>, fd: nat)
    requires Fits(c, user) && (forall f <- user :: IsUser(f))
    requires STDIO_FD_COUNT <= fd < STDIO_FD_COUNT + |c.files|
    ensures fd >= |user| + STDIO_FD_COUNT <==> !IsUser(At(c, fd))
    ensures fd < |user| + STDIO_FD_COUNT ==> At(c, fd) == user[fd - STDIO_FD_COUNT]
  {
    if fd < |user| + STDIO_FD_COUNT { assert user[fd - STDIO_FD_COUNT] in user; }
  }

  /** No two names share a descriptor. */
  lemma NamesDiffer(c: Command, user: seq<File>, a: Name, b: Name)
    requires Fits(c, user) && a in c.fds && b in c.fds && a != b
    ensures c.fds[a] != c.fds[b]
  {
  }

  lemma UsersAreUsers(user: seq<File>, listen: nat)
    requires listen <= |user| && forall i :: 0 <= i < listen ==> user[i] == Listening(i)
    requires forall fd: nat :: STDIO_FD_COUNT + listen <= fd < STDIO_FD_COUNT + |user| ==>
      user[fd - STDIO_FD_COUNT] == Preserved(fd)
    ensures forall f <- user :: IsUser(f)
  {
    forall f | f in user
      ensures IsUser(f)
    {
      var k :| 0 <= k < |user| && user[k] == f;
      if k >= listen { assert user[k + STDIO_FD_COUNT - STDIO_FD_COUNT] == Preserved(k + STDIO_FD_COUNT); }
    }
  }

  lemma NamesGive(c: Command, user: seq<File>, o: Options)
    requires Fits(c, user) && Names(c, o)
    ensures forall n <- c.fds :: 3 <= c.fds[n] < 3 + |c.files|
    ensures if o.console then CONSOLE in c.fds && At(c, c.fds[CONSOLE]) == Console else CONSOLE !in c.fds
    ensures INITPIPE in c.fds && At(c, c.fds[INITPIPE]) == InitPipe
    ensures SYNCPIPE in c.fds && At(c, c.fds[SYNCPIPE]) == SyncPipe
    ensures LOGPIPE in c.fds && At(c, c.fds[LOGPIPE]) == LogPipe
    ensures if o.pidfd then PIDFD_SOCK in c.fds && At(c, c.fds[PIDFD_SOCK]) == PidfdSocket else PIDFD_SOCK !in c.fds
    ensures if o.clonedExe then PATH in c.fds && At(c, c.fds[PATH]) == Exe else PATH !in c.fds
    ensures if o.init then FIFOFD in c.fds && At(c, c.fds[FIFOFD]) == ExecFifo else FIFOFD !in c.fds
  {
    hide IsUser;
  }

  /**
   Both steps together: the listening sockets follow the standard streams in their order, a preserved
   descriptor keeps its number whatever else is passed, the final close is exact, and every name gives
   the descriptor of its file.
   */
  method Launch(listen: nat, preserve: nat, o: Options) returns (c: Command, count: nat)
    ensures count == listen + preserve <= |c.files|
    ensures forall i: nat :: i < listen ==> At(c, STDIO_FD_COUNT + i) == Listening(i)
    ensures forall fd: nat :: STDIO_FD_COUNT + listen <= fd < STDIO_FD_COUNT + listen + preserve ==>
      At(c, fd) == Preserved(fd)
    ensures forall fd: nat :: STDIO_FD_COUNT <= fd < STDIO_FD_COUNT + |c.files| ==>
      (fd >= count + STDIO_FD_COUNT <==> !IsUser(At(c, fd)))
    ensures forall n <- c.fds :: 3 <= c.fds[n] < 3 + |c.files|
    ensures if o.console then CONSOLE in c.fds && At(c, c.fds[CONSOLE]) == Console else CONSOLE !in c.fds
    ensures INITPIPE in c.fds && At(c, c.fds[INITPIPE]) == InitPipe
    ensures SYNCPIPE in c.fds && At(c, c.fds[SYNCPIPE]) == SyncPipe
    ensures LOGPIPE in c.fds && At(c, c.fds[LOGPIPE]) == LogPipe
    ensures if o.pidfd then PIDFD_SOCK in c.fds && At(c, c.fds[PIDFD_SOCK]) == PidfdSocket else PIDFD_SOCK !in c.fds
    ensures if o.clonedExe then PATH in c.fds && At(c, c.fds[PATH]) == Exe else PATH !in c.fds
    ensures if o.init then FIFOFD in c.fds && At(c, c.fds[FIFOFD]) == ExecFifo else FIFOFD !in c.fds
  {
    hide Fits, Names, IsUser, FileOf;
    var user := UserFiles(listen, preserve);
    UsersAreUsers(user, listen);
    c, count := NewParentProcess(user, o);
    UserFirst(c, user);
    NamesGive(c, user, o);
    forall fd: nat | STDIO_FD_COUNT <= fd < STDIO_FD_COUNT + |c.files|
      ensures fd >= count + STDIO_FD_COUNT <==> !IsUser(At(c, fd))
      ensures fd < count + STDIO_FD_COUNT ==> At(c, fd) == user[fd - STDIO_FD_COUNT]
    {
      CloseFromIsExact(c, user, fd);
    }
  }
}
