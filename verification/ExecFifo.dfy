/**
 The exec FIFO (exec and its helpers in libcontainer/container_linux.go, the end of
 linuxStandardInit.Init in libcontainer/standard_init_linux.go): a created container's init writes
 one byte into a FIFO and then becomes the user's program; whoever reads the byte has started the
 container. Any number of starters may run at once, and the init and any starter may be killed at any
 point; what a killed starter had done stays on record.
 */
module ExecFifo {
  /** The goroutine that opens the FIFO for reading and hands the file over. */
  datatype Hand = Absent | LookingUp | Blocked | Holding | OpenFailed | Handed

  datatype Phase = Idle | Selecting | Reading | Removing | Succeeded | Failed

  /** A starter; `gone` once its process has ended, which closes its files. */
  datatype Starter = Starter(hand: Hand, phase: Phase, got: nat, gone: bool)

  const IDLE: Starter := Starter(Absent, Idle, 0, false)

  datatype InitPc = AtOpen | Opened | Wrote | Closed | Execed

  /** The FIFO's name, the bytes in it, and what became of the bytes that went through it. */
  datatype Fifo = Fifo(named: bool, buffer: nat, written: nat, lost: nat)

  datatype State = State(pc: InitPc, dead: bool, fifo: Fifo, starters: seq<Starter>)

  ghost predicate Init(s: State) {
    && s.pc == AtOpen && !s.dead && s.fifo == Fifo(true, 0, 0, 0)
    && forall k :: 0 <= k < |s.starters| ==> s.starters[k] == IDLE
  }

  predicate WriterOpen(s: State) { !s.dead && (s.pc == Opened || s.pc == Wrote) }

  /** The starter holds the reading end; opening counts from the moment the FIFO is found. */
  predicate HoldsEnd(x: Starter) {
    && !x.gone
    && (x.hand == Blocked || x.hand == Holding || x.phase == Reading || x.phase == Removing)
  }

  ghost predicate ReaderOpen(s: State) { exists k :: 0 <= k < |s.starters| && HoldsEnd(s.starters[k]) }

  // ----- steps of the init -----

  /** A writer that arrives lets every blocked reader through. */
  function Wake(x: Starter): Starter {
    if x.hand == Blocked && !x.gone then x.(hand := Holding) else x
  }

  function Woken(xs: seq<Starter>): (r: seq<Starter>)
    ensures |r| == |xs| && forall i :: 0 <= i < |xs| ==> r[i] == Wake(xs[i])
  {
    seq(|xs|, i requires 0 <= i < |xs| => Wake(xs[i]))
  }

  ghost predicate OpensFifo(s: State, s': State) {
    && !s.dead && s.pc == AtOpen && ReaderOpen(s)
    && s' == s.(pc := Opened, starters := Woken(s.starters))
  }

  /** A reader that has come and gone also ends the wait of an init that was already waiting for it. */
  ghost predicate OpensForTheGone(s: State, s': State) {
    && !s.dead && s.pc == AtOpen && (exists k :: 0 <= k < |s.starters| && s.starters[k].hand == Blocked)
    && s' == s.(pc := Opened, starters := Woken(s.starters))
  }

  ghost predicate WritesFifo(s: State, s': State) {
    && !s.dead && s.pc == Opened
    && s' == if ReaderOpen(s)
             then s.(pc := Wrote, fifo := s.fifo.(buffer := s.fifo.buffer + 1, written := s.fifo.written + 1))
             else s.(dead := true)
  }

  predicate ClosesFifo(s: State, s': State) { !s.dead && s.pc == Wrote && s' == s.(pc := Closed) }

  predicate BecomesUserProgram(s: State, s': State) { !s.dead && s.pc == Closed && s' == s.(pc := Execed) }

  /** The kernel drops what is left when both ends are closed. */
  ghost predicate Discards(s: State, s': State) {
    && !WriterOpen(s) && !ReaderOpen(s) && s.fifo.buffer > 0
    && s' == s.(fifo := s.fifo.(buffer := 0, lost := s.fifo.lost + s.fifo.buffer))
  }

  // ----- steps of one starter -----

  /** What one step of a starter makes of it and of the FIFO's name and buffer. */
  datatype Effect = Stay | Move(x: Starter, named: bool, buffer: nat)

  /** The goroutine. */
  function HandStep(x: Starter, named: bool, buffer: nat, writer: bool): Effect {
    match x.hand
    case LookingUp =>
      if x.gone then Stay
      else if !named then Move(x.(hand := OpenFailed), named, buffer)
      else Move(x.(hand := if writer then Holding else Blocked), named, buffer)
    case _ => Stay
  }

  /** The select loop and what follows it. */
  function MainStep(x: Starter, named: bool, buffer: nat, writer: bool, initGone: bool): Effect {
    if x.gone then Stay else
    match x.phase
    case Selecting =>
      if x.hand == Holding then Move(x.(hand := Handed, phase := Reading), named, buffer)
      else if x.hand == OpenFailed then Move(x.(phase := Failed), named, buffer)
      else if initGone then Move(x.(phase := if named then Reading else Failed), named, buffer)
      else Stay
    case Reading =>
      if buffer > 0 then Move(x.(got := x.got + buffer), named, 0)
      else if writer then Stay
      else Move(x.(phase := if x.got > 0 then Removing else Failed), named, buffer)
    case Removing => Move(x.(phase := Succeeded), false, buffer)
    case _ => Stay
  }

  predicate Moves(s: State, s': State, k: nat, e: Effect) {
    && k < |s.starters| && e.Move?
    && s' == s.(fifo := s.fifo.(named := e.named, buffer := e.buffer), starters := s.starters[k := e.x])
  }

  predicate StarterRuns(s: State, s': State, k: nat) {
    && k < |s.starters|
    && (|| Moves(s, s', k, HandStep(s.starters[k], s.fifo.named, s.fifo.buffer, WriterOpen(s)))
        || Moves(s, s', k, MainStep(s.starters[k], s.fifo.named, s.fifo.buffer, WriterOpen(s), s.dead)))
  }

  /** Somebody calls Exec. */
  predicate Begins(s: State, s': State, k: nat) {
    && k < |s.starters| && s.starters[k] == IDLE
    && s' == s.(starters := s.starters[k := Starter(LookingUp, Selecting, 0, false)])
  }

  ghost predicate InitRuns(s: State, s': State) {
    OpensFifo(s, s') || WritesFifo(s, s') || ClosesFifo(s, s') || BecomesUserProgram(s, s')
  }

  /** The select loop may take the dead-process branch although the goroutine has a file to hand over. */
  predicate TakesFallback(s: State, x: Starter, x': Starter) {
    !x.gone && x.phase == Selecting && s.dead && x' == x.(phase := if s.fifo.named then Reading else Failed)
  }

  /** What a fault makes of a starter, or that choice: a read or the removal fails, or its process is killed. */
  predicate FaultOf(s: State, x: Starter, x': Starter) {
    || TakesFallback(s, x, x')
    || (!x.gone && (x.phase == Reading || x.phase == Removing) && x' == x.(phase := Failed))
    || (!x.gone && x.phase != Idle && x' == x.(gone := true))
  }

  /** A fault of a starter. */
  ghost predicate StarterFaults(s: State, s': State, k: nat) {
    && k < |s.starters| && k < |s'.starters| && FaultOf(s, s.starters[k], s'.starters[k])
    && s' == s.(starters := s.starters[k := s'.starters[k]])
  }

  /** A fault of the init: it dies, or opens the FIFO for a reader that is gone. */
  ghost predicate InitFaults(s: State, s': State) {
    (!s.dead && s' == s.(dead := true)) || OpensForTheGone(s, s')
  }

  ghost predicate Runs(s: State, s': State) {
    InitRuns(s, s') || Discards(s, s') || exists k: nat :: StarterRuns(s, s', k)
  }

  ghost predicate Next(s: State, s': State) {
    Runs(s, s') || InitFaults(s, s') || exists k: nat :: Begins(s, s', k) || StarterFaults(s, s', k)
  }

  ghost predicate IsRun(run: seq<State>) {
    run != [] && Init(run[0]) && forall i :: 0 < i < |run| ==> Next(run[i - 1], run[i])
  }

  // ----- conservation -----

  /** The bytes that starters have read. */
  function Total(xs: seq<Starter>): nat {
    if xs == [] then 0 else xs[0].got + Total(xs[1..])
  }

  lemma {:induction false} TotalUpdate(xs: seq<Starter>, k: nat, x: Starter)
    requires k < |xs|
    ensures Total(xs[k := x]) == Total(xs) - xs[k].got + x.got
  {
    if k == 0 {
      assert xs[0 := x][1..] == xs[1..];
    } else {
      assert xs[k := x][1..] == xs[1..][k - 1 := x];
      TotalUpdate(xs[1..], k - 1, x);
    }
  }

  lemma {:induction false} TotalSame(xs: seq<Starter>, ys: seq<Starter>)
    requires |xs| == |ys| && forall i :: 0 <= i < |xs| ==> xs[i].got == ys[i].got
    ensures Total(xs) == Total(ys)
  {
    if xs != [] { TotalSame(xs[1..], ys[1..]); }
  }

  lemma {:induction false} TotalAtLeast(xs: seq<Starter>, a: nat)
    requires a < |xs|
    ensures Total(xs) >= xs[a].got
  {
    if a > 0 { TotalAtLeast(xs[1..], a - 1); }
  }

  lemma {:induction false} TotalOfTwo(xs: seq<Starter>, a: nat, b: nat)
    requires a < b < |xs|
    ensures Total(xs) >= xs[a].got + xs[b].got
  {
    if a == 0 { TotalAtLeast(xs[1..], b - 1); } else { TotalOfTwo(xs[1..], a - 1, b - 1); }
  }

  lemma {:induction false} TotalPositive(xs: seq<Starter>) returns (k: nat)
    requires Total(xs) > 0
    ensures k < |xs| && xs[k].got > 0
  {
    if xs[0].got > 0 {
      k := 0;
    } else {
      k := TotalPositive(xs[1..]);
      k := k + 1;
    }
  }

  // ----- the invariant -----

  predicate StarterInv(x: Starter) {
    && (x.phase == Removing || x.phase == Succeeded ==> x.got > 0)
    && (x.phase == Idle <==> x.hand == Absent)
    && (x.phase == Idle || x.phase == Selecting ==> x.got == 0 && x.hand != Handed)
  }

  /** The starter has found the FIFO at most. */
  predicate Early(x: Starter) {
    && (x.phase == Idle || x.phase == Selecting)
    && (x.hand == Absent || x.hand == LookingUp || x.hand == Blocked)
  }

  /** The starter's blocking open came back with a file. */
  predicate HasOpened(x: Starter) { x.hand == Holding || x.hand == Handed }

  predicate HasWritten(pc: InitPc) { pc != AtOpen && pc != Opened }

  /** Every byte written is read once, still there, or dropped; and the init writes one byte. */
  predicate Conserved(s: State) {
    && Total(s.starters) + s.fifo.buffer + s.fifo.lost == s.fifo.written
    && s.fifo.written == if HasWritten(s.pc) then 1 else 0
  }

  ghost predicate SomeoneOpened(s: State) { exists k :: 0 <= k < |s.starters| && HasOpened(s.starters[k]) }

  /** While the init is alive: readers come through its open, and while it has the FIFO open none blocks. */
  predicate Placed(pc: InitPc, x: Starter) {
    && (pc == AtOpen ==> Early(x))
    && ((pc == Opened || pc == Wrote) && !x.gone ==> x.hand != Blocked)
    && (x.phase == Reading || x.phase == Removing ==> x.hand == Handed)
  }

  ghost predicate Inv(s: State) {
    && Conserved(s)
    && (forall k :: 0 <= k < |s.starters| ==> StarterInv(s.starters[k]))
    && (!s.dead ==> forall k :: 0 <= k < |s.starters| ==> Placed(s.pc, s.starters[k]))
    && (!s.dead && s.pc == AtOpen ==> s.fifo.named)
    && (HasWritten(s.pc) ==> SomeoneOpened(s))
  }

  lemma {:induction false} TotalIdle(xs: seq<Starter>)
    requires forall k :: 0 <= k < |xs| ==> xs[k] == IDLE
    ensures Total(xs) == 0
  {
    if xs != [] { TotalIdle(xs[1..]); }
  }

  lemma InvInit(s: State)
    requires Init(s)
    ensures Inv(s)
  {
    TotalIdle(s.starters);
  }

  /** Replacing one starter keeps what holds of all. */
  lemma InvMoves(s: State, s': State, k: nat, e: Effect)
    requires Inv(s) && Moves(s, s', k, e)
    requires StarterInv(e.x) && e.x.got + e.buffer == s.starters[k].got + s.fifo.buffer
    requires !s.dead ==> Placed(s.pc, e.x) && (s.pc == AtOpen ==> e.named)
    requires HasOpened(s.starters[k]) ==> HasOpened(e.x)
    ensures Inv(s')
  {
    TotalUpdate(s.starters, k, e.x);
    hide Total;
    if HasWritten(s.pc) {
      var i :| 0 <= i < |s.starters| && HasOpened(s.starters[i]);
      assert HasOpened(s'.starters[i]);
    }
  }

  lemma InvStarterRuns(s: State, s': State, k: nat)
    requires Inv(s) && StarterRuns(s, s', k)
    ensures Inv(s')
  {
    hide Conserved;
    var x := s.starters[k];
    assert StarterInv(x) && (!s.dead ==> Placed(s.pc, x));
    var hand := HandStep(x, s.fifo.named, s.fifo.buffer, WriterOpen(s));
    var main := MainStep(x, s.fifo.named, s.fifo.buffer, WriterOpen(s), s.dead);
    if Moves(s, s', k, hand) { InvMoves(s, s', k, hand); } else { InvMoves(s, s', k, main); }
  }

  lemma InvOpens(s: State, s': State)
    requires Inv(s) && !s.dead && s.pc == AtOpen && s' == s.(pc := Opened, starters := Woken(s.starters))
    ensures Inv(s')
  {
    TotalSame(s.starters, s'.starters);
    forall k | 0 <= k < |s'.starters|
      ensures StarterInv(s'.starters[k]) && Placed(Opened, s'.starters[k])
    {
      assert StarterInv(s.starters[k]) && Placed(AtOpen, s.starters[k]);
    }
  }

  lemma InvWrites(s: State, s': State)
    requires Inv(s) && WritesFifo(s, s')
    ensures Inv(s')
  {
    hide Total;
    if ReaderOpen(s) {
      var i :| 0 <= i < |s.starters| && HoldsEnd(s.starters[i]);
      assert StarterInv(s.starters[i]) && Placed(Opened, s.starters[i]);
      assert HasOpened(s'.starters[i]);
    }
    forall k | 0 <= k < |s'.starters| && !s'.dead
      ensures Placed(s'.pc, s'.starters[k])
    {
      assert Placed(s.pc, s.starters[k]);
    }
  }

  lemma InvInitRuns(s: State, s': State)
    requires Inv(s) && (InitRuns(s, s') || Discards(s, s') || InitFaults(s, s'))
    ensures Inv(s')
  {
    hide Total;
    if OpensFifo(s, s') || OpensForTheGone(s, s') {
      InvOpens(s, s');
    } else if WritesFifo(s, s') {
      InvWrites(s, s');
    } else if !s'.dead {
      forall k | 0 <= k < |s'.starters| ensures Placed(s'.pc, s'.starters[k]) { assert Placed(s.pc, s.starters[k]); }
    }
  }

  lemma InvFaults(s: State, s': State, k: nat)
    requires Inv(s) && (Begins(s, s', k) || StarterFaults(s, s', k))
    ensures Inv(s')
  {
    hide Conserved;
    var x := s.starters[k];
    assert StarterInv(x) && (!s.dead ==> Placed(s.pc, x));
    InvMoves(s, s', k, Move(s'.starters[k], s'.fifo.named, s'.fifo.buffer));
  }

  lemma InvNext(s: State, s': State)
    requires Inv(s) && Next(s, s')
    ensures Inv(s')
  {
    hide Inv, InitRuns, Discards, InitFaults, StarterRuns, Begins, StarterFaults;
    if InitRuns(s, s') || Discards(s, s') || InitFaults(s, s') {
      InvInitRuns(s, s');
    } else if k: nat :| StarterRuns(s, s', k) {
      InvStarterRuns(s, s', k);
    } else {
      var k: nat :| Begins(s, s', k) || StarterFaults(s, s', k);
      InvFaults(s, s', k);
    }
  }

  lemma {:induction false} InvRun(run: seq<State>, i: nat)
    requires IsRun(run) && i < |run|
    ensures Inv(run[i])
  {
    if i == 0 {
      InvInit(run[0]);
    } else {
      InvRun(run, i - 1);
      InvNext(run[i - 1], run[i]);
    }
  }

  // ----- what holds of every run -----

  /** However many starters there are and whatever fails, at most one of them starts the container. */
  lemma AtMostOneSucceeds(run: seq<State>, i: nat, a: nat, b: nat)
    requires IsRun(run) && i < |run| && a < |run[i].starters| && b < |run[i].starters|
    requires run[i].starters[a].phase == Succeeded && run[i].starters[b].phase == Succeeded
    ensures a == b
  {
    InvRun(run, i);
    if a < b { TotalOfTwo(run[i].starters, a, b); }
    if b < a { TotalOfTwo(run[i].starters, b, a); }
  }

  /** A start that succeeded was of an init that had written its byte. */
  lemma SuccessMeansWritten(run: seq<State>, i: nat, a: nat)
    requires IsRun(run) && i < |run| && a < |run[i].starters| && run[i].starters[a].phase == Succeeded
    ensures HasWritten(run[i].pc)
  {
    InvRun(run, i);
    TotalAtLeast(run[i].starters, a);
  }

  /** The init becomes the user's program only after a starter opened the FIFO. */
  lemma ExecMeansOpened(run: seq<State>, i: nat)
    requires IsRun(run) && i < |run| && run[i].pc == Execed
    ensures exists a: nat :: a < |run[i].starters| && HasOpened(run[i].starters[a])
  {
    InvRun(run, i);
    var a :| 0 <= a < |run[i].starters| && HasOpened(run[i].starters[a]);
  }

  // ----- termination -----

  function HandRank(h: Hand): nat {
    match h
    case Absent => 4
    case LookingUp => 3
    case Blocked => 2
    case Holding => 1
    case _ => 0
  }

  function PhaseRank(p: Phase): nat {
    match p
    case Idle => 4
    case Selecting => 3
    case Reading => 2
    case Removing => 1
    case _ => 0
  }

  function StarterRank(x: Starter): nat { HandRank(x.hand) + PhaseRank(x.phase) + if x.gone then 0 else 1 }

  function StartersRank(xs: seq<Starter>): nat {
    if xs == [] then 0 else StarterRank(xs[0]) + StartersRank(xs[1..])
  }

  function PcRank(pc: InitPc): nat {
    match pc
    case AtOpen => 5
    case Opened => 4
    case Wrote => 2
    case Closed => 1
    case Execed => 0
  }

  function Measure(s: State): nat {
    StartersRank(s.starters) + PcRank(s.pc) + s.fifo.buffer + if s.dead then 0 else 1
  }

  lemma {:induction false} RankUpdate(xs: seq<Starter>, k: nat, x: Starter)
    requires k < |xs|
    ensures StartersRank(xs[k := x]) == StartersRank(xs) - StarterRank(xs[k]) + StarterRank(x)
  {
    hide StarterRank;
    if k == 0 {
      assert xs[0 := x][1..] == xs[1..];
    } else {
      assert xs[k := x][1..] == xs[1..][k - 1 := x];
      RankUpdate(xs[1..], k - 1, x);
    }
  }

  lemma {:induction false} RankWoken(xs: seq<Starter>)
    ensures StartersRank(Woken(xs)) <= StartersRank(xs)
  {
    if xs != [] {
      assert Woken(xs)[1..] == Woken(xs[1..]);
      RankWoken(xs[1..]);
    }
  }

  lemma {:induction false} RankIdle(xs: seq<Starter>)
    requires forall k :: 0 <= k < |xs| ==> xs[k] == IDLE
    ensures StartersRank(xs) == 9 * |xs|
  {
    if xs != [] { RankIdle(xs[1..]); }
  }

  lemma MovesDecrease(s: State, s': State, k: nat, e: Effect)
    requires Moves(s, s', k, e) && StarterRank(e.x) + e.buffer < StarterRank(s.starters[k]) + s.fifo.buffer
    ensures Measure(s') < Measure(s)
  {
    hide StarterRank, StartersRank;
    RankUpdate(s.starters, k, e.x);
  }

  lemma StarterDecreases(s: State, s': State, k: nat)
    requires StarterRuns(s, s', k)
    ensures Measure(s') < Measure(s)
  {
    hide Measure;
    var x := s.starters[k];
    var hand := HandStep(x, s.fifo.named, s.fifo.buffer, WriterOpen(s));
    var main := MainStep(x, s.fifo.named, s.fifo.buffer, WriterOpen(s), s.dead);
    if Moves(s, s', k, hand) { MovesDecrease(s, s', k, hand); } else { MovesDecrease(s, s', k, main); }
  }

  lemma InitDecreases(s: State, s': State)
    requires InitRuns(s, s') || Discards(s, s') || InitFaults(s, s')
    ensures Measure(s') < Measure(s)
  {
    hide StartersRank;
    RankWoken(s.starters);
  }

  lemma FaultDecreases(s: State, s': State, k: nat)
    requires Begins(s, s', k) || StarterFaults(s, s', k)
    ensures Measure(s') < Measure(s)
  {
    hide Measure;
    MovesDecrease(s, s', k, Move(s'.starters[k], s'.fifo.named, s'.fifo.buffer));
  }

  lemma MeasureDecreases(s: State, s': State)
    requires Next(s, s')
    ensures Measure(s') < Measure(s)
  {
    hide Measure, InitRuns, Discards, InitFaults, StarterRuns, StarterFaults;
    if InitRuns(s, s') || Discards(s, s') || InitFaults(s, s') {
      InitDecreases(s, s');
    } else if k: nat :| StarterRuns(s, s', k) {
      StarterDecreases(s, s', k);
    } else {
      var k: nat :| Begins(s, s', k) || StarterFaults(s, s', k);
      FaultDecreases(s, s', k);
    }
  }

  lemma {:induction false} MeasureFalls(run: seq<State>, i: nat)
    requires IsRun(run) && i < |run|
    ensures i + Measure(run[i]) <= Measure(run[0])
  {
    hide Measure, Next, Init;
    if i > 0 {
      MeasureFalls(run, i - 1);
      MeasureDecreases(run[i - 1], run[i]);
    }
  }

  /** Every run, whatever fails, is over after a number of steps that grows with the number of starters only. */
  lemma RunsAreShort(run: seq<State>)
    requires IsRun(run)
    ensures |run| + Measure(run[|run| - 1]) <= 1 + Measure(run[0])
    ensures |run| <= 9 * |run[0].starters| + 7
  {
    hide Measure, Next, Init;
    MeasureFalls(run, |run| - 1);
    InitialMeasure(run[0]);
  }

  lemma InitialMeasure(s: State)
    requires Init(s)
    ensures Measure(s) == 9 * |s.starters| + 6
  {
    RankIdle(s.starters);
  }

  // ----- starters that wait -----

  ghost predicate Stopped(s: State) { forall s' :: !Runs(s, s') }

  predicate Finished(x: Starter) { x.phase == Succeeded || x.phase == Failed }

  predicate HasClosed(pc: InitPc) { pc == Closed || pc == Execed }

  /** The starter waits for a writer that has come and gone. */
  predicate Waits(s: State, x: Starter) {
    x.phase == Selecting && x.hand == Blocked && !x.gone && !s.dead && HasClosed(s.pc)
  }

  lemma CanMove(s: State, k: nat, e: Effect)
    requires k < |s.starters| && e.Move?
    requires e == HandStep(s.starters[k], s.fifo.named, s.fifo.buffer, WriterOpen(s))
          || e == MainStep(s.starters[k], s.fifo.named, s.fifo.buffer, WriterOpen(s), s.dead)
    ensures !Stopped(s)
  {
    var s' := s.(fifo := s.fifo.(named := e.named, buffer := e.buffer), starters := s.starters[k := e.x]);
    assert StarterRuns(s, s', k);
    assert Runs(s, s');
  }

  lemma InitCanRun(s: State)
    requires !s.dead && s.pc != Execed && (s.pc == AtOpen ==> ReaderOpen(s))
    ensures !Stopped(s)
  {
    var s' :=
      match s.pc
      case AtOpen => s.(pc := Opened, starters := Woken(s.starters))
      case Opened =>
        if ReaderOpen(s)
        then s.(pc := Wrote, fifo := s.fifo.(buffer := s.fifo.buffer + 1, written := s.fifo.written + 1))
        else s.(dead := true)
      case Wrote => s.(pc := Closed)
      case Closed => s.(pc := Execed);
    assert InitRuns(s, s');
    assert Runs(s, s');
  }

  /** When nothing can happen any more, every starter has not begun, is gone, is done, or waits for a writer. */
  lemma OnlyTheLateWait(run: seq<State>, i: nat, k: nat)
    requires IsRun(run) && i < |run| && Stopped(run[i]) && k < |run[i].starters|
    ensures var x := run[i].starters[k];
      x.phase == Idle || x.gone || Finished(x) || (Waits(run[i], x) && run[i].pc == Execed)
  {
    hide Inv, Stopped;
    var s := run[i];
    var x := s.starters[k];
    InvRunStarter(run, i, k);
    var hand := HandStep(x, s.fifo.named, s.fifo.buffer, WriterOpen(s));
    var main := MainStep(x, s.fifo.named, s.fifo.buffer, WriterOpen(s), s.dead);
    if hand.Move? { CanMove(s, k, hand); }
    if main.Move? { CanMove(s, k, main); }
    if !s.dead && s.pc != Execed && HoldsEnd(x) { InitCanRun(s); }
  }

  lemma InvRunStarter(run: seq<State>, i: nat, k: nat)
    requires IsRun(run) && i < |run| && k < |run[i].starters|
    ensures StarterInv(run[i].starters[k]) && (!run[i].dead ==> Placed(run[i].pc, run[i].starters[k]))
  {
    InvRun(run, i);
  }

  /** What one step can do to one starter. */
  lemma StarterStep(s: State, s': State, k: nat)
    requires Next(s, s') && k < |s.starters|
    ensures |s'.starters| == |s.starters| && (s.dead ==> s'.dead)
    ensures var x, x' := s.starters[k], s'.starters[k];
      || x' == x
      || (s.pc == AtOpen && s'.pc == Opened && x' == Wake(x))
      || (x == IDLE && x' == Starter(LookingUp, Selecting, 0, false))
      || HandStep(x, s.fifo.named, s.fifo.buffer, WriterOpen(s)) == Move(x', s'.fifo.named, s'.fifo.buffer)
      || MainStep(x, s.fifo.named, s.fifo.buffer, WriterOpen(s), s.dead) == Move(x', s'.fifo.named, s'.fifo.buffer)
      || FaultOf(s, x, x')
    ensures s'.pc == s.pc || s'.starters[k] == s.starters[k] || (s.pc == AtOpen && s'.pc == Opened)
  {
    hide HandStep, MainStep, FaultOf, Wake;
  }

  /** Once a starter waits it waits until it or the init dies. */
  lemma {:induction false} WaitsForTheEnd(run: seq<State>, i: nat, j: nat, k: nat)
    requires IsRun(run) && i <= j < |run| && k < |run[i].starters| && Waits(run[i], run[i].starters[k])
    ensures k < |run[j].starters|
    ensures run[j].dead || run[j].starters[k].gone || Waits(run[j], run[j].starters[k])
  {
    hide Next, Waits, Init;
    if i < j {
      WaitsForTheEnd(run, i, j - 1, k);
      OneStepWaits(run[j - 1], run[j], k);
    }
  }

  lemma OneStepWaits(s: State, s': State, k: nat)
    requires Next(s, s') && k < |s.starters|
    ensures k < |s'.starters| && (s.dead ==> s'.dead) && (s.starters[k].gone ==> s'.starters[k].gone)
    ensures Waits(s, s.starters[k]) ==> s'.dead || s'.starters[k].gone || Waits(s', s'.starters[k])
  {
    StarterStep(s, s', k);
    PcOnly(s, s');
    hide Next;
  }

  /** The init does not go back. */
  lemma PcOnly(s: State, s': State)
    requires Next(s, s')
    ensures PcRank(s'.pc) <= PcRank(s.pc)
  {
  }

  /** The starter has looked the FIFO up, and if it blocks then the init is still to come. */
  predicate InTime(s: State, x: Starter) {
    x.hand != Absent && x.hand != LookingUp && (x.hand == Blocked && !x.gone ==> s.pc == AtOpen)
  }

  /** A starter that came in time does not come late later. */
  lemma {:induction false} StaysInTime(run: seq<State>, i: nat, j: nat, k: nat)
    requires IsRun(run) && i <= j < |run| && k < |run[i].starters| && InTime(run[i], run[i].starters[k])
    ensures k < |run[j].starters| && InTime(run[j], run[j].starters[k])
  {
    if i < j {
      StaysInTime(run, i, j - 1, k);
      InvRunStarter(run, j - 1, k);
      assert Next(run[j - 1], run[j]);
      OneStepInTime(run[j - 1], run[j], k);
    }
  }

  lemma OneStepInTime(s: State, s': State, k: nat)
    requires Next(s, s') && k < |s.starters| && InTime(s, s.starters[k]) && StarterInv(s.starters[k])
    ensures k < |s'.starters| && InTime(s', s'.starters[k])
  {
    StarterStep(s, s', k);
    if s.pc == AtOpen && s'.pc != AtOpen { BlockedIsWoken(s, s', k); }
  }

  lemma BlockedIsWoken(s: State, s': State, k: nat)
    requires Next(s, s') && k < |s.starters| && s.pc == AtOpen && s'.pc != AtOpen
    ensures |s'.starters| == |s.starters| && s'.starters[k] == Wake(s.starters[k])
  {
    hide Wake;
  }

  /** Starter k's lookup of the FIFO is the step to state j. */
  predicate LooksUp(run: seq<State>, j: nat, k: nat) {
    && 0 < j < |run| && k < |run[j - 1].starters| && k < |run[j].starters|
    && run[j - 1].starters[k].hand == LookingUp && run[j].starters[k].hand != LookingUp
  }

  /** The FIFO is still there, and the init is done with it. */
  predicate ComesLate(s: State) { s.fifo.named && HasClosed(s.pc) }

  /** What the lookup gives, by what it finds. */
  lemma LookupGives(run: seq<State>, j: nat, k: nat)
    requires IsRun(run) && LooksUp(run, j, k) && !run[j].dead
    ensures if ComesLate(run[j - 1]) then Waits(run[j], run[j].starters[k]) else InTime(run[j], run[j].starters[k])
  {
    var s, s' := run[j - 1], run[j];
    assert Next(s, s');
    StarterStep(s, s', k);
    InvRunStarter(run, j - 1, k);
    AliveSelects(run, j - 1, k);
  }

  /** While the init is alive, a goroutine that still looks belongs to a starter that still selects. */
  predicate LooksSelecting(s: State, x: Starter) { !s.dead && x.hand == LookingUp ==> x.phase == Selecting }

  lemma IdleSelects(s: State)
    requires Init(s)
    ensures forall k :: 0 <= k < |s.starters| ==> LooksSelecting(s, s.starters[k])
  {
  }

  lemma {:induction false} AliveSelects(run: seq<State>, i: nat, k: nat)
    requires IsRun(run) && i < |run| && k < |run[i].starters|
    ensures LooksSelecting(run[i], run[i].starters[k])
  {
    hide Next, LooksSelecting;
    if i == 0 {
      IdleSelects(run[0]);
    } else {
      SameStarters(run[i - 1], run[i]);
      AliveSelects(run, i - 1, k);
      InvRunStarter(run, i - 1, k);
      OneStepSelects(run[i - 1], run[i], k);
    }
  }

  lemma OneStepSelects(s: State, s': State, k: nat)
    requires Next(s, s') && k < |s.starters| && LooksSelecting(s, s.starters[k]) && StarterInv(s.starters[k])
    requires !s.dead ==> Placed(s.pc, s.starters[k])
    ensures k < |s'.starters| && LooksSelecting(s', s'.starters[k])
  {
    StarterStep(s, s', k);
    hide Next;
  }

  lemma SameStarters(s: State, s': State)
    requires Next(s, s')
    ensures |s'.starters| == |s.starters|
  {
  }

  /**
   Exactly who waits: when nothing can happen any more in a container that runs, a starter that is still
   there has not returned if and only if, when it looked the FIFO up, the FIFO was still there and the
   init was already done with it.
   */
  lemma WaitsIff(run: seq<State>, j: nat, i: nat, k: nat)
    requires IsRun(run) && j <= i < |run| && LooksUp(run, j, k)
    requires Stopped(run[i]) && !run[i].dead
    ensures k < |run[i].starters|
    ensures !run[i].starters[k].gone ==> (!Finished(run[i].starters[k]) <==> ComesLate(run[j - 1]))
  {
    hide Inv, Next, Stopped, Placed;
    AliveBefore(run, j, i);
    LookupGives(run, j, k);
    if ComesLate(run[j - 1]) {
      WaitsForTheEnd(run, j, i, k);
    } else {
      StaysInTime(run, j, i, k);
      OnlyTheLateWait(run, i, k);
      InvRunStarter(run, i, k);
    }
  }

  /** The dead stay dead. */
  lemma {:induction false} AliveBefore(run: seq<State>, j: nat, i: nat)
    requires IsRun(run) && j <= i < |run| && !run[i].dead
    ensures !run[j].dead
  {
    if j < i {
      assert Next(run[i - 1], run[i]);
      AliveBefore(run, j, i - 1);
    }
  }

  // ----- what becomes of the byte -----

  /** The starter got the byte and did not report a success. */
  predicate Wasted(x: Starter) { x.got > 0 && x.phase != Succeeded && (x.gone || x.phase == Failed) }

  /**
   When nothing can happen any more after the byte was written, the start has succeeded unless the byte was
   dropped, is stuck in front of a starter that waits, or was read by a starter that then failed or was
   killed; and these exclude each other.
   */
  lemma WhereTheByteWent(run: seq<State>, i: nat)
    requires IsRun(run) && i < |run| && Stopped(run[i]) && HasWritten(run[i].pc)
    ensures var s := run[i];
      (exists k :: 0 <= k < |s.starters| && s.starters[k].phase == Succeeded) <==>
        && s.fifo.lost == 0 && s.fifo.buffer == 0
        && forall k :: 0 <= k < |s.starters| ==> !Wasted(s.starters[k])
  {
    InvRun(run, i);
    var s := run[i];
    if k :| 0 <= k < |s.starters| && s.starters[k].phase == Succeeded {
      TotalAtLeast(s.starters, k);
      forall j | 0 <= j < |s.starters|
        ensures !Wasted(s.starters[j])
      {
        if j < k { TotalOfTwo(s.starters, j, k); }
        if k < j { TotalOfTwo(s.starters, k, j); }
      }
    } else if s.fifo.lost == 0 && s.fifo.buffer == 0 {
      var j := TotalPositive(s.starters);
      OnlyTheLateWait(run, i, j);
      assert StarterInv(s.starters[j]);
      assert Wasted(s.starters[j]);
    }
  }

  // ----- runs without faults -----

  /** The user's program ends; that is no fault. */
  predicate Ends(s: State, s': State) { !s.dead && s.pc == Execed && s' == s.(dead := true) }

  ghost predicate FallsBack(s: State, s': State, k: nat) {
    && k < |s.starters| && k < |s'.starters| && TakesFallback(s, s.starters[k], s'.starters[k])
    && s' == s.(starters := s.starters[k := s'.starters[k]])
  }

  ghost predicate NextWithoutFaults(s: State, s': State) {
    Runs(s, s') || Ends(s, s') || exists k: nat :: Begins(s, s', k) || FallsBack(s, s', k)
  }

  ghost predicate IsFaultFree(run: seq<State>) {
    run != [] && Init(run[0]) && forall i :: 0 < i < |run| ==> NextWithoutFaults(run[i - 1], run[i])
  }

  /** Nobody is killed, and nobody fails with a byte. */
  predicate Careful(x: Starter) { !x.gone && (x.phase == Failed ==> x.got == 0) }

  /** The starter will read on, or is about to. */
  predicate WillRead(x: Starter) { (x.hand == Holding && x.phase == Selecting) || x.phase == Reading }

  ghost predicate SomeoneReads(s: State) { exists k :: 0 <= k < |s.starters| && WillRead(s.starters[k]) }

  ghost predicate SomeoneStarted(s: State) {
    exists k :: 0 <= k < |s.starters| && s.starters[k].phase == Succeeded
  }

  ghost predicate Smooth(s: State) {
    && s.fifo.lost == 0 && (s.dead ==> s.pc == Execed)
    && (forall k :: 0 <= k < |s.starters| ==> Careful(s.starters[k]))
    && (WriterOpen(s) || s.fifo.buffer > 0 ==> SomeoneReads(s))
    && (!s.fifo.named ==> SomeoneStarted(s))
  }

  lemma SmoothMoves(s: State, s': State, k: nat, e: Effect)
    requires Smooth(s) && Moves(s, s', k, e) && Careful(e.x) && e.buffer <= s.fifo.buffer
    requires WriterOpen(s) || e.buffer > 0 ==> (WillRead(s.starters[k]) ==> WillRead(e.x))
    requires s.starters[k].phase == Succeeded ==> e.x.phase == Succeeded
    requires s.fifo.named && !e.named ==> e.x.phase == Succeeded
    ensures Smooth(s')
  {
    if WriterOpen(s') || s'.fifo.buffer > 0 {
      var i :| 0 <= i < |s.starters| && WillRead(s.starters[i]);
      assert WillRead(s'.starters[i]);
    }
    if !s'.fifo.named {
      if s.fifo.named {
        assert s'.starters[k].phase == Succeeded;
      } else {
        var i :| 0 <= i < |s.starters| && s.starters[i].phase == Succeeded;
        assert s'.starters[i].phase == Succeeded;
      }
    }
  }

  /** The byte is taken once somebody has started the container. */
  lemma NothingLeft(s: State)
    requires Inv(s) && SomeoneStarted(s)
    ensures s.fifo.buffer == 0
  {
    var i :| 0 <= i < |s.starters| && s.starters[i].phase == Succeeded;
    assert StarterInv(s.starters[i]);
    TotalAtLeast(s.starters, i);
    hide Total;
  }

  lemma SmoothStarterRuns(s: State, s': State, k: nat)
    requires Inv(s) && Smooth(s) && StarterRuns(s, s', k)
    ensures Smooth(s')
  {
    hide Conserved, SomeoneReads, SomeoneStarted;
    var x := s.starters[k];
    assert StarterInv(x);
    if !s.fifo.named { NothingLeft(s); }
    var hand := HandStep(x, s.fifo.named, s.fifo.buffer, WriterOpen(s));
    var main := MainStep(x, s.fifo.named, s.fifo.buffer, WriterOpen(s), s.dead);
    if Moves(s, s', k, hand) { SmoothMoves(s, s', k, hand); } else { SmoothMoves(s, s', k, main); }
  }

  lemma SmoothFallsBack(s: State, s': State, k: nat)
    requires Inv(s) && Smooth(s) && FallsBack(s, s', k)
    ensures Smooth(s')
  {
    assert StarterInv(s.starters[k]);
    hide Inv, Conserved, SomeoneReads, SomeoneStarted;
    if !s.fifo.named { NothingLeft(s); }
    SmoothMoves(s, s', k, Move(s'.starters[k], s.fifo.named, s.fifo.buffer));
  }

  lemma SmoothOpens(s: State, s': State)
    requires Inv(s) && Smooth(s) && OpensFifo(s, s')
    ensures Smooth(s')
  {
    var i :| 0 <= i < |s.starters| && HoldsEnd(s.starters[i]);
    assert Placed(AtOpen, s.starters[i]) && StarterInv(s.starters[i]) && WillRead(s'.starters[i]);
    forall k | 0 <= k < |s'.starters|
      ensures Careful(s'.starters[k])
    {
      assert Careful(s.starters[k]);
    }
  }

  lemma SmoothInitRuns(s: State, s': State)
    requires Inv(s) && Smooth(s) && InitRuns(s, s')
    ensures Smooth(s')
  {
    if OpensFifo(s, s') {
      SmoothOpens(s, s');
    } else {
      hide Inv, Conserved;
      if WriterOpen(s) || s.fifo.buffer > 0 {
        var i :| 0 <= i < |s.starters| && WillRead(s.starters[i]);
        assert Careful(s.starters[i]) && HoldsEnd(s.starters[i]) && WillRead(s'.starters[i]);
      }
      if !s.fifo.named {
        var i :| 0 <= i < |s.starters| && s.starters[i].phase == Succeeded;
        assert s'.starters[i].phase == Succeeded;
      }
    }
  }

  lemma SmoothEnds(s: State, s': State)
    requires Smooth(s) && Ends(s, s')
    ensures Smooth(s')
  {
    if s.fifo.buffer > 0 {
      var i :| 0 <= i < |s.starters| && WillRead(s.starters[i]);
      assert WillRead(s'.starters[i]);
    }
    if !s.fifo.named {
      var i :| 0 <= i < |s.starters| && s.starters[i].phase == Succeeded;
      assert s'.starters[i].phase == Succeeded;
    }
  }

  lemma NothingToDiscard(s: State, s': State)
    requires Smooth(s)
    ensures !Discards(s, s')
  {
    if s.fifo.buffer > 0 {
      var i :| 0 <= i < |s.starters| && WillRead(s.starters[i]);
      assert Careful(s.starters[i]) && HoldsEnd(s.starters[i]);
    }
  }

  lemma SmoothNext(s: State, s': State)
    requires Inv(s) && Smooth(s) && NextWithoutFaults(s, s')
    ensures Smooth(s')
  {
    hide Inv, Smooth, InitRuns, Discards, StarterRuns, Begins, Ends, FallsBack;
    NothingToDiscard(s, s');
    if InitRuns(s, s') {
      SmoothInitRuns(s, s');
    } else if Ends(s, s') {
      SmoothEnds(s, s');
    } else if k: nat :| StarterRuns(s, s', k) {
      SmoothStarterRuns(s, s', k);
    } else {
      var k: nat :| Begins(s, s', k) || FallsBack(s, s', k);
      if Begins(s, s', k) { SmoothBegins(s, s', k); } else { SmoothFallsBack(s, s', k); }
    }
  }

  lemma SmoothBegins(s: State, s': State, k: nat)
    requires Inv(s) && Smooth(s) && Begins(s, s', k)
    ensures Smooth(s')
  {
    SmoothMoves(s, s', k, Move(s'.starters[k], s.fifo.named, s.fifo.buffer));
  }

  lemma WithoutFaultsIsNext(s: State, s': State)
    requires NextWithoutFaults(s, s')
    ensures Next(s, s')
  {
    hide Runs, Begins;
    if k: nat :| FallsBack(s, s', k) { assert StarterFaults(s, s', k); }
  }

  lemma FaultFreeIsRun(run: seq<State>)
    requires IsFaultFree(run)
    ensures IsRun(run)
  {
    hide Init, Next, NextWithoutFaults;
    forall i | 0 < i < |run| ensures Next(run[i - 1], run[i]) { WithoutFaultsIsNext(run[i - 1], run[i]); }
  }

  lemma {:induction false} SmoothRun(run: seq<State>, i: nat)
    requires IsFaultFree(run) && i < |run|
    ensures IsRun(run) && Smooth(run[i])
  {
    FaultFreeIsRun(run);
    if i > 0 {
      SmoothRun(run, i - 1);
      InvRun(run, i - 1);
      SmoothNext(run[i - 1], run[i]);
    }
  }

  /**
   If nothing fails and somebody tries, then in the end somebody has started the container, even if its
   program has ended by then and whichever branch a starter takes that finds it dead.
   */
  lemma SomeoneSucceeds(run: seq<State>, a: nat) returns (k: nat)
    requires IsFaultFree(run)
    requires var s := run[|run| - 1]; Stopped(s) && a < |s.starters| && s.starters[a].phase != Idle
    ensures var s := run[|run| - 1];
      s.pc == Execed && !s.fifo.named && k < |s.starters| && s.starters[k].phase == Succeeded
  {
    var last := |run| - 1;
    var s := run[last];
    SmoothRun(run, last);
    RemovedIffStarted(run, last);
    InvRun(run, last);
    StoppedIsExeced(s, a);
    if s.fifo.buffer > 0 {
      var i :| 0 <= i < |s.starters| && WillRead(s.starters[i]);
      OnlyTheLateWait(run, last, i);
      assert false;
    }
    k := TotalPositive(s.starters);
    OnlyTheLateWait(run, last, k);
    assert Careful(s.starters[k]) && StarterInv(s.starters[k]);
  }

  lemma StoppedIsExeced(s: State, a: nat)
    requires Inv(s) && Smooth(s) && Stopped(s) && a < |s.starters| && s.starters[a].phase != Idle
    ensures s.pc == Execed
  {
    if s.pc == AtOpen {
      var x := s.starters[a];
      assert Placed(AtOpen, x) && StarterInv(x) && Careful(x);
      if x.hand == LookingUp {
        CanMove(s, a, HandStep(x, s.fifo.named, s.fifo.buffer, WriterOpen(s)));
      } else {
        assert HoldsEnd(x);
      }
    }
    if s.pc != Execed { InitCanRun(s); }
  }

  // ----- what a starter does, step by step -----

  ghost predicate RemovedByStart(s: State) { !s.fifo.named <==> SomeoneStarted(s) }

  lemma RemovedMoves(s: State, s': State, k: nat, e: Effect)
    requires RemovedByStart(s) && Moves(s, s', k, e)
    requires s.starters[k].phase == Succeeded ==> e.x.phase == Succeeded
    requires !e.named <==> !s.fifo.named || e.x.phase == Succeeded
    ensures RemovedByStart(s')
  {
    if i :| 0 <= i < |s.starters| && s.starters[i].phase == Succeeded { assert s'.starters[i].phase == Succeeded; }
    if i :| 0 <= i < |s'.starters| && s'.starters[i].phase == Succeeded {
      if i != k { assert s.starters[i].phase == Succeeded; }
    }
    if e.x.phase == Succeeded { assert s'.starters[k].phase == Succeeded; }
  }

  lemma RemovedStarterRuns(s: State, s': State, k: nat)
    requires RemovedByStart(s) && StarterRuns(s, s', k)
    ensures RemovedByStart(s')
  {
    var x := s.starters[k];
    if x.phase == Succeeded { assert SomeoneStarted(s); }
    hide RemovedByStart;
    assert x.phase == Succeeded ==> !s.fifo.named by { SucceededIsRemoved(s, k); }
    var hand := HandStep(x, s.fifo.named, s.fifo.buffer, WriterOpen(s));
    var main := MainStep(x, s.fifo.named, s.fifo.buffer, WriterOpen(s), s.dead);
    if Moves(s, s', k, hand) { RemovedMoves(s, s', k, hand); } else { RemovedMoves(s, s', k, main); }
  }

  lemma SucceededIsRemoved(s: State, k: nat)
    requires RemovedByStart(s) && k < |s.starters|
    ensures s.starters[k].phase == Succeeded ==> !s.fifo.named
  {
  }

  lemma RemovedOthers(s: State, s': State, k: nat)
    requires RemovedByStart(s) && (Begins(s, s', k) || StarterFaults(s, s', k))
    ensures RemovedByStart(s')
  {
    SucceededIsRemoved(s, k);
    hide RemovedByStart;
    RemovedMoves(s, s', k, Move(s'.starters[k], s.fifo.named, s.fifo.buffer));
  }

  lemma RemovedInitRuns(s: State, s': State)
    requires RemovedByStart(s) && (InitRuns(s, s') || Discards(s, s') || InitFaults(s, s'))
    ensures RemovedByStart(s')
  {
    forall i | 0 <= i < |s.starters|
      ensures |s'.starters| == |s.starters| && s'.starters[i].phase == s.starters[i].phase
    {
    }
    if i :| 0 <= i < |s.starters| && s.starters[i].phase == Succeeded { assert s'.starters[i].phase == Succeeded; }
    if i :| 0 <= i < |s'.starters| && s'.starters[i].phase == Succeeded { assert s.starters[i].phase == Succeeded; }
  }

  /** In every run, the FIFO has been removed if and only if a start has succeeded. */
  lemma {:induction false} RemovedIffStarted(run: seq<State>, i: nat)
    requires IsRun(run) && i < |run|
    ensures !run[i].fifo.named <==> exists k :: 0 <= k < |run[i].starters| && run[i].starters[k].phase == Succeeded
  {
    if i > 0 {
      RemovedIffStarted(run, i - 1);
      RemovedNext(run[i - 1], run[i]);
    }
  }

  lemma RemovedNext(s: State, s': State)
    requires RemovedByStart(s) && Next(s, s')
    ensures RemovedByStart(s')
  {
    hide RemovedByStart, InitRuns, Discards, InitFaults, StarterRuns, Begins, StarterFaults;
    if InitRuns(s, s') || Discards(s, s') || InitFaults(s, s') {
      RemovedInitRuns(s, s');
    } else if k: nat :| StarterRuns(s, s', k) {
      RemovedStarterRuns(s, s', k);
    } else {
      var k: nat :| Begins(s, s', k) || StarterFaults(s, s', k);
      RemovedOthers(s, s', k);
    }
  }

  /** A name that is gone stays gone. */
  lemma NameStaysGone(s: State, s': State)
    requires Next(s, s') && !s.fifo.named
    ensures !s'.fifo.named
  {
  }

  lemma {:induction false} OpenFailsOnlyIfGone(run: seq<State>, i: nat, k: nat)
    requires IsRun(run) && i < |run| && k < |run[i].starters|
    ensures run[i].starters[k].hand == OpenFailed ==> !run[i].fifo.named
  {
    hide Next;
    if i > 0 {
      SameStarters(run[i - 1], run[i]);
      OpenFailsOnlyIfGone(run, i - 1, k);
      OpenFailsStep(run[i - 1], run[i], k);
    }
  }

  lemma OpenFailsStep(s: State, s': State, k: nat)
    requires Next(s, s') && k < |s.starters| && (s.starters[k].hand == OpenFailed ==> !s.fifo.named)
    ensures k < |s'.starters| && (s'.starters[k].hand == OpenFailed ==> !s'.fifo.named)
  {
    StarterStep(s, s', k);
    if !s.fifo.named { NameStaysGone(s, s'); }
    hide Next;
  }

  /**
   In every run, a starter that gives up before it reads does so only because the FIFO is gone; even one
   that finds the init dead reads what is left.
   */
  lemma GivesUpOnlyIfGone(run: seq<State>, i: nat, k: nat)
    requires IsRun(run) && 0 < i < |run| && k < |run[i - 1].starters| && k < |run[i].starters|
    requires run[i - 1].starters[k].phase == Selecting && run[i].starters[k].phase == Failed
    ensures !run[i - 1].fifo.named
  {
    hide Next, Init;
    OpenFailsOnlyIfGone(run, i - 1, k);
    GivesUpStep(run[i - 1], run[i], k);
  }

  lemma GivesUpStep(s: State, s': State, k: nat)
    requires Next(s, s') && k < |s.starters| && k < |s'.starters|
    requires s.starters[k].phase == Selecting && s'.starters[k].phase == Failed
    ensures !s.fifo.named || s.starters[k].hand == OpenFailed
  {
    StarterStep(s, s', k);
  }

  /**
   In a run without faults, a starter stops reading only at the end of file: the FIFO is empty and no
   writer has it open. It then goes on if and only if it has read something.
   */
  lemma ReadsToTheEnd(run: seq<State>, i: nat, k: nat)
    requires IsFaultFree(run) && 0 < i < |run| && k < |run[i - 1].starters| && k < |run[i].starters|
    requires run[i - 1].starters[k].phase == Reading && run[i].starters[k].phase != Reading
    ensures run[i - 1].fifo.buffer == 0 && !WriterOpen(run[i - 1])
    ensures run[i].starters[k].phase == if run[i - 1].starters[k].got > 0 then Removing else Failed
  {
    ReadingStep(run[i - 1], run[i], k);
  }

  lemma ReadingStep(s: State, s': State, k: nat)
    requires NextWithoutFaults(s, s') && k < |s.starters| && k < |s'.starters|
    requires s.starters[k].phase == Reading && s'.starters[k].phase != Reading
    ensures MainStep(s.starters[k], s.fifo.named, s.fifo.buffer, WriterOpen(s), s.dead) ==
            Move(s'.starters[k], s'.fifo.named, s'.fifo.buffer)
  {
    hide MainStep;
  }

  /** In every run, the init writes its byte only while a starter has the FIFO open, and otherwise dies of it. */
  lemma WritesToReader(run: seq<State>, i: nat)
    requires IsRun(run) && 0 < i < |run| && run[i - 1].pc == Opened && run[i].pc != Opened
    ensures run[i].pc == Wrote && ReaderOpen(run[i - 1])
    ensures run[i].fifo.buffer == run[i - 1].fifo.buffer + 1
  {
    assert Next(run[i - 1], run[i]);
  }

  // ----- a starter can come late -----

  ghost predicate Reachable(s: State) {
    exists run :: IsRun(run) && run[|run| - 1] == s
  }

  lemma ReachNext(s: State, s': State)
    requires Reachable(s) && Next(s, s')
    ensures Reachable(s')
  {
    hide Next, Init;
    var run :| IsRun(run) && run[|run| - 1] == s;
    assert IsRun(run + [s']);
  }

  lemma ReachMoves(s: State, s': State, k: nat)
    requires Reachable(s) && StarterRuns(s, s', k)
    ensures Reachable(s')
  {
    hide StarterRuns;
    ReachNext(s, s');
  }

  lemma ReachBegins(s: State, s': State, k: nat)
    requires Reachable(s) && Begins(s, s', k)
    ensures Reachable(s')
  {
    hide Begins;
    ReachNext(s, s');
  }

  /** One starter has the FIFO open, the init has it open for writing, and another has not begun. */
  lemma ReachOpened() returns (s: State)
    ensures Reachable(s)
    ensures s == State(Opened, false, Fifo(true, 0, 0, 0), [Starter(Holding, Selecting, 0, false), IDLE])
  {
    var idle := IDLE;
    var s0 := State(AtOpen, false, Fifo(true, 0, 0, 0), [idle, idle]);
    assert IsRun([s0]);
    hide Reachable;
    var s1 := s0.(starters := [Starter(LookingUp, Selecting, 0, false), idle]);
    ReachBegins(s0, s1, 0);
    var s2 := s1.(starters := [Starter(Blocked, Selecting, 0, false), idle]);
    ReachMoves(s1, s2, 0);
    s := s2.(pc := Opened, starters := [Starter(Holding, Selecting, 0, false), idle]);
    assert HoldsEnd(s2.starters[0]) && OpensFifo(s2, s);
    ReachNext(s2, s);
  }

  /** It has read the byte, and the init has closed the FIFO. */
  lemma ReachRead() returns (s: State)
    ensures Reachable(s)
    ensures s == State(Closed, false, Fifo(true, 0, 1, 0), [Starter(Handed, Reading, 1, false), IDLE])
  {
    var s0 := ReachOpened();
    hide Reachable;
    var idle := IDLE;
    var s1 := s0.(starters := [Starter(Handed, Reading, 0, false), idle]);
    ReachMoves(s0, s1, 0);
    var s2 := s1.(pc := Wrote, fifo := Fifo(true, 1, 1, 0));
    assert HoldsEnd(s1.starters[0]) && WritesFifo(s1, s2);
    ReachNext(s1, s2);
    var s3 := s2.(fifo := Fifo(true, 0, 1, 0), starters := [Starter(Handed, Reading, 1, false), idle]);
    ReachMoves(s2, s3, 0);
    s := s3.(pc := Closed);
    ReachNext(s3, s);
  }

  /** A starter that looks the FIFO up between its closing and its removal comes late. */
  lemma SomeComeLate() returns (s: State)
    ensures Reachable(s) && |s.starters| == 2
    ensures s.starters[0].phase == Succeeded && Waits(s, s.starters[1])
  {
    var s0 := ReachRead();
    var first := Starter(Handed, Reading, 1, false);
    var s1 := s0.(starters := [first, Starter(LookingUp, Selecting, 0, false)]);
    ReachBegins(s0, s1, 1);
    var late := Starter(Blocked, Selecting, 0, false);
    var s2 := s1.(starters := [first, late]);
    ReachMoves(s1, s2, 1);
    var s3 := s2.(starters := [Starter(Handed, Removing, 1, false), late]);
    ReachMoves(s2, s3, 0);
    var s4 := s3.(fifo := Fifo(false, 0, 1, 0), starters := [Starter(Handed, Succeeded, 1, false), late]);
    ReachMoves(s3, s4, 0);
    s := s4.(pc := Execed);
    ReachNext(s4, s);
  }

  /**
   A starter that is killed between the write and its read takes the byte with it: the container runs
   although no start has succeeded.
   */
  lemma SomeAreLost() returns (s: State)
    ensures Reachable(s) && s.pc == Execed && !s.dead && s.fifo.lost == 1
    ensures forall k :: 0 <= k < |s.starters| ==> s.starters[k].phase != Succeeded
  {
    var s0 := ReachOpened();
    hide Reachable;
    var s1 := s0.(pc := Wrote, fifo := Fifo(true, 1, 1, 0));
    assert HoldsEnd(s0.starters[0]) && WritesFifo(s0, s1);
    ReachNext(s0, s1);
    var s2 := s1.(starters := [Starter(Holding, Selecting, 0, true), IDLE]);
    assert StarterFaults(s1, s2, 0);
    ReachNext(s1, s2);
    var s3 := s2.(pc := Closed);
    ReachNext(s2, s3);
    var s4 := s3.(fifo := Fifo(true, 0, 1, 1));
    assert Discards(s3, s4);
    ReachNext(s3, s4);
    s := s4.(pc := Execed);
    ReachNext(s4, s);
  }
}
