/**
 What a validated configuration adds to the synchronisation protocol: runc never has to refuse a
 mount request, and a run in which nothing fails ends with the child as the user's program and with
 success (libcontainer/configs/validate/validator.go, libcontainer/rootfs_linux.go,
 libcontainer/mount_linux.go).
 */
module MountRequests {
  import opened Wrappers
  import opened Queues
  import opened SyncProtocol

  datatype MountError =
    | BindWithData | RecAttrIdMap | IdMapWithoutBind | IdMapRootless | IdMapIncomplete | IdMapTwice

  function CheckBindOptions(m: Mount): Option<MountError> {
    if m.bind && m.data != "" then Some(BindWithData) else None
  }

  function CheckIdMapMounts(c: Config, m: Mount): Option<MountError> {
    if m.recAttrIdMap then Some(RecAttrIdMap)
    else if m.idMapping.NoMapping? then None
    else if !m.bind then Some(IdMapWithoutBind)
    else if c.rootless then Some(IdMapRootless)
    else if m.idMapping.m.userNsPath == "" then
      if m.idMapping.m.uids == 0 || m.idMapping.m.gids == 0 then Some(IdMapIncomplete) else None
    else if !m.idMapping.m.listsAreNil then Some(IdMapTwice) else None
  }

  /** The first error of the first mount that has one. */
  function MountsStrict(c: Config, ms: Mounts): Option<MountError> {
    match ms
    case NoMounts => None
    case Mounts(m, others) =>
      var bind := CheckBindOptions(m);
      if bind.Some? then bind
      else
        var idMap := CheckIdMapMounts(c, m);
        if idMap.Some? then idMap else MountsStrict(c, others)
  }

  predicate Listed(ms: Mounts, m: Mount) {
    match ms
    case NoMounts => false
    case Mounts(first, others) => first == m || Listed(others, m)
  }

  /** What validation lets pass. */
  ghost predicate Validated(c: Config, m: Mount) {
    && (m.bind ==> m.data == "")
    && !m.recAttrIdMap
    && (m.idMapping.Mapping? ==>
          && m.bind && !c.rootless
          && (m.idMapping.m.userNsPath == "" ==> m.idMapping.m.uids > 0 && m.idMapping.m.gids > 0)
          && (m.idMapping.m.userNsPath != "" ==> m.idMapping.m.listsAreNil))
  }

  lemma ValidatedIff(c: Config, m: Mount)
    ensures CheckBindOptions(m) == None && CheckIdMapMounts(c, m) == None <==> Validated(c, m)
  {
  }

  ghost predicate AllValidated(c: Config, ms: Mounts) { forall m :: Listed(ms, m) ==> Validated(c, m) }

  lemma AllValidatedNext(c: Config, first: Mount, others: Mounts)
    ensures AllValidated(c, Mounts(first, others)) <==> Validated(c, first) && AllValidated(c, others)
  {
    hide Validated;
    var ms := Mounts(first, others);
    assert forall m :: Listed(ms, m) <==> m == first || Listed(others, m);
    if AllValidated(c, ms) { assert Listed(ms, first); }
  }

  /** Exactly the lists of which every mount is valid pass. */
  lemma {:induction false} MountsStrictIff(c: Config, ms: Mounts)
    ensures MountsStrict(c, ms) == None <==> forall m :: Listed(ms, m) ==> Validated(c, m)
  {
    match ms
    case NoMounts =>
    case Mounts(first, others) =>
      MountsStrictIff(c, others);
      ValidatedIff(c, first);
      AllValidatedNext(c, first, others);
      hide Listed, Validated, CheckBindOptions, CheckIdMapMounts;
  }

  // ----- requests that runc grants -----

  /** runc does not refuse the request; seccomp requests are looked at only if asked. */
  predicate Granted(c: Config, seccompToo: bool, r: Request) {
    match r
    case PleaseMount(m) => m.bind && !c.rootless
    case Seccomp => seccompToo ==> c.listenerPath
    case _ => true
  }

  predicate AllGranted(c: Config, seccompToo: bool, t: Script) {
    match t
    case Nil => true
    case Ask(r, n) => Granted(c, seccompToo, r) && AllGranted(c, seccompToo, n)
    case Local(_, n) => AllGranted(c, seccompToo, n)
    case Close(n) => AllGranted(c, seccompToo, n)
  }

  /** A notify fd has somewhere to go. */
  predicate HasListener(c: Config) { c.seccomp && c.notify ==> c.listenerPath }

  lemma MountScriptGranted(c: Config, seccompToo: bool, ms: Mounts, next: Script)
    requires MountsStrict(c, ms) == None && AllGranted(c, seccompToo, next)
    ensures AllGranted(c, seccompToo, MountScript(c, ms, next))
  {
  }

  lemma SeccompScriptGranted(c: Config, seccompToo: bool, here: bool, next: Script)
    requires (seccompToo ==> HasListener(c)) && AllGranted(c, seccompToo, next)
    ensures AllGranted(c, seccompToo, SeccompScript(c, here, next))
  {
    assert c.seccomp && c.notify ==> AllGranted(c, seccompToo, Ask(Seccomp, next));
  }

  lemma ScriptGranted(c: Config, seccompToo: bool)
    requires MountsStrict(c, c.mounts) == None && (seccompToo ==> HasListener(c))
    ensures AllGranted(c, seccompToo, ChildScript(c))
  {
    var last := if c.standard then Local(WriteFifo, Nil) else Nil;
    assert AllGranted(c, seccompToo, Close(last));
    SeccompScriptGranted(c, seccompToo, c.noNewPrivileges, Close(last));
    var late := Local(FinalizeNamespace, SeccompScript(c, c.noNewPrivileges, Close(last)));
    SeccompScriptGranted(c, seccompToo, !c.noNewPrivileges, late);
    var ready := ReadyScript(c, last);
    assert AllGranted(c, seccompToo, ready);
    var t := Ask(Hooks, Local(Pivot, Local(Finish, ready)));
    assert AllGranted(c, seccompToo, t);
    MountScriptGranted(c, seccompToo, c.mounts, t);
  }

  lemma MountScriptAsksFor(c: Config, ms: Mounts, next: Script, m: Mount)
    requires !Asks(next, PleaseMount(m))
    ensures Asks(MountScript(c, ms, next), PleaseMount(m)) <==> Listed(ms, m) && WantsSource(c, m)
  {
  }

  lemma SeccompScriptAsksForNone(c: Config, here: bool, next: Script, m: Mount)
    requires !Asks(next, PleaseMount(m))
    ensures !Asks(SeccompScript(c, here, next), PleaseMount(m))
  {
    assert !Asks(Ask(Seccomp, next), PleaseMount(m));
  }

  lemma ReadyScriptAsksForNone(c: Config, last: Script, m: Mount)
    requires AsksNothing(last)
    ensures !Asks(ReadyScript(c, last), PleaseMount(m))
  {
    hide SeccompScript;
    AsksNothingAtAll(last, PleaseMount(m));
    SeccompScriptAsksForNone(c, c.noNewPrivileges, Close(last), m);
    var final := Local(FinalizeNamespace, SeccompScript(c, c.noNewPrivileges, Close(last)));
    SeccompScriptAsksForNone(c, !c.noNewPrivileges, final, m);
  }

  /** The child of a container asks for exactly the listed mounts whose source it cannot open or map itself. */
  lemma AskedIff(c: Config, m: Mount)
    ensures Asks(ChildScript(c), PleaseMount(m)) <==>
      && c.standard && Listed(c.mounts, m)
      && (m.idMapping.Mapping? || (m.bind && !c.rootless && !m.canStat))
  {
    hide MountScript, ReadyScript, Listed;
    if c.standard {
      var last := Local(WriteFifo, Nil);
      assert AsksNothing(last);
      ReadyScriptAsksForNone(c, last, m);
      var finish := Local(Finish, ReadyScript(c, last));
      assert !Asks(finish, PleaseMount(m));
      MountScriptAsksFor(c, c.mounts, Ask(Hooks, Local(Pivot, finish)), m);
    } else {
      ReadyScriptAsksForNone(c, Nil, m);
    }
  }

  predicate Willing(t: Todo) {
    match t
    case Do(_, n) => Willing(n)
    case Send(_, n) => Willing(n)
    case Refuse(_) => false
    case _ => true
  }

  lemma HandlerWilling(c: Config, r: Request)
    requires Granted(c, true, r)
    ensures Willing(Handler(c, r))
  {
    if r.Hooks? {
      var reply := Send(Reply(HooksDone, false, false), Done);
      var created := Do(CreateRuntime, reply);
      assert Willing(created);
      assert Willing(if c.runtimeHooks then Do(QueryState, Do(Prestart, created)) else reply);
    } else if r.Ready? {
      assert Willing(Do(SaveState, Send(Reply(Run, false, false), Done)));
    } else if r.Seccomp? {
      assert Willing(Do(QueryState, Do(Forward, Done)));
      assert Willing(Do(Forward, Done));
    } else {
      assert Willing(Send(File(r.mount.source), Done));
    }
  }

  /** Nothing that runc would refuse is asked, on its way, or being handled. */
  predicate Served(c: Config, seccompToo: bool, s: State) {
    && AllGranted(c, seccompToo, s.child.rest)
    && (s.toParent.Items? && s.toParent.head.Req? ==> Granted(c, seccompToo, s.toParent.head.r))
    && (Willing(s.parent.todo) || (!seccompToo && s.parent.todo == Refuse(Seccomp)))
  }

  lemma ServedParentStep(c: Config, seccompToo: bool, s: State)
    requires Inv(c, s) && Served(c, seccompToo, s) && ParentStep(c, s).Some?
    ensures Served(c, seccompToo, ParentStep(c, s).value)
  {
    hide Past, Shape, Outcome, OnTheWay, Unanswered, AllGranted;
    if s.parent.mode == Serving && s.parent.todo == Done && s.toParent.Items? && s.toParent.head.Req? {
      var r := s.toParent.head.r;
      assert s.toParent.rest == Empty;
      if Granted(c, true, r) { HandlerWilling(c, r); } else { assert r.Seccomp?; }
    }
  }

  lemma ServedChildStep(c: Config, seccompToo: bool, s: State)
    requires Inv(c, s) && Served(c, seccompToo, s) && ChildStep(s).Some?
    ensures Served(c, seccompToo, ChildStep(s).value)
  {
    hide Past, Outcome, OnTheWay, Unanswered, Willing;
  }

  lemma ServedNext(c: Config, seccompToo: bool, s: State, s': State)
    requires Inv(c, s) && Served(c, seccompToo, s) && Next(c, s, s')
    ensures Served(c, seccompToo, s')
  {
    hide Inv, ParentStep, ChildStep, AllGranted, Granted, Willing;
    if ParentStep(c, s) == Some(s') {
      ServedParentStep(c, seccompToo, s);
    } else if ChildStep(s) == Some(s') {
      ServedChildStep(c, seccompToo, s);
    }
  }

  lemma ServedStart(c: Config, seccompToo: bool)
    requires MountsStrict(c, c.mounts) == None && (seccompToo ==> HasListener(c))
    ensures Served(c, seccompToo, Start(c))
  {
    hide AllGranted, ChildScript;
    ScriptGranted(c, seccompToo);
  }

  lemma {:induction false} ServedRun(c: Config, seccompToo: bool, run: seq<State>, i: nat)
    requires IsRun(c, run) && i < |run|
    requires MountsStrict(c, c.mounts) == None && (seccompToo ==> HasListener(c))
    ensures Served(c, seccompToo, run[i])
  {
    hide Inv, Next, Served, Start, MountsStrict, HasListener;
    if i == 0 {
      ServedStart(c, seccompToo);
    } else {
      ServedRun(c, seccompToo, run, i - 1);
      InvRun(c, run, i - 1);
      ServedNext(c, seccompToo, run[i - 1], run[i]);
    }
  }

  /** With validated mounts runc never refuses a mount request, whatever else fails. */
  lemma MountsAreGranted(c: Config, run: seq<State>, i: nat)
    requires IsRun(c, run) && i < |run| && MountsStrict(c, c.mounts) == None
    ensures run[i].parent.todo.Refuse? ==> run[i].parent.todo.r == Seccomp && !c.listenerPath
  {
    ServedRun(c, false, run, i);
    if HasListener(c) { ServedRun(c, true, run, i); }
  }

  // ----- runs in which nothing fails -----

  /** Nobody has failed, and runc stops serving only when the child has closed its end. */
  predicate Smooth(s: State) {
    && (s.child.phase == Running || s.child.phase == Waiting || s.child.phase == WaitingFile || s.child.phase == Execed)
    && (s.parent.mode == Serving || IsOk(s.parent.mode))
  }

  lemma SmoothParentStep(c: Config, s: State)
    requires Inv(c, s) && Served(c, true, s) && Smooth(s) && ParentStep(c, s).Some?
    ensures Smooth(ParentStep(c, s).value)
  {
    if s.child.closed { ClosedIsReady(c, s); }
    hide Past, Unanswered, AllGranted, ReadyOk, Ordered, Closes;
  }

  lemma ClosedIsReady(c: Config, s: State)
    requires Inv(c, s) && s.child.closed
    ensures MarkReady in s.log.done
  {
    AsksNothingAtAll(s.child.rest, Ready);
  }

  lemma SmoothChildStep(c: Config, s: State)
    requires Inv(c, s) && Smooth(s) && ChildStep(s).Some?
    ensures Smooth(ChildStep(s).value)
  {
    ChildStepInv(c, s);
    hide Past, Unanswered, OnTheWay, Ordered, Closes, ReadyOk, Sends;
  }

  lemma {:induction false} SmoothRun(c: Config, run: seq<State>, i: nat)
    requires IsFaultFree(c, run) && i < |run|
    requires MountsStrict(c, c.mounts) == None && HasListener(c)
    ensures IsRun(c, run) && Smooth(run[i])
  {
    assert IsRun(c, run);
    if i > 0 {
      SmoothRun(c, run, i - 1);
      InvRun(c, run, i - 1);
      ServedRun(c, true, run, i - 1);
      var s, s' := run[i - 1], run[i];
      assert Runs(c, s, s');
      hide Inv, ParentStep, ChildStep, Served;
      if ParentStep(c, s) == Some(s') {
        SmoothParentStep(c, s);
      } else {
        SmoothChildStep(c, s);
      }
    }
  }

  /** A run in which nothing fails and that cannot go on has succeeded on both sides. */
  lemma FaultFreeSucceeds(c: Config, run: seq<State>)
    requires IsFaultFree(c, run) && Stopped(c, run[|run| - 1])
    requires MountsStrict(c, c.mounts) == None && HasListener(c)
    ensures var s := run[|run| - 1]; s.parent.mode == Returned(true) && s.child.phase == Execed
  {
    SmoothRun(c, run, |run| - 1);
    StoppedIsFinal(c, run);
  }
}
