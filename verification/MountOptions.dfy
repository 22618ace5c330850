/**
 Mount options: parsing them into flags (parseMountOptions in libcontainer/specconv/spec_linux.go),
 and applying the flags to a bind mount whose source has locked flags (mountToRootfs in
 libcontainer/rootfs_linux.go).
 */
module MountOptions {
  import opened Wrappers
  import opened Separated

  /** A flag word, as the set of the numbers of its bits. */
  type Flags = set<nat>

  const MS_RDONLY: Flags := {0}
  const MS_NOSUID: Flags := {1}
  const MS_NODEV: Flags := {2}
  const MS_NOEXEC: Flags := {3}
  const MS_SYNCHRONOUS: Flags := {4}
  const MS_REMOUNT: Flags := {5}
  const MS_MANDLOCK: Flags := {6}
  const MS_DIRSYNC: Flags := {7}
  const MS_NOSYMFOLLOW: Flags := {8}
  const MS_NOATIME: Flags := {10}
  const MS_NODIRATIME: Flags := {11}
  const MS_BIND: Flags := {12}
  const MS_REC: Flags := {14}
  const MS_SILENT: Flags := {15}
  const MS_UNBINDABLE: Flags := {17}
  const MS_PRIVATE: Flags := {18}
  const MS_SLAVE: Flags := {19}
  const MS_SHARED: Flags := {20}
  const MS_RELATIME: Flags := {21}
  const MS_I_VERSION: Flags := {23}
  const MS_STRICTATIME: Flags := {24}
  const MS_LAZYTIME: Flags := {25}

  const MOUNT_ATTR_RDONLY: Flags := {0}
  const MOUNT_ATTR_NOSUID: Flags := {1}
  const MOUNT_ATTR_NODEV: Flags := {2}
  const MOUNT_ATTR_NOEXEC: Flags := {3}
  const MOUNT_ATTR_ATIME: Flags := {4, 5, 6}
  const MOUNT_ATTR_RELATIME: Flags := {}
  const MOUNT_ATTR_NOATIME: Flags := {4}
  const MOUNT_ATTR_STRICTATIME: Flags := {5}
  const MOUNT_ATTR_NODIRATIME: Flags := {7}
  const MOUNT_ATTR_NOSYMFOLLOW: Flags := {21}

  const EXT_COPYUP: Flags := {0}

  /** What an option does to its flag. */
  datatype Change = Change(clear: bool, flag: Flags)

  // ----- the tables -----

  /** The options that set a flag which another option clears. */
  function Setting(o: string): Option<Flags> {
    if o == "iversion" then Some(MS_I_VERSION)
    else if o == "lazytime" then Some(MS_LAZYTIME)
    else if o == "mand" then Some(MS_MANDLOCK)
    else if o == "noatime" then Some(MS_NOATIME)
    else if o == "nodev" then Some(MS_NODEV)
    else if o == "nodiratime" then Some(MS_NODIRATIME)
    else if o == "noexec" then Some(MS_NOEXEC)
    else if o == "nosuid" then Some(MS_NOSUID)
    else if o == "nosymfollow" then Some(MS_NOSYMFOLLOW)
    else if o == "relatime" then Some(MS_RELATIME)
    else if o == "ro" then Some(MS_RDONLY)
    else if o == "silent" then Some(MS_SILENT)
    else if o == "strictatime" then Some(MS_STRICTATIME)
    else if o == "sync" then Some(MS_SYNCHRONOUS)
    else None
  }

  /** The options that set a flag which no option clears, or none. */
  function Lasting(o: string): Option<Flags> {
    if o == "bind" then Some(MS_BIND)
    else if o == "defaults" then Some({})
    else if o == "dirsync" then Some(MS_DIRSYNC)
    else if o == "rbind" then Some(MS_BIND + MS_REC)
    else if o == "remount" then Some(MS_REMOUNT)
    else None
  }

  /** The options that clear a flag. */
  function Clearing(o: string): Option<Flags> {
    if o == "async" then Some(MS_SYNCHRONOUS)
    else if o == "atime" then Some(MS_NOATIME)
    else if o == "dev" then Some(MS_NODEV)
    else if o == "diratime" then Some(MS_NODIRATIME)
    else if o == "exec" then Some(MS_NOEXEC)
    else if o == "loud" then Some(MS_SILENT)
    else if o == "noiversion" then Some(MS_I_VERSION)
    else if o == "nolazytime" then Some(MS_LAZYTIME)
    else if o == "nomand" then Some(MS_MANDLOCK)
    else if o == "norelatime" then Some(MS_RELATIME)
    else if o == "nostrictatime" then Some(MS_STRICTATIME)
    else if o == "rw" then Some(MS_RDONLY)
    else if o == "suid" then Some(MS_NOSUID)
    else if o == "symfollow" then Some(MS_NOSYMFOLLOW)
    else None
  }

  function MountFlag(o: string): Option<Change> {
    if Setting(o).Some? then Some(Change(false, Setting(o).value))
    else if Clearing(o).Some? then Some(Change(true, Clearing(o).value))
    else if Lasting(o).Some? then Some(Change(false, Lasting(o).value))
    else None
  }

  function Propagation(o: string): Option<Flags> {
    if o == "rprivate" then Some(MS_PRIVATE + MS_REC)
    else if o == "private" then Some(MS_PRIVATE)
    else if o == "rslave" then Some(MS_SLAVE + MS_REC)
    else if o == "slave" then Some(MS_SLAVE)
    else if o == "rshared" then Some(MS_SHARED + MS_REC)
    else if o == "shared" then Some(MS_SHARED)
    else if o == "runbindable" then Some(MS_UNBINDABLE + MS_REC)
    else if o == "unbindable" then Some(MS_UNBINDABLE)
    else None
  }

  /** A recursive option is about access times altogether or not at all. */
  function RecAttr(o: string): (r: Option<Change>)
    ensures r.Some? ==> r.value.flag <= MOUNT_ATTR_ATIME || r.value.flag !! MOUNT_ATTR_ATIME
  {
    if o == "rro" then Some(Change(false, MOUNT_ATTR_RDONLY))
    else if o == "rrw" then Some(Change(true, MOUNT_ATTR_RDONLY))
    else if o == "rnosuid" then Some(Change(false, MOUNT_ATTR_NOSUID))
    else if o == "rsuid" then Some(Change(true, MOUNT_ATTR_NOSUID))
    else if o == "rnodev" then Some(Change(false, MOUNT_ATTR_NODEV))
    else if o == "rdev" then Some(Change(true, MOUNT_ATTR_NODEV))
    else if o == "rnoexec" then Some(Change(false, MOUNT_ATTR_NOEXEC))
    else if o == "rexec" then Some(Change(true, MOUNT_ATTR_NOEXEC))
    else if o == "rnodiratime" then Some(Change(false, MOUNT_ATTR_NODIRATIME))
    else if o == "rdiratime" then Some(Change(true, MOUNT_ATTR_NODIRATIME))
    else if o == "rrelatime" then Some(Change(false, MOUNT_ATTR_RELATIME))
    else if o == "rnorelatime" then Some(Change(true, MOUNT_ATTR_RELATIME))
    else if o == "rnoatime" then Some(Change(false, MOUNT_ATTR_NOATIME))
    else if o == "ratime" then Some(Change(true, MOUNT_ATTR_NOATIME))
    else if o == "rstrictatime" then Some(Change(false, MOUNT_ATTR_STRICTATIME))
    else if o == "rnostrictatime" then Some(Change(true, MOUNT_ATTR_STRICTATIME))
    else if o == "rnosymfollow" then Some(Change(false, MOUNT_ATTR_NOSYMFOLLOW))
    else if o == "rsymfollow" then Some(Change(true, MOUNT_ATTR_NOSYMFOLLOW))
    else None
  }

  function Extension(o: string): Option<Change> {
    if o == "tmpcopyup" then Some(Change(false, EXT_COPYUP)) else None
  }

  datatype IdMapping = NoIdMap | IdMap(recursive: bool)

  function IdMapOption(o: string): IdMapping {
    if o == "idmap" then IdMap(false) else if o == "ridmap" then IdMap(true) else NoIdMap
  }

  /** The table that an option belongs to. A known option without a flag is data like an unknown one. */
  datatype Role =
    | Mounting(c: Change) | Propagating(f: Flags) | Recursing(c: Change) | Extending(c: Change)
    | Mapping(i: IdMapping) | Data

  function RoleOf(o: string): (r: Role)
    ensures r.Recursing? ==> r.c.flag <= MOUNT_ATTR_ATIME || r.c.flag !! MOUNT_ATTR_ATIME
  {
    if MountFlag(o).Some? && MountFlag(o).value.flag != {} then Mounting(MountFlag(o).value)
    else if Propagation(o).Some? && Propagation(o).value != {} then Propagating(Propagation(o).value)
    else if RecAttr(o).Some? then Recursing(RecAttr(o).value)
    else if Extension(o).Some? then Extending(Extension(o).value)
    else if IdMapOption(o).IdMap? then Mapping(IdMapOption(o))
    else Data
  }

  /** Of the options in the table of mount flags, the one without a flag is data. */
  lemma DefaultsIsData(o: string)
    requires MountFlag(o).Some?
    ensures RoleOf(o) == Data <==> MountFlag(o).value.flag == {}
    ensures RoleOf(o) == Data <==> o == "defaults"
  {
    OnlyDefaultsHasNoFlag(o);
    DefaultsElsewhere();
    hide MountFlag, Propagation, RecAttr, Extension, IdMapOption;
  }

  lemma OnlyDefaultsHasNoFlag(o: string)
    requires MountFlag(o).Some?
    ensures MountFlag(o).value.flag == {} <==> o == "defaults"
  {
    if o != "defaults" { assert exists b :: b in MountFlag(o).value.flag; }
  }

  lemma DefaultsElsewhere()
    ensures Propagation("defaults") == None && RecAttr("defaults") == None
    ensures Extension("defaults") == None && IdMapOption("defaults") == NoIdMap
  {
  }

  // ----- parsing -----

  datatype Mount = Mount(
    flags: Flags, cleared: Flags, propagation: seq<Flags>, recSet: Flags, recClr: Flags,
    extensions: Flags, idMapping: IdMapping, data: seq<string>)

  const NO_OPTIONS: Mount := Mount({}, {}, [], {}, {}, {}, NoIdMap, [])

  predicate IsAtime(f: Flags) { f <= MOUNT_ATTR_ATIME }

  function Step(m: Mount, o: string): Mount {
    match RoleOf(o)
    case Mounting(c) =>
      if c.clear then m.(flags := m.flags - c.flag, cleared := m.cleared + c.flag)
      else m.(flags := m.flags + c.flag, cleared := m.cleared - c.flag)
    case Propagating(f) => m.(propagation := m.propagation + [f])
    case Recursing(c) =>
      var m' := if c.clear then m.(recClr := m.recClr + c.flag, recSet := m.recSet - c.flag)
                else m.(recSet := m.recSet + c.flag, recClr := m.recClr - c.flag);
      if IsAtime(c.flag) then m'.(recClr := m'.recClr + MOUNT_ATTR_ATIME) else m'
    case Extending(c) => m.(extensions := if c.clear then m.extensions - c.flag else m.extensions + c.flag)
    case Mapping(i) => m.(idMapping := i)
    case Data => m.(data := m.data + [o])
  }

  /** The options so far. */
  function Parsed(options: seq<string>): Mount {
    if options == [] then NO_OPTIONS else Step(Parsed(options[..|options| - 1]), options[|options| - 1])
  }

  /** A mount's configuration: data joined by commas, recursive attributes only if there are any. */
  datatype MountConfig = MountConfig(m: Mount, data: string, hasRecAttr: bool)

  lemma ParsedNext(options: seq<string>, i: nat)
    requires i < |options|
    ensures Parsed(options[..i + 1]) == Step(Parsed(options[..i]), options[i])
  {
    hide Step;
    assert options[..i + 1][..i] == options[..i];
  }

  /** The body of the loop over the options. */
  method AddOption(m: Mount, o: string) returns (r: Mount)
    ensures r == Step(m, o)
  {
    hide RoleOf;
    r := m;
    match RoleOf(o) {
      case Mounting(c) =>
        if c.clear {
          r := r.(flags := r.flags - c.flag);
          r := r.(cleared := r.cleared + c.flag);
        } else {
          r := r.(flags := r.flags + c.flag);
          r := r.(cleared := r.cleared - c.flag);
        }
      case Propagating(f) =>
        r := r.(propagation := r.propagation + [f]);
      case Recursing(c) =>
        if c.clear {
          r := r.(recClr := r.recClr + c.flag);
          r := r.(recSet := r.recSet - c.flag);
        } else {
          r := r.(recSet := r.recSet + c.flag);
          r := r.(recClr := r.recClr - c.flag);
        }
        if IsAtime(c.flag) {
          r := r.(recClr := r.recClr + MOUNT_ATTR_ATIME);
        }
      case Extending(c) =>
        if c.clear {
          r := r.(extensions := r.extensions - c.flag);
        } else {
          r := r.(extensions := r.extensions + c.flag);
        }
      case Mapping(i) =>
        r := r.(idMapping := i);
      case Data =>
        r := r.(data := r.data + [o]);
    }
  }

  method ParseMountOptions(options: seq<string>) returns (r: MountConfig)
    ensures r.m == Parsed(options)
    ensures r.data == Join(r.m.data, ',')
    ensures r.hasRecAttr <==> r.m.recSet != {} || r.m.recClr != {}
  {
    var m := NO_OPTIONS;
    assert Parsed(options[..0]) == m;
    hide *;
    var i := 0;
    while i < |options|
      invariant i <= |options| && m == Parsed(options[..i])
    {
      ParsedNext(options, i);
      m := AddOption(m, options[i]);
      i := i + 1;
    }
    assert options[..|options|] == options;
    r := MountConfig(m, Join(m.data, ','), m.recSet != {} || m.recClr != {});
  }

  // ----- what the options say -----

  /** The data are the options that have no other role. */
  lemma {:induction false} DataIff(options: seq<string>, o: string)
    ensures o in Parsed(options).data <==> o in options && RoleOf(o) == Data
  {
    hide RoleOf;
    if options != [] {
      var front, last := options[..|options| - 1], options[|options| - 1];
      DataIff(front, o);
      assert options == front + [last];
    }
  }

  /** What checkBindOptions refuses. */
  predicate BindRefused(r: MountConfig) { MS_BIND * r.m.flags != {} && r.data != "" }

  /** Exactly which bind mounts with options from the table of mount flags are refused. */
  lemma BindRefusedIff(options: seq<string>, r: MountConfig)
    requires forall k :: 0 <= k < |options| ==> MountFlag(options[k]).Some?
    requires r.m == Parsed(options) && r.data == Join(r.m.data, ',')
    ensures BindRefused(r) <==> MS_BIND * r.m.flags != {} && "defaults" in options
  {
    DataIff(options, "defaults");
    DefaultsIsData("defaults");
    if r.m.data != [] {
      var o := r.m.data[0];
      DataIff(options, o);
      DefaultsIsData(o);
    }
    hide RoleOf, MountFlag, Parsed;
  }

  /** Both options are about the same flag. */
  predicate SameFlag(r: Role, r': Role) {
    || (r.Mounting? && r'.Mounting? && r.c.flag == r'.c.flag)
    || (r.Recursing? && r'.Recursing? && r.c.flag == r'.c.flag)
  }

  /** Setting or clearing the same flag again makes the first time undone. */
  lemma Overwritten(a: Flags, f: Flags)
    ensures a + f - f == a - f && a - f + f == a + f && a - f - f == a - f && a + f + f == a + f
  {
  }

  lemma OverwrittenMask(a: Flags, f: Flags, mask: Flags)
    requires f <= mask
    ensures a + f + mask == a + mask && a - f + mask == a + mask && a + mask + mask == a + mask
  {
  }

  lemma StepTwice(m: Mount, o: string, o': string)
    requires SameFlag(RoleOf(o), RoleOf(o'))
    ensures Step(Step(m, o), o') == Step(m, o')
  {
    hide RoleOf;
    var f := RoleOf(o).c.flag;
    if RoleOf(o).Mounting? {
      Overwritten(m.flags, f);
      Overwritten(m.cleared, f);
    } else {
      Overwritten(m.recSet, f);
      Overwritten(m.recClr, f);
      if IsAtime(f) {
        OverwrittenMask(m.recClr, f, MOUNT_ATTR_ATIME);
        OverwrittenMask(m.recClr + MOUNT_ATTR_ATIME, f, MOUNT_ATTR_ATIME);
      }
    }
  }

  lemma ParsedAppend(options: seq<string>, o: string)
    ensures Parsed(options + [o]) == Step(Parsed(options), o)
  {
    hide Step;
    assert (options + [o])[..|options|] == options;
  }

  /** An option and a later one about the same flag: only the later one counts. */
  lemma LaterOptionWins(options: seq<string>, o: string, o': string)
    requires SameFlag(RoleOf(o), RoleOf(o'))
    ensures Parsed(options + [o, o']) == Parsed(options + [o'])
  {
    hide *;
    ParsedAppend(options, o);
    ParsedAppend(options + [o], o');
    ParsedAppend(options, o');
    StepTwice(Parsed(options), o, o');
    assert options + [o, o'] == options + [o] + [o'];
  }

  // ----- what the flags say -----

  datatype Verdict = Unnamed | Set | Cleared

  /** What the last option that names a bit says about it. */
  function LastMount(options: seq<string>, b: nat): Verdict {
    if options == [] then Unnamed
    else
      var r := RoleOf(options[|options| - 1]);
      if r.Mounting? && b in r.c.flag then (if r.c.clear then Cleared else Set)
      else LastMount(options[..|options| - 1], b)
  }

  function LastRec(options: seq<string>, b: nat): Verdict {
    if options == [] then Unnamed
    else
      var r := RoleOf(options[|options| - 1]);
      if r.Recursing? && b in r.c.flag then (if r.c.clear then Cleared else Set)
      else LastRec(options[..|options| - 1], b)
  }

  /** Some recursive option was about access times. */
  predicate NamesAtime(options: seq<string>) {
    exists o <- options :: RoleOf(o).Recursing? && IsAtime(RoleOf(o).c.flag)
  }

  /** Each mount flag is decided by the last option that names it. */
  lemma {:induction false} LastMountDecides(options: seq<string>, b: nat)
    ensures b in Parsed(options).flags <==> LastMount(options, b) == Set
    ensures b in Parsed(options).cleared <==> LastMount(options, b) == Cleared
  {
    hide RoleOf;
    if options != [] { LastMountDecides(options[..|options| - 1], b); }
  }

  /** No flag is both set and cleared. */
  lemma SetAndClearedDisjoint(options: seq<string>)
    ensures Parsed(options).flags !! Parsed(options).cleared
  {
    forall b: nat ensures !(b in Parsed(options).flags && b in Parsed(options).cleared) {
      LastMountDecides(options, b);
    }
  }

  // ----- by name -----

  /** The flags that an option can set and another one can clear. */
  ghost const SWITCHES: Flags := {0, 1, 2, 3, 4, 6, 8, 10, 11, 15, 21, 23, 24, 25}

  ghost function On(b: nat): string {
    match b
    case 0 => "ro"
    case 1 => "nosuid"
    case 2 => "nodev"
    case 3 => "noexec"
    case 4 => "sync"
    case 6 => "mand"
    case 8 => "nosymfollow"
    case 10 => "noatime"
    case 11 => "nodiratime"
    case 15 => "silent"
    case 21 => "relatime"
    case 23 => "iversion"
    case 24 => "strictatime"
    case 25 => "lazytime"
    case _ => ""
  }

  ghost function Off(b: nat): string {
    match b
    case 0 => "rw"
    case 1 => "suid"
    case 2 => "dev"
    case 3 => "exec"
    case 4 => "async"
    case 6 => "nomand"
    case 8 => "symfollow"
    case 10 => "atime"
    case 11 => "diratime"
    case 15 => "loud"
    case 21 => "norelatime"
    case 23 => "noiversion"
    case 24 => "nostrictatime"
    case 25 => "nolazytime"
    case _ => ""
  }

  /** Which of two options comes last. */
  ghost function LastOf(options: seq<string>, on: string, off: string): Verdict {
    if options == [] then Unnamed
    else if options[|options| - 1] == on then Set
    else if options[|options| - 1] == off then Cleared
    else LastOf(options[..|options| - 1], on, off)
  }

  lemma OnIs(b: nat)
    requires b in SWITCHES
    ensures Setting(On(b)) == Some({b})
  {
  }

  lemma OffIs(b: nat)
    requires b in SWITCHES
    ensures Clearing(Off(b)) == Some({b})
  {
  }

  lemma OffSetsNothing(b: nat)
    requires b in SWITCHES
    ensures Setting(Off(b)) == None
  {
  }

  lemma NoOtherSets(b: nat, o: string)
    requires b in SWITCHES && Setting(o).Some? && b in Setting(o).value
    ensures o == On(b)
  {
  }

  lemma NoneLasts(b: nat, o: string)
    requires b in SWITCHES
    ensures Lasting(o).Some? ==> b !in Lasting(o).value
  {
  }

  lemma NoOtherClears(b: nat, o: string)
    requires b in SWITCHES && Clearing(o).Some? && b in Clearing(o).value
    ensures o == Off(b)
  {
  }

  lemma SwitchRole(b: nat, o: string)
    requires b in SWITCHES
    ensures var r := RoleOf(o); r.Mounting? && b in r.c.flag <==> o == On(b) || o == Off(b)
    ensures RoleOf(On(b)) == Mounting(Change(false, {b})) && RoleOf(Off(b)) == Mounting(Change(true, {b}))
  {
    hide Setting, Clearing, Lasting, Propagation, RecAttr, Extension, IdMapOption, On, Off;
    NoneLasts(b, o);
    OnIs(b);
    OffIs(b);
    OffSetsNothing(b);
    if Setting(o).Some? {
      if b in Setting(o).value { NoOtherSets(b, o); }
    } else if Clearing(o).Some? && b in Clearing(o).value {
      NoOtherClears(b, o);
    }
  }

  /** A flag that options can set and clear is as the last of the two names says, and unnamed without them. */
  lemma {:induction false} LastNameDecides(options: seq<string>, b: nat)
    requires b in SWITCHES
    ensures b in Parsed(options).flags <==> LastOf(options, On(b), Off(b)) == Set
    ensures b in Parsed(options).cleared <==> LastOf(options, On(b), Off(b)) == Cleared
  {
    hide RoleOf, On, Off;
    if options != [] {
      LastNameDecides(options[..|options| - 1], b);
      SwitchRole(b, options[|options| - 1]);
    }
  }

  /** The recursive attributes that an option can set and another one can clear. */
  ghost const REC_SWITCHES: Flags := {0, 1, 2, 3, 4, 5, 7, 21}

  ghost function RecOn(b: nat): string {
    match b
    case 0 => "rro"
    case 1 => "rnosuid"
    case 2 => "rnodev"
    case 3 => "rnoexec"
    case 4 => "rnoatime"
    case 5 => "rstrictatime"
    case 7 => "rnodiratime"
    case 21 => "rnosymfollow"
    case _ => ""
  }

  ghost function RecOff(b: nat): string {
    match b
    case 0 => "rrw"
    case 1 => "rsuid"
    case 2 => "rdev"
    case 3 => "rexec"
    case 4 => "ratime"
    case 5 => "rnostrictatime"
    case 7 => "rdiratime"
    case 21 => "rsymfollow"
    case _ => ""
  }

  lemma RecOnIs(b: nat)
    requires b in REC_SWITCHES
    ensures RecAttr(RecOn(b)) == Some(Change(false, {b}))
  {
  }

  lemma RecOffIs(b: nat)
    requires b in REC_SWITCHES
    ensures RecAttr(RecOff(b)) == Some(Change(true, {b}))
  {
  }

  lemma RecOnIsNoMountFlag(b: nat)
    requires b in REC_SWITCHES
    ensures Setting(RecOn(b)) == None
  {
  }

  lemma RecOnClearsNothing(b: nat)
    requires b in REC_SWITCHES
    ensures Clearing(RecOn(b)) == None
  {
  }

  lemma RecOnIsNotLasting(b: nat)
    requires b in REC_SWITCHES
    ensures Lasting(RecOn(b)) == None && Propagation(RecOn(b)) == None
  {
  }

  lemma RecOffIsNoMountFlag(b: nat)
    requires b in REC_SWITCHES
    ensures Setting(RecOff(b)) == None
  {
  }

  lemma RecOffClearsNothing(b: nat)
    requires b in REC_SWITCHES
    ensures Clearing(RecOff(b)) == None
  {
  }

  lemma RecOffIsNotLasting(b: nat)
    requires b in REC_SWITCHES
    ensures Lasting(RecOff(b)) == None && Propagation(RecOff(b)) == None
  {
  }

  lemma NoOtherRec(b: nat, o: string)
    requires b in REC_SWITCHES && RecAttr(o).Some? && b in RecAttr(o).value.flag
    ensures o == if RecAttr(o).value.clear then RecOff(b) else RecOn(b)
  {
  }

  lemma RecSwitchRole(b: nat, o: string)
    requires b in REC_SWITCHES
    ensures var r := RoleOf(o); r.Recursing? && b in r.c.flag <==> o == RecOn(b) || o == RecOff(b)
    ensures RoleOf(RecOn(b)) == Recursing(Change(false, {b})) && RoleOf(RecOff(b)) == Recursing(Change(true, {b}))
  {
    hide Setting, Clearing, Lasting, Propagation, RecAttr, Extension, IdMapOption, RecOn, RecOff;
    RecOnIs(b);
    RecOffIs(b);
    RecOnIsNoMountFlag(b);
    RecOnClearsNothing(b);
    RecOnIsNotLasting(b);
    RecOffIsNoMountFlag(b);
    RecOffClearsNothing(b);
    RecOffIsNotLasting(b);
    if RecAttr(o).Some? && b in RecAttr(o).value.flag { NoOtherRec(b, o); }
  }

  /** Likewise for a recursive attribute. */
  lemma {:induction false} LastRecNameDecides(options: seq<string>, b: nat)
    requires b in REC_SWITCHES
    ensures b in Parsed(options).recSet <==> LastOf(options, RecOn(b), RecOff(b)) == Set
    ensures LastRec(options, b) == LastOf(options, RecOn(b), RecOff(b))
  {
    hide RoleOf, RecOn, RecOff;
    if options != [] {
      LastRecNameDecides(options[..|options| - 1], b);
      RecSwitchRole(b, options[|options| - 1]);
    }
  }

  /** The flags that no option clears. */
  lemma {:induction false} BindFlagsIff(options: seq<string>)
    ensures 12 in Parsed(options).flags <==> "bind" in options || "rbind" in options
    ensures 14 in Parsed(options).flags <==> "rbind" in options
    ensures 5 in Parsed(options).flags <==> "remount" in options
    ensures 7 in Parsed(options).flags <==> "dirsync" in options
  {
    hide RoleOf;
    if options != [] {
      var front, o := options[..|options| - 1], options[|options| - 1];
      BindFlagsIff(front);
      assert options == front + [o];
      BindRole(o);
    }
  }

  lemma BindRole(o: string)
    ensures var r := RoleOf(o);
      && (r.Mounting? && 12 in r.c.flag <==> o == "bind" || o == "rbind")
      && (r.Mounting? && 14 in r.c.flag <==> o == "rbind")
      && (r.Mounting? && 5 in r.c.flag <==> o == "remount")
      && (r.Mounting? && 7 in r.c.flag <==> o == "dirsync")
      && (r.Mounting? && (12 in r.c.flag || 14 in r.c.flag || 5 in r.c.flag || 7 in r.c.flag) ==> !r.c.clear)
  {
    hide Setting, Clearing, Lasting, Propagation, RecAttr, Extension, IdMapOption;
    LastingFlags(o);
    if Lasting(o).Some? { LastingOnly(o); }
    SetsNoBind(o);
    ClearsNoBind(o);
  }

  lemma LastingFlags(o: string)
    ensures Lasting(o).Some? ==>
      && (12 in Lasting(o).value <==> o == "bind" || o == "rbind") && (14 in Lasting(o).value <==> o == "rbind")
      && (5 in Lasting(o).value <==> o == "remount") && (7 in Lasting(o).value <==> o == "dirsync")
    ensures o == "bind" || o == "rbind" || o == "remount" || o == "dirsync" ==> Lasting(o).Some?
  {
  }

  lemma LastingOnly(o: string)
    requires Lasting(o).Some?
    ensures Setting(o) == None && Clearing(o) == None
  {
    hide Setting, Clearing;
    LastingSets(o);
    LastingClears(o);
  }

  lemma LastingSets(o: string)
    requires Lasting(o).Some?
    ensures Setting(o) == None
  {
  }

  lemma LastingClears(o: string)
    requires Lasting(o).Some?
    ensures Clearing(o) == None
  {
  }

  lemma SetsNoBind(o: string)
    ensures Setting(o).Some? ==> Setting(o).value !! {5, 7, 12, 14}
  {
  }

  lemma ClearsNoBind(o: string)
    ensures Clearing(o).Some? ==> Clearing(o).value !! {5, 7, 12, 14}
  {
  }

  /** What one option adds to the two lists. */
  ghost function DataOf(o: string): seq<string> { if RoleOf(o) == Data then [o] else [] }

  ghost function PropagationOf(o: string): seq<Flags> {
    if RoleOf(o).Propagating? then [RoleOf(o).f] else []
  }

  lemma StepAppends(m: Mount, o: string)
    ensures Step(m, o).data == m.data + DataOf(o) && Step(m, o).propagation == m.propagation + PropagationOf(o)
  {
    hide RoleOf;
  }

  lemma ParsedLast(a: seq<string>, b: seq<string>)
    requires b != []
    ensures Parsed(a + b) == Step(Parsed(a + b[..|b| - 1]), b[|b| - 1])
  {
    hide Step;
    assert (a + b)[..|a + b| - 1] == a + b[..|b| - 1];
  }

  /** Data and propagation keep the order of the options. */
  lemma {:induction false} ListsKeepOrder(a: seq<string>, b: seq<string>)
    ensures Parsed(a + b).data == Parsed(a).data + Parsed(b).data
    ensures Parsed(a + b).propagation == Parsed(a).propagation + Parsed(b).propagation
  {
    hide Step, DataOf, PropagationOf;
    if b == [] {
      assert a + b == a;
    } else {
      var front, o := b[..|b| - 1], b[|b| - 1];
      ListsKeepOrder(a, front);
      ParsedLast(a, b);
      StepAppends(Parsed(a + front), o);
      StepAppends(Parsed(front), o);
    }
  }

  ghost const PROPAGATIONS: map<string, Flags> := map[
    "private" := {18}, "slave" := {19}, "shared" := {20}, "unbindable" := {17},
    "rprivate" := {14, 18}, "rslave" := {14, 19}, "rshared" := {14, 20}, "runbindable" := {14, 17}]

  lemma PropagationIs(o: string)
    ensures Propagation(o) == if o in PROPAGATIONS then Some(PROPAGATIONS[o]) else None
  {
    assert MS_PRIVATE + MS_REC == {14, 18} && MS_SLAVE + MS_REC == {14, 19};
    assert MS_SHARED + MS_REC == {14, 20} && MS_UNBINDABLE + MS_REC == {14, 17};
  }

  lemma PropagationIsNoMountFlag(o: string)
    requires Propagation(o).Some?
    ensures Setting(o) == None
  {
  }

  lemma PropagationClearsNothing(o: string)
    requires Propagation(o).Some?
    ensures Clearing(o) == None && Lasting(o) == None
  {
  }

  lemma PropagationHasFlags(o: string)
    requires Propagation(o).Some?
    ensures Propagation(o).value != {}
  {
    assert 17 in Propagation(o).value || 18 in Propagation(o).value || 19 in Propagation(o).value
      || 20 in Propagation(o).value;
  }

  lemma CopyupIsNoOther()
    ensures Setting("tmpcopyup") == None && Clearing("tmpcopyup") == None && Lasting("tmpcopyup") == None
    ensures Propagation("tmpcopyup") == None && RecAttr("tmpcopyup") == None
  {
  }

  lemma IdmapIsNoOther()
    ensures Setting("idmap") == None && Clearing("idmap") == None && Lasting("idmap") == None
    ensures Propagation("idmap") == None && RecAttr("idmap") == None && Extension("idmap") == None
  {
  }

  lemma RidmapIsNoOther()
    ensures Setting("ridmap") == None && Clearing("ridmap") == None && Lasting("ridmap") == None
    ensures Propagation("ridmap") == None && RecAttr("ridmap") == None && Extension("ridmap") == None
  {
  }

  lemma OtherRoles(o: string)
    ensures RoleOf(o).Propagating? <==> o in PROPAGATIONS
    ensures o in PROPAGATIONS ==> RoleOf(o) == Propagating(PROPAGATIONS[o])
    ensures RoleOf(o).Extending? <==> o == "tmpcopyup"
    ensures o == "tmpcopyup" ==> RoleOf(o) == Extending(Change(false, {0}))
    ensures RoleOf(o).Mapping? <==> o == "idmap" || o == "ridmap"
    ensures RoleOf(o).Mapping? ==> RoleOf(o) == Mapping(IdMap(o == "ridmap"))
  {
    hide Setting, Clearing, Lasting, Propagation, RecAttr;
    PropagationIs(o);
    if Propagation(o).Some? {
      PropagationIsNoMountFlag(o);
      PropagationClearsNothing(o);
      PropagationHasFlags(o);
    }
    CopyupIsNoOther();
    IdmapIsNoOther();
    RidmapIsNoOther();
  }

  /** What the other options say: the copy-up extension, the last id mapping, and each propagation. */
  lemma {:induction false} OthersIff(options: seq<string>)
    ensures 0 in Parsed(options).extensions <==> "tmpcopyup" in options
    ensures Parsed(options).idMapping == match LastOf(options, "idmap", "ridmap")
      case Unnamed => NoIdMap
      case Set => IdMap(false)
      case Cleared => IdMap(true)
    ensures forall f :: f in Parsed(options).propagation <==>
      exists o <- options :: o in PROPAGATIONS && PROPAGATIONS[o] == f
  {
    hide RoleOf;
    if options != [] {
      var front, o := options[..|options| - 1], options[|options| - 1];
      OthersIff(front);
      assert options == front + [o];
      OtherRoles(o);
    }
  }

  lemma NamesAtimeNext(options: seq<string>)
    requires options != []
    ensures var o := options[|options| - 1];
      NamesAtime(options) <==>
        NamesAtime(options[..|options| - 1]) || (RoleOf(o).Recursing? && IsAtime(RoleOf(o).c.flag))
  {
    hide RoleOf, IsAtime;
    var front, last := options[..|options| - 1], options[|options| - 1];
    assert options == front + [last];
  }

  lemma NoOptions()
    ensures !NamesAtime([])
  {
  }

  /**
   Each recursive attribute is decided by the last option that names it, and the whole access-time
   mask is cleared as soon as one option is about access times.
   */
  lemma {:induction false} LastRecDecides(options: seq<string>, b: nat)
    ensures b in Parsed(options).recSet <==> LastRec(options, b) == Set
    ensures b in Parsed(options).recClr <==>
      LastRec(options, b) == Cleared || (NamesAtime(options) && b in MOUNT_ATTR_ATIME)
  {
    hide RoleOf, NamesAtime;
    if options == [] {
      NoOptions();
    } else {
      LastRecDecides(options[..|options| - 1], b);
      NamesAtimeNext(options);
    }
  }

  /** An option that names a bit of the mask is about access times. */
  lemma {:induction false} AtimeIsNamed(options: seq<string>, b: nat)
    requires b in MOUNT_ATTR_ATIME && LastRec(options, b) != Unnamed
    ensures NamesAtime(options)
  {
    NamesAtimeNext(options);
    var front, o := options[..|options| - 1], options[|options| - 1];
    var r := RoleOf(o);
    if r.Recursing? && b in r.c.flag {
      assert IsAtime(r.c.flag);
    } else {
      AtimeIsNamed(front, b);
    }
  }

  /** Recursive set and clear overlap at most in the mask, which is then cleared as a whole. */
  lemma RecursiveOverlap(options: seq<string>)
    ensures Parsed(options).recSet * Parsed(options).recClr <= MOUNT_ATTR_ATIME
    ensures NamesAtime(options) ==> MOUNT_ATTR_ATIME <= Parsed(options).recClr
    ensures Parsed(options).recSet * MOUNT_ATTR_ATIME != {} ==> NamesAtime(options)
  {
    var m := Parsed(options);
    forall b | b in m.recSet * m.recClr ensures b in MOUNT_ATTR_ATIME { LastRecDecides(options, b); }
    if NamesAtime(options) {
      forall b | b in MOUNT_ATTR_ATIME ensures b in m.recClr { LastRecDecides(options, b); }
    }
    if b :| b in m.recSet * MOUNT_ATTR_ATIME {
      LastRecDecides(options, b);
      AtimeIsNamed(options, b);
    }
  }

  /** The last recursive option that is about access times. */
  function LastAtime(options: seq<string>): (r: Option<Change>)
    ensures r.Some? ==> IsAtime(r.value.flag)
  {
    if options == [] then None
    else
      var r := RoleOf(options[|options| - 1]);
      if r.Recursing? && IsAtime(r.c.flag) then Some(r.c) else LastAtime(options[..|options| - 1])
  }

  /** The mode that an option about access times asks for, within the mask. */
  function Mode(c: Change): Flags { if c.clear then {} else c.flag }

  /** No option after the last one about access times names a bit of the mask. */
  lemma {:induction false} LastAtimeDecides(options: seq<string>, b: nat)
    requires LastAtime(options).Some? && b in LastAtime(options).value.flag
    ensures LastRec(options, b) == if LastAtime(options).value.clear then Cleared else Set
  {
    hide RoleOf;
    var r := RoleOf(options[|options| - 1]);
    if !(r.Recursing? && IsAtime(r.c.flag)) {
      LastAtimeDecides(options[..|options| - 1], b);
      assert b in MOUNT_ATTR_ATIME;
    }
  }

  /**
   Exactly when the mode is the one that the last option about access times asks for: no other mode of the
   mask was set by an option and not cleared by its own opposite since.
   */
  lemma AtimeModeIff(options: seq<string>)
    requires LastAtime(options).Some?
    ensures var c := LastAtime(options).value;
      Parsed(options).recSet * MOUNT_ATTR_ATIME == Mode(c) <==>
      forall b :: b in MOUNT_ATTR_ATIME - c.flag ==> LastRec(options, b) != Set
  {
    hide Parsed, LastRec, LastAtime, IsAtime;
    var c, mode := LastAtime(options).value, Parsed(options).recSet * MOUNT_ATTR_ATIME;
    AtimeInMask(options);
    forall b: nat
      ensures b in mode <==> b in MOUNT_ATTR_ATIME && LastRec(options, b) == Set
      ensures b in c.flag ==> LastRec(options, b) == if c.clear then Cleared else Set
    {
      LastRecDecides(options, b);
      if b in c.flag { LastAtimeDecides(options, b); }
    }
    if mode == Mode(c) {
      forall b | b in MOUNT_ATTR_ATIME - c.flag ensures LastRec(options, b) != Set {
        assert b in mode <==> b in Mode(c);
      }
    } else {
      var b :| b in MOUNT_ATTR_ATIME && (b in mode <==> b !in Mode(c));
      assert b in MOUNT_ATTR_ATIME - c.flag && LastRec(options, b) == Set;
    }
  }

  lemma AtimeInMask(options: seq<string>)
    requires LastAtime(options).Some?
    ensures LastAtime(options).value.flag <= MOUNT_ATTR_ATIME
  {
    hide LastAtime;
  }

  lemma SetsMode(options: seq<string>, o: string, f: Flags)
    requires RoleOf(o) == Recursing(Change(false, f))
    ensures Parsed(options + [o]).recSet == Parsed(options).recSet + f
  {
    hide RoleOf, Parsed;
    ParsedAppend(options, o);
  }

  lemma NothingSet()
    ensures Parsed([]).recSet == {}
  {
  }

  /** It fails: the earlier mode stays, beside a later one or instead of the default one. */
  lemma AtimeModesPileUp()
    ensures Parsed(["rnoatime"] + ["rstrictatime"]).recSet == MOUNT_ATTR_NOATIME + MOUNT_ATTR_STRICTATIME
    ensures Parsed(["rnoatime"] + ["rrelatime"]).recSet == MOUNT_ATTR_NOATIME
  {
    hide RoleOf, Parsed;
    ModeRoles();
    NothingSet();
    SetsMode([], "rnoatime", MOUNT_ATTR_NOATIME);
    assert [] + ["rnoatime"] == ["rnoatime"];
    SetsMode(["rnoatime"], "rstrictatime", MOUNT_ATTR_STRICTATIME);
    SetsMode(["rnoatime"], "rrelatime", MOUNT_ATTR_RELATIME);
  }

  lemma ModeRoles()
    ensures RoleOf("rnoatime") == Recursing(Change(false, MOUNT_ATTR_NOATIME))
    ensures RoleOf("rstrictatime") == Recursing(Change(false, MOUNT_ATTR_STRICTATIME))
    ensures RoleOf("rrelatime") == Recursing(Change(false, MOUNT_ATTR_RELATIME))
  {
    hide MountFlag, Propagation, RecAttr;
    ModesAreNoMountFlags();
    ModesAreNoPropagation();
    ModesAreRecursive();
  }

  lemma ModesAreNoMountFlags()
    ensures MountFlag("rnoatime") == None && MountFlag("rstrictatime") == None && MountFlag("rrelatime") == None
  {
    hide Setting, Clearing, Lasting;
    ModesSetNothing();
    ModesClearNothing();
    ModesAreNotLasting();
  }

  lemma ModesSetNothing()
    ensures Setting("rnoatime") == None && Setting("rstrictatime") == None && Setting("rrelatime") == None
  {
  }

  lemma ModesClearNothing()
    ensures Clearing("rnoatime") == None && Clearing("rstrictatime") == None && Clearing("rrelatime") == None
  {
  }

  lemma ModesAreNotLasting()
    ensures Lasting("rnoatime") == None && Lasting("rstrictatime") == None && Lasting("rrelatime") == None
  {
  }

  lemma ModesAreNoPropagation()
    ensures Propagation("rnoatime") == None && Propagation("rstrictatime") == None && Propagation("rrelatime") == None
  {
  }

  lemma ModesAreRecursive()
    ensures RecAttr("rnoatime") == Some(Change(false, MOUNT_ATTR_NOATIME))
    ensures RecAttr("rstrictatime") == Some(Change(false, MOUNT_ATTR_STRICTATIME))
    ensures RecAttr("rrelatime") == Some(Change(false, MOUNT_ATTR_RELATIME))
  {
  }

  // ----- bind mounts with locked flags -----

  const ATIME_ENUM: Flags := MS_NOATIME + MS_RELATIME + MS_STRICTATIME
  const ATIME: Flags := ATIME_ENUM + MS_NODIRATIME
  const LOCKED: Flags := MS_RDONLY + MS_NODEV + MS_NOEXEC + MS_NOSUID + ATIME

  const ST_RDONLY: Flags := {0}
  const ST_NOSUID: Flags := {1}
  const ST_NODEV: Flags := {2}
  const ST_NOEXEC: Flags := {3}
  const ST_SYNCHRONOUS: Flags := {4}
  const ST_MANDLOCK: Flags := {6}
  const ST_NOATIME: Flags := {10}
  const ST_NODIRATIME: Flags := {11}
  const ST_RELATIME: Flags := {12}
  const ST_NOSYMFOLLOW: Flags := {13}

  datatype StatFlag = StatFlag(st: Flags, ms: Flags)

  const STAT_FLAGS: seq<StatFlag> := [
    StatFlag(ST_RDONLY, MS_RDONLY), StatFlag(ST_NOSUID, MS_NOSUID), StatFlag(ST_NODEV, MS_NODEV),
    StatFlag(ST_NOEXEC, MS_NOEXEC), StatFlag(ST_MANDLOCK, MS_MANDLOCK), StatFlag(ST_SYNCHRONOUS, MS_SYNCHRONOUS),
    StatFlag(ST_NOATIME, MS_NOATIME), StatFlag(ST_NODIRATIME, MS_NODIRATIME), StatFlag(ST_RELATIME, MS_RELATIME),
    StatFlag(ST_NOSYMFOLLOW, MS_NOSYMFOLLOW)]

  /** The flags of the first n rows whose stat flag is present. */
  function Translated(st: Flags, n: nat): Flags
    requires n <= |STAT_FLAGS|
  {
    if n == 0 then {} else Translated(st, n - 1) + if STAT_FLAGS[n - 1].st <= st then STAT_FLAGS[n - 1].ms else {}
  }

  function SourceFlags(st: Flags): Flags {
    var flags := Translated(st, |STAT_FLAGS|);
    if flags * ATIME_ENUM == {} then flags + MS_STRICTATIME else flags
  }

  method StatfsToMountFlags(st: Flags) returns (flags: Flags)
    ensures flags == SourceFlags(st)
  {
    flags := {};
    for i := 0 to |STAT_FLAGS|
      invariant flags == Translated(st, i)
    {
      if STAT_FLAGS[i].st <= st {
        flags := flags + STAT_FLAGS[i].ms;
      }
    }
    if flags * ATIME_ENUM == {} {
      flags := flags + MS_STRICTATIME;
    }
  }

  /** Which mount flags a stat flag stands for; access times are strict if nothing else is said. */
  lemma SourceMeans(st: Flags, b: nat)
    ensures b in SourceFlags(st) <==>
      || (b in {0, 1, 2, 3, 4, 6, 10, 11} && b in st)
      || (b == 8 && 13 in st) || (b == 21 && 12 in st)
      || (b == 24 && 10 !in st && 12 !in st)
  {
    var flags := Translated(st, |STAT_FLAGS|);
    forall b: nat ensures b in flags <==> exists k :: 0 <= k < |STAT_FLAGS| && Says(k, st, b) {
      TranslatedIff(st, |STAT_FLAGS|, b);
    }
    Rows(st, b);
    Rows(st, 10);
    Rows(st, 21);
    Rows(st, 24);
    hide Translated, Says;
    assert flags * ATIME_ENUM == {} <==> 10 !in flags && 21 !in flags && 24 !in flags by {
      assert forall x <- ATIME_ENUM :: x == 10 || x == 21 || x == 24;
      if 10 in flags { assert 10 in flags * ATIME_ENUM; }
      if 21 in flags { assert 21 in flags * ATIME_ENUM; }
    }
  }

  /** Row k of the table makes b a flag. */
  ghost predicate Says(k: nat, st: Flags, b: nat)
    requires k < |STAT_FLAGS|
  {
    STAT_FLAGS[k].st <= st && b in STAT_FLAGS[k].ms
  }

  lemma RowSays(st: Flags, n: nat, b: nat)
    requires 0 < n <= |STAT_FLAGS|
    ensures b in Translated(st, n) <==> b in Translated(st, n - 1) || Says(n - 1, st, b)
  {
  }

  lemma {:induction false} TranslatedIff(st: Flags, n: nat, b: nat)
    requires n <= |STAT_FLAGS|
    ensures b in Translated(st, n) <==> exists k :: 0 <= k < n && Says(k, st, b)
  {
    hide Says;
    if n > 0 {
      var k := n - 1;
      TranslatedIff(st, k, b);
      RowSays(st, n, b);
      assert Says(k, st, b) ==> exists j :: 0 <= j < n && Says(j, st, b);
    }
  }

  lemma Rows(st: Flags, b: nat)
    ensures (exists k :: 0 <= k < |STAT_FLAGS| && Says(k, st, b)) <==>
      (b in {0, 1, 2, 3, 4, 6, 10, 11} && b in st) || (b == 8 && 13 in st) || (b == 21 && 12 in st)
  {
    if b in {0, 1, 2, 3, 4, 6, 10, 11} && b in st {
      var k := if b <= 3 then b else if b == 6 then 4 else if b == 4 then 5 else b - 4;
      assert Says(k, st, b);
    }
    if b == 21 && 12 in st { assert Says(8, st, b); }
    if b == 8 && 13 in st { assert Says(9, st, b); }
  }

  lemma LockedFlags(b: nat)
    ensures b in ATIME <==> b in {10, 11, 21, 24}
    ensures b in LOCKED <==> b in {0, 1, 2, 3, 10, 11, 21, 24}
  {
  }

  datatype Remount = Untouched | Remounted(flags: Flags) | CannotClear | CannotChangeAtime | MountFails

  /** What is asked of mount(2) in the end; `first` and `second` are its answers. */
  function BindRemount(m: Mount, st: Flags, first: bool, second: bool): Remount {
    if m.flags - (MS_BIND + MS_REC + MS_REMOUNT) == {} && m.cleared == {} then Untouched
    else
      var flags := m.flags + MS_BIND + MS_REMOUNT;
      if first then Remounted(flags)
      else
        var src := SourceFlags(st);
        if src * m.cleared * LOCKED != {} then CannotClear
        else if m.flags * ATIME != {} && m.flags * ATIME != src * ATIME then CannotChangeAtime
        else if second then Remounted(flags + src * LOCKED)
        else MountFails
  }

  /**
   A remount keeps what was asked for. For flags of which none is both set and cleared it never sets a
   lockable flag that an option cleared, and the second attempt keeps every locked flag and exactly the
   access-time flags of the source.
   */
  predicate Faithful(m: Mount, src: Flags, first: bool, flags: Flags) {
    && m.flags + MS_BIND + MS_REMOUNT <= flags
    && flags <= m.flags + MS_BIND + MS_REMOUNT + (if first then {} else src * LOCKED)
    && (m.flags !! m.cleared ==> flags * m.cleared * LOCKED == {})
    && (!first ==> src * LOCKED <= flags && flags * ATIME == src * ATIME)
  }

  lemma RemountIsFaithful(m: Mount, st: Flags, first: bool, second: bool)
    requires BindRemount(m, st, first, second).Remounted?
    ensures Faithful(m, SourceFlags(st), first, BindRemount(m, st, first, second).flags)
  {
    hide SourceFlags;
  }

  /** What is asked for without a look at the source, and when nothing is. */
  lemma FirstAttempt(m: Mount, st: Flags, second: bool)
    ensures BindRemount(m, st, true, second) ==
      if m.flags <= {5, 12, 14} && m.cleared == {} then Untouched else Remounted(m.flags + {5, 12})
    ensures BindRemount(m, st, false, second) == Untouched <==> m.flags <= {5, 12, 14} && m.cleared == {}
    ensures BindRemount(m, st, false, second) == MountFails ==> !second
  {
    hide SourceFlags;
    assert m.flags + MS_BIND + MS_REMOUNT == m.flags + {5, 12};
    assert MS_BIND + MS_REC + MS_REMOUNT == {5, 12, 14};
    assert m.flags - {5, 12, 14} == {} <==> m.flags <= {5, 12, 14} by {
      if m.flags - {5, 12, 14} == {} {
        forall b | b in m.flags ensures b in {5, 12, 14} { assert b !in m.flags - {5, 12, 14}; }
      }
    }
  }

  /** The remount as the code does it, one attempt after the other. */
  method RemountBind(m: Mount, st: Flags, first: bool, second: bool) returns (r: Remount)
    ensures r == BindRemount(m, st, first, second)
    ensures r.Remounted? ==> Faithful(m, SourceFlags(st), first, r.flags)
    ensures first ==> r == Untouched || r.Remounted?
  {
    if m.flags - (MS_BIND + MS_REC + MS_REMOUNT) == {} && m.cleared == {} {
      return Untouched;
    }
    var flags := m.flags + MS_BIND + MS_REMOUNT;
    if first {
      return Remounted(flags);
    }
    var srcFlags := StatfsToMountFlags(st);
    hide SourceFlags, Faithful;
    var cannotClear := srcFlags * m.cleared * LOCKED;
    if cannotClear != {} {
      return CannotClear;
    }
    if m.flags * ATIME != {} && m.flags * ATIME != srcFlags * ATIME {
      return CannotChangeAtime;
    }
    flags := flags + srcFlags * LOCKED;
    r := if second then Remounted(flags) else MountFails;
    if second { RemountIsFaithful(m, st, first, second); }
  }

  /** For parsed options nothing more is needed. */
  lemma FallbackIsFaithful(options: seq<string>, st: Flags)
    requires BindRemount(Parsed(options), st, false, true).Remounted?
    ensures var m := Parsed(options); var src := SourceFlags(st);
      var flags := BindRemount(m, st, false, true).flags;
      && flags * m.cleared * LOCKED == {}
      && flags * ATIME == src * ATIME
      && src * LOCKED <= flags && m.flags <= flags
      && flags <= m.flags + src * LOCKED + MS_BIND + MS_REMOUNT
  {
    SetAndClearedDisjoint(options);
    hide Parsed, SourceFlags;
  }

  /** Exactly when the second attempt is refused without asking the kernel. */
  lemma FallbackRefusesIff(options: seq<string>, st: Flags, second: bool)
    requires BindRemount(Parsed(options), st, false, second) != Untouched
    ensures var m := Parsed(options); var src := SourceFlags(st);
      var r := BindRemount(m, st, false, second);
      && (r == CannotClear <==> exists b :: b in LOCKED && b in src && LastMount(options, b) == Cleared)
      && (r == CannotChangeAtime <==>
            && r != CannotClear
            && (exists b :: b in ATIME && LastMount(options, b) == Set)
            && (exists b :: b in ATIME && (b in src <==> LastMount(options, b) != Set)))
  {
    var m, src := Parsed(options), SourceFlags(st);
    forall b: nat
      ensures b in m.flags <==> LastMount(options, b) == Set
      ensures b in m.cleared <==> LastMount(options, b) == Cleared
    {
      LastMountDecides(options, b);
    }
    hide Parsed, SourceFlags, LastMount;
    if b :| b in src * m.cleared * LOCKED {
      assert b in LOCKED && b in src && LastMount(options, b) == Cleared;
    }
    if b :| b in LOCKED && b in src && LastMount(options, b) == Cleared {
      assert b in src * m.cleared * LOCKED;
    }
    if b :| b in ATIME && LastMount(options, b) == Set { assert b in m.flags * ATIME; }
    if b :| b in m.flags * ATIME { assert b in ATIME && LastMount(options, b) == Set; }
    if m.flags * ATIME != src * ATIME {
      var b :| b in ATIME && (b in m.flags <==> b !in src);
      assert b in src <==> LastMount(options, b) != Set;
    } else {
      assert forall b :: b in ATIME ==> (b in m.flags * ATIME <==> b in src * ATIME);
    }
  }

  lemma {:induction false} TranslatedRow(st: Flags, n: nat, b: nat)
    requires n <= |STAT_FLAGS|
    ensures b in Translated(st, n) <==> exists i :: 0 <= i < n && STAT_FLAGS[i].st <= st && b in STAT_FLAGS[i].ms
  {
    if n > 0 { TranslatedRow(st, n - 1, b); }
  }

  /** The source always has one of the access-time modes, and strict access times if it reports no other. */
  lemma SourceHasAtimeMode(st: Flags)
    ensures SourceFlags(st) * ATIME_ENUM != {}
    ensures SourceFlags(st) * ATIME_ENUM == MS_STRICTATIME <==> !(ST_NOATIME <= st) && !(ST_RELATIME <= st)
  {
    var n := |STAT_FLAGS|;
    forall b: nat
      ensures b in Translated(st, n) <==> exists i :: 0 <= i < n && STAT_FLAGS[i].st <= st && b in STAT_FLAGS[i].ms
    {
      TranslatedRow(st, n, b);
    }
    hide Translated;
    assert STAT_FLAGS[6] == StatFlag(ST_NOATIME, MS_NOATIME) && STAT_FLAGS[8] == StatFlag(ST_RELATIME, MS_RELATIME);
    assert 10 in Translated(st, n) <==> ST_NOATIME <= st;
    assert 21 in Translated(st, n) <==> ST_RELATIME <= st;
    assert 24 !in Translated(st, n);
    assert 24 in MS_STRICTATIME && 24 in ATIME_ENUM && 10 in ATIME_ENUM && 21 in ATIME_ENUM;
  }
}
