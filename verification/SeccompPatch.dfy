/**
 From a seccomp configuration to the patched filter: the largest number the configuration names
 for each ABI, the decision whether to patch, and the patched program
 (libcontainer/seccomp/patchbpf/enosys_linux.go).
 */
module SeccompPatch {
  import opened Wrappers
  import opened Bpf
  import opened EnosysStub

  datatype Action = Kill | Errno | Trap | Allow | Trace | Log | Notify | KillThread | KillProcess

  datatype Config = Config(
    defaultAction: Action,
    defaultErrnoRet: Option<nat>,
    architectures: seq<string>,
    syscalls: seq<string>)  // the names in the rules

  /** The answers of libseccomp: names of architectures, the native one, and numbers of system calls. */
  datatype Libseccomp = Libseccomp(
    archFromString: string -> Option<ScmpArch>,
    nativeArch: Option<ScmpArch>,
    resolve: (string, ScmpArch) -> Option<Sysno>)
  {
    /** libseccomp never answers with the placeholder for the native architecture. */
    ghost predicate Valid() {
      && nativeArch != Some(ArchNative)
      && forall s :: archFromString(s) != Some(ArchNative)
    }

    /** x32 numbers carry bit 30, x86_64 numbers do not. */
    ghost predicate MarksX32() {
      forall name, no: Word ::
        && (resolve(name, ArchX32) == Some(no) ==> Bit(no, 30))
        && (resolve(name, ArchAMD64) == Some(no) ==> !Bit(no, 30))
    }
  }

  ghost function AuditArchs(): set<Word> {
    {0x4000_0003, AUDIT_ARCH_X86_64, 0x4000_0028, 0xC000_00B7, 0x0000_0008, 0x8000_0008, 0xA000_0008, 0x4000_0008,
     0xC000_0008, 0xE000_0008, 0x0000_0014, 0x8000_0015, 0xC000_0015, 0x0000_0016, 0x8000_0016,
     0xC000_00F3, 0xC000_0102}
  }

  function ScmpArchToAuditArch(arch: ScmpArch, native: Option<ScmpArch>): (r: Option<Word>)
    requires native != Some(ArchNative)
    decreases arch == ArchNative
  {
    match arch
    case ArchNative => if native.None? then None else ScmpArchToAuditArch(native.value, native)
    case ArchX86 => Some(0x4000_0003)
    case ArchAMD64 => Some(AUDIT_ARCH_X86_64)
    case ArchX32 => Some(AUDIT_ARCH_X86_64)
    case ArchARM => Some(0x4000_0028)
    case ArchARM64 => Some(0xC000_00B7)
    case ArchMIPS => Some(0x0000_0008)
    case ArchMIPS64 => Some(0x8000_0008)
    case ArchMIPS64N32 => Some(0xA000_0008)
    case ArchMIPSEL => Some(0x4000_0008)
    case ArchMIPSEL64 => Some(0xC000_0008)
    case ArchMIPSEL64N32 => Some(0xE000_0008)
    case ArchPPC => Some(0x0000_0014)
    case ArchPPC64 => Some(0x8000_0015)
    case ArchPPC64LE => Some(0xC000_0015)
    case ArchS390 => Some(0x0000_0016)
    case ArchS390X => Some(0x8000_0016)
    case ArchRISCV64 => Some(0xC000_00F3)
    case ArchLOONGARCH64 => Some(0xC000_0102)
    case _ => None
  }

  /** The number of the ELF machine of an architecture. */
  function ElfMachine(arch: ScmpArch): Option<nat> {
    match arch
    case ArchX86 => Some(3)
    case ArchAMD64 => Some(62)
    case ArchX32 => Some(62)
    case ArchARM => Some(40)
    case ArchARM64 => Some(183)
    case ArchMIPS => Some(8)
    case ArchMIPS64 => Some(8)
    case ArchMIPS64N32 => Some(8)
    case ArchMIPSEL => Some(8)
    case ArchMIPSEL64 => Some(8)
    case ArchMIPSEL64N32 => Some(8)
    case ArchPPC => Some(20)
    case ArchPPC64 => Some(21)
    case ArchPPC64LE => Some(21)
    case ArchS390 => Some(22)
    case ArchS390X => Some(22)
    case ArchRISCV64 => Some(243)
    case ArchLOONGARCH64 => Some(258)
    case _ => None
  }

  const ARCHS_32: set<ScmpArch> := {ArchX86, ArchARM, ArchMIPS, ArchMIPSEL, ArchPPC, ArchS390}
  const ARCHS_BIG: set<ScmpArch> := {ArchMIPS, ArchMIPS64, ArchMIPS64N32, ArchPPC, ArchPPC64, ArchS390, ArchS390X}

  /**
   An audit architecture is composed as in linux/audit.h: the ELF machine, bit 31 for 64-bit words, bit 30
   for little-endian ones, and bit 29 for the n32 convention of MIPS.
   */
  lemma AuditArchComposed(arch: ScmpArch, native: Option<ScmpArch>)
    requires native != Some(ArchNative) && arch != ArchNative
    ensures ScmpArchToAuditArch(arch, native).Some? <==> ElfMachine(arch).Some?
    ensures ElfMachine(arch).Some? ==>
      ScmpArchToAuditArch(arch, native).value ==
        ElfMachine(arch).value
        + (if arch in ARCHS_32 then 0 else 0x8000_0000)
        + (if arch in ARCHS_BIG then 0 else 0x4000_0000)
        + (if arch == ArchMIPS64N32 || arch == ArchMIPSEL64N32 then 0x2000_0000 else 0)
  {
  }

  // ----- the largest number named for each ABI -----

  /** The architectures of the filter: the configured ones and the native one. */
  ghost function Archs(lib: Libseccomp, architectures: seq<string>): set<ScmpArch>
    requires lib.nativeArch.Some?
  {
    (set i | 0 <= i < |architectures| && lib.archFromString(architectures[i]).Some?
       :: lib.archFromString(architectures[i]).value) + {lib.nativeArch.value}
  }

  /** `n` is the largest positive number that the names resolve to, and 0 if there is none. */
  ghost predicate IsLargest(lib: Libseccomp, names: seq<string>, arch: ScmpArch, n: Sysno) {
    && n >= 0
    && (n == 0 || exists i :: 0 <= i < |names| && lib.resolve(names[i], arch) == Some(n))
    && forall i :: 0 <= i < |names| && lib.resolve(names[i], arch).Some? ==> lib.resolve(names[i], arch).value <= n
  }

  lemma LargestUnique(lib: Libseccomp, names: seq<string>, arch: ScmpArch, n: Sysno, n': Sysno)
    requires IsLargest(lib, names, arch, n) && IsLargest(lib, names, arch, n')
    ensures n == n'
  {
  }

  /** The configuration names something libseccomp does not know as an architecture of the filter. */
  ghost predicate BadArchs(lib: Libseccomp, config: Config)
    requires lib.Valid()
  {
    || lib.nativeArch.None?
    || (exists i :: 0 <= i < |config.architectures| && lib.archFromString(config.architectures[i]).None?)
    || exists a :: Included(lib, config, a) && ScmpArchToAuditArch(a, lib.nativeArch).None?
  }

  /** The table has the largest number of `a`, and no entry if there is none. */
  ghost predicate HasLargest(lib: Libseccomp, names: seq<string>, table: LastSyscallMap, a: ScmpArch)
    requires lib.Valid()
  {
    var audit := ScmpArchToAuditArch(a, lib.nativeArch);
    && audit.Some? && audit.value in table
    && if a in table[audit.value] then table[audit.value][a] > 0 && IsLargest(lib, names, a, table[audit.value][a])
       else IsLargest(lib, names, a, 0)
  }

  /** The table holds, for each architecture in `archs`, its largest number, and nothing else. */
  ghost predicate IsTable(lib: Libseccomp, names: seq<string>, archs: set<ScmpArch>, table: LastSyscallMap)
    requires lib.Valid()
  {
    && (forall a :: a in archs ==> HasLargest(lib, names, table, a))
    && (forall audit :: audit in table ==>
          exists a :: a in archs && ScmpArchToAuditArch(a, lib.nativeArch) == Some(audit))
    && (forall audit, a :: audit in table && a in table[audit] ==>
          a in archs && ScmpArchToAuditArch(a, lib.nativeArch) == Some(audit))
  }

  method LargestSyscall(lib: Libseccomp, names: seq<string>, arch: ScmpArch) returns (largest: Sysno)
    ensures IsLargest(lib, names, arch, largest)
  {
    largest := 0;
    for i := 0 to |names|
      invariant IsLargest(lib, names[..i], arch, largest)
    {
      var sysno := lib.resolve(names[i], arch);
      assert names[..i + 1][i] == names[i];
      if sysno.Some? && sysno.value > largest {
        largest := sysno.value;
      } else if largest != 0 {
        ghost var k :| 0 <= k < i && lib.resolve(names[..i][k], arch) == Some(largest);
        assert names[..i + 1][k] == names[..i][k];
      }
      assert forall k :: 0 <= k < i ==> names[..i + 1][k] == names[..i][k];
    }
    assert names[..|names|] == names;
  }

  /** The table with the entry of one architecture written, or dropped if it has no number. */
  function Recorded(table: LastSyscallMap, audit: Word, arch: ScmpArch, largest: Sysno): LastSyscallMap {
    var row := if audit in table then table[audit] else map[];
    table[audit := if largest != 0 then row[arch := largest] else row - {arch}]
  }

  /** Recording one architecture keeps what is recorded of the others. */
  lemma RecordedLargest(lib: Libseccomp, names: seq<string>, table: LastSyscallMap,
                        arch: ScmpArch, audit: Word, largest: Sysno, a: ScmpArch)
    requires lib.Valid() && (a != arch ==> HasLargest(lib, names, table, a))
    requires ScmpArchToAuditArch(arch, lib.nativeArch) == Some(audit) && IsLargest(lib, names, arch, largest)
    ensures HasLargest(lib, names, Recorded(table, audit, arch, largest), a)
  {
    hide ScmpArchToAuditArch, IsLargest;
    LargestNonNegative(lib, names, arch, largest);
  }

  lemma TableStep(lib: Libseccomp, names: seq<string>, done: set<ScmpArch>, table: LastSyscallMap,
                  arch: ScmpArch, audit: Word, largest: Sysno)
    requires lib.Valid() && IsTable(lib, names, done, table) && arch !in done
    requires ScmpArchToAuditArch(arch, lib.nativeArch) == Some(audit) && IsLargest(lib, names, arch, largest)
    ensures IsTable(lib, names, done + {arch}, Recorded(table, audit, arch, largest))
  {
    hide ScmpArchToAuditArch, IsLargest, HasLargest;
    var table', done' := Recorded(table, audit, arch, largest), done + {arch};
    forall a | a in done' ensures HasLargest(lib, names, table', a) {
      RecordedLargest(lib, names, table, arch, audit, largest, a);
    }
    forall b | b in table' ensures exists a :: a in done' && ScmpArchToAuditArch(a, lib.nativeArch) == Some(b) {
      if b == audit {
        assert arch in done';
      } else {
        var a :| a in done && ScmpArchToAuditArch(a, lib.nativeArch) == Some(b);
        assert a in done';
      }
    }
    forall b, a | b in table' && a in table'[b]
      ensures a in done' && ScmpArchToAuditArch(a, lib.nativeArch) == Some(b)
    {
      if a != arch || b != audit { assert b in table && a in table[b]; }
    }
  }

  lemma LargestNonNegative(lib: Libseccomp, names: seq<string>, arch: ScmpArch, n: Sysno)
    requires IsLargest(lib, names, arch, n)
    ensures n >= 0
  {
  }

  /** The architectures known after the first loop, then the table; the second loop runs in any order. */
  method FindLastSyscalls(lib: Libseccomp, config: Config) returns (r: Result<LastSyscallMap>)
    requires lib.Valid()
    ensures r.Err? <==> BadArchs(lib, config)
    ensures r.Ok? ==> IsTable(lib, config.syscalls, Archs(lib, config.architectures), r.value)
  {
    hide ScmpArchToAuditArch, IsTable, IsLargest;
    var scmpArchs: set<ScmpArch> := {};
    for i := 0 to |config.architectures|
      invariant forall k :: 0 <= k < i ==> lib.archFromString(config.architectures[k]).Some?
      invariant scmpArchs == set k | 0 <= k < i && lib.archFromString(config.architectures[k]).Some?
                               :: lib.archFromString(config.architectures[k]).value
    {
      var arch := lib.archFromString(config.architectures[i]);
      if arch.None? {
        return Err;
      }
      scmpArchs := scmpArchs + {arch.value};
    }
    if lib.nativeArch.None? {
      return Err;
    }
    scmpArchs := scmpArchs + {lib.nativeArch.value};
    forall a ensures a in scmpArchs <==> Included(lib, config, a) { IncludedIff(lib, config, a); }
    r := BuildTable(lib, config.syscalls, scmpArchs);
  }

  method BuildTable(lib: Libseccomp, names: seq<string>, scmpArchs: set<ScmpArch>) returns (r: Result<LastSyscallMap>)
    requires lib.Valid()
    ensures r.Err? <==> exists a :: a in scmpArchs && ScmpArchToAuditArch(a, lib.nativeArch).None?
    ensures r.Ok? ==> IsTable(lib, names, scmpArchs, r.value)
  {
    hide ScmpArchToAuditArch, IsTable, IsLargest, Recorded;
    var lastSyscalls: LastSyscallMap := map[];
    EmptyTable(lib, names);
    var todo := scmpArchs;
    assert scmpArchs - todo == {};
    while todo != {}
      invariant todo <= scmpArchs
      invariant forall a :: a in scmpArchs - todo ==> ScmpArchToAuditArch(a, lib.nativeArch).Some?
      invariant IsTable(lib, names, scmpArchs - todo, lastSyscalls)
    {
      var arch :| arch in todo;
      var auditArch := ScmpArchToAuditArch(arch, lib.nativeArch);
      if auditArch.None? {
        return Err;
      }
      var largest := LargestSyscall(lib, names, arch);
      TableStep(lib, names, scmpArchs - todo, lastSyscalls, arch, auditArch.value, largest);
      lastSyscalls := Recorded(lastSyscalls, auditArch.value, arch, largest);
      assert scmpArchs - (todo - {arch}) == scmpArchs - todo + {arch};
      todo := todo - {arch};
    }
    assert scmpArchs - {} == scmpArchs;
    r := Ok(lastSyscalls);
  }

  lemma EmptyTable(lib: Libseccomp, names: seq<string>)
    requires lib.Valid()
    ensures IsTable(lib, names, {}, map[])
  {
  }

  // ----- what the table means for the stub -----

  /** Only x86_64 and x32 share an audit architecture. */
  lemma AuditArchInjective(a: ScmpArch, b: ScmpArch, native: Option<ScmpArch>)
    requires native != Some(ArchNative) && a != ArchNative && b != ArchNative && a != b
    requires ScmpArchToAuditArch(a, native).Some? && ScmpArchToAuditArch(a, native) == ScmpArchToAuditArch(b, native)
    ensures {a, b} == {ArchAMD64, ArchX32} && ScmpArchToAuditArch(a, native) == Some(AUDIT_ARCH_X86_64)
  {
  }

  lemma SubsetSize<T>(a: set<T>, b: set<T>)
    requires a <= b
    ensures |a| <= |b|
  {
    assert |b| == |b - a| + |a|;
  }

  lemma KnownAuditArch(a: ScmpArch, native: Option<ScmpArch>)
    requires native != Some(ArchNative)
    ensures ScmpArchToAuditArch(a, native).Some? ==> ScmpArchToAuditArch(a, native).value in AuditArchs()
    decreases a == ArchNative
  {
    if a == ArchNative && native.Some? { KnownAuditArch(native.value, native); }
  }

  lemma AuditArchCount()
    ensures |AuditArchs()| <= 17
  {
  }

  lemma TableIsSmall(lib: Libseccomp, names: seq<string>, archs: set<ScmpArch>, table: LastSyscallMap)
    requires lib.Valid() && IsTable(lib, names, archs, table)
    ensures |table| <= 17
  {
    hide ScmpArchToAuditArch, AuditArchs;
    forall audit | audit in table.Keys ensures audit in AuditArchs() {
      var a :| a in archs && ScmpArchToAuditArch(a, lib.nativeArch) == Some(audit);
      KnownAuditArch(a, lib.nativeArch);
    }
    AuditArchCount();
    SubsetSize(table.Keys, AuditArchs());
  }

  /** The generator can express every table: its overlap errors cannot happen. */
  lemma TablesAreSupported(lib: Libseccomp, names: seq<string>, archs: set<ScmpArch>, table: LastSyscallMap)
    requires lib.Valid() && IsTable(lib, names, archs, table) && ArchNative !in archs
    ensures AllSupported(table) && |table| <= MAX_ENTRIES
  {
    hide ScmpArchToAuditArch, Supported;
    TableIsSmall(lib, names, archs, table);
    forall audit | audit in table ensures Supported(audit, table[audit]) {
      RowSupported(lib, audit, table[audit]);
    }
  }

  lemma RowSupported(lib: Libseccomp, audit: Word, row: map<ScmpArch, Sysno>)
    requires lib.Valid() && ArchNative !in row
    requires forall a :: a in row ==> ScmpArchToAuditArch(a, lib.nativeArch) == Some(audit)
    ensures Supported(audit, row)
  {
    if |row| > 0 {
      var a :| a in row.Keys;
      if row.Keys == {a} {
        assert |row| == |row.Keys| == 1;
        RowOfOne(lib, audit, a);
      } else {
        assert row.Keys - {a} != {};
        var b :| b in row.Keys - {a};
        hide ScmpArchToAuditArch;
        AuditArchInjective(a, b, lib.nativeArch);
        forall c | c in row.Keys ensures c in {ArchAMD64, ArchX32} {
          if c != a { AuditArchInjective(a, c, lib.nativeArch); }
        }
        assert row.Keys == {ArchAMD64, ArchX32};
        assert |row| == |row.Keys| == 2;
      }
    }
  }

  lemma RowOfOne(lib: Libseccomp, audit: Word, a: ScmpArch)
    requires lib.Valid() && a != ArchNative && ScmpArchToAuditArch(a, lib.nativeArch) == Some(audit)
    ensures audit == AUDIT_ARCH_X86_64 ==> a in {ArchAMD64, ArchX32}
  {
  }

  // ----- the patch -----

  predicate IsAllowAction(action: Action) {
    action == Allow || action == Log || action == Trace
  }

  /** The guards under which no stub is generated. The errno is compared with the whole action word. */
  predicate Unpatched(config: Config) {
    config.defaultErrnoRet == Some(RET_ERRNO_ENOSYS) || IsAllowAction(config.defaultAction)
  }

  /** The architecture is configured, or the native one. */
  ghost predicate Included(lib: Libseccomp, config: Config, a: ScmpArch) {
    || lib.nativeArch == Some(a)
    || exists i :: 0 <= i < |config.architectures| && lib.archFromString(config.architectures[i]) == Some(a)
  }

  /** The configuration names a call that has a positive number on the architecture. */
  ghost predicate NamesSome(lib: Libseccomp, names: seq<string>, a: ScmpArch) {
    exists i :: 0 <= i < |names| && lib.resolve(names[i], a).Some? && lib.resolve(names[i], a).value > 0
  }

  /** The number exceeds that of every call that the configuration names. */
  ghost predicate AboveAll(lib: Libseccomp, names: seq<string>, a: ScmpArch, nr: Word) {
    forall i :: 0 <= i < |names| && lib.resolve(names[i], a).Some? ==> nr > lib.resolve(names[i], a).value
  }

  /**
   The calls that the stub of a configuration answers: those whose number exceeds every number the
   configuration names for their ABI, if it names any, and number 0 on s390(x).
   */
  ghost predicate StubAnswers(lib: Libseccomp, config: Config, auditArch: Word, nr: Word)
    requires lib.Valid()
  {
    exists a ::
      && Included(lib, config, a) && ScmpArchToAuditArch(a, lib.nativeArch) == Some(auditArch)
      && (auditArch == 0xC000_003E ==> (Bit(nr, 30) <==> a == ArchX32))
      && NamesSome(lib, config.syscalls, a)
      && (AboveAll(lib, config.syscalls, a, nr) || (a in {ArchS390, ArchS390X} && nr == 0))
  }

  lemma IncludedIff(lib: Libseccomp, config: Config, a: ScmpArch)
    requires lib.nativeArch.Some?
    ensures a in Archs(lib, config.architectures) <==> Included(lib, config, a)
  {
  }

  lemma AbiIff(auditArch: Word, a: ScmpArch, nr: Word)
    ensures AbiMatches(auditArch, a, nr) <==> (auditArch == 0xC000_003E ==> (Bit(nr, 30) <==> a == ArchX32))
  {
    hide And, Bit;
    AndBit(nr, 30);
    X32IsBit30();
  }

  lemma X32IsBit30()
    ensures X32_BIT == Pow2(30)
  {
    assert Pow2(10) == 1024;
    assert Pow2(20) == 0x10_0000;
    assert Pow2(30) == 0x4000_0000;
  }

  lemma LargestIff(lib: Libseccomp, names: seq<string>, a: ScmpArch, n: Sysno, nr: Word)
    requires IsLargest(lib, names, a, n)
    ensures n > 0 <==> NamesSome(lib, names, a)
    ensures n > 0 ==> (nr > n <==> AboveAll(lib, names, a, nr))
  {
    if n > 0 {
      var i :| 0 <= i < |names| && lib.resolve(names[i], a) == Some(n);
      assert lib.resolve(names[i], a).value > 0;
    }
  }

  lemma TableAnswers(lib: Libseccomp, config: Config, table: LastSyscallMap, auditArch: Word, nr: Word)
    requires lib.Valid() && lib.nativeArch.Some?
    requires IsTable(lib, config.syscalls, Archs(lib, config.architectures), table)
    ensures Answers(table, auditArch, nr) <==> StubAnswers(lib, config, auditArch, nr)
  {
    hide IsTable, Archs;
    if StubAnswers(lib, config, auditArch, nr) { AnsweredByTable(lib, config, table, auditArch, nr); }
    if Answers(table, auditArch, nr) { AnsweredByStub(lib, config, table, auditArch, nr); }
  }

  lemma AnsweredByTable(lib: Libseccomp, config: Config, table: LastSyscallMap, auditArch: Word, nr: Word)
    requires lib.Valid() && lib.nativeArch.Some? && StubAnswers(lib, config, auditArch, nr)
    requires IsTable(lib, config.syscalls, Archs(lib, config.architectures), table)
    ensures Answers(table, auditArch, nr)
  {
    hide ScmpArchToAuditArch, IsLargest, AbiMatches, Archs, Included, NamesSome, AboveAll, Bit;
    var a :|
      && Included(lib, config, a) && ScmpArchToAuditArch(a, lib.nativeArch) == Some(auditArch)
      && (auditArch == 0xC000_003E ==> (Bit(nr, 30) <==> a == ArchX32))
      && NamesSome(lib, config.syscalls, a)
      && (AboveAll(lib, config.syscalls, a, nr) || (a in {ArchS390, ArchS390X} && nr == 0));
    IncludedIff(lib, config, a);
    AbiIff(auditArch, a, nr);
    assert HasLargest(lib, config.syscalls, table, a);
    LargestIff(lib, config.syscalls, a, if a in table[auditArch] then table[auditArch][a] else 0, nr);
  }

  lemma AnsweredByStub(lib: Libseccomp, config: Config, table: LastSyscallMap, auditArch: Word, nr: Word)
    requires lib.Valid() && lib.nativeArch.Some? && Answers(table, auditArch, nr)
    requires IsTable(lib, config.syscalls, Archs(lib, config.architectures), table)
    ensures StubAnswers(lib, config, auditArch, nr)
  {
    hide ScmpArchToAuditArch, IsLargest, AbiMatches, Archs, Included, NamesSome, AboveAll, Bit;
    var a :| a in table[auditArch] && AbiMatches(auditArch, a, nr) &&
             (nr > U32(table[auditArch][a]) || (IsS390(a) && nr == 0));
    IncludedIff(lib, config, a);
    AbiIff(auditArch, a, nr);
    assert HasLargest(lib, config.syscalls, table, a);
    LargestIff(lib, config.syscalls, a, table[auditArch][a], nr);
  }

  method GeneratePatch(lib: Libseccomp, config: Config) returns (r: Result<seq<Instruction>>)
    requires lib.Valid()
    ensures r == Ok([]) <==>
      config.defaultAction in {Allow, Log, Trace} || config.defaultErrnoRet == Some(0x0005_0026)
    ensures r != Ok([]) ==> (r.Err? <==> BadArchs(lib, config))
    ensures r.Ok? && r.value != [] ==> JumpsWithin(r.value)
    ensures r.Ok? && r.value != [] ==> exists table ::
      Implements(r.value, table) && IsTable(lib, config.syscalls, Archs(lib, config.architectures), table)
  {
    if Unpatched(config) {
      return Ok([]);
    }
    var lastSyscalls := FindLastSyscalls(lib, config);
    if lastSyscalls.Err? {
      return Err;
    }
    TablesAreSupported(lib, config.syscalls, Archs(lib, config.architectures), lastSyscalls.value);
    r := GenerateEnosysStub(lastSyscalls.value);
  }

  /** The verdict of a filter does not depend on what the accumulator holds when it starts. */
  ghost predicate IgnoresAccumulator(filter: seq<Instruction>) {
    forall m: Machine, z: Word, data: seq<Word> :: Run(filter, 0, m.(a := z), data) == Run(filter, 0, m, data)
  }

  /** Filters exported by libseccomp start with a load. */
  lemma LoadFirst(filter: seq<Instruction>)
    requires filter != [] && filter[0].LoadAbsolute?
    ensures IgnoresAccumulator(filter)
  {
    forall m: Machine, z: Word, data: seq<Word>
      ensures Run(filter, 0, m.(a := z), data) == Run(filter, 0, m, data)
    {
      var LoadAbsolute(off, size) := filter[0];
      if size == 4 && off % 4 == 0 && off / 4 < |data| {
        assert m.(a := z).(a := data[off / 4]) == m.(a := data[off / 4]);
      }
    }
  }

  /** Exactly the calls that the stub is for get -ENOSYS, and every other one the filter's verdict. */
  ghost predicate Patches(lib: Libseccomp, config: Config, patched: seq<Instruction>, filter: seq<Instruction>)
    requires lib.Valid()
  {
    forall m: Machine, data: seq<Word> | |data| >= 2 ::
      Run(patched, 0, m, data) ==
      if StubAnswers(lib, config, data[1], data[0]) then Verdict(0x0005_0026) else Run(filter, 0, m, data)
  }

  /** The patched program: exactly the unknown numbers get -ENOSYS, every other call the filter's verdict. */
  method PatchFilter(lib: Libseccomp, config: Config, filter: seq<Instruction>) returns (r: Result<seq<Instruction>>)
    requires lib.Valid()
    ensures var bare := config.defaultAction in {Allow, Log, Trace} || config.defaultErrnoRet == Some(0x0005_0026);
      if bare then r == Ok(filter)
      else
        && (r.Err? <==> BadArchs(lib, config))
        && (r.Ok? ==> |r.value| > |filter| && r.value[|r.value| - |filter|..] == filter)
        && (r.Ok? && IgnoresAccumulator(filter) ==> Patches(lib, config, r.value, filter))
  {
    hide Patches, Implements, IsTable, IgnoresAccumulator, Archs;
    var patch := GeneratePatch(lib, config);
    if patch.Err? {
      return Err;
    }
    r := Ok(patch.value + filter);
    if patch.value == [] {
      assert [] + filter == filter;
    } else if IgnoresAccumulator(filter) {
      ghost var table :|
        Implements(patch.value, table) && IsTable(lib, config.syscalls, Archs(lib, config.architectures), table);
      Transparent(lib, config, patch.value, table, filter);
    }
  }

  lemma Transparent(
    lib: Libseccomp, config: Config, stub: seq<Instruction>, table: LastSyscallMap, filter: seq<Instruction>)
    requires lib.Valid() && lib.nativeArch.Some?
    requires IsTable(lib, config.syscalls, Archs(lib, config.architectures), table)
    requires Implements(stub, table) && IgnoresAccumulator(filter)
    ensures Patches(lib, config, stub + filter, filter)
  {
    hide IsTable, StubAnswers, Run;
    forall m: Machine, data: seq<Word> | |data| >= 2
      ensures Run(stub + filter, 0, m, data) ==
              if StubAnswers(lib, config, data[1], data[0]) then Verdict(0x0005_0026) else Run(filter, 0, m, data)
    {
      TableAnswers(lib, config, table, data[1], data[0]);
    }
  }

  /** A system call that the configuration names, with a positive number, is never answered by the stub. */
  lemma NamedSyscallsPass(lib: Libseccomp, config: Config, i: nat, arch: ScmpArch, no: Word)
    requires lib.Valid() && lib.MarksX32() && !BadArchs(lib, config)
    requires i < |config.syscalls| && Included(lib, config, arch)
    requires lib.resolve(config.syscalls[i], arch) == Some(no) && no > 0
    ensures !StubAnswers(lib, config, ScmpArchToAuditArch(arch, lib.nativeArch).value, no)
  {
    hide ScmpArchToAuditArch, Bit;
    var audit := ScmpArchToAuditArch(arch, lib.nativeArch).value;
    forall a |
      && Included(lib, config, a) && ScmpArchToAuditArch(a, lib.nativeArch) == Some(audit)
      && (audit == 0xC000_003E ==> (Bit(no, 30) <==> a == ArchX32))
      ensures !AboveAll(lib, config.syscalls, a, no)
    {
      if a != arch {
        AuditArchInjective(a, arch, lib.nativeArch);
        assert false;
      }
    }
  }

  /** The configurations that are meant to go without a stub. */
  predicate NeedsNoStub(config: Config) {
    config.defaultErrnoRet == Some(38) || config.defaultAction in {Allow, Log, Trace}
  }

  /**
   Exactly when the right configurations go without a stub. The test looks for the action word: unless the
   action is permissive, it does not see a default errno of ENOSYS, and takes a default errno that has the
   value of the action word for one.
   */
  lemma ErrnoIsComparedWithActionWord(config: Config)
    ensures (Unpatched(config) <==> NeedsNoStub(config)) <==>
      || config.defaultAction in {Allow, Log, Trace}
      || (config.defaultErrnoRet != Some(38) && config.defaultErrnoRet != Some(0x0005_0026))
    ensures config.defaultAction !in {Allow, Log, Trace} && config.defaultErrnoRet == Some(38) ==>
      !Unpatched(config)
    ensures config.defaultAction !in {Allow, Log, Trace} && config.defaultErrnoRet == Some(0x0005_0026) ==>
      Unpatched(config) && !NeedsNoStub(config)
  {
  }

  /**
   What that costs: the patched program is no other than the filter, if and only if the filter already
   answers with -ENOSYS every call that the stub is for.
   */
  lemma StubIsIdleIff(lib: Libseccomp, config: Config, patched: seq<Instruction>, filter: seq<Instruction>)
    requires lib.Valid() && Patches(lib, config, patched, filter)
    ensures
      (forall m: Machine, data: seq<Word> | |data| >= 2 :: Run(patched, 0, m, data) == Run(filter, 0, m, data)) <==>
      (forall m: Machine, data: seq<Word> | |data| >= 2 && StubAnswers(lib, config, data[1], data[0]) ::
         Run(filter, 0, m, data) == Verdict(0x0005_0026))
  {
    hide Run, StubAnswers;
    if forall m: Machine, data: seq<Word> | |data| >= 2 :: Run(patched, 0, m, data) == Run(filter, 0, m, data) {
      forall m: Machine, data: seq<Word> | |data| >= 2 && StubAnswers(lib, config, data[1], data[0])
        ensures Run(filter, 0, m, data) == Verdict(0x0005_0026)
      {
        assert Run(patched, 0, m, data) == Run(filter, 0, m, data);
      }
    }
  }
}
