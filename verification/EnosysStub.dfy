/**
 The -ENOSYS stub that runc puts in front of a libseccomp filter
 (libcontainer/seccomp/patchbpf/enosys_linux.go). The stub is emitted backwards, every jump is
 measured from the end of the program, each jump has an 8-bit and a long form, and the layout
 depends on the iteration order of Go maps; none of that shows in what the stub means.
 */
module EnosysStub {
  import opened Bpf

  datatype Result<+T> = Ok(value: T) | Err

  /** libseccomp's architecture tokens; the last five have no AUDIT_ARCH_* constant here. */
  datatype ScmpArch =
    | ArchNative
    | ArchX86 | ArchAMD64 | ArchX32 | ArchARM | ArchARM64
    | ArchMIPS | ArchMIPS64 | ArchMIPS64N32 | ArchMIPSEL | ArchMIPSEL64 | ArchMIPSEL64N32
    | ArchPPC | ArchPPC64 | ArchPPC64LE | ArchS390 | ArchS390X | ArchRISCV64 | ArchLOONGARCH64
    | ArchPARISC | ArchPARISC64 | ArchM68K | ArchSH | ArchSHEB

  /** ScmpSyscall is an int32. */
  type Sysno = n: int | -0x8000_0000 <= n < 0x8000_0000

  type LastSyscallMap = map<Word, map<ScmpArch, Sysno>>

  const AUDIT_ARCH_X86_64: Word := 0xC000_003E
  const RET_ERRNO_ENOSYS: Word := 0x0005_0026
  const X32_BIT: Word := 0x4000_0000

  /** Go's uint8(n) and uint32(n) conversions. */
  function U8(n: int): nat { n % 0x100 }
  function U32(n: int): Word { n % 0x1_0000_0000 }

  /** The bound below which no length of an emitted program can wrap a uint32. */
  const MAX_ENTRIES: nat := 0x1000_0000

  // ----- what the stub is for -----

  predicate IsX32Number(nr: Word) { And(nr, X32_BIT) != 0 }

  /** On x86_64 the number carries the ABI in its 30th bit; everywhere else there is one ABI. */
  predicate AbiMatches(auditArch: Word, arch: ScmpArch, nr: Word) {
    auditArch == AUDIT_ARCH_X86_64 ==> (IsX32Number(nr) <==> arch == ArchX32)
  }

  predicate IsS390(arch: ScmpArch) { arch == ArchS390 || arch == ArchS390X }

  /** The number is past the last one known for its ABI, or it is the s390 multiplexer. */
  ghost predicate Unknown(auditArch: Word, maxSyscalls: map<ScmpArch, Sysno>, nr: Word) {
    exists arch :: arch in maxSyscalls && AbiMatches(auditArch, arch, nr) &&
                   (nr > U32(maxSyscalls[arch]) || (IsS390(arch) && nr == 0))
  }

  /** The stub answers a call with -ENOSYS; otherwise the filter decides. */
  ghost predicate Answers(lastSyscalls: LastSyscallMap, auditArch: Word, nr: Word) {
    auditArch in lastSyscalls && Unknown(auditArch, lastSyscalls[auditArch], nr)
  }

  /** The overlaps of ABIs on one audit architecture that the generator can express. */
  ghost predicate Supported(auditArch: Word, maxSyscalls: map<ScmpArch, Sysno>) {
    || |maxSyscalls| == 0
    || (|maxSyscalls| == 1 && (auditArch == AUDIT_ARCH_X86_64 ==> maxSyscalls.Keys <= {ArchAMD64, ArchX32}))
    || (|maxSyscalls| == 2 && auditArch == AUDIT_ARCH_X86_64 && maxSyscalls.Keys >= {ArchAMD64, ArchX32})
  }

  // ----- sections -----

  const LOAD_NR: Instruction := LoadAbsolute(0, 4)
  const LOAD_ARCH: Instruction := LoadAbsolute(4, 4)
  const RET_ENOSYS: Instruction := RetConstant(RET_ERRNO_ENOSYS)

  /** jgt [sysno],[baseJumpEnosys+1]; ja [baseJumpFilter] */
  function ShortCompare(sysno: Sysno, baseJumpEnosys: nat): seq<Instruction> {
    [JumpIf(JumpGreaterThan, U32(sysno), U8(baseJumpEnosys + 1), 0), Jump(U32(baseJumpEnosys + 1))]
  }

  /** jle [sysno],1; ret [ENOSYS]; ja [baseJumpFilter] */
  function LongCompare(sysno: Sysno, baseJumpEnosys: nat): seq<Instruction> {
    [JumpIf(JumpLessOrEqual, U32(sysno), 1, 0), RET_ENOSYS, Jump(U32(baseJumpEnosys + 1))]
  }

  /** One comparison, in the form that reaches the -ENOSYS return. */
  function CompareTail(sysno: Sysno, baseJumpEnosys: nat): seq<Instruction> {
    if baseJumpEnosys + 1 <= 255 then ShortCompare(sysno, baseJumpEnosys) else LongCompare(sysno, baseJumpEnosys)
  }

  /** On x86_64, a call of the other ABI skips the comparison. */
  function WithModeCheck(auditArch: Word, arch: ScmpArch, st: seq<Instruction>): Result<seq<Instruction>> {
    if auditArch != AUDIT_ARCH_X86_64 then Ok(st)
    else if arch == ArchAMD64 then Ok([JumpIf(JumpBitsSet, X32_BIT, U8(|st| - 1), 0)] + st)
    else if arch == ArchX32 then Ok([JumpIf(JumpBitsNotSet, X32_BIT, U8(|st| - 1), 0)] + st)
    else Err
  }

  /** On s390(x), number 0 multiplexes the numbers the kernel does not know. */
  function Multiplex(arch: ScmpArch): seq<Instruction> {
    if IsS390(arch) then [JumpIf(JumpNotEqual, 0, 1, 0), RET_ENOSYS] else []
  }

  /** The section for an audit architecture with a single ABI in the filter. */
  function SingleSection(auditArch: Word, arch: ScmpArch, sysno: Sysno, baseJumpEnosys: nat): Result<seq<Instruction>> {
    match WithModeCheck(auditArch, arch, CompareTail(sysno, baseJumpEnosys))
    case Ok(st) => Ok([LOAD_NR] + Multiplex(arch) + st)
    case Err => Err
  }

  /** The section for both ABIs of x86_64. */
  function PairSection(x86: Sysno, x32: Sysno, baseJumpEnosys: nat): seq<Instruction> {
    if baseJumpEnosys + 2 <= 255 then
      [LOAD_NR,
       JumpIf(JumpBitsSet, X32_BIT, 1, 0),
       JumpIf(JumpGreaterThan, U32(x86), U8(baseJumpEnosys + 2), 1),
       JumpIf(JumpGreaterThan, U32(x32), U8(baseJumpEnosys + 1), 0),
       Jump(U32(baseJumpEnosys + 1))]
    else
      [LOAD_NR,
       JumpIf(JumpBitsSet, X32_BIT, 1, 0),
       JumpIf(JumpGreaterThan, U32(x86), 1, 2),
       JumpIf(JumpLessOrEqual, U32(x32), 1, 0),
       RET_ENOSYS,
       Jump(U32(baseJumpEnosys + 1))]
  }

  /** `sec` stands at `pc` in the program `p`. */
  ghost predicate At(p: seq<Instruction>, pc: nat, sec: seq<Instruction>) {
    && pc + |sec| <= |p|
    && forall i :: 0 <= i < |sec| ==> p[pc + i] == sec[i]
  }

  /** In `p`, the -ENOSYS return is the last instruction before `end`, the start of the filter. */
  ghost predicate EnosysBefore(p: seq<Instruction>, end: nat) {
    1 < end <= |p| && p[end - 1] == RET_ENOSYS
  }

  /** Both forms of the comparison mean the same, and their jumps do not truncate. */
  lemma CompareTailRuns(sysno: Sysno, tail: nat, p: seq<Instruction>, pc: nat, end: nat, m: Machine, data: seq<Word>)
    requires EnosysBefore(p, end) && 1 < tail && end < 0x1_0000_0000
    requires At(p, pc, CompareTail(sysno, tail - 1)) && pc + |CompareTail(sysno, tail - 1)| + tail == end
    ensures Run(p, pc, m, data) == if m.a > U32(sysno) then Verdict(RET_ERRNO_ENOSYS) else Run(p, end, m, data)
  {
    hide Run, And, U32;
    if tail > 255 {
      LongCompareRuns(sysno, tail, p, pc, end, m, data);
    } else {
      ShortCompareRuns(sysno, tail, p, pc, end, m, data);
    }
  }

  lemma ShortCompareRuns(sysno: Sysno, tail: nat, p: seq<Instruction>, pc: nat, end: nat, m: Machine, data: seq<Word>)
    requires EnosysBefore(p, end) && 1 < tail <= 255 && pc + 2 + tail == end
    requires At(p, pc, ShortCompare(sysno, tail - 1))
    ensures Run(p, pc, m, data) == if m.a > U32(sysno) then Verdict(RET_ERRNO_ENOSYS) else Run(p, end, m, data)
  {
    hide Run, And;
    var st := ShortCompare(sysno, tail - 1);
    assert p[pc + 0] == st[0] && p[pc + 1] == st[1];
    RunJumpIf(p, pc, m, data);
    RunReturn(p, end - 1, m, data);
    RunJump(p, pc + 1, m, data);
  }

  lemma LongCompareRuns(sysno: Sysno, tail: nat, p: seq<Instruction>, pc: nat, end: nat, m: Machine, data: seq<Word>)
    requires EnosysBefore(p, end) && 1 < tail && end < 0x1_0000_0000 && pc + 3 + tail == end
    requires At(p, pc, LongCompare(sysno, tail - 1))
    ensures Run(p, pc, m, data) == if m.a > U32(sysno) then Verdict(RET_ERRNO_ENOSYS) else Run(p, end, m, data)
  {
    hide Run, And;
    var st := LongCompare(sysno, tail - 1);
    assert p[pc + 0] == st[0] && p[pc + 1] == st[1] && p[pc + 2] == st[2];
    RunJumpIf(p, pc, m, data);
    RunReturn(p, pc + 1, m, data);
    RunJump(p, pc + 2, m, data);
  }

  lemma CompareTailEnd(sysno: Sysno, tail: nat)
    requires 1 < tail < 0x1_0000_0000
    ensures var cmp := CompareTail(sysno, tail - 1); 2 <= |cmp| <= 3 && cmp[|cmp| - 1] == Jump(tail)
  {
  }

  /** What stands behind a prefix. */
  lemma AtRest(p: seq<Instruction>, pc: nat, front: seq<Instruction>, st: seq<Instruction>)
    requires At(p, pc, front + st)
    ensures At(p, pc, front) && At(p, pc + |front|, st)
  {
    var sec := front + st;
    forall i | 0 <= i < |front| ensures p[pc + i] == front[i] { assert p[pc + i] == sec[i]; }
    forall i | 0 <= i < |st| ensures p[pc + |front| + i] == st[i] { assert p[pc + (|front| + i)] == sec[|front| + i]; }
  }

  /** A comparison behind a test of the mode. */
  lemma CheckedTailRuns(test: JumpTest, sysno: Sysno, tail: nat, p: seq<Instruction>, pc: nat, end: nat,
                        m: Machine, data: seq<Word>)
    requires EnosysBefore(p, end) && 1 < tail && end < 0x1_0000_0000
    requires var cmp := CompareTail(sysno, tail - 1);
      At(p, pc, [JumpIf(test, X32_BIT, U8(|cmp| - 1), 0)] + cmp) && pc + 1 + |cmp| + tail == end
    ensures Run(p, pc, m, data) ==
            if !Holds(test, m.a, X32_BIT) && m.a > U32(sysno) then Verdict(RET_ERRNO_ENOSYS)
            else Run(p, end, m, data)
  {
    hide Run, And, Holds, CompareTail;
    var cmp := CompareTail(sysno, tail - 1);
    CompareTailEnd(sysno, tail);
    var check := [JumpIf(test, X32_BIT, |cmp| - 1, 0)];
    AtRest(p, pc, check, cmp);
    assert p[pc + 0] == check[0];
    RunJumpIf(p, pc, m, data);
    CompareTailRuns(sysno, tail, p, pc + 1, end, m, data);
    assert p[pc + 1 + (|cmp| - 1)] == cmp[|cmp| - 1];
    RunJump(p, pc + |cmp|, m, data);
  }

  lemma WithModeCheckRuns(auditArch: Word, arch: ScmpArch, sysno: Sysno, tail: nat, st: seq<Instruction>,
                          p: seq<Instruction>, pc: nat, end: nat, m: Machine, data: seq<Word>)
    requires EnosysBefore(p, end) && 1 < tail && end < 0x1_0000_0000
    requires WithModeCheck(auditArch, arch, CompareTail(sysno, tail - 1)) == Ok(st)
    requires At(p, pc, st) && pc + |st| + tail == end
    ensures Run(p, pc, m, data) ==
            if AbiMatches(auditArch, arch, m.a) && m.a > U32(sysno) then Verdict(RET_ERRNO_ENOSYS)
            else Run(p, end, m, data)
  {
    hide Run, And, At, EnosysBefore, CompareTail, U32;
    if auditArch == AUDIT_ARCH_X86_64 {
      var test := if arch == ArchAMD64 then JumpBitsSet else JumpBitsNotSet;
      CheckedTailRuns(test, sysno, tail, p, pc, end, m, data);
    } else {
      CompareTailRuns(sysno, tail, p, pc, end, m, data);
    }
  }

  lemma MultiplexRuns(arch: ScmpArch, p: seq<Instruction>, pc: nat, m: Machine, data: seq<Word>)
    requires At(p, pc, Multiplex(arch))
    ensures Run(p, pc, m, data) ==
            if IsS390(arch) && m.a == 0 then Verdict(RET_ERRNO_ENOSYS)
            else Run(p, pc + |Multiplex(arch)|, m, data)
  {
    hide Run, And;
    if IsS390(arch) {
      assert p[pc + 0] == Multiplex(arch)[0] && p[pc + 1] == Multiplex(arch)[1];
      RunJumpIf(p, pc, m, data);
      RunReturn(p, pc + 1, m, data);
    }
  }

  lemma SingleSectionRuns(auditArch: Word, arch: ScmpArch, sysno: Sysno, tail: nat, sec: seq<Instruction>,
                          p: seq<Instruction>, pc: nat, end: nat, m: Machine, data: seq<Word>)
    requires EnosysBefore(p, end) && 1 < tail && end < 0x1_0000_0000 && |data| >= 2
    requires SingleSection(auditArch, arch, sysno, tail - 1) == Ok(sec)
    requires At(p, pc, sec) && pc + |sec| + tail == end
    ensures Run(p, pc, m, data) ==
            if AbiMatches(auditArch, arch, data[0]) && (data[0] > U32(sysno) || (IsS390(arch) && data[0] == 0))
            then Verdict(RET_ERRNO_ENOSYS) else Run(p, end, m.(a := data[0]), data)
  {
    hide Run, And, EnosysBefore, CompareTail, Multiplex, U32;
    var st := WithModeCheck(auditArch, arch, CompareTail(sysno, tail - 1)).value;
    var front, m' := [LOAD_NR] + Multiplex(arch), m.(a := data[0]);
    AtRest(p, pc, front, st);
    AtRest(p, pc, [LOAD_NR], Multiplex(arch));
    assert p[pc + 0] == [LOAD_NR][0];
    RunLoad(p, pc, 0, m, data);
    MultiplexRuns(arch, p, pc + 1, m', data);
    WithModeCheckRuns(auditArch, arch, sysno, tail, st, p, pc + |front|, end, m', data);
  }

  lemma PairSectionRuns(x86: Sysno, x32: Sysno, tail: nat,
                        p: seq<Instruction>, pc: nat, end: nat, m: Machine, data: seq<Word>)
    requires EnosysBefore(p, end) && 1 < tail && end < 0x1_0000_0000 && |data| >= 2
    requires At(p, pc, PairSection(x86, x32, tail - 1)) && pc + |PairSection(x86, x32, tail - 1)| + tail == end
    ensures Run(p, pc, m, data) ==
            if data[0] > U32(if IsX32Number(data[0]) then x32 else x86) then Verdict(RET_ERRNO_ENOSYS)
            else Run(p, end, m.(a := data[0]), data)
  {
    hide Run, And;
    var sec, m' := PairSection(x86, x32, tail - 1), m.(a := data[0]);
    assert p[pc + 0] == sec[0] && p[pc + 1] == sec[1] && p[pc + 2] == sec[2];
    assert p[pc + 3] == sec[3] && p[pc + 4] == sec[4];
    RunLoad(p, pc, 0, m, data);
    if tail > 254 {
      assert p[pc + 5] == sec[5];
      LongPairRuns(U32(x86), U32(x32), tail, p, pc + 1, end, m', data);
    } else {
      ShortPairRuns(U32(x86), U32(x32), tail, p, pc + 1, end, m', data);
    }
  }

  lemma ShortPairRuns(x86: Word, x32: Word, tail: nat,
                      p: seq<Instruction>, pc: nat, end: nat, m: Machine, data: seq<Word>)
    requires EnosysBefore(p, end) && 1 < tail && pc + 4 + tail == end
    requires p[pc] == JumpIf(JumpBitsSet, X32_BIT, 1, 0)
    requires p[pc + 1] == JumpIf(JumpGreaterThan, x86, tail + 1, 1)
    requires p[pc + 2] == JumpIf(JumpGreaterThan, x32, tail, 0)
    requires p[pc + 3] == Jump(tail)
    ensures Run(p, pc, m, data) ==
            if m.a > (if IsX32Number(m.a) then x32 else x86) then Verdict(RET_ERRNO_ENOSYS) else Run(p, end, m, data)
  {
    hide Run, And;
    RunJumpIf(p, pc, m, data);
    RunJumpIf(p, pc + 1, m, data);
    RunJumpIf(p, pc + 2, m, data);
    RunJump(p, pc + 3, m, data);
    RunReturn(p, end - 1, m, data);
  }

  lemma LongPairRuns(x86: Word, x32: Word, tail: nat,
                     p: seq<Instruction>, pc: nat, end: nat, m: Machine, data: seq<Word>)
    requires end <= |p| && pc + 5 + tail == end
    requires p[pc] == JumpIf(JumpBitsSet, X32_BIT, 1, 0)
    requires p[pc + 1] == JumpIf(JumpGreaterThan, x86, 1, 2)
    requires p[pc + 2] == JumpIf(JumpLessOrEqual, x32, 1, 0)
    requires p[pc + 3] == RET_ENOSYS && p[pc + 4] == Jump(tail)
    ensures Run(p, pc, m, data) ==
            if m.a > (if IsX32Number(m.a) then x32 else x86) then Verdict(RET_ERRNO_ENOSYS) else Run(p, end, m, data)
  {
    hide Run, And;
    RunJumpIf(p, pc, m, data);
    RunJumpIf(p, pc + 1, m, data);
    RunJumpIf(p, pc + 2, m, data);
    RunReturn(p, pc + 3, m, data);
    RunJump(p, pc + 4, m, data);
  }

  /** In front of this filter and on this call, entering `stub` at `pc` decides a call of `auditArch`. */
  ghost predicate DecidesOne(stub: seq<Instruction>, pc: nat, auditArch: Word, ms: map<ScmpArch, Sysno>,
                             filter: seq<Instruction>, m: Machine, data: seq<Word>)
    requires |data| >= 2
  {
    Run(stub + filter, pc, m, data) ==
    if Unknown(auditArch, ms, data[0]) then Verdict(RET_ERRNO_ENOSYS) else Run(filter, 0, m.(a := data[0]), data)
  }

  /** It does so in front of every filter and on every call. */
  ghost predicate DecidesFrom(stub: seq<Instruction>, pc: nat, auditArch: Word, ms: map<ScmpArch, Sysno>) {
    forall filter: seq<Instruction>, m: Machine, data: seq<Word> | |data| >= 2 ::
      DecidesOne(stub, pc, auditArch, ms, filter, m, data)
  }

  /** The same for an entry that is measured from the end. */
  ghost predicate Decides(stub: seq<Instruction>, j: nat, auditArch: Word, ms: map<ScmpArch, Sysno>) {
    j <= |stub| && DecidesFrom(stub, |stub| - j, auditArch, ms)
  }

  lemma OnlyKey(ms: map<ScmpArch, Sysno>, arch: ScmpArch)
    requires |ms| == 1 && arch in ms
    ensures ms.Keys == {arch}
  {
    assert |ms.Keys - {arch}| == 0;
  }

  lemma OnlyKeys(ms: map<ScmpArch, Sysno>, a: ScmpArch, b: ScmpArch)
    requires |ms| == 2 && a in ms && b in ms && a != b
    ensures ms.Keys == {a, b}
  {
    assert |ms.Keys - {a, b}| == 0;
  }

  lemma SingleUnknown(auditArch: Word, ms: map<ScmpArch, Sysno>, arch: ScmpArch, nr: Word)
    requires ms.Keys == {arch}
    ensures Unknown(auditArch, ms, nr) <==>
            AbiMatches(auditArch, arch, nr) && (nr > U32(ms[arch]) || (IsS390(arch) && nr == 0))
  {
    assert arch in ms;
    forall b | b in ms ensures b == arch { assert b in ms.Keys; }
  }

  lemma PairUnknown(auditArch: Word, ms: map<ScmpArch, Sysno>, nr: Word)
    requires auditArch == AUDIT_ARCH_X86_64 && ms.Keys == {ArchAMD64, ArchX32}
    ensures Unknown(auditArch, ms, nr) <==> nr > U32(ms[if IsX32Number(nr) then ArchX32 else ArchAMD64])
  {
    assert ArchAMD64 in ms && ArchX32 in ms;
    forall b | b in ms ensures b == ArchAMD64 || b == ArchX32 { assert b in ms.Keys; }
  }

  /** The section for one audit architecture; empty when the filter names no number there. */
  function Section(auditArch: Word, ms: map<ScmpArch, Sysno>, arch: ScmpArch, baseJumpEnosys: nat)
    : Result<seq<Instruction>>
    requires |ms| == 1 ==> arch in ms
  {
    if |ms| == 0 then Ok([])
    else if |ms| == 1 then SingleSection(auditArch, arch, ms[arch], baseJumpEnosys)
    else if |ms| == 2 && auditArch == AUDIT_ARCH_X86_64 && ArchX32 in ms && ArchAMD64 in ms then
      Ok(PairSection(ms[ArchAMD64], ms[ArchX32], baseJumpEnosys))
    else Err
  }

  lemma SectionSupported(auditArch: Word, ms: map<ScmpArch, Sysno>, arch: ScmpArch, baseJumpEnosys: nat)
    requires |ms| == 1 ==> arch in ms
    ensures Section(auditArch, ms, arch, baseJumpEnosys).Ok? <==> Supported(auditArch, ms)
    ensures Section(auditArch, ms, arch, baseJumpEnosys).Ok? ==>
              |Section(auditArch, ms, arch, baseJumpEnosys).value| <= 7
    ensures Section(auditArch, ms, arch, baseJumpEnosys) == Ok([]) <==> ms == map[]
  {
    if |ms| == 1 { OnlyKey(ms, arch); }
    assert |ms| == 0 ==> ms == map[];
  }

  ghost predicate StubTail(tail: seq<Instruction>) {
    1 < |tail| && tail[|tail| - 1] == RET_ENOSYS && JumpsWithin(tail)
  }

  lemma Placed(sec: seq<Instruction>, tail: seq<Instruction>, filter: seq<Instruction>)
    requires StubTail(tail)
    ensures At(sec + tail + filter, 0, sec) && EnosysBefore(sec + tail + filter, |sec| + |tail|)
  {
    var p := sec + tail + filter;
    assert p[|sec| + |tail| - 1] == tail[|tail| - 1];
  }

  lemma SingleDecides(auditArch: Word, ms: map<ScmpArch, Sysno>, arch: ScmpArch, sec: seq<Instruction>,
                      tail: seq<Instruction>, filter: seq<Instruction>, m: Machine, data: seq<Word>)
    requires |ms| == 1 && arch in ms && StubTail(tail) && |sec| + |tail| < 0x1_0000_0000 && |data| >= 2
    requires SingleSection(auditArch, arch, ms[arch], |tail| - 1) == Ok(sec)
    ensures DecidesOne(sec + tail, 0, auditArch, ms, filter, m, data)
  {
    hide Run, SingleSection, Unknown, JumpsWithin, At, EnosysBefore, U32, And;
    OnlyKey(ms, arch);
    Placed(sec, tail, filter);
    RunShift(sec + tail, filter, 0, m.(a := data[0]), data);
    SingleUnknown(auditArch, ms, arch, data[0]);
    SingleSectionRuns(auditArch, arch, ms[arch], |tail|, sec, sec + tail + filter, 0, |sec| + |tail|, m, data);
  }

  lemma SectionOfTwo(auditArch: Word, ms: map<ScmpArch, Sysno>, arch: ScmpArch, baseJumpEnosys: nat)
    requires |ms| == 2 && Section(auditArch, ms, arch, baseJumpEnosys).Ok?
    ensures auditArch == AUDIT_ARCH_X86_64 && ms.Keys == {ArchAMD64, ArchX32}
    ensures Section(auditArch, ms, arch, baseJumpEnosys).value ==
            PairSection(ms[ArchAMD64], ms[ArchX32], baseJumpEnosys)
  {
    hide PairSection;
    OnlyKeys(ms, ArchAMD64, ArchX32);
  }

  lemma PairDecides(auditArch: Word, ms: map<ScmpArch, Sysno>, arch: ScmpArch, sec: seq<Instruction>,
                    tail: seq<Instruction>, filter: seq<Instruction>, m: Machine, data: seq<Word>)
    requires |ms| == 2 && StubTail(tail) && |sec| + |tail| < 0x1_0000_0000 && |data| >= 2
    requires Section(auditArch, ms, arch, |tail| - 1) == Ok(sec)
    ensures DecidesOne(sec + tail, 0, auditArch, ms, filter, m, data)
  {
    hide Run, Section, PairSection, At, EnosysBefore, Unknown, U32, And, JumpsWithin;
    SectionOfTwo(auditArch, ms, arch, |tail| - 1);
    Placed(sec, tail, filter);
    RunShift(sec + tail, filter, 0, m.(a := data[0]), data);
    PairUnknown(auditArch, ms, data[0]);
    PairSectionRuns(ms[ArchAMD64], ms[ArchX32], |tail|, sec + tail + filter, 0, |sec| + |tail|, m, data);
  }

  lemma SectionDecides(auditArch: Word, ms: map<ScmpArch, Sysno>, arch: ScmpArch,
                       sec: seq<Instruction>, tail: seq<Instruction>)
    requires ms != map[] && (|ms| == 1 ==> arch in ms)
    requires StubTail(tail) && |sec| + |tail| < 0x1_0000_0000
    requires Section(auditArch, ms, arch, |tail| - 1) == Ok(sec)
    ensures Decides(sec + tail, |sec + tail|, auditArch, ms)
  {
    hide DecidesOne, SingleSection, PairSection, StubTail;
    forall filter: seq<Instruction>, m: Machine, data: seq<Word> | |data| >= 2
      ensures DecidesOne(sec + tail, 0, auditArch, ms, filter, m, data)
    {
      if |ms| == 1 {
        SingleDecides(auditArch, ms, arch, sec, tail, filter, m, data);
      } else {
        PairDecides(auditArch, ms, arch, sec, tail, filter, m, data);
      }
    }
    assert DecidesFrom(sec + tail, 0, auditArch, ms);
  }

  /** Every jump of code in front of `tail` instructions stays inside the program. */
  predicate FitsBefore(sec: seq<Instruction>, tail: nat) {
    forall i :: 0 <= i < |sec| ==> JumpFits(sec[i], |sec| + tail - i - 1)
  }

  lemma FitsPrepend(front: seq<Instruction>, sec: seq<Instruction>, tail: nat)
    requires FitsBefore(front, |sec| + tail) && FitsBefore(sec, tail)
    ensures FitsBefore(front + sec, tail)
  {
    hide JumpFits;
    var all := front + sec;
    forall i | 0 <= i < |all| ensures JumpFits(all[i], |all| + tail - i - 1) {
      if i >= |front| { assert all[i] == sec[i - |front|]; }
    }
  }

  lemma SingleSectionFits(auditArch: Word, arch: ScmpArch, sysno: Sysno, sec: seq<Instruction>, tail: nat)
    requires 1 < tail && |sec| + tail < 0x1_0000_0000 && SingleSection(auditArch, arch, sysno, tail - 1) == Ok(sec)
    ensures FitsBefore(sec, tail)
  {
    CompareTailFits(sysno, tail);
    hide CompareTail, FitsBefore;
    var st := WithModeCheck(auditArch, arch, CompareTail(sysno, tail - 1)).value;
    ModeCheckFits(auditArch, arch, CompareTail(sysno, tail - 1), tail);
    FrontFits(arch, |st| + tail);
    FitsPrepend([LOAD_NR] + Multiplex(arch), st, tail);
  }

  lemma CompareTailFits(sysno: Sysno, tail: nat)
    requires 1 < tail < 0x1_0000_0000
    ensures FitsBefore(CompareTail(sysno, tail - 1), tail) && 2 <= |CompareTail(sysno, tail - 1)| <= 3
  {
  }

  lemma ModeCheckFits(auditArch: Word, arch: ScmpArch, cmp: seq<Instruction>, tail: nat)
    requires 2 <= |cmp| <= 3 && FitsBefore(cmp, tail) && WithModeCheck(auditArch, arch, cmp).Ok?
    ensures FitsBefore(WithModeCheck(auditArch, arch, cmp).value, tail)
  {
    if auditArch == AUDIT_ARCH_X86_64 {
      var test := if arch == ArchAMD64 then JumpBitsSet else JumpBitsNotSet;
      FitsPrepend([JumpIf(test, X32_BIT, U8(|cmp| - 1), 0)], cmp, tail);
    }
  }

  lemma FrontFits(arch: ScmpArch, tail: nat)
    requires tail > 0
    ensures FitsBefore([LOAD_NR] + Multiplex(arch), tail)
  {
  }

  lemma PairSectionFits(x86: Sysno, x32: Sysno, tail: nat)
    requires 1 < tail && |PairSection(x86, x32, tail - 1)| + tail < 0x1_0000_0000
    ensures FitsBefore(PairSection(x86, x32, tail - 1), tail)
  {
  }

  lemma SectionJumps(auditArch: Word, ms: map<ScmpArch, Sysno>, arch: ScmpArch,
                     sec: seq<Instruction>, tail: seq<Instruction>)
    requires |ms| == 1 ==> arch in ms
    requires StubTail(tail) && |sec| + |tail| < 0x1_0000_0000
    requires Section(auditArch, ms, arch, |tail| - 1) == Ok(sec)
    ensures StubTail(sec + tail)
  {
    hide SingleSection, PairSection, JumpFits;
    if |ms| == 1 {
      SingleSectionFits(auditArch, arch, ms[arch], sec, |tail|);
    } else if |ms| == 2 {
      PairSectionFits(ms[ArchAMD64], ms[ArchX32], |tail|);
    }
    JumpsWithinPrepend(sec, tail);
  }

  /** Prepending code whose own jumps fit keeps every jump of the tail where it was. */
  lemma JumpsWithinPrepend(sec: seq<Instruction>, tail: seq<Instruction>)
    requires JumpsWithin(tail) && FitsBefore(sec, |tail|)
    ensures JumpsWithin(sec + tail)
  {
    var p := sec + tail;
    forall i | 0 <= i < |p| ensures JumpFits(p[i], |p| - i - 1) {
      if i >= |sec| { assert p[i] == tail[i - |sec|]; }
    }
  }

  lemma DecidesOnePrepend(sec: seq<Instruction>, tail: seq<Instruction>, pc: nat, auditArch: Word,
                          ms: map<ScmpArch, Sysno>, filter: seq<Instruction>, m: Machine, data: seq<Word>)
    requires |data| >= 2 && DecidesOne(tail, pc, auditArch, ms, filter, m, data)
    ensures DecidesOne(sec + tail, |sec| + pc, auditArch, ms, filter, m, data)
  {
    hide Run, Unknown;
    assert sec + tail + filter == sec + (tail + filter);
    RunShift(sec, tail + filter, pc, m, data);
  }

  /** An entry measured from the end stays valid when code is prepended. */
  lemma DecidesPrepend(
    sec: seq<Instruction>, tail: seq<Instruction>, j: nat, auditArch: Word, ms: map<ScmpArch, Sysno>)
    requires Decides(tail, j, auditArch, ms)
    ensures Decides(sec + tail, j, auditArch, ms)
  {
    hide DecidesOne;
    var pc: nat := |tail| - j;
    var pc': nat := |sec| + pc;
    forall filter: seq<Instruction>, m: Machine, data: seq<Word> | |data| >= 2
      ensures DecidesOne(sec + tail, pc', auditArch, ms, filter, m, data)
    {
      assert DecidesOne(tail, pc, auditArch, ms, filter, m, data);
      DecidesOnePrepend(sec, tail, pc, auditArch, ms, filter, m, data);
    }
    assert DecidesFrom(sec + tail, pc', auditArch, ms);
  }

  // ----- dispatch on the architecture -----

  /**
   What the stub does in front of a filter: it answers, or it hands over with nothing changed but
   the accumulator, which holds the number if the architecture has a section and the architecture
   if it has none.
   */
  ghost function Meaning(lastSyscalls: LastSyscallMap, filter: seq<Instruction>, m: Machine, data: seq<Word>): Outcome
    requires |data| >= 2
  {
    var nr, arch := data[0], data[1];
    if Answers(lastSyscalls, arch, nr) then Verdict(RET_ERRNO_ENOSYS)
    else if arch in lastSyscalls && lastSyscalls[arch] != map[] then Run(filter, 0, m.(a := nr), data)
    else Run(filter, 0, m.(a := arch), data)
  }

  /** In front of every filter and on every call, `stub` means what `lastSyscalls` says. */
  ghost predicate Implements(stub: seq<Instruction>, lastSyscalls: LastSyscallMap) {
    forall filter: seq<Instruction>, m: Machine, data: seq<Word> | |data| >= 2 ::
      Run(stub + filter, 0, m, data) == Meaning(lastSyscalls, filter, m, data)
  }

  /** With the architecture loaded, `stub` means what `lastSyscalls` says. */
  ghost predicate Dispatches(stub: seq<Instruction>, lastSyscalls: LastSyscallMap) {
    forall filter: seq<Instruction>, m: Machine, data: seq<Word> | |data| >= 2 && m.a == data[1] ::
      Run(stub + filter, 0, m, data) == Meaning(lastSyscalls, filter, m, data)
  }

  /** The jump-table entry of an architecture: 0, the end of the stub, if it has no section. */
  ghost predicate Entry(stub: seq<Instruction>, j: nat, auditArch: Word, ms: map<ScmpArch, Sysno>) {
    if ms == map[] then j == 0 else Decides(stub, j, auditArch, ms)
  }

  function TableEntry(archJumpTable: map<Word, nat>, auditArch: Word): nat {
    if auditArch in archJumpTable then archJumpTable[auditArch] else 0
  }

  ghost predicate Entries(
    stub: seq<Instruction>, archJumpTable: map<Word, nat>, lastSyscalls: LastSyscallMap, todo: set<Word>)
  {
    forall a :: a in lastSyscalls && a !in todo ==> Entry(stub, TableEntry(archJumpTable, a), a, lastSyscalls[a])
  }

  lemma EntriesPrepend(sec: seq<Instruction>, tail: seq<Instruction>, archJumpTable: map<Word, nat>,
                       lastSyscalls: LastSyscallMap, todo: set<Word>)
    requires Entries(tail, archJumpTable, lastSyscalls, todo)
    ensures Entries(sec + tail, archJumpTable, lastSyscalls, todo)
  {
    hide Decides;
    forall a | a in lastSyscalls && a !in todo
      ensures Entry(sec + tail, TableEntry(archJumpTable, a), a, lastSyscalls[a])
    {
      if lastSyscalls[a] != map[] { DecidesPrepend(sec, tail, TableEntry(archJumpTable, a), a, lastSyscalls[a]); }
    }
  }

  /** jeq [arch],[jump], or jne [arch],1 and a long jump. */
  function ArchJump(auditArch: Word, jump: nat): seq<Instruction> {
    if jump <= 255 then [JumpIf(JumpEqual, auditArch, U8(jump), 0)]
    else [JumpIf(JumpNotEqual, auditArch, 1, 0), Jump(jump)]
  }

  lemma ArchJumpRuns(auditArch: Word, jump: nat, rest: seq<Instruction>, m: Machine, data: seq<Word>)
    ensures Run(ArchJump(auditArch, jump) + rest, 0, m, data) ==
            Run(rest, if m.a == auditArch then jump else 0, m, data)
  {
    var front := ArchJump(auditArch, jump);
    RunShift(front, rest, if m.a == auditArch then jump else 0, m, data);
    assert (front + rest)[0] == front[0];
    if jump > 255 { assert (front + rest)[1] == front[1]; }
  }

  /** One more architecture in the jump chain. */
  lemma DispatchStep(stub: seq<Instruction>, done: LastSyscallMap, auditArch: Word, ms: map<ScmpArch, Sysno>, j: nat)
    requires Dispatches(stub, done) && auditArch !in done && j <= |stub| && Entry(stub, j, auditArch, ms)
    ensures Dispatches(ArchJump(auditArch, |stub| - j) + stub, done[auditArch := ms])
  {
    hide Run;
    var front, done' := ArchJump(auditArch, |stub| - j), done[auditArch := ms];
    forall filter: seq<Instruction>, m: Machine, data: seq<Word> | |data| >= 2 && m.a == data[1]
      ensures Run(front + stub + filter, 0, m, data) == Meaning(done', filter, m, data)
    {
      assert front + stub + filter == front + (stub + filter);
      ArchJumpRuns(auditArch, |stub| - j, stub + filter, m, data);
      if m.a == auditArch {
        if ms == map[] {
          RunShift(stub, filter, 0, m, data);
          assert !Unknown(auditArch, ms, data[0]);
          assert m.(a := data[1]) == m;
        } else {
          assert DecidesOne(stub, |stub| - j, auditArch, ms, filter, m, data);
        }
      }
    }
  }

  lemma DispatchNone(tail: seq<Instruction>)
    ensures Dispatches([Jump(|tail|)] + tail, map[])
  {
    var stub := [Jump(|tail|)] + tail;
    forall filter: seq<Instruction>, m: Machine, data: seq<Word> | |data| >= 2 && m.a == data[1]
      ensures Run(stub + filter, 0, m, data) == Meaning(map[], filter, m, data)
    {
      RunShift(stub, filter, 0, m, data);
      assert m.(a := data[1]) == m;
    }
  }

  /** One more architecture in the jump chain, as the second loop of the generator adds it. */
  lemma ChainStep(stub: seq<Instruction>, done: LastSyscallMap, auditArch: Word, lastSyscalls: LastSyscallMap,
                  archJumpTable: map<Word, nat>)
    requires auditArch in lastSyscalls && auditArch !in done
    requires JumpsWithin(stub) && Dispatches(stub, done) && Entries(stub, archJumpTable, lastSyscalls, {})
    ensures TableEntry(archJumpTable, auditArch) <= |stub|
    ensures var front := ArchJump(auditArch, |stub| - TableEntry(archJumpTable, auditArch));
      && JumpsWithin(front + stub)
      && Dispatches(front + stub, done[auditArch := lastSyscalls[auditArch]])
      && Entries(front + stub, archJumpTable, lastSyscalls, {})
  {
    hide Run, Dispatches;
    var j, ms := TableEntry(archJumpTable, auditArch), lastSyscalls[auditArch];
    assert Entry(stub, j, auditArch, ms);
    var front := ArchJump(auditArch, |stub| - j);
    DispatchStep(stub, done, auditArch, ms, j);
    JumpsWithinPrepend(front, stub);
    EntriesPrepend(front, stub, archJumpTable, lastSyscalls, {});
  }

  /** The load in front of the chain. */
  lemma StubMeaning(stub: seq<Instruction>, lastSyscalls: LastSyscallMap)
    requires JumpsWithin(stub) && Dispatches(stub, lastSyscalls)
    ensures JumpsWithin([LOAD_ARCH] + stub)
    ensures Implements([LOAD_ARCH] + stub, lastSyscalls)
  {
    JumpsWithinPrepend([LOAD_ARCH], stub);
    forall filter: seq<Instruction>, m: Machine, data: seq<Word> | |data| >= 2
      ensures Run([LOAD_ARCH] + stub + filter, 0, m, data) == Meaning(lastSyscalls, filter, m, data)
    {
      LoadArchRuns(stub + filter, m, data);
      assert [LOAD_ARCH] + stub + filter == [LOAD_ARCH] + (stub + filter);
      assert Run(stub + filter, 0, m.(a := data[1]), data) == Meaning(lastSyscalls, filter, m.(a := data[1]), data);
    }
  }

  lemma LoadArchRuns(rest: seq<Instruction>, m: Machine, data: seq<Word>)
    requires |data| >= 2
    ensures Run([LOAD_ARCH] + rest, 0, m, data) == Run(rest, 0, m.(a := data[1]), data)
  {
    RunShift([LOAD_ARCH], rest, 0, m.(a := data[1]), data);
  }

  // ----- the generator -----

  /** One more architecture has its section. */
  lemma SectionStep(sec: seq<Instruction>, tail: seq<Instruction>, archJumpTable: map<Word, nat>,
                    lastSyscalls: LastSyscallMap, todo: set<Word>, auditArch: Word, arch: ScmpArch)
    requires auditArch in todo && auditArch in lastSyscalls && lastSyscalls[auditArch] != map[]
    requires Entries(tail, archJumpTable, lastSyscalls, todo)
    requires |lastSyscalls[auditArch]| == 1 ==> arch in lastSyscalls[auditArch]
    requires StubTail(tail) && |sec| + |tail| < 0x1_0000_0000
    requires Section(auditArch, lastSyscalls[auditArch], arch, |tail| - 1) == Ok(sec)
    ensures StubTail(sec + tail)
    ensures Entries(sec + tail, archJumpTable[auditArch := |sec + tail|], lastSyscalls, todo - {auditArch})
  {
    hide Decides, Section, StubTail;
    SectionDecides(auditArch, lastSyscalls[auditArch], arch, sec, tail);
    SectionJumps(auditArch, lastSyscalls[auditArch], arch, sec, tail);
    EntriesPrepend(sec, tail, archJumpTable, lastSyscalls, todo);
  }

  ghost predicate AllSupported(lastSyscalls: LastSyscallMap) {
    forall a :: a in lastSyscalls ==> Supported(a, lastSyscalls[a])
  }

  /** The first loop of the generator: one section an architecture, in any order. */
  method GenerateSections(lastSyscalls: LastSyscallMap)
    returns (r: Result<seq<Instruction>>, archJumpTable: map<Word, nat>)
    requires |lastSyscalls| <= MAX_ENTRIES
    ensures r.Ok? <==> AllSupported(lastSyscalls)
    ensures r.Ok? ==> StubTail(r.value) && |r.value| <= 2 + 7 * |lastSyscalls|
    ensures r.Ok? ==> Entries(r.value, archJumpTable, lastSyscalls, {})
  {
    hide Decides, Section, JumpsWithin, Entries, Supported, TableEntry;
    var programTail := [Jump(1), RET_ENOSYS];
    FirstTail();
    archJumpTable := map[];
    var todo := lastSyscalls.Keys;
    NoEntries(programTail, lastSyscalls);
    while todo != {}
      invariant todo <= lastSyscalls.Keys && archJumpTable.Keys <= lastSyscalls.Keys - todo
      invariant StubTail(programTail) && |programTail| <= 2 + 7 * (|lastSyscalls.Keys| - |todo|)
      invariant forall a :: a in lastSyscalls && a !in todo ==> Supported(a, lastSyscalls[a])
      invariant Entries(programTail, archJumpTable, lastSyscalls, todo)
    {
      var auditArch :| auditArch in todo;
      var maxSyscalls := lastSyscalls[auditArch];
      if |maxSyscalls| == 0 {
        SkipEmpty(programTail, archJumpTable, lastSyscalls, todo, auditArch);
        todo := todo - {auditArch};
        continue;
      }
      var scmpArch :| scmpArch in maxSyscalls.Keys;
      SectionSupported(auditArch, maxSyscalls, scmpArch, |programTail| - 1);
      var section := Section(auditArch, maxSyscalls, scmpArch, |programTail| - 1);
      if section.Err? {
        return Err, archJumpTable;
      }
      SectionStep(section.value, programTail, archJumpTable, lastSyscalls, todo, auditArch, scmpArch);
      programTail := section.value + programTail;
      archJumpTable := archJumpTable[auditArch := |programTail|];
      todo := todo - {auditArch};
    }
    r := Ok(programTail);
  }

  lemma NoEntries(stub: seq<Instruction>, lastSyscalls: LastSyscallMap)
    ensures Entries(stub, map[], lastSyscalls, lastSyscalls.Keys)
  {
  }

  /** An architecture without numbers gets no section and no entry in the table. */
  lemma SkipEmpty(tail: seq<Instruction>, archJumpTable: map<Word, nat>, lastSyscalls: LastSyscallMap,
                  todo: set<Word>, auditArch: Word)
    requires auditArch in lastSyscalls && |lastSyscalls[auditArch]| == 0 && auditArch !in archJumpTable
    requires Entries(tail, archJumpTable, lastSyscalls, todo)
    ensures Entries(tail, archJumpTable, lastSyscalls, todo - {auditArch})
    ensures Supported(auditArch, lastSyscalls[auditArch])
  {
    hide Decides;
    assert lastSyscalls[auditArch] == map[];
  }

  lemma FirstTail()
    ensures StubTail([Jump(1), RET_ENOSYS])
  {
  }

  /** The jump to the filter in front of the sections, which ends the chain. */
  lemma ChainStart(sections: seq<Instruction>, archJumpTable: map<Word, nat>, lastSyscalls: LastSyscallMap)
    requires StubTail(sections) && Entries(sections, archJumpTable, lastSyscalls, {})
    ensures var stub := [Jump(|sections|)] + sections;
      JumpsWithin(stub) && Dispatches(stub, map[]) && Entries(stub, archJumpTable, lastSyscalls, {})
  {
    hide Decides, Dispatches, Entries;
    DispatchNone(sections);
    EntriesPrepend([Jump(|sections|)], sections, archJumpTable, lastSyscalls, {});
    JumpsWithinPrepend([Jump(|sections|)], sections);
  }

  /** No length of an emitted program wraps. */
  lemma NoWrap(n: nat, entry: nat)
    requires entry <= n < 0x1_0000_0000
    ensures U32(n) == n && U32(U32(n) - entry) == n - entry
  {
  }

  /** The generator. Its result does not depend on the order of its two loops over the map. */
  method GenerateEnosysStub(lastSyscalls: LastSyscallMap) returns (r: Result<seq<Instruction>>)
    requires |lastSyscalls| <= MAX_ENTRIES
    ensures r.Ok? <==> AllSupported(lastSyscalls)
    ensures r.Ok? ==> r.value != [] && JumpsWithin(r.value)
    ensures r.Ok? ==> Implements(r.value, lastSyscalls)
  {
    hide Decides, Dispatches, Implements, Entries, JumpsWithin, AllSupported, StubTail, TableEntry, U32, U8;
    var archJumpTable: map<Word, nat>;
    r, archJumpTable := GenerateSections(lastSyscalls);
    if r.Err? {
      return;
    }
    NoWrap(|r.value|, 0);
    var programTail := [Jump(U32(|r.value|))] + r.value;
    ChainStart(r.value, archJumpTable, lastSyscalls);
    var todo := lastSyscalls.Keys;
    ghost var done: LastSyscallMap := map[];
    while todo != {}
      invariant todo <= lastSyscalls.Keys && done == lastSyscalls - todo
      invariant |programTail| <= 3 + 7 * |lastSyscalls| + 2 * (|lastSyscalls.Keys| - |todo|)
      invariant JumpsWithin(programTail) && Dispatches(programTail, done)
      invariant Entries(programTail, archJumpTable, lastSyscalls, {})
    {
      var auditArch :| auditArch in todo;
      ChainStep(programTail, done, auditArch, lastSyscalls, archJumpTable);
      NoWrap(|programTail|, TableEntry(archJumpTable, auditArch));
      var jump := U32(U32(|programTail|) - TableEntry(archJumpTable, auditArch));
      var front := if jump <= 255 then [JumpIf(JumpEqual, auditArch, U8(jump), 0)]
                   else [JumpIf(JumpNotEqual, auditArch, 1, 0), Jump(jump)];
      programTail := front + programTail;
      done := done[auditArch := lastSyscalls[auditArch]];
      todo := todo - {auditArch};
    }
    assert done == lastSyscalls;
    StubMeaning(programTail, lastSyscalls);
    r := Ok([LOAD_ARCH] + programTail);
  }
}
