/**
 The classic BPF machine that runs a seccomp filter: the part of the instruction set that the
 -ENOSYS stub emits, together with the loads, stores, masks and returns a filter may add to it.
 All jumps go forward.
 */
module Bpf {
  type Word = w: int | 0 <= w < 0x1_0000_0000

  /** Bitwise and. */
  function And(a: nat, b: nat): (r: nat)
    ensures r <= a
  {
    if a == 0 || b == 0 then 0
    else (if a % 2 == 1 && b % 2 == 1 then 1 else 0) + 2 * And(a / 2, b / 2)
  }

  /** Bit k of a number. */
  predicate Bit(n: nat, k: nat) { if k == 0 then n % 2 == 1 else Bit(n / 2, k - 1) }

  function Pow2(k: nat): nat { if k == 0 then 1 else 2 * Pow2(k - 1) }

  /** Testing against a power of two tests one bit. */
  lemma {:induction false} AndBit(n: nat, k: nat)
    ensures And(n, Pow2(k)) != 0 <==> Bit(n, k)
    decreases k
  {
    if k == 0 {
      assert And(n / 2, 0) == 0;
    } else if n == 0 {
      AndBit(0, k - 1);
    } else {
      AndBit(n / 2, k - 1);
      assert Pow2(k) / 2 == Pow2(k - 1) && Pow2(k) % 2 == 0;
    }
  }

  datatype JumpTest =
    | JumpEqual | JumpNotEqual | JumpGreaterThan | JumpLessThan
    | JumpGreaterOrEqual | JumpLessOrEqual | JumpBitsSet | JumpBitsNotSet

  predicate Holds(cond: JumpTest, a: Word, v: Word) {
    match cond
    case JumpEqual => a == v
    case JumpNotEqual => a != v
    case JumpGreaterThan => a > v
    case JumpLessThan => a < v
    case JumpGreaterOrEqual => a >= v
    case JumpLessOrEqual => a <= v
    case JumpBitsSet => And(a, v) != 0
    case JumpBitsNotSet => And(a, v) == 0
  }

  datatype Instruction =
    | LoadAbsolute(off: nat, size: nat)
    | LoadScratch(n: nat)
    | StoreScratch(n: nat)
    | AndConstant(val: Word)
    | TAX
    | TXA
    | Jump(skip: nat)
    | JumpIf(cond: JumpTest, val: Word, skipTrue: nat, skipFalse: nat)
    | RetConstant(val: Word)
    | RetA

  datatype Machine = Machine(a: Word, x: Word, scratch: map<nat, Word>)

  /** Fault is a load outside the seccomp data; OffEnd is a program that ends without a return. */
  datatype Outcome = Verdict(val: Word) | Fault | OffEnd

  /** Runs a program from instruction `pc` on the words of a `struct seccomp_data`. */
  function Run(p: seq<Instruction>, pc: nat, m: Machine, data: seq<Word>): Outcome
    decreases |p| - pc
  {
    if pc >= |p| then OffEnd else
    match p[pc]
    case LoadAbsolute(off, size) =>
      if size == 4 && off % 4 == 0 && off / 4 < |data| then Run(p, pc + 1, m.(a := data[off / 4]), data) else Fault
    case LoadScratch(n) => Run(p, pc + 1, m.(a := if n in m.scratch then m.scratch[n] else 0), data)
    case StoreScratch(n) => Run(p, pc + 1, m.(scratch := m.scratch[n := m.a]), data)
    case AndConstant(v) => Run(p, pc + 1, m.(a := And(m.a, v)), data)
    case TAX => Run(p, pc + 1, m.(x := m.a), data)
    case TXA => Run(p, pc + 1, m.(a := m.x), data)
    case Jump(k) => Run(p, pc + 1 + k, m, data)
    case JumpIf(c, v, t, f) => Run(p, pc + 1 + (if Holds(c, m.a, v) then t else f), m, data)
    case RetConstant(v) => Verdict(v)
    case RetA => Verdict(m.a)
  }

  // One instruction at a time.

  lemma RunLoad(p: seq<Instruction>, pc: nat, k: nat, m: Machine, data: seq<Word>)
    requires pc < |p| && p[pc] == LoadAbsolute(4 * k, 4) && k < |data|
    ensures Run(p, pc, m, data) == Run(p, pc + 1, m.(a := data[k]), data)
  {
  }

  lemma RunJump(p: seq<Instruction>, pc: nat, m: Machine, data: seq<Word>)
    requires pc < |p| && p[pc].Jump?
    ensures Run(p, pc, m, data) == Run(p, pc + 1 + p[pc].skip, m, data)
  {
  }

  lemma RunJumpIf(p: seq<Instruction>, pc: nat, m: Machine, data: seq<Word>)
    requires pc < |p| && p[pc].JumpIf?
    ensures var JumpIf(cond, v, t, f) := p[pc];
      Run(p, pc, m, data) == Run(p, pc + 1 + (if Holds(cond, m.a, v) then t else f), m, data)
  {
    hide Holds;
  }

  lemma RunReturn(p: seq<Instruction>, pc: nat, m: Machine, data: seq<Word>)
    requires pc < |p| && p[pc].RetConstant?
    ensures Run(p, pc, m, data) == Verdict(p[pc].val)
  {
  }

  /** Code means the same wherever it is placed: jumps are relative, and only go forward. */
  lemma {:induction false} RunShift(front: seq<Instruction>, p: seq<Instruction>, pc: nat, m: Machine, data: seq<Word>)
    ensures Run(front + p, |front| + pc, m, data) == Run(p, pc, m, data)
    decreases |p| - pc
  {
    if pc < |p| {
      assert (front + p)[|front| + pc] == p[pc];
      match p[pc]
      case LoadAbsolute(off, size) =>
        if size == 4 && off % 4 == 0 && off / 4 < |data| { RunShift(front, p, pc + 1, m.(a := data[off / 4]), data); }
      case LoadScratch(n) => RunShift(front, p, pc + 1, m.(a := if n in m.scratch then m.scratch[n] else 0), data);
      case StoreScratch(n) => RunShift(front, p, pc + 1, m.(scratch := m.scratch[n := m.a]), data);
      case AndConstant(v) => RunShift(front, p, pc + 1, m.(a := And(m.a, v)), data);
      case TAX => RunShift(front, p, pc + 1, m.(x := m.a), data);
      case TXA => RunShift(front, p, pc + 1, m.(a := m.x), data);
      case Jump(k) => RunShift(front, p, pc + 1 + k, m, data);
      case JumpIf(c, v, t, f) => RunShift(front, p, pc + 1 + (if Holds(c, m.a, v) then t else f), m, data);
      case RetConstant(_) =>
      case RetA =>
    }
  }

  /** Every jump of the program stays inside it or reaches its end, and conditional skips fit 8 bits. */
  predicate JumpsWithin(p: seq<Instruction>) {
    forall i :: 0 <= i < |p| ==> JumpFits(p[i], |p| - i - 1)
  }

  predicate JumpFits(ins: Instruction, left: nat) {
    match ins
    case Jump(k) => k <= left
    case JumpIf(_, _, t, f) => t < 256 && f < 256 && t <= left && f <= left
    case _ => true
  }
}
