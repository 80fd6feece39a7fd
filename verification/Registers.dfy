/** The x86-64 general-purpose registers and the marker values the emulator plants in them. */
module Registers {

  const TWO32: int := 0x1_0000_0000
  const TWO48: int := 0x1_0000_0000_0000
  const TWO64: int := 0x1_0000_0000_0000_0000

  type U32 = x: int | 0 <= x < 0x1_0000_0000
  type U64 = x: int | 0 <= x < 0x1_0000_0000_0000_0000

  datatype Reg =
    | Rax | Rbx | Rcx | Rdx | Rsi | Rdi | Rbp | Rsp
    | R8 | R9 | R10 | R11 | R12 | R13 | R14 | R15

  /** Iteration order of the source's ordered register table. */
  const GP_REGS: seq<Reg> :=
    [Rax, Rbx, Rcx, Rdx, Rsi, Rdi, Rbp, Rsp, R8, R9, R10, R11, R12, R13, R14, R15]

  /** Position of a register in `GP_REGS`. */
  function Index(r: Reg): (i: nat)
    ensures i < |GP_REGS| && GP_REGS[i] == r
  {
    match r
    case Rax => 0 case Rbx => 1 case Rcx => 2 case Rdx => 3
    case Rsi => 4 case Rdi => 5 case Rbp => 6 case Rsp => 7
    case R8 => 8 case R9 => 9 case R10 => 10 case R11 => 11
    case R12 => 12 case R13 => 13 case R14 => 14 case R15 => 15
  }

  lemma {:induction false} IndexInverse(i: nat)
    requires i < |GP_REGS|
    ensures Index(GP_REGS[i]) == i
  {
    if i < 8 {
      assert i == 0 || i == 1 || i == 2 || i == 3 || i == 4 || i == 5 || i == 6 || i == 7;
    } else {
      assert i == 8 || i == 9 || i == 10 || i == 11 || i == 12 || i == 13 || i == 14 || i == 15;
    }
  }

  type RegFile = map<Reg, U64>

  ghost predicate Total(m: RegFile) {
    forall r: Reg :: r in m
  }

  /** `dict.get(r, 0)`. */
  function Get(m: RegFile, r: Reg): (v: U64) {
    if r in m then m[r] else 0
  }

  /** Caller-saved registers of the Win64 calling convention. */
  predicate Volatile(r: Reg) {
    r == Rcx || r == Rdx || r == R8 || r == R9 || r == R10 || r == R11
  }

  const WIN64_VOLATILE: seq<Reg> := [Rcx, Rdx, R8, R9, R10, R11]

  lemma {:induction false} VolatileList(r: Reg)
    ensures Volatile(r) <==> r in WIN64_VOLATILE
  {
    assert WIN64_VOLATILE[0] == Rcx && WIN64_VOLATILE[1] == Rdx && WIN64_VOLATILE[2] == R8;
    assert WIN64_VOLATILE[3] == R9 && WIN64_VOLATILE[4] == R10 && WIN64_VOLATILE[5] == R11;
  }

  // ---------------------------------------------------------------- sentinels

  const RET_HI: int := 0xCAFE_0000_0000_0000
  const CLOB_HI: int := 0xDEAD_0000_0000_0000

  /** Sum of the character codes of the register's name. */
  function NameTag(r: Reg): (t: nat)
    ensures t < 0x10000
  {
    match r
    case Rax => 331 case Rbx => 332 case Rcx => 333 case Rdx => 334
    case Rsi => 334 case Rdi => 319 case Rbp => 324 case Rsp => 341
    case R8 => 170 case R9 => 171 case R10 => 211 case R11 => 212
    case R12 => 213 case R13 => 214 case R14 => 215 case R15 => 216
  }

  /** Fake return value of the call with the given index. */
  function RetVal(callIdx: nat): (v: U64) {
    RET_HI + callIdx % TWO32
  }

  /** Value planted in a caller-saved register after a call. */
  function Clobber(r: Reg, callIdx: nat): (v: U64) {
    CLOB_HI + NameTag(r) * 0x10000 + callIdx % 0x10000
  }

  function Name(r: Reg): (s: string) {
    match r
    case Rax => "rax" case Rbx => "rbx" case Rcx => "rcx" case Rdx => "rdx"
    case Rsi => "rsi" case Rdi => "rdi" case Rbp => "rbp" case Rsp => "rsp"
    case R8 => "r8" case R9 => "r9" case R10 => "r10" case R11 => "r11"
    case R12 => "r12" case R13 => "r13" case R14 => "r14" case R15 => "r15"
  }

  lemma {:induction false} NameTagIsSum(r: Reg)
    ensures var n := Name(r);
            2 <= |n| <= 3 && NameTag(r) == n[0] as int + n[1] as int + if |n| == 3 then n[2] as int else 0
  {
  }

  /** A clobber marker holds the call in its low 16 bits and the sum of the name's characters in the next. */
  lemma {:induction false} ClobberParts(r: Reg, i: nat)
    ensures var n, c := Name(r), Clobber(r, i);
            && 2 <= |n| <= 3 && c % 0x10000 == i % 0x10000
            && c / 0x10000 % 0x10000 == n[0] as int + n[1] as int + if |n| == 3 then n[2] as int else 0
  {
    NameTagIsSum(r);
    ClobberFields(NameTag(r), i % 0x10000);
  }

  /** The markers of two different caller-saved registers never coincide. */
  lemma {:induction false} ClobbersDiffer(r: Reg, s: Reg, i: nat, j: nat)
    requires Volatile(r) && Volatile(s) && r != s
    ensures Clobber(r, i) != Clobber(s, j)
  {
    ClobberFields(NameTag(r), i % 0x10000);
    ClobberFields(NameTag(s), j % 0x10000);
    assert NameTag(r) != NameTag(s);
  }

  lemma {:induction false} ClobberFields(t: nat, i: nat)
    requires t < 0x10000 && i < 0x10000
    ensures (CLOB_HI + t * 0x10000 + i) % 0x10000 == i
    ensures (CLOB_HI + t * 0x10000 + i) / 0x10000 % 0x10000 == t
  {
    assert CLOB_HI == 0xDEAD_0000 * 0x10000 * 0x10000;
    assert (CLOB_HI + t * 0x10000 + i) / 0x10000 == 0xDEAD_0000 * 0x10000 + t;
  }

  /** Top 16 bits are CAFE. */
  predicate IsRet(v: int) {
    RET_HI <= v < RET_HI + TWO48
  }

  /** Top 16 bits are DEAD. */
  predicate IsClobber(v: int) {
    CLOB_HI <= v < CLOB_HI + TWO48
  }

  /** The range tests are the source's comparison of `v >> 48`. */
  lemma {:induction false} FamilyIsShift(v: U64)
    ensures IsRet(v) <==> v / TWO48 == 0xCAFE
    ensures IsClobber(v) <==> v / TWO48 == 0xDEAD
  {
  }

  /** The two families never overlap and every planted value is recognised as one of its own. */
  lemma {:induction false} SentinelFamilies(r: Reg, callIdx: nat)
    ensures IsClobber(Clobber(r, callIdx)) && !IsRet(Clobber(r, callIdx))
    ensures IsRet(RetVal(callIdx)) && !IsClobber(RetVal(callIdx))
  {
    assert NameTag(r) * 0x10000 + callIdx % 0x10000 < TWO48;
  }
}
