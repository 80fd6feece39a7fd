/** A small register and stack machine for the emitted instructions, and the proof that
    running reconstructed code repeats the recorded calls. */
module Simulation {
  import opened Registers
  import opened Reconstruct
  import opened Options

  /** What an observer sees of one call. */
  datatype Call = Call(target: U64, regs: RegFile, frame: Memory)

  datatype State = State(regs: RegFile, frame: Memory, calls: seq<Call>, exit: Option<U64>)

  /** The outside world: how far the image is from its recorded base, import slots, return values, and what
      callees leave in caller-saved registers. */
  datatype Env = Env(slide: U64, iat: map<string, U64>, ret: nat -> U64, clob: (nat, Reg) -> U64)

  function Slot(env: Env, sym: string): (v: U64) {
    if sym in env.iat then env.iat[sym] else 0
  }

  /** An address in the image, where the image is now. */
  function Moved(env: Env, a: U64): (b: U64)
    ensures env.slide == 0 ==> b == a
  {
    (a + env.slide) % TWO64
  }

  /** Registers after the callee returned. */
  function AfterCall(env: Env, n: nat, regs: RegFile): (m: RegFile)
    ensures Total(regs) ==> Total(m)
  {
    map r: Reg | r in regs :: if r == Rax then env.ret(n) else if Volatile(r) then env.clob(n, r) else regs[r]
  }

  function DoCall(env: Env, st: State, target: U64): (st': State) {
    st.(calls := st.calls + [Call(target, st.regs, st.frame)], regs := AfterCall(env, |st.calls|, st.regs))
  }

  function Exec(env: Env, i: Instr, st: State): (st': State) {
    if st.exit.Some? then st
    else
      match i
      case MovReg(d, s) => st.(regs := st.regs[d := Get(st.regs, s)])
      case LoadIat(d, sym) => st.(regs := st.regs[d := Slot(env, sym)])
      case LeaRsp(d, off) => st.(regs := st.regs[d := (Get(st.regs, Rsp) + off) % TWO64])
      case LeaData(d, a) => st.(regs := st.regs[d := Moved(env, a)])
      case MovImm32(d, v) => st.(regs := st.regs[d := v])
      case MovImm64(d, v) => st.(regs := st.regs[d := v])
      case StoreQ(o, v) => st.(frame := st.frame[o := v][o + 4 := if v >= 0x8000_0000 then 0xFFFF_FFFF else 0])
      case StoreD(o, v) => st.(frame := st.frame[o := v])
      case CallReg(r) => DoCall(env, st, Get(st.regs, r))
      case CallIat(sym) => DoCall(env, st, Slot(env, sym))
      case Jmp(a) => st.(exit := Some(Moved(env, a)))
  }

  function Run(env: Env, code: seq<Instr>, st: State): (st': State) {
    if |code| == 0 then st else Run(env, code[1..], Exec(env, code[0], st))
  }

  lemma {:induction false} RunConcat(env: Env, a: seq<Instr>, b: seq<Instr>, st: State)
    ensures Run(env, a + b, st) == Run(env, b, Run(env, a, st))
  {
    if |a| == 0 {
      assert a + b == b;
    } else {
      assert (a + b)[1..] == a[1..] + b && (a + b)[0] == a[0];
      RunConcat(env, a[1..], b, Exec(env, a[0], st));
    }
  }

  lemma {:induction false} RunOne(env: Env, i: Instr, st: State)
    ensures Run(env, [i], st) == Exec(env, i, st)
  {
    assert Run(env, [i][1..], Exec(env, i, st)) == Exec(env, i, st);
  }

  // ---------------------------------------------------------------- one register block

  /** The register an operation copies from, if it is a move. */
  function Reads(op: Op): (r: Option<Reg>) {
    match op
    case RetOp(_) => Some(Rax)
    case RegOp(_, s) => Some(s)
    case _ => None
  }

  /** A move reads no register an earlier operation has overwritten, and an immediate is not in the range that
      is emitted as a zero-extending 32-bit move. */
  predicate OpOrderly(earlier: seq<Op>, op: Op) {
    && (op.ImmOp? ==> op.val < 0xFFFF_FFFF_8000_0000)
    && (Reads(op).Some? ==> forall i :: 0 <= i < |earlier| ==> earlier[i].dst != Reads(op).value)
  }

  predicate OpClean(env: Env, cur: RegFile, earlier: seq<Op>, op: Op) {
    OpOrderly(earlier, op) && (op.IatOp? ==> Slot(env, op.sym) == Get(cur, op.dst))
  }

  /** No move reads a register an earlier operation has overwritten, no immediate is in the range that is
      emitted as a zero-extending 32-bit move, and the import slot a load names holds the recorded value. */
  predicate Clean(env: Env, cur: RegFile, ops: seq<Op>) {
    forall j :: 0 <= j < |ops| ==> OpClean(env, cur, ops[..j], ops[j])
  }

  lemma {:induction false} CleanSnoc(env: Env, cur: RegFile, ops: seq<Op>, op: Op)
    ensures Clean(env, cur, ops + [op]) <==> Clean(env, cur, ops) && OpClean(env, cur, ops, op)
  {
    var all := ops + [op];
    assert all[..|ops|] == ops;
    forall j | 0 <= j < |ops|
      ensures all[..j] == ops[..j] && all[j] == ops[j]
    {
    }
    if Clean(env, cur, all) {
      assert OpClean(env, cur, all[..|ops|], all[|ops|]);
      forall j | 0 <= j < |ops|
        ensures OpClean(env, cur, ops[..j], ops[j])
      {
        assert OpClean(env, cur, all[..j], all[j]);
      }
    }
  }

  /** Machine registers carry the baseline, except where the baseline is a clobber marker. */
  ghost predicate Agree(prev: RegFile, regs: RegFile) {
    forall r: Reg :: r != Rsp && !IsClobber(Get(prev, r)) ==> Get(regs, r) == Get(prev, r)
  }

  /** Starting point of a block. */
  ghost predicate Ready(ctx: Context, prev: RegFile, st: State) {
    && Total(prev) && Total(st.regs) && st.exit.None?
    && st.regs[Rsp] == ctx.frameRsp
    && Agree(prev, st.regs)
  }

  /** `after` differs from `before` only in registers the operations write. */
  ghost predicate OnlyWrites(ops: seq<Op>, before: State, after: State) {
    && after.frame == before.frame && after.calls == before.calls && after.exit == before.exit
    && Total(after.regs)
    && forall r: Reg :: (forall i :: 0 <= i < |ops| ==> ops[i].dst != r) ==> Get(after.regs, r) == Get(before.regs, r)
  }

  ghost predicate AllWritten(ops: seq<Op>, cur: RegFile, st: State) {
    forall j :: 0 <= j < |ops| ==> Get(st.regs, ops[j].dst) == Get(cur, ops[j].dst)
  }

  /** Value an emitted operation writes, read off the machine. */
  function OpValue(env: Env, regs: RegFile, op: Op): (v: U64) {
    match op
    case RetOp(_) => Get(regs, Rax)
    case RegOp(_, s) => Get(regs, s)
    case IatOp(_, sym) => Slot(env, sym)
    case LeaRspOp(_, off) => (Get(regs, Rsp) + off) % TWO64
    case LeaDataOp(_, a) => Moved(env, a)
    case ImmOp(_, w) => if w >= BIG_IMM then w % TWO32 else w
  }

  lemma {:induction false} ExecIsOpValue(env: Env, op: Op, st: State)
    requires st.exit.None?
    ensures Exec(env, EmitOp(op), st) == st.(regs := st.regs[op.dst := OpValue(env, st.regs, op)])
  {
  }

  /** An operation that is not a move is right exactly when it is not an oversized immediate and its import
      slot, if it has one, holds the value. */
  lemma {:induction false} NonMoveExact(ctx: Context, env: Env, prev: RegFile, v: U64, rn: Reg, op: Op, regs: RegFile)
    requires Get(regs, Rsp) == ctx.frameRsp && env.slide == 0
    requires Names(ctx, prev, rn, v, op) && Reads(op).None?
    ensures OpValue(env, regs, op) == v <==>
            (op.ImmOp? ==> op.val < BIG_IMM) && (op.IatOp? ==> Slot(env, op.sym) == v)
  {
    if op.ImmOp? && op.val >= BIG_IMM {
      assert op.val % TWO32 < TWO32 < op.val;
    }
  }

  /** The operation of one of the first `k` registers. */
  ghost predicate OpFor(ctx: Context, prev: RegFile, cur: RegFile, hasLast: bool, k: nat, op: Op) {
    Index(op.dst) < k && ClassifyReg(ctx, prev, cur, hasLast, op.dst) == Some(op)
  }

  ghost predicate OpsFor(ctx: Context, prev: RegFile, cur: RegFile, hasLast: bool, k: nat, ops: seq<Op>) {
    forall i :: 0 <= i < |ops| ==> OpFor(ctx, prev, cur, hasLast, k, ops[i])
  }

  lemma {:induction false} DeltaOps(ctx: Context, prev: RegFile, cur: RegFile, hasLast: bool, k: nat)
    requires k <= |GP_REGS|
    ensures OpsFor(ctx, prev, cur, hasLast, k, ClassifyDelta(ctx, prev, cur, hasLast, k))
  {
    if k > 0 {
      var o := ClassifyReg(ctx, prev, cur, hasLast, GP_REGS[k - 1]);
      DeltaOps(ctx, prev, cur, hasLast, k - 1);
      if o.Some? {
        DstIndex(ctx, prev, cur, hasLast, k - 1, o.value);
      }
      OpsForMore(ctx, prev, cur, hasLast, k, ClassifyDelta(ctx, prev, cur, hasLast, k - 1), o);
    }
  }

  lemma {:induction false} OpsForMore(ctx: Context, prev: RegFile, cur: RegFile, hasLast: bool, k: nat, ops: seq<Op>,
      o: Option<Op>)
    requires k > 0 && OpsFor(ctx, prev, cur, hasLast, k - 1, ops)
    requires o.Some? ==> OpFor(ctx, prev, cur, hasLast, k, o.value)
    ensures OpsFor(ctx, prev, cur, hasLast, k, ops + OptSeq(o))
  {
    forall i | 0 <= i < |ops|
      ensures OpFor(ctx, prev, cur, hasLast, k, ops[i])
    {
      assert OpFor(ctx, prev, cur, hasLast, k - 1, ops[i]);
    }
  }

  /** The emitted operations change only their registers, and get all of them right exactly when they are clean. */
  ghost predicate Settles(env: Env, ops: seq<Op>, cur: RegFile, st: State) {
    var st' := Run(env, EmitOps(ops), st);
    OnlyWrites(ops, st, st') && (Clean(env, cur, ops) <==> AllWritten(ops, cur, st'))
  }

  lemma {:induction false} RunOps(ctx: Context, env: Env, prev: RegFile, cur: RegFile, hasLast: bool, k: nat, st: State)
    requires k <= |GP_REGS| && Ready(ctx, prev, st) && env.slide == 0
    ensures Settles(env, ClassifyDelta(ctx, prev, cur, hasLast, k), cur, st)
  {
    var ops := ClassifyDelta(ctx, prev, cur, hasLast, k);
    if k == 0 {
      assert EmitOps(ops) == [];
    } else {
      RunOps(ctx, env, prev, cur, hasLast, k - 1, st);
      var ops0 := ClassifyDelta(ctx, prev, cur, hasLast, k - 1);
      var o := ClassifyReg(ctx, prev, cur, hasLast, GP_REGS[k - 1]);
      if o.None? {
        assert ops == ops0;
      } else {
        DeltaOps(ctx, prev, cur, hasLast, k - 1);
        DstIndex(ctx, prev, cur, hasLast, k - 1, o.value);
        RunSnoc(ctx, env, prev, cur, hasLast, k - 1, st, ops0, o.value);
      }
    }
  }

  lemma {:induction false} DstIndex(ctx: Context, prev: RegFile, cur: RegFile, hasLast: bool, k: nat, op: Op)
    requires k < |GP_REGS| && ClassifyReg(ctx, prev, cur, hasLast, GP_REGS[k]) == Some(op)
    ensures op.dst == GP_REGS[k] && Index(op.dst) == k
  {
    IndexInverse(k);
  }

  /** The induction step of `RunOps`: one more operation. */
  lemma {:induction false} RunSnoc(ctx: Context, env: Env, prev: RegFile, cur: RegFile, hasLast: bool, k: nat,
      st: State, ops: seq<Op>, op: Op)
    requires Ready(ctx, prev, st) && Index(op.dst) == k && env.slide == 0
    requires ClassifyReg(ctx, prev, cur, hasLast, op.dst) == Some(op)
    requires OpsFor(ctx, prev, cur, hasLast, k, ops)
    requires Settles(env, ops, cur, st)
    ensures Settles(env, ops + [op], cur, st)
  {
    var mid := Run(env, EmitOps(ops), st);
    RunEmitSnoc(env, ops, op, st);
    if Clean(env, cur, ops) {
      SnocValue(ctx, env, prev, cur, hasLast, st, ops, op, mid);
    }
    WrittenSnoc(env, cur, st, ops, op, mid);
  }

  /** One more operation, given that it produces its value exactly when it is clean. */
  lemma {:induction false} WrittenSnoc(env: Env, cur: RegFile, st: State, ops: seq<Op>, op: Op, mid: State)
    requires OnlyWrites(ops, st, mid) && (Clean(env, cur, ops) <==> AllWritten(ops, cur, mid))
    requires forall i :: 0 <= i < |ops| ==> ops[i].dst != op.dst
    requires Clean(env, cur, ops) ==> (OpValue(env, mid.regs, op) == Get(cur, op.dst) <==> OpClean(env, cur, ops, op))
    ensures var st' := mid.(regs := mid.regs[op.dst := OpValue(env, mid.regs, op)]);
            OnlyWrites(ops + [op], st, st') && (Clean(env, cur, ops + [op]) <==> AllWritten(ops + [op], cur, st'))
  {
    var st' := mid.(regs := mid.regs[op.dst := OpValue(env, mid.regs, op)]);
    OnlyWritesSnoc(ops, op, st, mid, st');
    CleanSnoc(env, cur, ops, op);
    AllWrittenSnoc(ops, op, cur, mid, st');
  }

  lemma {:induction false} RunEmitSnoc(env: Env, ops: seq<Op>, op: Op, st: State)
    requires Run(env, EmitOps(ops), st).exit.None?
    ensures var mid := Run(env, EmitOps(ops), st);
            Run(env, EmitOps(ops + [op]), st) == mid.(regs := mid.regs[op.dst := OpValue(env, mid.regs, op)])
  {
    var mid := Run(env, EmitOps(ops), st);
    assert EmitOps(ops + [op]) == EmitOps(ops) + [EmitOp(op)];
    RunConcat(env, EmitOps(ops), [EmitOp(op)], st);
    RunOne(env, EmitOp(op), mid);
    ExecIsOpValue(env, op, mid);
  }

  lemma {:induction false} OnlyWritesSnoc(ops: seq<Op>, op: Op, before: State, mid: State, after: State)
    requires OnlyWrites(ops, before, mid)
    requires after == mid.(regs := mid.regs[op.dst := Get(after.regs, op.dst)])
    ensures OnlyWrites(ops + [op], before, after)
  {
    var all := ops + [op];
    forall r: Reg | forall i :: 0 <= i < |all| ==> all[i].dst != r
      ensures Get(after.regs, r) == Get(before.regs, r)
    {
      assert all[|ops|] == op;
      assert forall i :: 0 <= i < |ops| ==> all[i] == ops[i];
    }
  }

  /** After a clean prefix, the next operation produces its value exactly when it is clean too. */
  lemma {:induction false} SnocValue(ctx: Context, env: Env, prev: RegFile, cur: RegFile, hasLast: bool, st: State,
      ops: seq<Op>, op: Op, mid: State)
    requires Ready(ctx, prev, st) && env.slide == 0
    requires ClassifyReg(ctx, prev, cur, hasLast, op.dst) == Some(op)
    requires forall i :: 0 <= i < |ops| ==> ClassifyReg(ctx, prev, cur, hasLast, ops[i].dst) == Some(ops[i])
    requires OnlyWrites(ops, st, mid) && AllWritten(ops, cur, mid)
    ensures OpValue(env, mid.regs, op) == Get(cur, op.dst) <==> OpClean(env, cur, ops, op)
  {
    assert Get(mid.regs, Rsp) == Get(st.regs, Rsp);
    assert Names(ctx, prev, op.dst, Get(cur, op.dst), op);
    if Reads(op).Some? {
      var s := Reads(op).value;
      if OpClean(env, cur, ops, op) {
        assert Get(mid.regs, s) == Get(st.regs, s);
      } else {
        var i :| 0 <= i < |ops| && ops[i].dst == s;
        assert Get(mid.regs, s) == Get(cur, s) != Get(prev, s);
      }
    } else {
      NonMoveExact(ctx, env, prev, Get(cur, op.dst), op.dst, op, mid.regs);
    }
  }

  lemma {:induction false} AllWrittenSnoc(ops: seq<Op>, op: Op, cur: RegFile, mid: State, st': State)
    requires st' == mid.(regs := mid.regs[op.dst := Get(st'.regs, op.dst)])
    requires forall i :: 0 <= i < |ops| ==> ops[i].dst != op.dst
    ensures AllWritten(ops + [op], cur, st') <==>
            AllWritten(ops, cur, mid) && Get(st'.regs, op.dst) == Get(cur, op.dst)
  {
    var all := ops + [op];
    assert all[|ops|] == op;
    assert forall i :: 0 <= i < |ops| ==> all[i] == ops[i] && Get(st'.regs, ops[i].dst) == Get(mid.regs, ops[i].dst);
    if AllWritten(all, cur, st') {
      forall i | 0 <= i < |ops|
        ensures Get(mid.regs, ops[i].dst) == Get(cur, ops[i].dst)
      {
        assert Get(st'.regs, all[i].dst) == Get(cur, all[i].dst);
      }
    }
  }

  lemma {:induction false} DeltaContains(ctx: Context, prev: RegFile, cur: RegFile, hasLast: bool, k: nat, r: Reg,
      op: Op)
    requires Index(r) < k <= |GP_REGS| && ClassifyReg(ctx, prev, cur, hasLast, r) == Some(op)
    ensures op in ClassifyDelta(ctx, prev, cur, hasLast, k)
  {
    if Index(r) < k - 1 {
      DeltaContains(ctx, prev, cur, hasLast, k - 1, r, op);
    } else {
      assert GP_REGS[k - 1] == r;
    }
    InConcat(ClassifyDelta(ctx, prev, cur, hasLast, k - 1), ClassifyReg(ctx, prev, cur, hasLast, GP_REGS[k - 1]), op);
  }

  lemma {:induction false} InConcat(a: seq<Op>, b: Option<Op>, op: Op)
    requires op in a || b == Some(op)
    ensures op in a + OptSeq(b)
  {
  }

  /** Recorded registers are reproduced, clobber markers and rsp aside. */
  ghost predicate RegsMatch(cur: RegFile, regs: RegFile) {
    forall r: Reg :: r != Rsp && !IsClobber(Get(cur, r)) ==> Get(regs, r) == Get(cur, r)
  }

  /** The operations of one event. */
  function BlockOps(ctx: Context, pre: RegFile, events: seq<Event>, k: nat): (ops: seq<Op>)
    requires k < |events|
  {
    ClassifyDelta(ctx, PrevRegs(pre, events, k), events[k].regs, k > 0, |GP_REGS|)
  }

  lemma {:induction false} MatchFromOps(ctx: Context, prev: RegFile, cur: RegFile, hasLast: bool, ops: seq<Op>,
      st: State, st': State)
    requires Total(st.regs) && Agree(prev, st.regs)
    requires forall i :: 0 <= i < |ops| ==> ClassifyReg(ctx, prev, cur, hasLast, ops[i].dst) == Some(ops[i])
    requires forall r: Reg :: ClassifyReg(ctx, prev, cur, hasLast, r).Some? ==>
                                ClassifyReg(ctx, prev, cur, hasLast, r).value in ops
    requires OnlyWrites(ops, st, st')
    ensures Get(st'.regs, Rsp) == Get(st.regs, Rsp)
    ensures AllWritten(ops, cur, st') <==> RegsMatch(cur, st'.regs)
  {
    if AllWritten(ops, cur, st') {
      forall r: Reg | r != Rsp && !IsClobber(Get(cur, r))
        ensures Get(st'.regs, r) == Get(cur, r)
      {
        var o := ClassifyReg(ctx, prev, cur, hasLast, r);
        if o.Some? {
          var i :| 0 <= i < |ops| && ops[i] == o.value;
        } else {
          assert forall i :: 0 <= i < |ops| ==> ops[i].dst != r;
        }
      }
    } else {
      var j :| 0 <= j < |ops| && Get(st'.regs, ops[j].dst) != Get(cur, ops[j].dst);
      assert ClassifyReg(ctx, prev, cur, hasLast, ops[j].dst).Some?;
    }
    assert forall i :: 0 <= i < |ops| ==> ops[i].dst != Rsp;
  }

  /** One block puts every recorded register in place exactly when its operations are clean. */
  lemma {:induction false} BlockExact(ctx: Context, env: Env, prev: RegFile, cur: RegFile, hasLast: bool, st: State,
      k: nat)
    requires Ready(ctx, prev, st) && k == |GP_REGS| && env.slide == 0
    ensures var ops := ClassifyDelta(ctx, prev, cur, hasLast, k);
            var st' := Run(env, EmitOps(ops), st);
            && st' == st.(regs := st'.regs) && Total(st'.regs) && st'.regs[Rsp] == ctx.frameRsp
            && (Clean(env, cur, ops) <==> RegsMatch(cur, st'.regs))
  {
    var ops := ClassifyDelta(ctx, prev, cur, hasLast, k);
    var st' := Run(env, EmitOps(ops), st);
    DeltaOps(ctx, prev, cur, hasLast, k);
    RunOps(ctx, env, prev, cur, hasLast, k, st);
    forall r: Reg | ClassifyReg(ctx, prev, cur, hasLast, r).Some?
      ensures ClassifyReg(ctx, prev, cur, hasLast, r).value in ops
    {
      DeltaContains(ctx, prev, cur, hasLast, k, r, ClassifyReg(ctx, prev, cur, hasLast, r).value);
    }
    MatchFromOps(ctx, prev, cur, hasLast, ops, st, st');
  }
}
