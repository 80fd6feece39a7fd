/** The reconstructed code on any other machine: the stack and the image elsewhere, imports at any address,
    calls that return anything. A recorded value stands for what it was recorded of. */
module Relocation {
  import opened Registers
  import opened Reconstruct
  import opened Simulation
  import opened FrameReplay
  import opened TraceSimulation
  import Decimal
  import opened Options

  /** A trace's context, and where its code runs: the outside world, and the stack pointer. */
  datatype Place = Place(ctx: Context, env: Env, rsp: U64)

  /** What a recorded value that is no return marker stands for: a hooked address for the import it was planted
      for, an address in the frame or in the image for the same one where they are now, and any other value for
      itself. */
  ghost function Fixed(w: Place, v: U64): (u: U64) {
    if v in w.ctx.hooks then Slot(w.env, w.ctx.hooks[v].sym)
    else if 0 < w.ctx.frameRsp <= v < w.ctx.frameRsp + w.ctx.frameSize then (w.rsp + (v - w.ctx.frameRsp)) % TWO64
    else if exists s :: s in w.ctx.data && s.0 <= v < s.1 then (v + w.env.slide) % TWO64
    else v
  }

  /** What a recorded value stands for after `k` calls: the marker of call `j` stands for what it returned. */
  ghost function Means(w: Place, k: nat, v: U64): (u: U64) {
    if RET_HI <= v < RET_HI + k then w.env.ret(v - RET_HI) else Fixed(w, v)
  }

  /** The machine's registers are what the recorded ones stand for, clobber markers and rsp aside. */
  ghost predicate Stands(w: Place, k: nat, file: RegFile, regs: RegFile) {
    forall r: Reg :: r != Rsp && !IsClobber(Get(file, r)) ==> Get(regs, r) == Means(w, k, Get(file, r))
  }

  /** Every marker of an earlier call in the registers of event `k` is in a register of its baseline. */
  ghost predicate CarriedAt(k: nat, prev: RegFile, cur: RegFile) {
    forall r: Reg :: r != Rsp && RET_HI <= Get(cur, r) < RET_HI + k ==> InRegister(prev, Get(cur, r))
  }

  ghost predicate InRegister(prev: RegFile, v: U64) {
    exists s: Reg :: s != Rsp && Get(prev, s) == v
  }

  /** No move of the operations reads what an earlier one has overwritten, and no immediate is cut off. */
  predicate Orderly(ops: seq<Op>) {
    forall j :: 0 <= j < |ops| ==> OpOrderly(ops[..j], ops[j])
  }

  predicate AllOrderly(ctx: Context, pre: RegFile, events: seq<Event>) {
    forall k :: 0 <= k < |events| ==> Orderly(BlockOps(ctx, pre, events, k))
  }

  lemma {:induction false} OrderlySnoc(ops: seq<Op>, op: Op)
    ensures Orderly(ops + [op]) <==> Orderly(ops) && OpOrderly(ops, op)
  {
    var all := ops + [op];
    assert all[..|ops|] == ops && all[|ops|] == op;
    forall j | 0 <= j < |ops|
      ensures all[..j] == ops[..j] && all[j] == ops[j]
    {
    }
    if Orderly(all) {
      assert OpOrderly(all[..|ops|], all[|ops|]);
      forall j | 0 <= j < |ops|
        ensures OpOrderly(ops[..j], ops[j])
      {
        assert OpOrderly(all[..j], all[j]);
      }
    }
  }

  // ---------------------------------------------------------------- one block

  ghost predicate ReadyAt(w: Place, k: nat, prev: RegFile, st: State) {
    Total(prev) && Total(st.regs) && st.exit.None? && st.regs[Rsp] == w.rsp && Stands(w, k, prev, st.regs)
  }

  /** What an orderly operation leaves: a move carries what the machine has, anything else knows no marker. */
  ghost function Left(w: Place, k: nat, cur: RegFile, op: Op): (v: U64) {
    if Reads(op).Some? then Means(w, k, Get(cur, op.dst)) else Fixed(w, Get(cur, op.dst))
  }

  ghost predicate AllLeft(w: Place, k: nat, ops: seq<Op>, cur: RegFile, st: State) {
    forall j :: 0 <= j < |ops| ==> Get(st.regs, ops[j].dst) == Left(w, k, cur, ops[j])
  }

  ghost predicate Settled(w: Place, k: nat, ops: seq<Op>, cur: RegFile, st: State) {
    var st' := Run(w.env, EmitOps(ops), st);
    OnlyWrites(ops, st, st') && AllLeft(w, k, ops, cur, st')
  }

  /** The sections of the image, without indices. */
  lemma {:induction false} DataAddr(ctx: Context, v: U64)
    ensures ctx.IsDataAddr(v) <==> exists s :: s in ctx.data && s.0 <= v < s.1
  {
    if ctx.IsDataAddr(v) {
      var i :| 0 <= i < |ctx.data| && ctx.data[i].0 <= v < ctx.data[i].1;
      assert ctx.data[i] in ctx.data;
    }
  }

  /** Which operation a value gets that no register had. */
  lemma {:induction false} NonMoveKind(ctx: Context, prev: RegFile, v: U64, hasLast: bool, rn: Reg, op: Op)
    requires op == ClassifyValue(ctx, prev, v, hasLast, rn) && Reads(op).None?
    ensures op ==
      if v in ctx.hooks then IatOp(rn, ctx.hooks[v].sym)
      else if 0 < ctx.frameRsp <= v < ctx.frameRsp + ctx.frameSize then LeaRspOp(rn, v - ctx.frameRsp)
      else if exists s :: s in ctx.data && s.0 <= v < s.1 then LeaDataOp(rn, v)
      else ImmOp(rn, v)
  {
    DataAddr(ctx, v);
  }

  /** An operation that is no move writes what the recorded value stands for. */
  lemma {:induction false} NonMoveFixed(w: Place, prev: RegFile, v: U64, hasLast: bool, rn: Reg, op: Op, regs: RegFile)
    requires Get(regs, Rsp) == w.rsp && op == ClassifyValue(w.ctx, prev, v, hasLast, rn)
    requires Reads(op).None? && (op.ImmOp? ==> op.val < BIG_IMM)
    ensures OpValue(w.env, regs, op) == Fixed(w, v)
  {
    NonMoveKind(w.ctx, prev, v, hasLast, rn, op);
  }

  lemma {:induction false} LeftValue(w: Place, k: nat, prev: RegFile, cur: RegFile, hasLast: bool, st: State,
      ops: seq<Op>, op: Op, mid: State)
    requires ReadyAt(w, k, prev, st) && ClassifyReg(w.ctx, prev, cur, hasLast, op.dst) == Some(op)
    requires OnlyWrites(ops, st, mid) && OpOrderly(ops, op) && forall i :: 0 <= i < |ops| ==> ops[i].dst != Rsp
    ensures OpValue(w.env, mid.regs, op) == Left(w, k, cur, op)
  {
    var v := Get(cur, op.dst);
    assert Get(mid.regs, Rsp) == Get(st.regs, Rsp);
    assert Names(w.ctx, prev, op.dst, v, op);
    if Reads(op).Some? {
      var s := Reads(op).value;
      assert Get(mid.regs, s) == Get(st.regs, s) == Means(w, k, Get(prev, s));
    } else {
      NonMoveFixed(w, prev, v, hasLast, op.dst, op, mid.regs);
    }
  }

  lemma {:induction false} AllLeftSnoc(w: Place, k: nat, ops: seq<Op>, op: Op, cur: RegFile, mid: State, st': State)
    requires st' == mid.(regs := mid.regs[op.dst := Left(w, k, cur, op)])
    requires AllLeft(w, k, ops, cur, mid) && forall i :: 0 <= i < |ops| ==> ops[i].dst != op.dst
    ensures AllLeft(w, k, ops + [op], cur, st')
  {
  }

  lemma {:induction false} SettledSnoc(w: Place, k: nat, prev: RegFile, cur: RegFile, hasLast: bool, n: nat, st: State,
      ops: seq<Op>, op: Op)
    requires ReadyAt(w, k, prev, st) && OpsFor(w.ctx, prev, cur, hasLast, n, ops) && Index(op.dst) == n
    requires ClassifyReg(w.ctx, prev, cur, hasLast, op.dst) == Some(op) && OpOrderly(ops, op)
    requires Settled(w, k, ops, cur, st)
    ensures Settled(w, k, ops + [op], cur, st)
  {
    var mid := Run(w.env, EmitOps(ops), st);
    forall i | 0 <= i < |ops|
      ensures ops[i].dst != Rsp && ops[i].dst != op.dst
    {
      assert OpFor(w.ctx, prev, cur, hasLast, n, ops[i]);
    }
    RunEmitSnoc(w.env, ops, op, st);
    LeftValue(w, k, prev, cur, hasLast, st, ops, op, mid);
    var st' := mid.(regs := mid.regs[op.dst := Left(w, k, cur, op)]);
    OnlyWritesSnoc(ops, op, st, mid, st');
    AllLeftSnoc(w, k, ops, op, cur, mid, st');
  }

  lemma {:induction false} SettleOps(w: Place, k: nat, prev: RegFile, cur: RegFile, hasLast: bool, n: nat, st: State)
    requires n <= |GP_REGS| && ReadyAt(w, k, prev, st)
    requires Orderly(ClassifyDelta(w.ctx, prev, cur, hasLast, n))
    ensures Settled(w, k, ClassifyDelta(w.ctx, prev, cur, hasLast, n), cur, st)
  {
    var ops := ClassifyDelta(w.ctx, prev, cur, hasLast, n);
    if n == 0 {
      assert EmitOps(ops) == [];
    } else {
      var ops0 := ClassifyDelta(w.ctx, prev, cur, hasLast, n - 1);
      var o := ClassifyReg(w.ctx, prev, cur, hasLast, GP_REGS[n - 1]);
      if o.None? {
        assert ops == ops0;
        SettleOps(w, k, prev, cur, hasLast, n - 1, st);
      } else {
        OrderlySnoc(ops0, o.value);
        SettleOps(w, k, prev, cur, hasLast, n - 1, st);
        DeltaOps(w.ctx, prev, cur, hasLast, n - 1);
        DstIndex(w.ctx, prev, cur, hasLast, n - 1, o.value);
        SettledSnoc(w, k, prev, cur, hasLast, n - 1, st, ops0, o.value);
      }
    }
  }

  /** A changed register is moved exactly if some register of the baseline has its value. */
  lemma {:induction false} MovedIff(ctx: Context, prev: RegFile, cur: RegFile, r: Reg, op: Op)
    requires Total(prev) && ClassifyReg(ctx, prev, cur, true, r) == Some(op) && Get(cur, r) != 0
    ensures Reads(op).Some? <==> InRegister(prev, Get(cur, r))
  {
    var v := Get(cur, r);
    FindRegNone(r, v, prev);
    if InRegister(prev, v) {
      var s: Reg :| s != Rsp && Get(prev, s) == v;
      assert s != r && s in prev && prev[s] == v;
    }
    if Reads(op).Some? {
      assert Names(ctx, prev, r, v, op);
      assert Get(prev, Reads(op).value) == v && Reads(op).value != Rsp;
    }
  }

  /** What the operations of event `k` leave in register `r`. */
  ghost predicate LeftAt(w: Place, k: nat, prev: RegFile, cur: RegFile, regs: RegFile, r: Reg) {
    var v := Get(cur, r);
    Get(regs, r) == if RET_HI <= v < RET_HI + k && !InRegister(prev, v) then Fixed(w, v) else Means(w, k, v)
  }

  lemma {:induction false} RegisterLeft(w: Place, k: nat, prev: RegFile, cur: RegFile, ops: seq<Op>, st: State,
      st': State, r: Reg)
    requires ReadyAt(w, k, prev, st) && ops == ClassifyDelta(w.ctx, prev, cur, k > 0, |GP_REGS|)
    requires OnlyWrites(ops, st, st') && AllLeft(w, k, ops, cur, st') && r != Rsp && !IsClobber(Get(cur, r))
    ensures LeftAt(w, k, prev, cur, st'.regs, r)
  {
    var v, o := Get(cur, r), ClassifyReg(w.ctx, prev, cur, k > 0, r);
    DeltaOps(w.ctx, prev, cur, k > 0, |GP_REGS|);
    if o.Some? {
      DeltaContains(w.ctx, prev, cur, k > 0, |GP_REGS|, r, o.value);
      var i :| 0 <= i < |ops| && ops[i] == o.value;
      if RET_HI <= v < RET_HI + k {
        MovedIff(w.ctx, prev, cur, r, o.value);
      }
    } else {
      forall i | 0 <= i < |ops|
        ensures ops[i].dst != r
      {
        assert OpFor(w.ctx, prev, cur, k > 0, |GP_REGS|, ops[i]);
      }
      assert InRegister(prev, v);
    }
  }

  /** A call returns something else than what its marker would be taken for. */
  ghost predicate NoEcho(w: Place, k: nat) {
    forall j :: 0 <= j < k && RET_HI + j < TWO64 ==> w.env.ret(j) != Fixed(w, RET_HI + j)
  }

  ghost predicate AllLeftAt(w: Place, k: nat, prev: RegFile, cur: RegFile, regs: RegFile) {
    forall r: Reg :: r != Rsp && !IsClobber(Get(cur, r)) ==> LeftAt(w, k, prev, cur, regs, r)
  }

  /** Then the registers stand if the markers were carried, and only then unless a call echoes its marker. */
  lemma {:induction false} StandsIff(w: Place, k: nat, prev: RegFile, cur: RegFile, regs: RegFile)
    requires AllLeftAt(w, k, prev, cur, regs) && k <= TWO32
    ensures CarriedAt(k, prev, cur) ==> Stands(w, k, cur, regs)
    ensures NoEcho(w, k) && Stands(w, k, cur, regs) ==> CarriedAt(k, prev, cur)
  {
    if CarriedAt(k, prev, cur) {
      forall r: Reg | r != Rsp && !IsClobber(Get(cur, r))
        ensures Get(regs, r) == Means(w, k, Get(cur, r))
      {
        assert LeftAt(w, k, prev, cur, regs, r);
      }
    }
    if NoEcho(w, k) && Stands(w, k, cur, regs) {
      forall r: Reg | r != Rsp && RET_HI <= Get(cur, r) < RET_HI + k
        ensures InRegister(prev, Get(cur, r))
      {
        var j := Get(cur, r) - RET_HI;
        assert LeftAt(w, k, prev, cur, regs, r);
        assert w.env.ret(j) != Fixed(w, RET_HI + j);
      }
    }
  }

  lemma {:induction false} BlockStands(w: Place, k: nat, prev: RegFile, cur: RegFile, ops: seq<Op>, st: State,
      st': State)
    requires ReadyAt(w, k, prev, st) && ops == ClassifyDelta(w.ctx, prev, cur, k > 0, |GP_REGS|)
    requires Orderly(ops) && st' == Run(w.env, EmitOps(ops), st)
    ensures Total(st'.regs) && st'.regs[Rsp] == w.rsp && AllLeftAt(w, k, prev, cur, st'.regs)
  {
    SettleOps(w, k, prev, cur, k > 0, |GP_REGS|, st);
    RspKept(w.ctx, prev, cur, k > 0, ops, st, st');
    forall r: Reg | r != Rsp && !IsClobber(Get(cur, r))
      ensures LeftAt(w, k, prev, cur, st'.regs, r)
    {
      RegisterLeft(w, k, prev, cur, ops, st, st', r);
    }
  }

  lemma {:induction false} RspKept(ctx: Context, prev: RegFile, cur: RegFile, hasLast: bool, ops: seq<Op>, st: State,
      st': State)
    requires ops == ClassifyDelta(ctx, prev, cur, hasLast, |GP_REGS|) && OnlyWrites(ops, st, st')
    ensures Get(st'.regs, Rsp) == Get(st.regs, Rsp)
  {
    DeltaOps(ctx, prev, cur, hasLast, |GP_REGS|);
    forall i | 0 <= i < |ops|
      ensures ops[i].dst != Rsp
    {
      assert OpFor(ctx, prev, cur, hasLast, |GP_REGS|, ops[i]);
    }
  }

  // ---------------------------------------------------------------- whole traces

  /** An event as the recorders produce it; a call through a register is to no marker. */
  ghost predicate EventFree(ev: Event, k: nat) {
    && !ev.marker && Total(ev.regs) && ev.ret == RetVal(k)
    && (ev.via.Some? ==>
          ev.via.value != Rsp && Get(ev.regs, ev.via.value) == ev.hook && !IsClobber(ev.hook) && !IsRet(ev.hook))
    && forall r: Reg :: r != Rsp && IsRet(Get(ev.regs, r)) ==> Get(ev.regs, r) < RET_HI + k
  }

  /** A trace without SDK markers that holds no return markers but those of the calls before, and a machine at
      the VM entry whose registers are what the recorded ones stand for. */
  ghost predicate Free(w: Place, pre: RegFile, events: seq<Event>, st0: State) {
    && Total(pre) && |events| <= TWO32 && (forall r: Reg :: r != Rsp ==> !IsRet(Get(pre, r)))
    && (forall k :: 0 <= k < |events| ==> EventFree(events[k], k))
    && st0.calls == [] && ReadyAt(w, 0, pre, st0)
  }

  /** Every marker in the recorded registers was in a register of the baseline: none came back from memory. */
  ghost predicate Carried(pre: RegFile, events: seq<Event>, k: nat)
    requires k <= |events|
  {
    forall j :: 0 <= j < k ==> CarriedAt(j, PrevRegs(pre, events, j), events[j].regs)
  }

  /** At each of the first `k` calls the recorded registers stand. */
  ghost predicate AllStand(w: Place, events: seq<Event>, calls: seq<Call>, k: nat)
    requires k <= |events| && k <= |calls|
  {
    forall j :: 0 <= j < k ==> Stands(w, j, events[j].regs, calls[j].regs)
  }

  /** Each of the first `k` calls goes where the hooked address stands for, to its import that is. */
  ghost predicate ToImports(w: Place, events: seq<Event>, calls: seq<Call>, k: nat)
    requires k <= |events| && k <= |calls|
  {
    forall j :: 0 <= j < k ==> calls[j].target == Fixed(w, events[j].hook)
  }

  /** A call through no register to an address without a hook uses the slot named after its event. */
  ghost predicate DarkResolves(w: Place, ev: Event) {
    ev.via.None? && ev.hook !in w.ctx.hooks ==> Slot(w.env, "dark_" + Decimal.Print(ev.i)) == Fixed(w, ev.hook)
  }

  ghost predicate DarkResolve(w: Place, events: seq<Event>, k: nat)
    requires k <= |events|
  {
    forall j :: 0 <= j < k ==> DarkResolves(w, events[j])
  }

  lemma {:induction false} StandsAfterCall(w: Place, ev: Event, k: nat, regs: RegFile)
    requires Total(regs) && EventFree(ev, k) && k < TWO32 && Stands(w, k, ev.regs, regs)
    ensures Stands(w, k + 1, PostCall(ev), AfterCall(w.env, k, regs)) && Total(PostCall(ev))
  {
    forall r: Reg
      ensures r in PostCall(ev)
      ensures r != Rsp && !IsClobber(Get(PostCall(ev), r)) ==>
                Get(AfterCall(w.env, k, regs), r) == Means(w, k + 1, Get(PostCall(ev), r))
    {
      RegisterAfterCall(w, ev, k, regs, r);
    }
  }

  lemma {:induction false} RegisterAfterCall(w: Place, ev: Event, k: nat, regs: RegFile, r: Reg)
    requires Total(regs) && EventFree(ev, k) && k < TWO32
    requires r != Rsp && !IsClobber(Get(ev.regs, r)) ==> Get(regs, r) == Means(w, k, Get(ev.regs, r))
    ensures r in PostCall(ev)
    ensures r != Rsp && !IsClobber(Get(PostCall(ev), r)) ==>
              Get(AfterCall(w.env, k, regs), r) == Means(w, k + 1, Get(PostCall(ev), r))
  {
    PostCallAt(ev, r);
    SentinelFamilies(r, ev.i);
    if !Volatile(r) && r != Rax && r != Rsp {
      MeansLater(w, k, Get(ev.regs, r));
    }
  }

  /** A value that is no marker of call `k` stands for the same before and after it. */
  lemma {:induction false} MeansLater(w: Place, k: nat, v: U64)
    requires IsRet(v) ==> v < RET_HI + k
    requires k < TWO32
    ensures Means(w, k + 1, v) == Means(w, k, v)
  {
  }

  /** Block `k`: the call carries what its operations leave, and the machine goes on from there. */
  lemma {:induction false} BlockCalls(ctx: Context, pre: RegFile, events: seq<Event>, env: Env, st0: State, k: nat,
      st: State, st1: State, st': State)
    requires NoMarkers(events) && Running(st0, 0) && k < |events|
    requires st == TraceOf(ctx, pre, events, env, st0).states[k]
    requires st1 == Run(env, EmitOps(BlockOps(ctx, pre, events, k)), st)
    requires st' == TraceOf(ctx, pre, events, env, st0).states[k + 1]
    ensures Running(st, k) && Running(st', k + 1) && st'.calls[..k] == st.calls && Total(st1.regs)
    ensures st'.calls[k].regs == st1.regs && st'.regs == AfterCall(env, k, st1.regs)
    ensures st'.calls[k].target == CallTarget(ctx.hooks, env, events[k], st1.regs)
  {
    TraceRunning(ctx, pre, events, env, st0, k);
    TraceRunning(ctx, pre, events, env, st0, k + 1);
    StateAfterStep(env, AllBlocks(ctx, pre, events), st0, k);
    BlockRun(ctx, pre, events, env, k, st);
    CallMade(ctx.hooks, env, events[k], k, st, st1.(frame := FrameAfter(ctx, events, k, st.frame)));
  }

  lemma {:induction false} CallMade(hooks: HookMap, env: Env, ev: Event, k: nat, st: State, mid: State)
    requires mid.exit.None? && mid.calls == st.calls && |st.calls| == k
    ensures var st' := Exec(env, EmitCall(hooks, ev), mid);
            && |st'.calls| == k + 1 && st'.calls[..k] == st.calls && st'.calls[k].regs == mid.regs
            && st'.regs == AfterCall(env, k, mid.regs) && st'.calls[k].target == CallTarget(hooks, env, ev, mid.regs)
  {
  }

  /** After `k` blocks: the registers stood at every call if the markers were carried, and then the next block can
      start and the calls went to their imports exactly if the slots of unhooked calls resolve; and only then,
      unless a call echoes its marker. */
  ghost predicate PrefixStands(w: Place, pre: RegFile, events: seq<Event>, prev: RegFile, st: State, k: nat)
    requires k <= |events|
  {
    && Running(st, k)
    && (Carried(pre, events, k) ==>
          && AllStand(w, events, st.calls, k) && ReadyAt(w, k, prev, st)
          && (ToImports(w, events, st.calls, k) <==> DarkResolve(w, events, k)))
    && (NoEcho(w, k) && AllStand(w, events, st.calls, k) ==> Carried(pre, events, k))
  }

  lemma {:induction false} CarriedSnoc(pre: RegFile, events: seq<Event>, k: nat)
    requires k < |events|
    ensures Carried(pre, events, k + 1) <==>
            Carried(pre, events, k) && CarriedAt(k, PrevRegs(pre, events, k), events[k].regs)
  {
  }

  lemma {:induction false} StandSnoc(w: Place, events: seq<Event>, calls: seq<Call>, calls': seq<Call>, k: nat)
    requires k < |events| && |calls| == k && |calls'| == k + 1 && calls'[..k] == calls
    ensures AllStand(w, events, calls', k + 1) <==>
            AllStand(w, events, calls, k) && Stands(w, k, events[k].regs, calls'[k].regs)
  {
    assert forall j :: 0 <= j < k ==> calls'[j] == calls[j];
  }

  lemma {:induction false} ImportSnoc(w: Place, events: seq<Event>, calls: seq<Call>, calls': seq<Call>, k: nat)
    requires k < |events| && |calls| == k && |calls'| == k + 1 && calls'[..k] == calls
    ensures ToImports(w, events, calls', k + 1) <==>
            ToImports(w, events, calls, k) && calls'[k].target == Fixed(w, events[k].hook)
    ensures DarkResolve(w, events, k + 1) <==> DarkResolve(w, events, k) && DarkResolves(w, events[k])
  {
    assert forall j :: 0 <= j < k ==> calls'[j] == calls[j];
  }

  lemma {:induction false} TargetStands(w: Place, ev: Event, k: nat, regs: RegFile)
    requires EventFree(ev, k) && k <= TWO32 && Stands(w, k, ev.regs, regs)
    ensures CallTarget(w.ctx.hooks, w.env, ev, regs) == Fixed(w, ev.hook) <==> DarkResolves(w, ev)
  {
    if ev.via.Some? {
      assert Get(regs, ev.via.value) == Means(w, k, ev.hook);
    }
  }

  /** One more block, by what it leaves. */
  lemma {:induction false} PrefixMore(w: Place, pre: RegFile, events: seq<Event>, prev: RegFile, st: State, st1: State,
      st': State, k: nat)
    requires k < |events| && k < TWO32 && PrefixStands(w, pre, events, prev, st, k) && EventFree(events[k], k)
    requires Carried(pre, events, k + 1) <==> Carried(pre, events, k) && CarriedAt(k, prev, events[k].regs)
    requires Running(st', k + 1) && st'.calls[..k] == st.calls && Total(st1.regs)
    requires st'.calls[k].regs == st1.regs && st'.regs == AfterCall(w.env, k, st1.regs)
    requires st'.calls[k].target == CallTarget(w.ctx.hooks, w.env, events[k], st1.regs)
    requires Carried(pre, events, k) ==> Get(st1.regs, Rsp) == w.rsp && AllLeftAt(w, k, prev, events[k].regs, st1.regs)
    ensures PrefixStands(w, pre, events, PostCall(events[k]), st', k + 1)
  {
    StandSnoc(w, events, st.calls, st'.calls, k);
    ImportSnoc(w, events, st.calls, st'.calls, k);
    assert NoEcho(w, k + 1) ==> NoEcho(w, k);
    if Carried(pre, events, k) {
      StandsIff(w, k, prev, events[k].regs, st1.regs);
      AfterBlock(w, events[k], k, st1.regs, st');
    }
  }

  lemma {:induction false} AfterBlock(w: Place, ev: Event, k: nat, regs: RegFile, st': State)
    requires EventFree(ev, k) && k < TWO32 && Total(regs) && Get(regs, Rsp) == w.rsp
    requires Running(st', k + 1) && st'.regs == AfterCall(w.env, k, regs)
    ensures Stands(w, k, ev.regs, regs) ==>
              && ReadyAt(w, k + 1, PostCall(ev), st')
              && (CallTarget(w.ctx.hooks, w.env, ev, regs) == Fixed(w, ev.hook) <==> DarkResolves(w, ev))
  {
    if Stands(w, k, ev.regs, regs) {
      StandsAfterCall(w, ev, k, regs);
      TargetStands(w, ev, k, regs);
    }
  }

  lemma {:induction false} PrefixHolds(w: Place, pre: RegFile, events: seq<Event>, st0: State, k: nat)
    requires Free(w, pre, events, st0) && AllOrderly(w.ctx, pre, events) && k <= |events|
    ensures PrefixStands(w, pre, events, PrevRegs(pre, events, k), TraceOf(w.ctx, pre, events, w.env, st0).states[k], k)
  {
    FreeMeans(w, pre, events, st0);
    if k == 0 {
      TraceStart(w.ctx, pre, events, w.env, st0);
    } else {
      var j := k - 1;
      var st := TraceOf(w.ctx, pre, events, w.env, st0).states[j];
      var st1 := Run(w.env, EmitOps(BlockOps(w.ctx, pre, events, j)), st);
      PrefixHolds(w, pre, events, st0, j);
      BlockCalls(w.ctx, pre, events, w.env, st0, j, st, st1, TraceOf(w.ctx, pre, events, w.env, st0).states[k]);
      if Carried(pre, events, j) {
        assert Orderly(BlockOps(w.ctx, pre, events, j));
        BlockStands(w, j, PrevRegs(pre, events, j), events[j].regs, BlockOps(w.ctx, pre, events, j), st, st1);
      }
      CarriedSnoc(pre, events, j);
      PrefixMore(w, pre, events, PrevRegs(pre, events, j), st, st1,
                 TraceOf(w.ctx, pre, events, w.env, st0).states[k], j);
    }
  }

  lemma {:induction false} FreeMeans(w: Place, pre: RegFile, events: seq<Event>, st0: State)
    requires Free(w, pre, events, st0)
    ensures NoMarkers(events) && Running(st0, 0)
  {
    forall k | 0 <= k < |events|
      ensures !events[k].marker
    {
      assert EventFree(events[k], k);
    }
  }

  lemma {:induction false} RunEnds(ctx: Context, pre: RegFile, events: seq<Event>, exit: U64, env: Env, st0: State)
    requires NoMarkers(events) && Running(st0, 0)
    ensures var fin := Run(env, Reconstructed(ctx, pre, events, exit), st0);
            && fin.exit == Some(Moved(env, exit))
            && fin.calls == TraceOf(ctx, pre, events, env, st0).states[|events|].calls
  {
    TraceRunning(ctx, pre, events, env, st0, |events|);
    RunThenJump(env, AllBlocks(ctx, pre, events), exit, st0);
  }

  /** Wherever the stack and the image are, whatever the import slots hold and the calls return: with orderly
      blocks, every register recorded at a call holds what its recorded value stands for if every return marker
      in the recorded registers was still in a register before, and only then unless a call echoes its marker. Each
      call then goes to the import of its hooked address, if and only if the slots of unhooked calls resolve. */
  lemma {:induction false} RunsAnywhere(w: Place, pre: RegFile, events: seq<Event>, exit: U64, st0: State)
    requires Free(w, pre, events, st0) && AllOrderly(w.ctx, pre, events)
    ensures var n, fin := |events|, Run(w.env, Reconstructed(w.ctx, pre, events, exit), st0);
            && fin.exit == Some(Moved(w.env, exit)) && |fin.calls| == n
            && (Carried(pre, events, n) ==>
                  && AllStand(w, events, fin.calls, n)
                  && (ToImports(w, events, fin.calls, n) <==> DarkResolve(w, events, n)))
            && (NoEcho(w, n) && AllStand(w, events, fin.calls, n) ==> Carried(pre, events, n))
  {
    FreeMeans(w, pre, events, st0);
    RunEnds(w.ctx, pre, events, exit, w.env, st0);
    PrefixHolds(w, pre, events, st0, |events|);
  }

  // ---------------------------------------------------------------- a marker that comes back from memory

  /** Operations that are neither moves nor large immediates are orderly. */
  lemma {:induction false} OrderlyLiterals(ctx: Context, prev: RegFile, cur: RegFile, hasLast: bool, n: nat)
    requires n <= |GP_REGS| && Total(prev)
    requires forall r: Reg :: ClassifyReg(ctx, prev, cur, hasLast, r).Some? ==> Literal(prev, Get(cur, r))
    ensures Orderly(ClassifyDelta(ctx, prev, cur, hasLast, n))
  {
    if n > 0 {
      OrderlyLiterals(ctx, prev, cur, hasLast, n - 1);
      var ops0, r := ClassifyDelta(ctx, prev, cur, hasLast, n - 1), GP_REGS[n - 1];
      var o := ClassifyReg(ctx, prev, cur, hasLast, r);
      if o.Some? {
        LiteralOrderly(ctx, prev, cur, hasLast, r, ops0, o.value);
        OrderlySnoc(ops0, o.value);
      } else {
        assert ClassifyDelta(ctx, prev, cur, hasLast, n) == ops0;
      }
    }
  }

  /** A value no register had and no large immediate. */
  ghost predicate Literal(prev: RegFile, v: U64) {
    v < BIG_IMM && Get(prev, Rax) != v && (v == 0 || !InRegister(prev, v))
  }

  lemma {:induction false} LiteralOrderly(ctx: Context, prev: RegFile, cur: RegFile, hasLast: bool, r: Reg,
      ops: seq<Op>, op: Op)
    requires Total(prev) && ClassifyReg(ctx, prev, cur, hasLast, r) == Some(op) && Literal(prev, Get(cur, r))
    ensures OpOrderly(ops, op)
  {
    var v := Get(cur, r);
    if v != 0 {
      forall s: Reg | s != Rsp && s in prev
        ensures prev[s] != v
      {
        assert Get(prev, s) == prev[s];
      }
      NoSource(r, v, prev, 0);
    }
  }

  /** Three calls: the result of the first is gone from the registers at the second and in rcx at the third. */
  function Reloaded(hook: U64, rsp: U64, frame: Frame): (events: seq<Event>) {
    [Event(0, hook, Zeros(rsp), RetVal(0), None, frame, false),
     Event(1, hook, Zeros(rsp), RetVal(1), None, frame, false),
     Event(2, hook, Zeros(rsp)[Rcx := RetVal(0)], RetVal(2), None, frame, false)]
  }

  /** The baseline after a call that was made with all registers zero. */
  lemma {:induction false} ZeroBaseline(ev: Event, k: nat, r: Reg)
    requires ev.regs == Zeros(Get(ev.regs, Rsp)) && ev.ret == RetVal(k) && ev.i == k < 3
    ensures Total(PostCall(ev)) && Get(PostCall(ev), Rax) == RET_HI + k
    ensures r != Rsp && r != Rax ==> Get(PostCall(ev), r) == 0 || IsClobber(Get(PostCall(ev), r))
  {
    forall s: Reg
      ensures s in PostCall(ev)
    {
      PostCallAt(ev, s);
    }
    PostCallAt(ev, r);
    PostCallAt(ev, Rax);
    SentinelFamilies(r, k);
  }

  lemma {:induction false} ReloadedOrderly(ctx: Context, hook: U64, rsp: U64, frame: Frame, k: nat)
    requires k < 3
    ensures Orderly(BlockOps(ctx, Zeros(rsp), Reloaded(hook, rsp, frame), k))
  {
    var pre, events := Zeros(rsp), Reloaded(hook, rsp, frame);
    var prev, cur := PrevRegs(pre, events, k), events[k].regs;
    if k > 0 {
      ZeroBaseline(events[k - 1], k - 1, Rax);
    }
    forall r: Reg | ClassifyReg(ctx, prev, cur, k > 0, r).Some?
      ensures Literal(prev, Get(cur, r))
    {
      if k == 2 {
        forall s: Reg | s != Rsp
          ensures Get(prev, s) != RET_HI
        {
          ZeroBaseline(events[1], 1, s);
        }
      }
    }
    OrderlyLiterals(ctx, prev, cur, k > 0, |GP_REGS|);
  }

  lemma {:induction false} ReloadedFree(hook: U64, rsp: U64, frame: Frame, k: nat)
    requires k < 3
    ensures EventFree(Reloaded(hook, rsp, frame)[k], k)
  {
  }

  /** That marker was not carried, and the code passes it on as it stands: wherever it runs and whatever the calls
      return, unless they echo their markers, some register of some call is not what it should be. */
  lemma {:induction false} MarkerFromMemory(w: Place, hook: U64, rsp: U64, frame: Frame, exit: U64, mem: Memory)
    requires Fixed(w, 0) == 0 && NoEcho(w, 3)
    ensures var pre, events, st0 := Zeros(rsp), Reloaded(hook, rsp, frame), State(Zeros(w.rsp), mem, [], None);
            var fin := Run(w.env, Reconstructed(w.ctx, pre, events, exit), st0);
            && Free(w, pre, events, st0) && AllOrderly(w.ctx, pre, events)
            && |fin.calls| == 3 && !AllStand(w, events, fin.calls, 3)
  {
    var pre, events, st0 := Zeros(rsp), Reloaded(hook, rsp, frame), State(Zeros(w.rsp), mem, [], None);
    forall k | 0 <= k < 3
      ensures EventFree(events[k], k) && Orderly(BlockOps(w.ctx, pre, events, k))
    {
      ReloadedFree(hook, rsp, frame, k);
      ReloadedOrderly(w.ctx, hook, rsp, frame, k);
    }
    NotCarried(hook, rsp, frame);
    RunsAnywhere(w, pre, events, exit, st0);
  }

  lemma {:induction false} NotCarried(hook: U64, rsp: U64, frame: Frame)
    ensures !Carried(Zeros(rsp), Reloaded(hook, rsp, frame), 3)
  {
    var pre, events := Zeros(rsp), Reloaded(hook, rsp, frame);
    var prev := PrevRegs(pre, events, 2);
    forall s: Reg | s != Rsp
      ensures Get(prev, s) != RET_HI
    {
      ZeroBaseline(events[1], 1, s);
    }
    assert Get(events[2].regs, Rcx) == RET_HI && !InRegister(prev, RET_HI);
    assert !CarriedAt(2, prev, events[2].regs);
  }
}
