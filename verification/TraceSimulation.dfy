/** Whole-trace theorems: the reconstructed code repeats the recorded calls, registers and frames. */
module TraceSimulation {
  import opened Registers
  import opened Reconstruct
  import opened Simulation
  import opened FrameReplay
  import opened Options

  /** An event as the recorder produces it, seen from the machine's outside world. */
  ghost predicate EventOk(env: Env, ev: Event, k: nat) {
    && !ev.marker && Total(ev.regs) && env.ret(k) == ev.ret
    && (ev.via.Some? ==>
          ev.via.value != Rsp && Get(ev.regs, ev.via.value) == ev.hook && !IsClobber(ev.hook))
  }

  /** The import slot a call goes through, if it goes through one, holds the recorded target. */
  predicate CallResolves(hooks: HookMap, env: Env, ev: Event) {
    ev.via.None? ==> Slot(env, CallSym(hooks, ev)) == ev.hook
  }

  ghost predicate CallsResolve(hooks: HookMap, env: Env, events: seq<Event>, k: nat)
    requires k <= |events|
  {
    forall j :: 0 <= j < k ==> CallResolves(hooks, env, events[j])
  }

  /** A marker-free trace and a machine stopped at the VM entry, with the image where it was recorded. */
  ghost predicate Setup(ctx: Context, pre: RegFile, events: seq<Event>, env: Env, st0: State) {
    && Total(pre) && ctx.frameRsp == pre[Rsp] && env.slide == 0
    && (forall k :: 0 <= k < |events| ==> EventOk(env, events[k], k))
    && st0.regs == pre && st0.calls == [] && st0.exit.None?
  }

  // ---------------------------------------------------------------- structure of one block

  /** Machine state that is still running, with `k` calls made. */
  ghost predicate Running(st: State, k: nat) {
    Total(st.regs) && st.exit.None? && |st.calls| == k
  }

  lemma {:induction false} OpsKeep(env: Env, ops: seq<Op>, st: State)
    requires Total(st.regs) && st.exit.None?
    ensures var st' := Run(env, EmitOps(ops), st);
            st' == st.(regs := st'.regs) && Total(st'.regs)
    decreases |ops|
  {
    if |ops| == 0 {
      assert EmitOps(ops) == [];
    } else {
      assert EmitOps(ops)[0] == EmitOp(ops[0]) && EmitOps(ops)[1..] == EmitOps(ops[1..]);
      ExecIsOpValue(env, ops[0], st);
      OpsKeep(env, ops[1..], st.(regs := st.regs[ops[0].dst := OpValue(env, st.regs, ops[0])]));
    }
  }

  /** Frame after the writes of event `k`. */
  function FrameAfter(ctx: Context, events: seq<Event>, k: nat, mem: Memory): (m: Memory)
    requires k < |events|
  {
    Replay(mem, FrameDelta(PrevFrame(ctx.frameSize, events, k), events[k].frame, ctx.frameSize))
  }

  /** No operation of block `k` goes wrong. */
  predicate BlockClean(ctx: Context, env: Env, pre: RegFile, events: seq<Event>, k: nat)
    requires k < |events|
  {
    Clean(env, events[k].regs, BlockOps(ctx, pre, events, k))
  }

  predicate AllClean(ctx: Context, env: Env, pre: RegFile, events: seq<Event>) {
    forall k :: 0 <= k < |events| ==> BlockClean(ctx, env, pre, events, k)
  }

  /** A block runs its register operations, then its frame writes, then makes one call. */
  lemma {:induction false} BlockRun(ctx: Context, pre: RegFile, events: seq<Event>, env: Env, k: nat, st: State)
    requires k < |events| && !events[k].marker && Running(st, k)
    ensures var mid := Run(env, EmitOps(BlockOps(ctx, pre, events, k)), st)
                       .(frame := FrameAfter(ctx, events, k, st.frame));
            && Run(env, Block(ctx, pre, events, k), st) == Exec(env, EmitCall(ctx.hooks, events[k]), mid)
            && Total(mid.regs) && mid.calls == st.calls && mid.exit.None?
  {
    var ops := BlockOps(ctx, pre, events, k);
    var ws := FrameDelta(PrevFrame(ctx.frameSize, events, k), events[k].frame, ctx.frameSize);
    var call := EmitCall(ctx.hooks, events[k]);
    var st1 := Run(env, EmitOps(ops), st);
    OpsKeep(env, ops, st);
    RunConcat(env, EmitOps(ops) + EmitWrites(ws), [call], st);
    RunConcat(env, EmitOps(ops), EmitWrites(ws), st);
    RunWrites(env, ws, st1);
    RunOne(env, call, st1.(frame := Replay(st1.frame, ws)));
  }

  /** Where the emitted call of an event goes. */
  function CallTarget(hooks: HookMap, env: Env, ev: Event, regs: RegFile): (a: U64) {
    if ev.via.Some? then Get(regs, ev.via.value) else Slot(env, CallSym(hooks, ev))
  }

  /** What a block does to the machine, without saying how: one call more, the frame writes replayed,
      and the recorded registers in place exactly when the block is clean. */
  ghost predicate BlockStep(
      ctx: Context, env: Env, ev: Event, prev: RegFile, delta: seq<FrameWrite>, clean: bool, k: nat,
      st: State, st': State)
  {
    && Running(st', k + 1) && st'.calls[..k] == st.calls
    && (var c := st'.calls[k];
        && Total(c.regs) && c.target == CallTarget(ctx.hooks, env, ev, c.regs)
        && c.frame == st'.frame == Replay(st.frame, delta)
        && st'.regs == AfterCall(env, k, c.regs)
        && (Ready(ctx, prev, st) && env.slide == 0 ==>
              Get(c.regs, Rsp) == ctx.frameRsp && (clean <==> RegsMatch(ev.regs, c.regs))))
  }

  lemma {:induction false} BlockStepHolds(ctx: Context, pre: RegFile, events: seq<Event>, env: Env, k: nat, st: State)
    requires k < |events| && !events[k].marker && Running(st, k)
    ensures BlockStep(ctx, env, events[k], PrevRegs(pre, events, k),
                      FrameDelta(PrevFrame(ctx.frameSize, events, k), events[k].frame, ctx.frameSize),
                      BlockClean(ctx, env, pre, events, k), k, st, Run(env, Block(ctx, pre, events, k), st))
  {
    var ops := BlockOps(ctx, pre, events, k);
    var st1 := Run(env, EmitOps(ops), st);
    BlockRun(ctx, pre, events, env, k, st);
    OpsKeep(env, ops, st);
    if Ready(ctx, PrevRegs(pre, events, k), st) && env.slide == 0 {
      BlockExact(ctx, env, PrevRegs(pre, events, k), events[k].regs, k > 0, st, |GP_REGS|);
    }
    CallStep(ctx, env, events[k], PrevRegs(pre, events, k),
             FrameDelta(PrevFrame(ctx.frameSize, events, k), events[k].frame, ctx.frameSize),
             BlockClean(ctx, env, pre, events, k), k, st, st1);
  }

  /** Making the call once registers and frame are in place. */
  lemma {:induction false} CallStep(ctx: Context, env: Env, ev: Event, prev: RegFile, delta: seq<FrameWrite>,
      clean: bool, k: nat, st: State, st1: State)
    requires Running(st, k) && st1 == st.(regs := st1.regs) && Total(st1.regs)
    requires Ready(ctx, prev, st) && env.slide == 0 ==>
               Get(st1.regs, Rsp) == ctx.frameRsp && (clean <==> RegsMatch(ev.regs, st1.regs))
    ensures BlockStep(ctx, env, ev, prev, delta, clean, k, st,
                      Exec(env, EmitCall(ctx.hooks, ev), st1.(frame := Replay(st.frame, delta))))
  {
  }

  /** State after the first `k` blocks. */
  function StateAfter(env: Env, bs: seq<seq<Instr>>, st0: State, k: nat): (st: State)
    requires k <= |bs|
  {
    Run(env, Flatten(bs[..k]), st0)
  }

  lemma {:induction false} StateAfterStep(env: Env, bs: seq<seq<Instr>>, st0: State, k: nat)
    requires k < |bs|
    ensures StateAfter(env, bs, st0, k + 1) == Run(env, bs[k], StateAfter(env, bs, st0, k))
  {
    FlattenSnoc(bs, k);
    RunConcat(env, Flatten(bs[..k]), bs[k], st0);
  }

  lemma {:induction false} RunThenJump(env: Env, bs: seq<seq<Instr>>, exit: U64, st0: State)
    requires StateAfter(env, bs, st0, |bs|).exit.None?
    ensures Run(env, Flatten(bs) + [Jmp(exit)], st0) == StateAfter(env, bs, st0, |bs|).(exit := Some(Moved(env, exit)))
  {
    assert bs[..|bs|] == bs;
    RunConcat(env, Flatten(bs), [Jmp(exit)], st0);
    RunOne(env, Jmp(exit), StateAfter(env, bs, st0, |bs|));
  }

  /** A run as data: the state before every event, and what every block does. */
  datatype Trace = Trace(states: seq<State>, prevs: seq<RegFile>, deltas: seq<seq<FrameWrite>>, clean: seq<bool>)

  ghost predicate IsTrace(ctx: Context, events: seq<Event>, env: Env, t: Trace) {
    && |t.states| == |t.prevs| == |events| + 1 && |t.deltas| == |t.clean| == |events|
    && Running(t.states[0], 0) && Ready(ctx, t.prevs[0], t.states[0]) && env.slide == 0
    && (forall k :: 0 <= k < |events| ==> EventOk(env, events[k], k))
    && (forall k :: 0 <= k < |events| ==> t.prevs[k + 1] == PostCall(events[k]))
    && (forall k :: 0 <= k < |events| ==>
          BlockStep(ctx, env, events[k], t.prevs[k], t.deltas[k], t.clean[k], k, t.states[k], t.states[k + 1]))
  }

  /** The trace of the reconstructed code. */
  ghost function TraceOf(ctx: Context, pre: RegFile, events: seq<Event>, env: Env, st0: State): (t: Trace)
    ensures |t.states| == |t.prevs| == |events| + 1 && |t.deltas| == |t.clean| == |events|
  {
    var bs := AllBlocks(ctx, pre, events);
    Trace(seq(|events| + 1, k requires 0 <= k <= |events| => StateAfter(env, bs, st0, k)),
          seq(|events| + 1, k requires 0 <= k <= |events| => PrevRegs(pre, events, k)),
          seq(|events|, k requires 0 <= k < |events| =>
            FrameDelta(PrevFrame(ctx.frameSize, events, k), events[k].frame, ctx.frameSize)),
          seq(|events|, k requires 0 <= k < |events| => BlockClean(ctx, env, pre, events, k)))
  }

  /** Block `k` of the trace. */
  lemma {:induction false} TraceBlock(ctx: Context, pre: RegFile, events: seq<Event>, env: Env, st0: State, k: nat)
    requires k < |events| && !events[k].marker
    requires Running(TraceOf(ctx, pre, events, env, st0).states[k], k)
    ensures var t := TraceOf(ctx, pre, events, env, st0);
            BlockStep(ctx, env, events[k], t.prevs[k], t.deltas[k], t.clean[k], k, t.states[k], t.states[k + 1])
  {
    var bs := AllBlocks(ctx, pre, events);
    StateAfterStep(env, bs, st0, k);
    BlockStepHolds(ctx, pre, events, env, k, StateAfter(env, bs, st0, k));
  }

  lemma {:induction false} TraceStart(ctx: Context, pre: RegFile, events: seq<Event>, env: Env, st0: State)
    ensures TraceOf(ctx, pre, events, env, st0).states[0] == st0
    ensures TraceOf(ctx, pre, events, env, st0).prevs[0] == pre
  {
    assert AllBlocks(ctx, pre, events)[..0] == [];
  }

  ghost predicate NoMarkers(events: seq<Event>) {
    forall k :: 0 <= k < |events| ==> !events[k].marker
  }

  lemma {:induction false} TraceRunning(ctx: Context, pre: RegFile, events: seq<Event>, env: Env, st0: State, k: nat)
    requires NoMarkers(events) && Running(st0, 0) && k <= |events|
    ensures Running(TraceOf(ctx, pre, events, env, st0).states[k], k)
  {
    if k == 0 {
      TraceStart(ctx, pre, events, env, st0);
    } else {
      TraceRunning(ctx, pre, events, env, st0, k - 1);
      TraceBlock(ctx, pre, events, env, st0, k - 1);
    }
  }

  lemma {:induction false} SetupMeans(ctx: Context, pre: RegFile, events: seq<Event>, env: Env, st0: State)
    requires Setup(ctx, pre, events, env, st0)
    ensures NoMarkers(events) && Running(st0, 0) && Ready(ctx, pre, st0)
  {
    forall k | 0 <= k < |events|
      ensures !events[k].marker
    {
      assert EventOk(env, events[k], k);
    }
  }

  lemma {:induction false} TraceBlocks(ctx: Context, pre: RegFile, events: seq<Event>, env: Env, st0: State)
    requires NoMarkers(events) && Running(st0, 0)
    ensures var t := TraceOf(ctx, pre, events, env, st0);
            forall k :: 0 <= k < |events| ==>
              BlockStep(ctx, env, events[k], t.prevs[k], t.deltas[k], t.clean[k], k, t.states[k], t.states[k + 1])
  {
    var t := TraceOf(ctx, pre, events, env, st0);
    forall k | 0 <= k < |events|
      ensures BlockStep(ctx, env, events[k], t.prevs[k], t.deltas[k], t.clean[k], k, t.states[k], t.states[k + 1])
    {
      TraceRunning(ctx, pre, events, env, st0, k);
      TraceBlock(ctx, pre, events, env, st0, k);
    }
  }

  lemma {:induction false} TracePrevs(ctx: Context, pre: RegFile, events: seq<Event>, env: Env, st0: State, k: nat)
    requires k < |events| && !events[k].marker
    ensures TraceOf(ctx, pre, events, env, st0).prevs[k + 1] == PostCall(events[k])
  {
  }

  lemma {:induction false} TraceIsTrace(ctx: Context, pre: RegFile, events: seq<Event>, env: Env, st0: State, t: Trace)
    requires Setup(ctx, pre, events, env, st0) && t == TraceOf(ctx, pre, events, env, st0)
    ensures IsTrace(ctx, events, env, t) && t.states[0] == st0
  {
    TraceStart(ctx, pre, events, env, st0);
    SetupMeans(ctx, pre, events, env, st0);
    forall k | 0 <= k < |events|
      ensures t.prevs[k + 1] == PostCall(events[k])
    {
      TracePrevs(ctx, pre, events, env, st0, k);
    }
    TraceBlocks(ctx, pre, events, env, st0);
  }

  /** Running the reconstructed code is its trace, followed by the jump to the VM exit. */
  lemma {:induction false} RunIsTrace(ctx: Context, pre: RegFile, events: seq<Event>, exit: U64, env: Env, st0: State)
    requires Setup(ctx, pre, events, env, st0)
    ensures Run(env, Reconstructed(ctx, pre, events, exit), st0)
            == TraceOf(ctx, pre, events, env, st0).states[|events|].(exit := Some(exit))
  {
    SetupMeans(ctx, pre, events, env, st0);
    TraceRunning(ctx, pre, events, env, st0, |events|);
    RunThenJump(env, AllBlocks(ctx, pre, events), exit, st0);
  }

  // ---------------------------------------------------------------- registers and call targets

  ghost predicate AllRegsMatch(events: seq<Event>, calls: seq<Call>, k: nat)
    requires k <= |events| && k <= |calls|
  {
    forall j :: 0 <= j < k ==> RegsMatch(events[j].regs, calls[j].regs)
  }

  ghost predicate SameTargets(events: seq<Event>, calls: seq<Call>, k: nat)
    requires k <= |events| && k <= |calls|
  {
    forall j :: 0 <= j < k ==> calls[j].target == events[j].hook
  }

  /** The registers left by a call agree with the baseline of the next diff. */
  lemma {:induction false} AgreeAfterCall(env: Env, ev: Event, k: nat, regs: RegFile)
    requires Total(regs) && Total(ev.regs) && env.ret(k) == ev.ret && RegsMatch(ev.regs, regs)
    ensures Agree(PostCall(ev), AfterCall(env, k, regs)) && Total(PostCall(ev))
  {
    forall r: Reg
      ensures r in PostCall(ev)
      ensures r != Rsp && !IsClobber(Get(PostCall(ev), r)) ==> Get(AfterCall(env, k, regs), r) == Get(PostCall(ev), r)
    {
      PostCallAt(ev, r);
      SentinelFamilies(r, ev.i);
    }
  }

  ghost predicate AllTrue(bs: seq<bool>, k: nat)
    requires k <= |bs|
  {
    forall j :: 0 <= j < k ==> bs[j]
  }

  /** After `k` blocks: registers matched so far exactly if the blocks were clean so far, and then the next
      block can start and the targets matched too exactly if the call slots resolved. */
  ghost predicate PrefixOk(ctx: Context, events: seq<Event>, env: Env, clean: seq<bool>, prev: RegFile,
                           st: State, k: nat)
    requires k <= |events| && k <= |clean|
  {
    && Running(st, k)
    && (AllTrue(clean, k) <==> AllRegsMatch(events, st.calls, k))
    && (AllTrue(clean, k) ==> Ready(ctx, prev, st))
    && (AllTrue(clean, k) ==> (SameTargets(events, st.calls, k) <==> CallsResolve(ctx.hooks, env, events, k)))
  }

  lemma {:induction false} MatchSnoc(events: seq<Event>, clean: seq<bool>, calls: seq<Call>, calls': seq<Call>, k: nat)
    requires k < |events| && k < |clean| && |calls| == k && |calls'| == k + 1 && calls'[..k] == calls
    ensures AllTrue(clean, k + 1) <==> AllTrue(clean, k) && clean[k]
    ensures AllRegsMatch(events, calls', k + 1) <==>
            AllRegsMatch(events, calls, k) && RegsMatch(events[k].regs, calls'[k].regs)
    ensures SameTargets(events, calls', k + 1) <==> SameTargets(events, calls, k) && calls'[k].target == events[k].hook
  {
    assert forall j :: 0 <= j < k ==> calls'[j] == calls[j];
  }

  lemma {:induction false} ResolveSnoc(hooks: HookMap, env: Env, events: seq<Event>, k: nat)
    requires k < |events|
    ensures CallsResolve(hooks, env, events, k + 1) <==>
            CallsResolve(hooks, env, events, k) && CallResolves(hooks, env, events[k])
  {
  }

  lemma {:induction false} PrefixStep(ctx: Context, events: seq<Event>, env: Env, clean: seq<bool>, prev: RegFile,
      delta: seq<FrameWrite>, st: State, st': State, k: nat)
    requires k < |events| && k < |clean|
    requires PrefixOk(ctx, events, env, clean, prev, st, k)
    requires EventOk(env, events[k], k) && env.slide == 0
    requires BlockStep(ctx, env, events[k], prev, delta, clean[k], k, st, st')
    ensures PrefixOk(ctx, events, env, clean, PostCall(events[k]), st', k + 1)
  {
    MatchSnoc(events, clean, st.calls, st'.calls, k);
    ResolveSnoc(ctx.hooks, env, events, k);
    if AllTrue(clean, k + 1) {
      AgreeAfterCall(env, events[k], k, st'.calls[k].regs);
      TargetMatches(ctx, env, events[k], k, st'.calls[k].regs);
    }
  }

  lemma {:induction false} TargetMatches(ctx: Context, env: Env, ev: Event, k: nat, regs: RegFile)
    requires EventOk(env, ev, k) && RegsMatch(ev.regs, regs)
    ensures CallTarget(ctx.hooks, env, ev, regs) == ev.hook <==> CallResolves(ctx.hooks, env, ev)
  {
  }

  lemma {:induction false} TracePrefix(ctx: Context, events: seq<Event>, env: Env, t: Trace, k: nat)
    requires IsTrace(ctx, events, env, t) && k <= |events|
    ensures PrefixOk(ctx, events, env, t.clean, t.prevs[k], t.states[k], k)
  {
    if k > 0 {
      TracePrefix(ctx, events, env, t, k - 1);
      PrefixStep(ctx, events, env, t.clean, t.prevs[k - 1], t.deltas[k - 1], t.states[k - 1], t.states[k], k - 1);
    }
  }

  /** Call-trace preservation, exactly: running the reconstructed code from the VM-entry registers
      makes one call per event and then jumps to the VM exit; every recorded register is
      reproduced at every call if and only if every block is clean; and then every call goes to
      the recorded address if and only if the import slots of the calls resolve. */
  lemma {:induction false} CallTraceExact(ctx: Context, pre: RegFile, events: seq<Event>, exit: U64, env: Env,
      st0: State)
    requires Setup(ctx, pre, events, env, st0)
    ensures var fin := Run(env, Reconstructed(ctx, pre, events, exit), st0);
            && fin.exit == Some(exit) && |fin.calls| == |events|
            && (AllClean(ctx, env, pre, events) <==> AllRegsMatch(events, fin.calls, |events|))
            && (AllClean(ctx, env, pre, events) ==>
                  (SameTargets(events, fin.calls, |events|) <==> CallsResolve(ctx.hooks, env, events, |events|)))
  {
    var t := TraceOf(ctx, pre, events, env, st0);
    RunIsTrace(ctx, pre, events, exit, env, st0);
    TraceIsTrace(ctx, pre, events, env, st0, t);
    TracePrefix(ctx, events, env, t, |events|);
    TraceClean(ctx, pre, events, env, st0);
  }

  lemma {:induction false} TraceClean(ctx: Context, pre: RegFile, events: seq<Event>, env: Env, st0: State)
    ensures AllTrue(TraceOf(ctx, pre, events, env, st0).clean, |events|) <==> AllClean(ctx, env, pre, events)
  {
    var clean := TraceOf(ctx, pre, events, env, st0).clean;
    assert forall k :: 0 <= k < |events| ==> clean[k] == BlockClean(ctx, env, pre, events, k);
  }

  // ---------------------------------------------------------------- frames

  /** Every event carries a complete snapshot of some stack memory. */
  ghost predicate Snapshots(ctx: Context, events: seq<Event>, mems: seq<Memory>) {
    && |mems| == |events|
    && forall k :: 0 <= k < |events| ==> IsSnapshot(events[k].frame, mems[k], ScanBytes(ctx.frameSize))
  }

  /** A slot of the frame above the shadow space, in the first 512 bytes and below the cookie. */
  ghost predicate IsSlot(ctx: Context, p: int) {
    0x20 <= p < 0x200 && p + 8 < ctx.frameSize && p % 8 == 0
  }

  /** Memory whose snapshot precedes event `k`. */
  function PrevMemory(ctx: Context, mems: seq<Memory>, k: nat): (m: Memory)
    requires k <= |mems|
  {
    if k == 0 then FillMemory(ctx.frameSize) else mems[k - 1]
  }

  lemma {:induction false} PrevIsSnapshot(ctx: Context, events: seq<Event>, mems: seq<Memory>, k: nat)
    requires Snapshots(ctx, events, mems) && k <= |events|
    ensures IsSnapshot(PrevFrame(ctx.frameSize, events, k), PrevMemory(ctx, mems, k), ScanBytes(ctx.frameSize))
  {
    FillIsSnapshot(ctx.frameSize);
  }

  /** The change of slot `p` at event `k` survives its immediate store. */
  ghost predicate SlotReproducible(ctx: Context, events: seq<Event>, k: nat, p: int)
    requires k < |events| && p in PrevFrame(ctx.frameSize, events, k).q && p in events[k].frame.q
  {
    var pv, cv := PrevFrame(ctx.frameSize, events, k).q[p], events[k].frame.q[p];
    cv == pv || Reproducible(pv, cv)
  }

  /** Every compared slot is recorded before and at event `k`. */
  lemma {:induction false} SlotRecorded(ctx: Context, events: seq<Event>, mems: seq<Memory>, k: nat, p: int)
    requires Snapshots(ctx, events, mems) && k < |events| && IsSlot(ctx, p)
    ensures p in PrevFrame(ctx.frameSize, events, k).q && p in PrevFrame(ctx.frameSize, events, k).d
    ensures p in events[k].frame.q && p in events[k].frame.d
  {
    PrevIsSnapshot(ctx, events, mems, k);
    SlotCases(p, p);
  }

  /** The frame writes of a trace are those of the recorded snapshots. */
  ghost predicate FrameTrace(ctx: Context, events: seq<Event>, mems: seq<Memory>, t: Trace) {
    && Snapshots(ctx, events, mems) && |t.deltas| == |events|
    && forall k :: 0 <= k < |events| ==>
         t.deltas[k] == FrameDelta(PrevFrame(ctx.frameSize, events, k), events[k].frame, ctx.frameSize)
  }

  /** Slot `p` across block `k`: the call carries the new frame; a right low dword stays right; a right
      qword stays right exactly when its change is reproducible. */
  ghost predicate SlotStep(ctx: Context, events: seq<Event>, states: seq<State>, k: nat, p: int)
    requires k < |events| && |states| == |events| + 1
  {
    var pf, cf := PrevFrame(ctx.frameSize, events, k), events[k].frame;
    var mem, m := states[k].frame, states[k + 1].frame;
    && |states[k].calls| == k && |states[k + 1].calls| == k + 1
    && (forall j :: 0 <= j < k ==> states[k + 1].calls[j] == states[k].calls[j])
    && states[k + 1].calls[k].frame == m
    && p in pf.q && p in cf.q && p in pf.d && p in cf.d
    && (Dword(mem, p) == pf.d[p] ==> Dword(m, p) == cf.d[p])
    && (Qword(mem, p) == pf.q[p] ==> (Qword(m, p) == cf.q[p] <==> SlotReproducible(ctx, events, k, p)))
  }

  ghost predicate SlotSteps(ctx: Context, events: seq<Event>, states: seq<State>, p: int) {
    && |states| == |events| + 1 && states[0].calls == []
    && (p in FillFrame(ctx.frameSize).q && FillFrame(ctx.frameSize).q[p] == FILL + TWO32 * FILL)
    && (p in FillFrame(ctx.frameSize).d && FillFrame(ctx.frameSize).d[p] == FILL)
    && forall k :: 0 <= k < |events| ==> SlotStep(ctx, events, states, k, p)
  }

  lemma {:induction false} SlotStepHolds(ctx: Context, events: seq<Event>, env: Env, t: Trace, mems: seq<Memory>,
      k: nat, p: int)
    requires IsTrace(ctx, events, env, t) && FrameTrace(ctx, events, mems, t) && k < |events| && IsSlot(ctx, p)
    requires Running(t.states[k], k)
    ensures SlotStep(ctx, events, t.states, k, p)
  {
    assert BlockStep(ctx, env, events[k], t.prevs[k], t.deltas[k], t.clean[k], k, t.states[k], t.states[k + 1]);
    PrevIsSnapshot(ctx, events, mems, k);
    SlotRecorded(ctx, events, mems, k, p);
    ReplaySlot(ctx.frameSize, PrevFrame(ctx.frameSize, events, k), events[k].frame,
               PrevMemory(ctx, mems, k), mems[k], t.states[k].frame, p);
  }

  lemma {:induction false} RunHasSlotSteps(ctx: Context, pre: RegFile, events: seq<Event>, env: Env, st0: State,
      mems: seq<Memory>, p: int)
    requires Setup(ctx, pre, events, env, st0) && Snapshots(ctx, events, mems) && IsSlot(ctx, p)
    ensures SlotSteps(ctx, events, TraceOf(ctx, pre, events, env, st0).states, p)
    ensures TraceOf(ctx, pre, events, env, st0).states[0] == st0
  {
    var t := TraceOf(ctx, pre, events, env, st0);
    TraceIsTrace(ctx, pre, events, env, st0, t);
    FillIsSnapshot(ctx.frameSize);
    SetupMeans(ctx, pre, events, env, st0);
    forall k | 0 <= k < |events|
      ensures SlotStep(ctx, events, t.states, k, p)
    {
      TraceRunning(ctx, pre, events, env, st0, k);
      SlotStepHolds(ctx, events, env, t, mems, k, p);
    }
  }

  lemma {:induction false} LowDwordAt(ctx: Context, events: seq<Event>, states: seq<State>, k: nat, p: int)
    requires SlotSteps(ctx, events, states, p) && k <= |events|
    requires Dword(states[0].frame, p) == FILL
    ensures var st := states[k];
            && |st.calls| == k
            && p in PrevFrame(ctx.frameSize, events, k).d
            && Dword(st.frame, p) == PrevFrame(ctx.frameSize, events, k).d[p]
            && forall j :: 0 <= j < k ==> p in events[j].frame.d && Dword(st.calls[j].frame, p) == events[j].frame.d[p]
  {
    if k > 0 {
      LowDwordAt(ctx, events, states, k - 1, p);
      assert SlotStep(ctx, events, states, k - 1, p);
    }
  }

  /** Frame replay over a whole run: at every call the low dword of every compared slot is the recorded one. */
  lemma {:induction false} FrameLowDwords(ctx: Context, pre: RegFile, events: seq<Event>, exit: U64, env: Env,
      st0: State, mems: seq<Memory>, p: int)
    requires Setup(ctx, pre, events, env, st0) && Snapshots(ctx, events, mems)
    requires IsSlot(ctx, p) && Dword(st0.frame, p) == 0xCCCC_CCCC
    ensures var fin := Run(env, Reconstructed(ctx, pre, events, exit), st0);
            && |fin.calls| == |events|
            && forall k :: 0 <= k < |events| ==>
                 p in events[k].frame.d && Dword(fin.calls[k].frame, p) == events[k].frame.d[p]
  {
    RunIsTrace(ctx, pre, events, exit, env, st0);
    RunHasSlotSteps(ctx, pre, events, env, st0, mems, p);
    LowDwordAt(ctx, events, TraceOf(ctx, pre, events, env, st0).states, |events|, p);
  }

  /** Slot `p` holds the recorded qword at each of the first `k` calls. */
  ghost predicate SlotMatches(events: seq<Event>, calls: seq<Call>, k: nat, p: int)
    requires k <= |events| && k <= |calls|
  {
    forall j :: 0 <= j < k ==> p in events[j].frame.q && Qword(calls[j].frame, p) == events[j].frame.q[p]
  }

  ghost predicate SlotAlwaysReproducible(ctx: Context, events: seq<Event>, k: nat, p: int)
    requires k <= |events|
  {
    forall j :: 0 <= j < k ==>
      && p in PrevFrame(ctx.frameSize, events, j).q && p in events[j].frame.q
      && SlotReproducible(ctx, events, j, p)
  }

  lemma {:induction false} SlotMatchesSnoc(events: seq<Event>, calls: seq<Call>, calls': seq<Call>, k: nat, p: int)
    requires k < |events| && |calls| == k && |calls'| == k + 1
    requires forall j :: 0 <= j < k ==> calls'[j] == calls[j]
    ensures SlotMatches(events, calls', k + 1, p) <==>
            SlotMatches(events, calls, k, p) && p in events[k].frame.q &&
            Qword(calls'[k].frame, p) == events[k].frame.q[p]
  {
  }

  lemma {:induction false} SlotAlwaysSnoc(ctx: Context, events: seq<Event>, k: nat, p: int)
    requires k < |events| && p in PrevFrame(ctx.frameSize, events, k).q && p in events[k].frame.q
    ensures SlotAlwaysReproducible(ctx, events, k + 1, p) <==>
            SlotAlwaysReproducible(ctx, events, k, p) && SlotReproducible(ctx, events, k, p)
  {
  }

  ghost predicate QwordOk(ctx: Context, events: seq<Event>, st: State, k: nat, p: int)
    requires k <= |events|
  {
    && |st.calls| == k && p in PrevFrame(ctx.frameSize, events, k).q
    && (SlotMatches(events, st.calls, k, p) <==> SlotAlwaysReproducible(ctx, events, k, p))
    && (SlotMatches(events, st.calls, k, p) ==> Qword(st.frame, p) == PrevFrame(ctx.frameSize, events, k).q[p])
  }

  lemma {:induction false} QwordStep(ctx: Context, events: seq<Event>, states: seq<State>, k: nat, p: int)
    requires k < |events| && |states| == |events| + 1
    requires SlotStep(ctx, events, states, k, p) && QwordOk(ctx, events, states[k], k, p)
    ensures QwordOk(ctx, events, states[k + 1], k + 1, p)
  {
    SlotMatchesSnoc(events, states[k].calls, states[k + 1].calls, k, p);
    SlotAlwaysSnoc(ctx, events, k, p);
  }

  lemma {:induction false} QwordInduct(ctx: Context, events: seq<Event>, states: seq<State>, k: nat, p: int)
    requires |states| == |events| + 1 && k <= |events|
    requires QwordOk(ctx, events, states[0], 0, p)
    requires forall j :: 0 <= j < |events| && QwordOk(ctx, events, states[j], j, p) ==>
               QwordOk(ctx, events, states[j + 1], j + 1, p)
    ensures QwordOk(ctx, events, states[k], k, p)
  {
    if k > 0 {
      QwordInduct(ctx, events, states, k - 1, p);
    }
  }

  lemma {:induction false} QwordAt(ctx: Context, events: seq<Event>, states: seq<State>, p: int)
    requires SlotSteps(ctx, events, states, p)
    requires Qword(states[0].frame, p) == FILL + TWO32 * FILL
    ensures QwordOk(ctx, events, states[|events|], |events|, p)
  {
    forall j | 0 <= j < |events| && QwordOk(ctx, events, states[j], j, p)
      ensures QwordOk(ctx, events, states[j + 1], j + 1, p)
    {
      QwordStep(ctx, events, states, j, p);
    }
    QwordInduct(ctx, events, states, |events|, p);
  }

  /** Full frame reproduction, exactly: a compared slot holds the recorded qword at every call if and only if
      each of its changes is reproducible by an immediate store over the previous value. */
  lemma {:induction false} FrameExact(ctx: Context, pre: RegFile, events: seq<Event>, exit: U64, env: Env,
      st0: State, mems: seq<Memory>, p: int)
    requires Setup(ctx, pre, events, env, st0) && Snapshots(ctx, events, mems)
    requires IsSlot(ctx, p) && Qword(st0.frame, p) == 0xCCCC_CCCC_CCCC_CCCC
    ensures var fin := Run(env, Reconstructed(ctx, pre, events, exit), st0);
            && |fin.calls| == |events|
            && (SlotMatches(events, fin.calls, |events|, p) <==> SlotAlwaysReproducible(ctx, events, |events|, p))
  {
    RunIsTrace(ctx, pre, events, exit, env, st0);
    RunHasSlotSteps(ctx, pre, events, env, st0, mems, p);
    QwordAt(ctx, events, TraceOf(ctx, pre, events, env, st0).states, p);
  }

  // ---------------------------------------------------------------- recorded traces

  /** A marker-free trace of the recorders, on a machine with the image where it was and whose calls return the
      recorded markers, meets the conditions of the theorems above; hooked addresses are no clobber markers. */
  lemma {:induction false} RecordedSetup(ctx: Context, pre: RegFile, events: seq<Event>, env: Env, st0: State)
    requires Recorded(ctx.hooks, events) && NoMarkers(events) && forall h :: h in ctx.hooks ==> !IsClobber(h)
    requires env.slide == 0 && forall k :: 0 <= k < |events| ==> env.ret(k) == RetVal(k)
    requires Total(pre) && ctx.frameRsp == pre[Rsp] && st0.regs == pre && st0.calls == [] && st0.exit.None?
    ensures Setup(ctx, pre, events, env, st0)
  {
    forall k | 0 <= k < |events|
      ensures EventOk(env, events[k], k)
    {
      assert EventRecorded(ctx.hooks, events[k], k);
    }
  }

  // ---------------------------------------------------------------- why the conditions are needed

  /** Two loads of different hooked addresses under one symbol: whatever the slot holds, one of the two
      blocks is not clean, so some recorded register is not reproduced. */
  lemma {:induction false} SharedSymbol(ctx: Context, env: Env, pre: RegFile, events: seq<Event>, i: nat, a: nat,
      j: nat, b: nat)
    requires i < |events| && j < |events|
    requires a < |BlockOps(ctx, pre, events, i)| && b < |BlockOps(ctx, pre, events, j)|
    requires var p, q := BlockOps(ctx, pre, events, i)[a], BlockOps(ctx, pre, events, j)[b];
             && p.IatOp? && q.IatOp? && p.sym == q.sym
             && Get(events[i].regs, p.dst) != Get(events[j].regs, q.dst)
    ensures !AllClean(ctx, env, pre, events)
  {
    LoadResolves(ctx, env, pre, events, i, a);
    LoadResolves(ctx, env, pre, events, j, b);
  }

  lemma {:induction false} LoadResolves(ctx: Context, env: Env, pre: RegFile, events: seq<Event>, i: nat, a: nat)
    requires i < |events| && a < |BlockOps(ctx, pre, events, i)| && BlockOps(ctx, pre, events, i)[a].IatOp?
    ensures var op := BlockOps(ctx, pre, events, i)[a];
            AllClean(ctx, env, pre, events) ==> Slot(env, op.sym) == Get(events[i].regs, op.dst)
  {
    var ops := BlockOps(ctx, pre, events, i);
    if AllClean(ctx, env, pre, events) {
      assert BlockClean(ctx, env, pre, events, i);
      assert OpClean(env, events[i].regs, ops[..a], ops[a]);
    }
  }

  /** All registers zero but the stack pointer. */
  function Zeros(rsp: U64): (m: RegFile)
    ensures Total(m) && forall r: Reg :: m[r] == if r == Rsp then rsp else 0
  {
    map r: Reg | Index(r) < 16 :: if r == Rsp then rsp else 0
  }

  /** The first recorded call, of address `hook`, that went through no register. */
  function FirstCall(hook: U64, cur: RegFile, frame: Frame): (ev: Event) {
    Event(0, hook, cur, RetVal(0), None, frame, false)
  }

  lemma {:induction false} FirstCallOk(ctx: Context, hook: U64, pre: RegFile, cur: RegFile, frame: Frame, env: Env,
      st0: State)
    requires hook in ctx.hooks && !IsClobber(hook) && env.slide == 0 && env.ret(0) == RetVal(0)
    requires Total(pre) && ctx.frameRsp == pre[Rsp] && st0.regs == pre && st0.calls == [] && st0.exit.None?
    requires Total(cur) && forall r: Reg :: r != Rsp ==> Get(cur, r) != hook
    ensures Recorded(ctx.hooks, [FirstCall(hook, cur, frame)])
    ensures Setup(ctx, pre, [FirstCall(hook, cur, frame)], env, st0)
  {
    var ev := FirstCall(hook, cur, frame);
    assert EventOk(env, ev, 0) && EventRecorded(ctx.hooks, ev, 0);
  }

  /** The one call of a trace of one event carries the registers its operations leave. */
  lemma {:induction false} OneCall(ctx: Context, pre: RegFile, ev: Event, exit: U64, env: Env, st0: State)
    requires Setup(ctx, pre, [ev], env, st0)
    ensures var fin := Run(env, Reconstructed(ctx, pre, [ev], exit), st0);
            && |fin.calls| == 1
            && fin.calls[0].regs == Run(env, EmitOps(ClassifyDelta(ctx, pre, ev.regs, false, |GP_REGS|)), st0).regs
  {
    SetupMeans(ctx, pre, [ev], env, st0);
    assert EventOk(env, [ev][0], 0);
    RunIsTrace(ctx, pre, [ev], exit, env, st0);
    TraceStart(ctx, pre, [ev], env, st0);
    StateAfterStep(env, AllBlocks(ctx, pre, [ev]), st0, 0);
    BlockRun(ctx, pre, [ev], env, 0, st0);
    var mid := Run(env, EmitOps(BlockOps(ctx, pre, [ev], 0)), st0).(frame := FrameAfter(ctx, [ev], 0, st0.frame));
    CallCarries(ctx.hooks, env, ev, mid);
  }

  lemma {:induction false} CallCarries(hooks: HookMap, env: Env, ev: Event, mid: State)
    requires mid.exit.None?
    ensures var calls := Exec(env, EmitCall(hooks, ev), mid).calls;
            |calls| == |mid.calls| + 1 && calls[|mid.calls|].regs == mid.regs
  {
  }

  /** Registers that did not change get no operation. */
  lemma {:induction false} DeltaStops(ctx: Context, prev: RegFile, cur: RegFile, hasLast: bool, j: nat, k: nat)
    requires j <= k <= |GP_REGS|
    requires forall i :: j <= i < k ==> Get(cur, GP_REGS[i]) == Get(prev, GP_REGS[i])
    ensures ClassifyDelta(ctx, prev, cur, hasLast, k) == ClassifyDelta(ctx, prev, cur, hasLast, j)
  {
    if j < k {
      DeltaStops(ctx, prev, cur, hasLast, j, k - 1);
      assert OptSeq(ClassifyReg(ctx, prev, cur, hasLast, GP_REGS[k - 1])) == [];
    }
  }

  /** Swapping rbx and rcx between VM entry and the first call is not reproduced: whatever else the machine
      is, the call finds 2 in rcx where 1 was recorded. */
  lemma {:induction false} SwapIsUnclean(ctx: Context, hook: U64, frame: Frame, exit: U64, env: Env, mem: Memory)
    requires hook in ctx.hooks && hook > 2 && !IsClobber(hook) && env.slide == 0 && env.ret(0) == RetVal(0)
    ensures var pre, cur := Zeros(ctx.frameRsp)[Rbx := 1][Rcx := 2], Zeros(ctx.frameRsp)[Rbx := 2][Rcx := 1];
            var events, st0 := [FirstCall(hook, cur, frame)], State(pre, mem, [], None);
            var fin := Run(env, Reconstructed(ctx, pre, events, exit), st0);
            && Recorded(ctx.hooks, events) && Setup(ctx, pre, events, env, st0)
            && |fin.calls| == 1 && Get(events[0].regs, Rcx) == 1 && Get(fin.calls[0].regs, Rcx) == 2
  {
    var pre, cur := Zeros(ctx.frameRsp)[Rbx := 1][Rcx := 2], Zeros(ctx.frameRsp)[Rbx := 2][Rcx := 1];
    var ev, st0 := FirstCall(hook, cur, frame), State(pre, mem, [], None);
    FirstCallOk(ctx, hook, pre, cur, frame, env, st0);
    OneCall(ctx, pre, ev, exit, env, st0);
    SwapDelta(ctx, pre, cur);
    RunSwap(env, st0);
  }

  lemma {:induction false} RunSwap(env: Env, st: State)
    requires st.exit.None? && Get(st.regs, Rcx) == 2
    ensures Get(Run(env, EmitOps([RegOp(Rbx, Rcx), RegOp(Rcx, Rbx)]), st).regs, Rcx) == 2
  {
    var st1 := Exec(env, MovReg(Rbx, Rcx), st);
    assert EmitOps([RegOp(Rbx, Rcx), RegOp(Rcx, Rbx)]) == [MovReg(Rbx, Rcx)] + [MovReg(Rcx, Rbx)];
    RunConcat(env, [MovReg(Rbx, Rcx)], [MovReg(Rcx, Rbx)], st);
    RunOne(env, MovReg(Rbx, Rcx), st);
    RunOne(env, MovReg(Rcx, Rbx), st1);
  }

  lemma {:induction false} SwapDelta(ctx: Context, prev: RegFile, cur: RegFile)
    requires prev == Zeros(ctx.frameRsp)[Rbx := 1][Rcx := 2] && cur == Zeros(ctx.frameRsp)[Rbx := 2][Rcx := 1]
    ensures ClassifyDelta(ctx, prev, cur, false, |GP_REGS|) == [RegOp(Rbx, Rcx), RegOp(Rcx, Rbx)]
  {
    SwapOps(ctx, prev, cur);
    assert ClassifyDelta(ctx, prev, cur, false, 1) == [];
    assert ClassifyDelta(ctx, prev, cur, false, 2) == [RegOp(Rbx, Rcx)];
    assert ClassifyDelta(ctx, prev, cur, false, 3) == [RegOp(Rbx, Rcx), RegOp(Rcx, Rbx)];
    forall i | 3 <= i < |GP_REGS|
      ensures Get(cur, GP_REGS[i]) == Get(prev, GP_REGS[i])
    {
      IndexInverse(i);
    }
    DeltaStops(ctx, prev, cur, false, 3, |GP_REGS|);
  }

  lemma {:induction false} SwapOps(ctx: Context, prev: RegFile, cur: RegFile)
    requires prev == Zeros(ctx.frameRsp)[Rbx := 1][Rcx := 2] && cur == Zeros(ctx.frameRsp)[Rbx := 2][Rcx := 1]
    ensures GP_REGS[0] == Rax && GP_REGS[1] == Rbx && GP_REGS[2] == Rcx
    ensures ClassifyReg(ctx, prev, cur, false, Rax) == None
    ensures ClassifyReg(ctx, prev, cur, false, Rbx) == Some(RegOp(Rbx, Rcx))
    ensures ClassifyReg(ctx, prev, cur, false, Rcx) == Some(RegOp(Rcx, Rbx))
  {
    SwapSource(ctx, prev, Rbx, 2, Rcx, cur);
    SwapSource(ctx, prev, Rcx, 1, Rbx, cur);
  }

  /** A register that changed to the value only register `src` had before is moved from there. */
  lemma {:induction false} SwapSource(ctx: Context, prev: RegFile, dst: Reg, val: U64, src: Reg, cur: RegFile)
    requires dst != src && src != Rsp && dst != Rsp && Get(cur, dst) == val && 0 < val < CLOB_HI
    requires src in prev && prev[src] == val && Get(prev, dst) != val
    requires forall r: Reg :: r in prev && r != Rsp && prev[r] == val ==> r == src
    ensures ClassifyReg(ctx, prev, cur, false, dst) == Some(RegOp(dst, src))
  {
    OnlySource(dst, val, prev, src, 0);
  }

  lemma {:induction false} OnlySource(dst: Reg, val: U64, prev: RegFile, src: Reg, k: nat)
    requires k <= Index(src) && dst != src && src != Rsp && val != 0 && src in prev && prev[src] == val
    requires forall r: Reg :: r in prev && r != Rsp && prev[r] == val ==> r == src
    ensures FindRegSrc(dst, val, prev, k) == Some(src)
    decreases Index(src) - k
  {
    if k < Index(src) {
      OnlySource(dst, val, prev, src, k + 1);
    }
  }

  const MINUS_ONE: int := 0xFFFF_FFFF_FFFF_FFFF

  /** Loading -1 into rax when it is no hook and no address is emitted as a 32-bit move: the call finds
      0xFFFFFFFF. */
  lemma {:induction false} MinusOneIsUnclean(ctx: Context, hook: U64, frame: Frame, exit: U64, env: Env, mem: Memory)
    requires hook in ctx.hooks && 0 < hook && !IsClobber(hook) && env.slide == 0 && env.ret(0) == RetVal(0)
    requires MINUS_ONE !in ctx.hooks && !ctx.IsDataAddr(MINUS_ONE) && MINUS_ONE - ctx.frameRsp >= ctx.frameSize
    ensures var pre, cur := Zeros(ctx.frameRsp), Zeros(ctx.frameRsp)[Rax := MINUS_ONE];
            var events, st0 := [FirstCall(hook, cur, frame)], State(pre, mem, [], None);
            var fin := Run(env, Reconstructed(ctx, pre, events, exit), st0);
            && Recorded(ctx.hooks, events) && Setup(ctx, pre, events, env, st0)
            && |fin.calls| == 1 && Get(events[0].regs, Rax) == MINUS_ONE && Get(fin.calls[0].regs, Rax) == 0xFFFF_FFFF
  {
    var pre, cur := Zeros(ctx.frameRsp), Zeros(ctx.frameRsp)[Rax := MINUS_ONE];
    var ev, st0 := FirstCall(hook, cur, frame), State(pre, mem, [], None);
    FirstCallOk(ctx, hook, pre, cur, frame, env, st0);
    OneCall(ctx, pre, ev, exit, env, st0);
    MinusOneDelta(ctx, pre, cur);
    RunMinusOne(env, st0);
  }

  lemma {:induction false} RunMinusOne(env: Env, st: State)
    requires st.exit.None?
    ensures Get(Run(env, EmitOps([ImmOp(Rax, MINUS_ONE)]), st).regs, Rax) == 0xFFFF_FFFF
  {
    assert EmitOps([ImmOp(Rax, MINUS_ONE)]) == [MovImm32(Rax, 0xFFFF_FFFF)];
    RunOne(env, MovImm32(Rax, 0xFFFF_FFFF), st);
  }

  lemma {:induction false} MinusOneDelta(ctx: Context, prev: RegFile, cur: RegFile)
    requires prev == Zeros(ctx.frameRsp) && cur == prev[Rax := MINUS_ONE]
    requires MINUS_ONE !in ctx.hooks && !ctx.IsDataAddr(MINUS_ONE) && MINUS_ONE - ctx.frameRsp >= ctx.frameSize
    ensures ClassifyDelta(ctx, prev, cur, false, |GP_REGS|) == [ImmOp(Rax, MINUS_ONE)]
  {
    NoSource(Rax, MINUS_ONE, prev, 0);
    assert ClassifyReg(ctx, prev, cur, false, GP_REGS[0]) == Some(ImmOp(Rax, MINUS_ONE));
    assert ClassifyDelta(ctx, prev, cur, false, 1) == [ImmOp(Rax, MINUS_ONE)];
    forall i | 1 <= i < |GP_REGS|
      ensures Get(cur, GP_REGS[i]) == Get(prev, GP_REGS[i])
    {
      IndexInverse(i);
    }
    DeltaStops(ctx, prev, cur, false, 1, |GP_REGS|);
  }

  lemma {:induction false} NoSource(dst: Reg, val: U64, prev: RegFile, k: nat)
    requires k <= |GP_REGS|
    requires forall r: Reg :: r != Rsp && r in prev ==> prev[r] != val
    ensures FindRegSrc(dst, val, prev, k).None?
    decreases |GP_REGS| - k
  {
    if k < |GP_REGS| {
      NoSource(dst, val, prev, k + 1);
    }
  }
}
