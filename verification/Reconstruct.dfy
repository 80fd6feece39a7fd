/** Trace recording and code reconstruction of the VM devirtualizer:
    intercepted calls become events, consecutive events are diffed, and the
    difference is emitted as straight-line native instructions.
    Instructions are abstract; `iat` operands name the import slot they use. */
module Reconstruct {
  import opened Registers
  import Decimal
  import opened Options

  /** What the hook table knows about one intercepted address. */
  datatype Hook = Hook(dll: string, func: string, iat: U64, sym: string)

  type HookMap = map<U64, Hook>

  /** Dword-addressed stack memory relative to the frame base. */
  type Memory = map<int, U32>

  function Dword(mem: Memory, o: int): (v: U32) {
    if o in mem then mem[o] else 0
  }

  function Qword(mem: Memory, o: int): (v: U64) {
    Dword(mem, o) + TWO32 * Dword(mem, o + 4)
  }

  /** A frame snapshot: the dwords and the qwords that could be read. */
  datatype Frame = Frame(d: map<int, U32>, q: map<int, U64>)

  /** One intercepted call. `marker` says whether its DLL is a protector SDK marker. */
  datatype Event = Event(
    i: nat, hook: U64, regs: RegFile, ret: U64, via: Option<Reg>, frame: Frame, marker: bool)

  /** What classification reads from the devirtualizer. */
  datatype Context = Context(
    hooks: HookMap, frameRsp: U64, frameSize: nat, data: seq<(U64, U64)>)
  {
    /** Address inside .rdata, .data or .text. */
    predicate IsDataAddr(a: U64) {
      exists i :: 0 <= i < |data| && data[i].0 <= a < data[i].1
    }
  }

  datatype Op =
    | RetOp(dst: Reg)
    | RegOp(dst: Reg, src: Reg)
    | IatOp(dst: Reg, sym: string)
    | LeaRspOp(dst: Reg, off: U64)
    | LeaDataOp(dst: Reg, addr: U64)
    | ImmOp(dst: Reg, val: U64)

  datatype FrameWrite =
    | Sq(off: int, val: U32)
    | Sd(off: int, val: U32)

  datatype Instr =
    | MovReg(dst: Reg, src: Reg)
    | LoadIat(dst: Reg, sym: string)
    | LeaRsp(dst: Reg, off: U64)
    | LeaData(dst: Reg, addr: U64)
    | MovImm32(dst: Reg, imm: U32)
    | MovImm64(dst: Reg, imm64: U64)
    | StoreQ(slot: int, imm: U32)
    | StoreD(slot: int, imm: U32)
    | CallReg(target: Reg)
    | CallIat(sym: string)
    | Jmp(addr: U64)

  // ---------------------------------------------------------------- recording

  /** First register in table order, other than rsp, that holds the value. */
  function Via(regs: RegFile, addr: U64, k: nat): (r: Option<Reg>)
    requires k <= |GP_REGS|
    ensures r.Some? ==> r.value != Rsp && Get(regs, r.value) == addr
    decreases |GP_REGS| - k
  {
    if k == |GP_REGS| then None
    else if GP_REGS[k] != Rsp && Get(regs, GP_REGS[k]) == addr then Some(GP_REGS[k])
    else Via(regs, addr, k + 1)
  }

  function ClobberAll(regs: RegFile, callIdx: nat, k: nat): (m: RegFile)
    requires k <= |WIN64_VOLATILE|
  {
    if k == 0 then regs
    else
      var r := WIN64_VOLATILE[k - 1];
      ClobberAll(regs, callIdx, k - 1)[r := Clobber(r, callIdx)]
  }

  /** Register file the diff of the next event starts from. */
  function PostCall(ev: Event): (m: RegFile) {
    ClobberAll(ev.regs[Rax := ev.ret], ev.i, |WIN64_VOLATILE|)
  }

  lemma {:induction false} ClobberAllAt(regs: RegFile, callIdx: nat, k: nat, r: Reg)
    requires k <= |WIN64_VOLATILE|
    ensures var m := ClobberAll(regs, callIdx, k);
            && Get(m, r) == (if r in WIN64_VOLATILE[..k] then Clobber(r, callIdx) else Get(regs, r))
            && (r in regs ==> r in m)
  {
    if k > 0 {
      ClobberAllAt(regs, callIdx, k - 1, r);
      assert WIN64_VOLATILE[..k] == WIN64_VOLATILE[..k - 1] + [WIN64_VOLATILE[k - 1]];
    }
  }

  lemma {:induction false} PostCallAt(ev: Event, r: Reg)
    ensures Get(PostCall(ev), r) ==
            (if Volatile(r) then Clobber(r, ev.i) else if r == Rax then ev.ret else Get(ev.regs, r))
    ensures r in ev.regs ==> r in PostCall(ev)
  {
    ClobberAllAt(ev.regs[Rax := ev.ret], ev.i, |WIN64_VOLATILE|, r);
    assert WIN64_VOLATILE[..|WIN64_VOLATILE|] == WIN64_VOLATILE;
    VolatileList(r);
  }

  lemma {:induction false} ViaComplete(regs: RegFile, addr: U64, k: nat, j: nat)
    requires k <= j < |GP_REGS|
    requires GP_REGS[j] != Rsp && Get(regs, GP_REGS[j]) == addr
    ensures Via(regs, addr, k).Some?
    decreases j - k
  {
    if k < j {
      ViaComplete(regs, addr, k + 1, j);
    }
  }

  lemma {:induction false} ViaNone(regs: RegFile, addr: U64)
    ensures Via(regs, addr, 0).None? <==> forall r: Reg :: r != Rsp ==> Get(regs, r) != addr
  {
    forall r: Reg | r != Rsp && Get(regs, r) == addr
      ensures Via(regs, addr, 0).Some?
    {
      ViaComplete(regs, addr, 0, Index(r));
    }
  }

  /** The search for the register a call went through. */
  method FindVia(regs: RegFile, addr: U64) returns (via: Option<Reg>)
    ensures via == Via(regs, addr, 0)
    ensures via.None? <==> forall r: Reg :: r != Rsp ==> Get(regs, r) != addr
  {
    via := None;
    var k := 0;
    while k < |GP_REGS| && via.None?
      invariant 0 <= k <= |GP_REGS|
      invariant if via.None? then Via(regs, addr, 0) == Via(regs, addr, k) else via == Via(regs, addr, 0)
      decreases |GP_REGS| - k, if via.None? then 1 else 0
    {
      if GP_REGS[k] != Rsp && Get(regs, GP_REGS[k]) == addr {
        via := Some(GP_REGS[k]);
      } else {
        k := k + 1;
      }
    }
    ViaNone(regs, addr);
  }

  /** Planting the clobber markers, one caller-saved register at a time: exactly those registers change. */
  method PlantClobbers(regs: RegFile, callIdx: nat) returns (m: RegFile)
    ensures m == ClobberAll(regs, callIdx, |WIN64_VOLATILE|)
    ensures forall r: Reg :: Get(m, r) == if Volatile(r) then Clobber(r, callIdx) else Get(regs, r)
  {
    m := regs;
    var k := 0;
    while k < |WIN64_VOLATILE|
      invariant 0 <= k <= |WIN64_VOLATILE|
      invariant m == ClobberAll(regs, callIdx, k)
    {
      m := m[WIN64_VOLATILE[k] := Clobber(WIN64_VOLATILE[k], callIdx)];
      k := k + 1;
    }
    assert WIN64_VOLATILE[..k] == WIN64_VOLATILE;
    forall r: Reg
      ensures Get(m, r) == if Volatile(r) then Clobber(r, callIdx) else Get(regs, r)
    {
      ClobberAllAt(regs, callIdx, k, r);
      VolatileList(r);
    }
  }

  /** A call to a hooked address: the register it went through holds the address, and there is none only if
      no register does. */
  ghost predicate HookedCall(hooks: HookMap, ev: Event) {
    && ev.hook in hooks
    && if ev.via.Some? then ev.via.value != Rsp && Get(ev.regs, ev.via.value) == ev.hook
       else forall r: Reg :: r != Rsp ==> Get(ev.regs, r) != ev.hook
  }

  /** A call to an address outside the hook table and every section: no register is looked for. */
  ghost predicate DarkCall(hooks: HookMap, ev: Event) {
    ev.hook !in hooks && ev.via.None? && !ev.marker
  }

  /** An event of either recorder, at its own position and with its return marker. */
  ghost predicate EventRecorded(hooks: HookMap, ev: Event, k: nat) {
    ev.i == k && Total(ev.regs) && ev.ret == RetVal(k) && (HookedCall(hooks, ev) || DarkCall(hooks, ev))
  }

  /** Event lists the two recorders produce. */
  ghost predicate Recorded(hooks: HookMap, events: seq<Event>) {
    forall k :: 0 <= k < |events| ==> EventRecorded(hooks, events[k], k)
  }

  /** The recording half of the devirtualizer: emulator registers and the event list. */
  class Recorder {
    var hooks: HookMap
    var events: seq<Event>
    var regs: RegFile

    constructor (hooks: HookMap, regs: RegFile)
      requires Total(regs)
      ensures this.hooks == hooks && this.regs == regs && events == []
      ensures Valid()
    {
      this.hooks := hooks;
      this.regs := regs;
      this.events := [];
    }

    ghost predicate Valid()
      reads this
    {
      Total(regs) && Recorded(hooks, events)
    }

    /** Intercept a call to a hooked address; `ra` is the return address read from the stack. */
    method OnCall(addr: U64, frame: Frame, marker: bool, ra: U64) returns (resume: U64)
      requires Valid()
      requires addr in hooks
      requires Get(regs, Rsp) + 8 < TWO64
      modifies this`events, this`regs
      ensures Valid()
      ensures resume == ra
      ensures |events| == |old(events)| + 1 && events[..|old(events)|] == old(events)
      ensures var ev := events[|old(events)|];
              ev.regs == old(regs) && ev.hook == addr && ev.frame == frame && ev.marker == marker
      // The diff baseline the reconstruction will use is what the emulator goes on with.
      ensures forall r: Reg :: r != Rsp ==> Get(regs, r) == Get(PostCall(events[|old(events)|]), r)
      ensures Get(regs, Rsp) == Get(old(regs), Rsp) + 8
    {
      var via := FindVia(regs, addr);
      var ev := Event(|events|, addr, regs, RetVal(|events|), via, frame, marker);
      resume := Record(ev, ra);
    }

    /** Intercept a call to an address that is not hooked and in no section. */
    method OnDarkCall(addr: U64, frame: Frame, ra: U64) returns (resume: U64)
      requires Valid()
      requires addr !in hooks
      requires Get(regs, Rsp) + 8 < TWO64
      modifies this`events, this`regs
      ensures Valid()
      ensures resume == ra
      ensures |events| == |old(events)| + 1 && events[..|old(events)|] == old(events)
      ensures var ev := events[|old(events)|];
              ev.regs == old(regs) && ev.hook == addr && ev.frame == frame && ev.via.None? && !ev.marker
      ensures forall r: Reg :: r != Rsp ==> Get(regs, r) == Get(PostCall(events[|old(events)|]), r)
      ensures Get(regs, Rsp) == Get(old(regs), Rsp) + 8
    {
      var ev := Event(|events|, addr, regs, RetVal(|events|), None, frame, false);
      resume := Record(ev, ra);
    }

    /** What both recorders do with an event: append it, plant the markers, return to the caller. */
    method Record(ev: Event, ra: U64) returns (resume: U64)
      requires Valid() && EventRecorded(hooks, ev, |events|) && ev.regs == regs && Get(regs, Rsp) + 8 < TWO64
      modifies this`events, this`regs
      ensures Valid() && resume == ra && events == old(events) + [ev]
      ensures forall r: Reg :: r != Rsp ==> Get(regs, r) == Get(PostCall(ev), r)
      ensures Get(regs, Rsp) == Get(old(regs), Rsp) + 8
    {
      events := events + [ev];
      var rsp := Get(regs, Rsp);
      var after := PlantClobbers(regs[Rax := ev.ret], ev.i);
      forall r: Reg
        ensures r in after && Get(after, r) == Get(PostCall(ev), r)
      {
        PostCallAt(ev, r);
      }
      regs := after[Rsp := rsp + 8];
      resume := ra;
    }
  }

  // ---------------------------------------------------------------- frame snapshots

  /** A complete snapshot of `n` bytes of the frame. */
  ghost predicate IsSnapshot(f: Frame, mem: Memory, n: nat) {
    && (forall o :: o in f.d <==> 0 <= o < n && o % 4 == 0)
    && (forall o :: o in f.q <==> 0 <= o < n && o % 8 == 0)
    && (forall o :: o in f.d ==> f.d[o] == Dword(mem, o))
    && (forall o :: o in f.q ==> f.q[o] == Qword(mem, o))
  }

  /** Bytes of the frame that are recorded: all of it, but no more than 512. */
  function ScanBytes(frameSize: nat): (n: nat) {
    if frameSize < 0x200 then frameSize else 0x200
  }

  /** Upper end of the slots that are compared: the cookie slot is excluded. */
  function ScanLimit(frameSize: nat): (n: nat)
    ensures n <= ScanBytes(frameSize)
  {
    var cookie := if frameSize > 8 then frameSize - 8 else 0;
    if cookie < 0x200 then cookie else 0x200
  }

  lemma {:induction false} NextMultiple(m: int, p: int, o: int)
    requires m == 4 || m == 8
    requires o % m == 0
    ensures p < o + m && p % m == 0 <==> p == o || (p < o && p % m == 0)
  {
    if p % m == 0 && o <= p < o + m {
      assert p == m * (p / m) && o == m * (o / m);
    }
  }

  method SnapDwords(mem: Memory, n: nat) returns (d: map<int, U32>)
    ensures forall o :: o in d <==> 0 <= o < n && o % 4 == 0
    ensures forall o :: o in d ==> d[o] == Dword(mem, o)
  {
    d := map[];
    var o := 0;
    while o < n
      invariant 0 <= o && o % 4 == 0
      invariant forall p :: p in d <==> 0 <= p < o && p < n && p % 4 == 0
      invariant forall p :: p in d ==> d[p] == Dword(mem, p)
    {
      d := d[o := Dword(mem, o)];
      forall p ensures p in d <==> 0 <= p < o + 4 && p < n && p % 4 == 0 {
        NextMultiple(4, p, o);
      }
      o := o + 4;
    }
  }

  method SnapQwords(mem: Memory, n: nat) returns (q: map<int, U64>)
    ensures forall o :: o in q <==> 0 <= o < n && o % 8 == 0
    ensures forall o :: o in q ==> q[o] == Qword(mem, o)
  {
    q := map[];
    var o := 0;
    while o < n
      invariant 0 <= o && o % 8 == 0
      invariant forall p :: p in q <==> 0 <= p < o && p < n && p % 8 == 0
      invariant forall p :: p in q ==> q[p] == Qword(mem, p)
    {
      q := q[o := Qword(mem, o)];
      forall p ensures p in q <==> 0 <= p < o + 8 && p < n && p % 8 == 0 {
        NextMultiple(8, p, o);
      }
      o := o + 8;
    }
  }

  /** The frame snapshot taken with every event when all of it can be read. */
  method FrameSnap(mem: Memory, frameSize: nat) returns (f: Frame)
    ensures IsSnapshot(f, mem, ScanBytes(frameSize))
    ensures forall o :: o in f.d <==> 0 <= o < frameSize && o < 0x200 && o % 4 == 0
    ensures forall o :: o in f.q <==> 0 <= o < frameSize && o < 0x200 && o % 8 == 0
  {
    var d := SnapDwords(mem, ScanBytes(frameSize));
    var q := SnapQwords(mem, ScanBytes(frameSize));
    f := Frame(d, q);
  }

  const SHADOW: int := 0x20

  /** A key present now whose value differs from before (a missing old key counts as different). */
  predicate Changed<V(==)>(pf: map<int, V>, cf: map<int, V>, o: int) {
    o in cf && (o !in pf || cf[o] != pf[o])
  }

  function QPass(pf: Frame, cf: Frame, o: int, scan: int): (ws: seq<FrameWrite>)
    decreases scan - o
  {
    if o >= scan then []
    else (if Changed(pf.q, cf.q, o) then [Sq(o, cf.q[o] % TWO32)] else []) + QPass(pf, cf, o + 8, scan)
  }

  /** Dword offsets already covered by a qword write. */
  predicate Done(pf: Frame, cf: Frame, scan: int, o: int) {
    var slot := o - o % 8;
    SHADOW <= slot < scan && Changed(pf.q, cf.q, slot) && o % 4 == 0
  }

  function DPass(pf: Frame, cf: Frame, o: int, scan: int): (ws: seq<FrameWrite>)
    decreases scan - o
  {
    if o >= scan then []
    else (if !Done(pf, cf, scan, o) && Changed(pf.d, cf.d, o) then [Sd(o, cf.d[o])] else [])
         + DPass(pf, cf, o + 4, scan)
  }

  function FrameDelta(pf: Frame, cf: Frame, frameSize: nat): (ws: seq<FrameWrite>) {
    var scan := ScanLimit(frameSize);
    QPass(pf, cf, SHADOW, scan) + DPass(pf, cf, SHADOW, scan)
  }

  /** The qword pass: emits a write per changed slot and remembers both its dwords. */
  method RunQPass(pf: Frame, cf: Frame, scan: int) returns (writes: seq<FrameWrite>, done: set<int>)
    ensures writes == QPass(pf, cf, SHADOW, scan)
    ensures forall p :: p in done <==> Done(pf, cf, scan, p)
  {
    writes, done := [], {};
    var o := SHADOW;
    while o < scan
      invariant SHADOW <= o && o % 8 == 0
      invariant writes + QPass(pf, cf, o, scan) == QPass(pf, cf, SHADOW, scan)
      invariant forall p :: p in done <==> p - p % 8 < o && Done(pf, cf, scan, p)
      decreases scan - o
    {
      ghost var before, rest := writes, QPass(pf, cf, o + 8, scan);
      if Changed(pf.q, cf.q, o) {
        writes := writes + [Sq(o, cf.q[o] % TWO32)];
        done := done + {o, o + 4};
        assert before + ([Sq(o, cf.q[o] % TWO32)] + rest) == writes + rest;
      } else {
        assert before + ([] + rest) == writes + rest;
      }
      forall p
        ensures p in done <==> p - p % 8 < o + 8 && Done(pf, cf, scan, p)
      {
        SlotCases(p, o);
      }
      o := o + 8;
    }
  }

  lemma {:induction false} SlotCases(p: int, o: int)
    requires o % 8 == 0
    ensures p - p % 8 < o + 8 <==> p - p % 8 < o || p - p % 8 == o
    ensures p % 4 == 0 && p - p % 8 == o <==> p == o || p == o + 4
  {
    var q, r, t, u := p / 8, p % 8, o / 8, p / 4;
    assert p == 8 * q + r && 0 <= r < 8 && o == 8 * t && p - r == 8 * q;
    assert p == 4 * u + p % 4;
    if p % 4 == 0 && 8 * q == o {
      assert r == 4 * (u - 2 * q);
    }
  }

  method ComputeFrameDelta(pf: Frame, cf: Frame, frameSize: nat) returns (writes: seq<FrameWrite>)
    ensures writes == FrameDelta(pf, cf, frameSize)
  {
    var scan := ScanLimit(frameSize);
    var qs, done := RunQPass(pf, cf, scan);
    var ds: seq<FrameWrite> := [];
    var o := SHADOW;
    while o < scan
      invariant ds + DPass(pf, cf, o, scan) == DPass(pf, cf, SHADOW, scan)
      decreases scan - o
    {
      ghost var before, rest := ds, DPass(pf, cf, o + 4, scan);
      if o !in done && Changed(pf.d, cf.d, o) {
        ds := ds + [Sd(o, cf.d[o])];
        Reassociate(before, [Sd(o, cf.d[o])], rest);
      } else {
        Reassociate(before, [], rest);
      }
      o := o + 4;
    }
    writes := qs + ds;
  }

  lemma {:induction false} Reassociate(a: seq<FrameWrite>, b: seq<FrameWrite>, c: seq<FrameWrite>)
    ensures a + (b + c) == (a + b) + c && (b == [] ==> a + (b + c) == a + c)
  {
    assert a + (b + c) == (a + b) + c;
    assert a + [] == a;
  }

  // ---------------------------------------------------------------- register classification

  /** First register, other than dst and rsp, whose previous value is `val`; never for zero. */
  function FindRegSrc(dst: Reg, val: U64, prev: RegFile, k: nat): (r: Option<Reg>)
    requires k <= |GP_REGS|
    ensures r.Some? ==> r.value != dst && r.value != Rsp && r.value in prev && prev[r.value] == val
    ensures val == 0 ==> r.None?
    decreases |GP_REGS| - k
  {
    if val == 0 || k == |GP_REGS| then None
    else if GP_REGS[k] != dst && GP_REGS[k] != Rsp && GP_REGS[k] in prev && prev[GP_REGS[k]] == val
    then Some(GP_REGS[k])
    else FindRegSrc(dst, val, prev, k + 1)
  }

  lemma {:induction false} FindRegComplete(dst: Reg, val: U64, prev: RegFile, k: nat, r: Reg)
    requires k <= Index(r) && val != 0 && r != dst && r != Rsp && r in prev && prev[r] == val
    ensures FindRegSrc(dst, val, prev, k).Some?
    decreases Index(r) - k
  {
    if k < Index(r) {
      FindRegComplete(dst, val, prev, k + 1, r);
    }
  }

  /** There is no source exactly for zero and for a value no other register had. */
  lemma {:induction false} FindRegNone(dst: Reg, val: U64, prev: RegFile)
    ensures FindRegSrc(dst, val, prev, 0).None? <==>
            val == 0 || forall r: Reg :: r != dst && r != Rsp && r in prev ==> prev[r] != val
  {
    forall r: Reg | val != 0 && r != dst && r != Rsp && r in prev && prev[r] == val
      ensures FindRegSrc(dst, val, prev, 0).Some?
    {
      FindRegComplete(dst, val, prev, 0, r);
    }
  }

  /** An operation that names a source of value `v` for register `rn`. */
  predicate Names(ctx: Context, prev: RegFile, rn: Reg, v: U64, op: Op) {
    op.dst == rn &&
    match op
    case RetOp(_) => Rax in prev && prev[Rax] == v
    case RegOp(_, s) => s != Rsp && s in prev && prev[s] == v
    case IatOp(_, sym) => v in ctx.hooks && ctx.hooks[v].sym == sym
    case LeaRspOp(_, off) => ctx.frameRsp + off == v
    case LeaDataOp(_, a) => a == v
    case ImmOp(_, w) => w == v
  }

  /** Choice of the operation for a register whose value changed. */
  function ClassifyValue(ctx: Context, prev: RegFile, v: U64, hasLast: bool, rn: Reg): (op: Op)
    ensures Names(ctx, prev, rn, v, op)
  {
    if hasLast && Rax in prev && v == prev[Rax] then RetOp(rn)
    else
      var src := FindRegSrc(rn, v, prev, 0);
      if src.Some? then RegOp(rn, src.value)
      else if v in ctx.hooks then IatOp(rn, ctx.hooks[v].sym)
      else if ctx.frameRsp != 0 && 0 <= v - ctx.frameRsp < ctx.frameSize then LeaRspOp(rn, v - ctx.frameRsp)
      else if ctx.IsDataAddr(v) then LeaDataOp(rn, v)
      else ImmOp(rn, v)
  }

  /** How register `rn` gets its new value, if an operation is needed at all. */
  function ClassifyReg(ctx: Context, prev: RegFile, cur: RegFile, hasLast: bool, rn: Reg): (op: Option<Op>)
    ensures op.Some? ==> Names(ctx, prev, rn, Get(cur, rn), op.value)
    ensures op.Some? <==> rn != Rsp && Get(cur, rn) != Get(prev, rn) && !IsClobber(Get(cur, rn))
  {
    var new' := Get(cur, rn);
    if rn == Rsp || new' == Get(prev, rn) || IsClobber(new') then None
    else Some(ClassifyValue(ctx, prev, new', hasLast, rn))
  }

  function OptSeq<T>(o: Option<T>): (s: seq<T>) {
    if o.Some? then [o.value] else []
  }

  /** Operations for the first `k` registers, in table order. */
  function ClassifyDelta(ctx: Context, prev: RegFile, cur: RegFile, hasLast: bool, k: nat): (ops: seq<Op>)
    requires k <= |GP_REGS|
  {
    if k == 0 then []
    else ClassifyDelta(ctx, prev, cur, hasLast, k - 1) + OptSeq(ClassifyReg(ctx, prev, cur, hasLast, GP_REGS[k - 1]))
  }

  method ComputeClassifyDelta(ctx: Context, prev: RegFile, cur: RegFile, hasLast: bool) returns (ops: seq<Op>)
    ensures ops == ClassifyDelta(ctx, prev, cur, hasLast, |GP_REGS|)
  {
    ops := [];
    var k := 0;
    while k < |GP_REGS|
      invariant 0 <= k <= |GP_REGS|
      invariant ops == ClassifyDelta(ctx, prev, cur, hasLast, k)
    {
      var op := ClassifyReg(ctx, prev, cur, hasLast, GP_REGS[k]);
      if op.Some? {
        ops := ops + [op.value];
      }
      k := k + 1;
    }
  }

  // ---------------------------------------------------------------- emission

  const BIG_IMM: int := 0xFFFF_FFFF_8000_0000

  function EmitOp(op: Op): (i: Instr) {
    match op
    case RetOp(d) => MovReg(d, Rax)
    case RegOp(d, s) => MovReg(d, s)
    case IatOp(d, sym) => LoadIat(d, sym)
    case LeaRspOp(d, off) => LeaRsp(d, off)
    case LeaDataOp(d, a) => LeaData(d, a)
    case ImmOp(d, v) =>
      if v >= BIG_IMM then MovImm32(d, v % TWO32)
      else if v < TWO32 then MovImm32(d, v)
      else MovImm64(d, v)
  }

  function EmitWrite(w: FrameWrite): (i: Instr) {
    match w
    case Sq(o, v) => if v >= 0x8000_0000 then StoreD(o, v) else StoreQ(o, v)
    case Sd(o, v) => StoreD(o, v)
  }

  function EmitOps(ops: seq<Op>): (code: seq<Instr>)
    ensures |code| == |ops|
  {
    seq(|ops|, i requires 0 <= i < |ops| => EmitOp(ops[i]))
  }

  function EmitWrites(ws: seq<FrameWrite>): (code: seq<Instr>)
    ensures |code| == |ws|
  {
    seq(|ws|, i requires 0 <= i < |ws| => EmitWrite(ws[i]))
  }

  function DarkSym(i: nat): (s: string) {
    "dark_" + Decimal.Print(i)
  }

  function CallSym(hooks: HookMap, ev: Event): (s: string) {
    if ev.hook in hooks then hooks[ev.hook].sym else DarkSym(ev.i)
  }

  function EmitCall(hooks: HookMap, ev: Event): (i: Instr) {
    if ev.via.Some? then CallReg(ev.via.value) else CallIat(CallSym(hooks, ev))
  }

  /** Register baseline before event `k`. */
  function PrevRegs(pre: RegFile, events: seq<Event>, k: nat): (m: RegFile)
    requires k <= |events|
  {
    if k == 0 then pre else NextRegs(events[k - 1])
  }

  const FILL: int := 0xCCCC_CCCC

  /** The stack fill pattern the first event is compared with. */
  function FillFrame(frameSize: nat): (f: Frame) {
    var n := ScanBytes(frameSize);
    Frame(map o | 0 <= o < n && o % 4 == 0 :: FILL,
          map o | 0 <= o < n && o % 8 == 0 :: FILL + TWO32 * FILL)
  }

  function PrevFrame(frameSize: nat, events: seq<Event>, k: nat): (f: Frame)
    requires k <= |events|
  {
    if k == 0 then FillFrame(frameSize) else events[k - 1].frame
  }

  /** Instructions emitted for one event, given the baselines. */
  function EventBlock(ctx: Context, prev: RegFile, pf: Frame, hasLast: bool, ev: Event): (code: seq<Instr>) {
    if ev.marker then []
    else
      EmitOps(ClassifyDelta(ctx, prev, ev.regs, hasLast, |GP_REGS|))
      + EmitWrites(FrameDelta(pf, ev.frame, ctx.frameSize))
      + [EmitCall(ctx.hooks, ev)]
  }

  function NextRegs(ev: Event): (m: RegFile) {
    if ev.marker then ev.regs[Rax := ev.ret] else PostCall(ev)
  }

  /** Instructions emitted for event `k`. */
  function Block(ctx: Context, pre: RegFile, events: seq<Event>, k: nat): (code: seq<Instr>)
    requires k < |events|
  {
    EventBlock(ctx, PrevRegs(pre, events, k), PrevFrame(ctx.frameSize, events, k), k > 0, events[k])
  }

  function AllBlocks(ctx: Context, pre: RegFile, events: seq<Event>): (bs: seq<seq<Instr>>)
    ensures |bs| == |events|
  {
    seq(|events|, k requires 0 <= k < |events| => Block(ctx, pre, events, k))
  }

  function Flatten(bs: seq<seq<Instr>>): (code: seq<Instr>) {
    if |bs| == 0 then [] else Flatten(bs[..|bs| - 1]) + bs[|bs| - 1]
  }

  lemma {:induction false} FlattenSnoc(bs: seq<seq<Instr>>, k: nat)
    requires k < |bs|
    ensures Flatten(bs[..k + 1]) == Flatten(bs[..k]) + bs[k]
  {
    assert bs[..k + 1][..k] == bs[..k] && bs[..k + 1][k] == bs[k];
  }

  function Reconstructed(ctx: Context, pre: RegFile, events: seq<Event>, exit: U64): (code: seq<Instr>) {
    Flatten(AllBlocks(ctx, pre, events)) + [Jmp(exit)]
  }

  /** The lines of one event: register operations, then frame writes, then the call. */
  method EmitBlock(hooks: HookMap, ops: seq<Op>, fwrites: seq<FrameWrite>, ev: Event) returns (lines: seq<Instr>)
    ensures lines == EmitOps(ops) + EmitWrites(fwrites) + [EmitCall(hooks, ev)]
  {
    lines := [];
    var j := 0;
    while j < |ops|
      invariant 0 <= j <= |ops|
      invariant lines == EmitOps(ops)[..j]
    {
      lines := lines + [EmitOp(ops[j])];
      j := j + 1;
    }
    j := 0;
    while j < |fwrites|
      invariant 0 <= j <= |fwrites|
      invariant lines == EmitOps(ops) + EmitWrites(fwrites)[..j]
    {
      lines := lines + [EmitWrite(fwrites[j])];
      j := j + 1;
    }
    lines := lines + [EmitCall(hooks, ev)];
  }

  /** One turn of the reconstruction loop: the event's lines and the register baseline it leaves. */
  method ReconstructEvent(ctx: Context, prev: RegFile, pf: Frame, hasLast: bool, ev: Event)
    returns (lines: seq<Instr>, next: RegFile)
    ensures lines == EventBlock(ctx, prev, pf, hasLast, ev)
    ensures next == NextRegs(ev)
  {
    if ev.marker {
      lines, next := [], ev.regs[Rax := ev.ret];
    } else {
      var ops := ComputeClassifyDelta(ctx, prev, ev.regs, hasLast);
      var fwrites := ComputeFrameDelta(pf, ev.frame, ctx.frameSize);
      lines := EmitBlock(ctx.hooks, ops, fwrites, ev);
      next := PlantClobbers(ev.regs[Rax := ev.ret], ev.i);
    }
  }

  /** Block `k` from the baselines the loop carries. */
  lemma {:induction false} BlockAt(ctx: Context, pre: RegFile, events: seq<Event>, k: nat, prev: RegFile, pf: Frame,
      hasLast: bool)
    requires k < |events|
    requires prev == PrevRegs(pre, events, k) && pf == PrevFrame(ctx.frameSize, events, k) && hasLast == (k > 0)
    ensures AllBlocks(ctx, pre, events)[k] == EventBlock(ctx, prev, pf, hasLast, events[k])
    ensures PrevRegs(pre, events, k + 1) == NextRegs(events[k])
    ensures PrevFrame(ctx.frameSize, events, k + 1) == events[k].frame
  {
  }

  /** The reconstruction loop: carries the previous registers, the previous frame and
      whether any event came before, and appends the lines of each event. */
  method Reconstruct(ctx: Context, pre: RegFile, events: seq<Event>, exit: U64) returns (lines: seq<Instr>)
    ensures lines == Reconstructed(ctx, pre, events, exit)
  {
    lines := [];
    var prev, pf, hasLast := pre, FillFrame(ctx.frameSize), false;
    ghost var bs := AllBlocks(ctx, pre, events);
    var k := 0;
    while k < |events|
      invariant 0 <= k <= |events|
      invariant lines == Flatten(bs[..k])
      invariant prev == PrevRegs(pre, events, k)
      invariant pf == PrevFrame(ctx.frameSize, events, k)
      invariant hasLast == (k > 0)
    {
      var block, next := ReconstructEvent(ctx, prev, pf, hasLast, events[k]);
      BlockAt(ctx, pre, events, k, prev, pf, hasLast);
      FlattenSnoc(bs, k);
      lines := lines + block;
      prev, pf, hasLast := next, events[k].frame, true;
      k := k + 1;
    }
    assert bs[..k] == bs;
    lines := lines + [Jmp(exit)];
  }
}
