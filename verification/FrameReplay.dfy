/** What the emitted frame writes do to the stack frame. */
module FrameReplay {
  import opened Registers
  import opened Reconstruct
  import opened Simulation

  /** Effect of one emitted write on memory. */
  function ApplyWrite(mem: Memory, w: FrameWrite): (m: Memory) {
    match w
    case Sq(o, v) => if v >= 0x8000_0000 then mem[o := v] else mem[o := v][o + 4 := 0]
    case Sd(o, v) => mem[o := v]
  }

  function Replay(mem: Memory, ws: seq<FrameWrite>): (m: Memory)
    decreases |ws|
  {
    if |ws| == 0 then mem else Replay(ApplyWrite(mem, ws[0]), ws[1..])
  }

  /** Running emitted writes changes the frame by replaying them and nothing else. */
  lemma {:induction false} RunWrites(env: Env, ws: seq<FrameWrite>, st: State)
    requires st.exit.None?
    ensures Run(env, EmitWrites(ws), st) == st.(frame := Replay(st.frame, ws))
  {
    if |ws| == 0 {
      assert EmitWrites(ws) == [];
    } else {
      var st1 := Exec(env, EmitWrite(ws[0]), st);
      assert EmitWrites(ws)[0] == EmitWrite(ws[0]) && EmitWrites(ws)[1..] == EmitWrites(ws[1..]);
      assert st1 == st.(frame := ApplyWrite(st.frame, ws[0]));
      RunWrites(env, ws[1..], st1);
    }
  }

  /** One qword store, on any slot. */
  lemma {:induction false} StoreSlot(mem: Memory, o: int, v: U32, p: int)
    requires o % 8 == 0 && p % 8 == 0
    ensures var m := ApplyWrite(mem, Sq(o, v));
            if p == o
            then Dword(m, p) == v && Dword(m, p + 4) == if v < 0x8000_0000 then 0 else Dword(mem, p + 4)
            else Dword(m, p) == Dword(mem, p) && Dword(m, p + 4) == Dword(mem, p + 4)
  {
    assert p < o ==> p + 4 < o;
    assert p > o ==> p > o + 4;
  }

  /** Slot `p` after the qword pass: low dword as recorded if the slot changed; the high
      dword is zeroed when bit 31 of the new value is clear and kept otherwise. */
  lemma {:induction false} QPassSlot(pf: Frame, cf: Frame, o: int, scan: int, mem: Memory, p: int)
    requires o % 8 == 0 && p % 8 == 0
    ensures var m := Replay(mem, QPass(pf, cf, o, scan));
            if o <= p < scan && Changed(pf.q, cf.q, p)
            then && Dword(m, p) == cf.q[p] % TWO32
                 && Dword(m, p + 4) == (if cf.q[p] % TWO32 < 0x8000_0000 then 0 else Dword(mem, p + 4))
            else Dword(m, p) == Dword(mem, p) && Dword(m, p + 4) == Dword(mem, p + 4)
    decreases scan - o
  {
    if o < scan {
      var rest := QPass(pf, cf, o + 8, scan);
      if Changed(pf.q, cf.q, o) {
        var w := Sq(o, cf.q[o] % TWO32);
        assert ([w] + rest)[1..] == rest;
        StoreSlot(mem, o, cf.q[o] % TWO32, p);
        QPassSlot(pf, cf, o + 8, scan, ApplyWrite(mem, w), p);
      } else {
        assert [] + rest == rest;
        QPassSlot(pf, cf, o + 8, scan, mem, p);
      }
    }
  }

  /** Between two complete snapshots the dword pass finds nothing the qword pass has not covered. */
  lemma {:induction false} DPassSilent(pf: Frame, cf: Frame, n: nat, pm: Memory, cm: Memory, o: int, scan: int)
    requires IsSnapshot(pf, pm, n) && IsSnapshot(cf, cm, n)
    requires SHADOW <= o && o % 4 == 0 && scan <= n
    ensures DPass(pf, cf, o, scan) == []
    decreases scan - o
  {
    if o < scan {
      DPassSilent(pf, cf, n, pm, cm, o + 4, scan);
      if Changed(pf.d, cf.d, o) {
        DwordCovered(pf, cf, n, pm, cm, o, scan);
      }
    }
  }

  lemma {:induction false} DwordCovered(pf: Frame, cf: Frame, n: nat, pm: Memory, cm: Memory, o: int, scan: int)
    requires IsSnapshot(pf, pm, n) && IsSnapshot(cf, cm, n)
    requires SHADOW <= o < scan <= n && o % 4 == 0 && Changed(pf.d, cf.d, o)
    ensures Done(pf, cf, scan, o)
  {
    var slot := o - o % 8;
    SlotBounds(o);
    assert slot in pf.q && slot in cf.q;
    assert Dword(pm, o) != Dword(cm, o);
    QwordDiffers(pm, cm, slot, o);
  }

  lemma {:induction false} SlotBounds(o: int)
    requires SHADOW <= o && o % 4 == 0
    ensures var slot := o - o % 8;
            SHADOW <= slot <= o && slot % 8 == 0 && (o == slot || o == slot + 4)
  {
    SlotCases(o, o - o % 8);
  }

  lemma {:induction false} QwordDiffers(a: Memory, b: Memory, slot: int, o: int)
    requires o == slot || o == slot + 4
    requires Dword(a, o) != Dword(b, o)
    ensures Qword(a, slot) != Qword(b, slot)
  {
  }

  /** A changed qword that an immediate store can reproduce on top of the old slot. */
  predicate Reproducible(pv: U64, cv: U64) {
    if cv % TWO32 < 0x8000_0000 then cv / TWO32 == 0 else cv / TWO32 == pv / TWO32
  }

  lemma {:induction false} SplitQword(mem: Memory, p: int)
    ensures Qword(mem, p) % TWO32 == Dword(mem, p) && Qword(mem, p) / TWO32 == Dword(mem, p + 4)
  {
  }

  /** The store rule on slot `p`, as arithmetic on its halves: `old` is the slot before, `new` after. */
  lemma {:induction false} StoreExact(old': Memory, new': Memory, p: int, pv: U64, cv: U64)
    requires Qword(old', p) == pv && cv != pv
    requires Dword(new', p) == cv % TWO32
    requires Dword(new', p + 4) == (if cv % TWO32 < 0x8000_0000 then 0 else Dword(old', p + 4))
    ensures Qword(new', p) == cv <==> Reproducible(pv, cv)
  {
    SplitQword(old', p);
    SplitQword(new', p);
    assert cv == cv % TWO32 + TWO32 * (cv / TWO32);
  }

  /** Replaying the difference of two complete snapshots over memory `mem`.
      The low dword of every compared slot becomes the recorded one as soon as `mem` had the old
      one; a slot that held the old qword holds the new one exactly if it did not change or the
      change is reproducible. */
  lemma {:induction false} ReplaySlot(frameSize: nat, pf: Frame, cf: Frame, pm: Memory, cm: Memory, mem: Memory, p: int)
    requires IsSnapshot(pf, pm, ScanBytes(frameSize)) && IsSnapshot(cf, cm, ScanBytes(frameSize))
    requires SHADOW <= p < ScanLimit(frameSize) && p % 8 == 0
    ensures var m := Replay(mem, FrameDelta(pf, cf, frameSize));
            && p in pf.q && p in cf.q && p in pf.d && p in cf.d
            && (Dword(mem, p) == pf.d[p] ==> Dword(m, p) == cf.d[p])
            && (Qword(mem, p) == pf.q[p] ==>
                  (Qword(m, p) == cf.q[p] <==> cf.q[p] == pf.q[p] || Reproducible(pf.q[p], cf.q[p])))
  {
    var scan := ScanLimit(frameSize);
    DPassSilent(pf, cf, ScanBytes(frameSize), pm, cm, SHADOW, scan);
    assert FrameDelta(pf, cf, frameSize) == QPass(pf, cf, SHADOW, scan);
    QPassSlot(pf, cf, SHADOW, scan, mem, p);
    SlotCases(p, p);
    SplitQword(cm, p);
    SplitQword(pm, p);
    if Qword(mem, p) == pf.q[p] && cf.q[p] != pf.q[p] {
      StoreExact(mem, Replay(mem, QPass(pf, cf, SHADOW, scan)), p, pf.q[p], cf.q[p]);
    }
  }

  /** Memory the fill pattern is a snapshot of. */
  function FillMemory(frameSize: nat): (m: Memory) {
    map o | 0 <= o < ScanBytes(frameSize) + 8 && o % 4 == 0 :: FILL
  }

  lemma {:induction false} FillIsSnapshot(frameSize: nat)
    ensures IsSnapshot(FillFrame(frameSize), FillMemory(frameSize), ScanBytes(frameSize))
  {
    var n, f, m := ScanBytes(frameSize), FillFrame(frameSize), FillMemory(frameSize);
    forall o | o in f.q
      ensures f.q[o] == Qword(m, o)
    {
      SlotCases(o, o);
      assert o in m && o + 4 in m;
    }
  }
}
