/** The import area of the .devrt section: the (dll, function) pairs the devirtualized code calls, laid
    out as a PE import directory, and a loader's walk over it. */
module ImportArea {
  import opened Align
  import opened Bytes

  datatype Imp = Imp(dll: string, func: string, sym: string)

  /** The imports of one DLL. */
  datatype Group = Group(dll: string, imps: seq<Imp>)

  // ---------------------------------------------------------------- grouping by DLL

  /** The imports from `dll` among the first `k`, in order. */
  function Filter(imps: seq<Imp>, dll: string, k: nat): (r: seq<Imp>)
    requires k <= |imps|
  {
    if k == 0 then []
    else Filter(imps, dll, k - 1) + if imps[k - 1].dll == dll then [imps[k - 1]] else []
  }

  /** Position of the first import from `dll` among the first `k`, or `k`. */
  function First(imps: seq<Imp>, dll: string, k: nat): (i: nat)
    requires k <= |imps|
    ensures i <= k
  {
    if k == 0 then 0
    else
      var i := First(imps, dll, k - 1);
      if i < k - 1 || imps[k - 1].dll == dll then i else k
  }

  lemma {:induction false} FirstIs(imps: seq<Imp>, dll: string, k: nat)
    requires k <= |imps|
    ensures var i := First(imps, dll, k);
            (i < k ==> imps[i].dll == dll) && forall j :: 0 <= j < i ==> imps[j].dll != dll
  {
    if k > 0 {
      FirstIs(imps, dll, k - 1);
    }
  }

  /** The groups come in the order their DLLs first occur. */
  ghost predicate InOrder(imps: seq<Imp>, k: nat, gs: seq<Group>)
    requires k <= |imps|
  {
    forall d, e :: 0 <= d < e < |gs| ==> First(imps, gs[d].dll, k) < First(imps, gs[e].dll, k)
  }

  /** Each group holds the imports from its DLL, in order, and at least one. */
  ghost predicate Exact(imps: seq<Imp>, k: nat, gs: seq<Group>)
    requires k <= |imps|
  {
    forall d :: 0 <= d < |gs| ==> First(imps, gs[d].dll, k) < k && gs[d].imps == Filter(imps, gs[d].dll, k)
  }

  /** No DLL is missing. */
  ghost predicate Covered(imps: seq<Imp>, k: nat, gs: seq<Group>)
    requires k <= |imps|
  {
    forall i :: 0 <= i < k ==> exists d :: 0 <= d < |gs| && gs[d].dll == imps[i].dll
  }

  ghost predicate IsGrouping(imps: seq<Imp>, k: nat, gs: seq<Group>)
    requires k <= |imps|
  {
    InOrder(imps, k, gs) && Exact(imps, k, gs) && Covered(imps, k, gs)
  }

  /** Index of the group of `dll`, or the number of groups. */
  function IndexOf(gs: seq<Group>, dll: string): (d: nat)
    ensures d <= |gs| && (d < |gs| ==> gs[d].dll == dll)
    ensures forall e :: 0 <= e < d ==> gs[e].dll != dll
  {
    if |gs| == 0 then 0
    else if gs[0].dll == dll then 0 else 1 + IndexOf(gs[1..], dll)
  }

  lemma {:induction false} FilterNone(imps: seq<Imp>, dll: string, k: nat)
    requires k <= |imps| && First(imps, dll, k) == k
    ensures Filter(imps, dll, k) == []
  {
    if k > 0 {
      FilterNone(imps, dll, k - 1);
    }
  }

  /** `setdefault(dll, []).append(imp)`. */
  function Insert(gs: seq<Group>, imp: Imp): (r: seq<Group>) {
    var d := IndexOf(gs, imp.dll);
    if d < |gs| then gs[d := Group(imp.dll, gs[d].imps + [imp])] else gs + [Group(imp.dll, [imp])]
  }

  /** A DLL met before is still first met where it was. */
  lemma {:induction false} FirstKept(imps: seq<Imp>, k: nat, gs: seq<Group>, e: nat)
    requires k < |imps| && Exact(imps, k, gs) && e < |gs|
    ensures First(imps, gs[e].dll, k + 1) == First(imps, gs[e].dll, k) < k
  {
  }

  lemma {:induction false} CoverMore(imps: seq<Imp>, k: nat, gs: seq<Group>, d: nat, r: seq<Group>)
    requires k < |imps| && Covered(imps, k, gs) && |gs| <= |r| && d < |r| && r[d].dll == imps[k].dll
    requires forall e :: 0 <= e < |gs| ==> r[e].dll == gs[e].dll
    ensures Covered(imps, k + 1, r)
  {
    forall i | 0 <= i < k + 1
      ensures exists e :: 0 <= e < |r| && r[e].dll == imps[i].dll
    {
      if i < k {
        var e :| 0 <= e < |gs| && gs[e].dll == imps[i].dll;
        assert r[e].dll == imps[i].dll;
      }
    }
  }

  lemma {:induction false} OrderKept(imps: seq<Imp>, k: nat, gs: seq<Group>, r: seq<Group>)
    requires k < |imps| && InOrder(imps, k, gs) && Exact(imps, k, gs)
    requires |gs| <= |r| <= |gs| + 1 && forall e :: 0 <= e < |gs| ==> r[e].dll == gs[e].dll
    requires |r| == |gs| + 1 ==> First(imps, r[|gs|].dll, k + 1) == k
    ensures InOrder(imps, k + 1, r)
  {
    forall d, e | 0 <= d < e < |r|
      ensures First(imps, r[d].dll, k + 1) < First(imps, r[e].dll, k + 1)
    {
      FirstKept(imps, k, gs, d);
      if e < |gs| {
        FirstKept(imps, k, gs, e);
      }
    }
  }

  lemma {:induction false} InsertOld(imps: seq<Imp>, k: nat, gs: seq<Group>, d: nat)
    requires k < |imps| && IsGrouping(imps, k, gs) && d == IndexOf(gs, imps[k].dll) < |gs|
    ensures IsGrouping(imps, k + 1, Insert(gs, imps[k]))
  {
    var r := Insert(gs, imps[k]);
    forall e | 0 <= e < |r|
      ensures First(imps, r[e].dll, k + 1) < k + 1 && r[e].imps == Filter(imps, r[e].dll, k + 1)
    {
      FirstKept(imps, k, gs, e);
      if e < d {
        assert First(imps, gs[e].dll, k) < First(imps, gs[d].dll, k);
      } else if d < e {
        assert First(imps, gs[d].dll, k) < First(imps, gs[e].dll, k);
      }
    }
    OrderKept(imps, k, gs, r);
    CoverMore(imps, k, gs, d, r);
  }

  lemma {:induction false} InsertNew(imps: seq<Imp>, k: nat, gs: seq<Group>)
    requires k < |imps| && IsGrouping(imps, k, gs) && IndexOf(gs, imps[k].dll) == |gs|
    ensures IsGrouping(imps, k + 1, Insert(gs, imps[k]))
  {
    var r, dll := Insert(gs, imps[k]), imps[k].dll;
    FirstIs(imps, dll, k);
    assert First(imps, dll, k) == k;
    FilterNone(imps, dll, k);
    forall e | 0 <= e < |r|
      ensures First(imps, r[e].dll, k + 1) < k + 1 && r[e].imps == Filter(imps, r[e].dll, k + 1)
    {
      if e < |gs| {
        FirstKept(imps, k, gs, e);
      }
    }
    OrderKept(imps, k, gs, r);
    CoverMore(imps, k, gs, |gs|, r);
  }

  lemma {:induction false} InsertStep(imps: seq<Imp>, k: nat, gs: seq<Group>, d: nat)
    requires k < |imps| && IsGrouping(imps, k, gs) && d == IndexOf(gs, imps[k].dll)
    ensures IsGrouping(imps, k + 1, Insert(gs, imps[k]))
  {
    if d < |gs| {
      InsertOld(imps, k, gs, d);
    } else {
      InsertNew(imps, k, gs);
    }
  }

  /** The groups of the first `k` imports. */
  function GroupsOf(imps: seq<Imp>, k: nat): (gs: seq<Group>)
    requires k <= |imps|
  {
    if k == 0 then [] else Insert(GroupsOf(imps, k - 1), imps[k - 1])
  }

  /** Grouping loses nothing, repeats nothing and keeps both orders. */
  lemma {:induction false} GroupsExact(imps: seq<Imp>, k: nat)
    requires k <= |imps|
    ensures IsGrouping(imps, k, GroupsOf(imps, k))
  {
    if k > 0 {
      GroupsExact(imps, k - 1);
      var gs, dll := GroupsOf(imps, k - 1), imps[k - 1].dll;
      InsertStep(imps, k - 1, gs, IndexOf(gs, dll));
    }
  }

  method GroupByDll(imps: seq<Imp>) returns (gs: seq<Group>)
    ensures gs == GroupsOf(imps, |imps|)
  {
    gs := [];
    for k := 0 to |imps|
      invariant gs == GroupsOf(imps, k)
    {
      gs := Insert(gs, imps[k]);
    }
  }

  lemma {:induction false} FilterIn(imps: seq<Imp>, dll: string, k: nat, x: Imp)
    requires k <= |imps| && x in Filter(imps, dll, k)
    ensures x in imps && x.dll == dll
  {
    if x !in Filter(imps, dll, k - 1) {
      assert x == imps[k - 1];
    } else {
      FilterIn(imps, dll, k - 1, x);
    }
  }

  // ---------------------------------------------------------------- address table slots

  /** Slots of the first `d` groups: one per import and a terminator. */
  function Slots(gs: seq<Group>, d: nat): (n: nat)
    requires d <= |gs|
  {
    if d == 0 then 0 else Slots(gs, d - 1) + |gs[d - 1].imps| + 1
  }

  lemma {:induction false} SlotsMonotone(gs: seq<Group>, d: nat, e: nat)
    requires d <= e <= |gs|
    ensures Slots(gs, d) <= Slots(gs, e)
  {
    if d < e {
      SlotsMonotone(gs, d, e - 1);
    }
  }

  /** Where the tables of the first `d` groups start when the first one starts at `o`. */
  function SlotOffs(gs: seq<Group>, o: nat, d: nat): (r: seq<nat>)
    requires d <= |gs|
    ensures |r| == d
  {
    if d == 0 then [] else SlotOffs(gs, o, d - 1) + [o + 8 * Slots(gs, d - 1)]
  }

  lemma {:induction false} SlotOffsAt(gs: seq<Group>, o: nat, d: nat, e: nat)
    requires e < d <= |gs|
    ensures SlotOffs(gs, o, d)[e] == o + 8 * Slots(gs, e)
  {
    if e < d - 1 {
      SlotOffsAt(gs, o, d - 1, e);
    }
  }

  /** Symbol addresses after the first `k` imports of a group whose table starts at `va`. */
  function GroupMap(m: map<string, nat>, g: Group, va: nat, k: nat): (r: map<string, nat>)
    requires k <= |g.imps|
  {
    if k == 0 then m else GroupMap(m, g, va, k - 1)[g.imps[k - 1].sym := va + 8 * (k - 1)]
  }

  function SlotMap(gs: seq<Group>, va: nat, d: nat): (r: map<string, nat>)
    requires d <= |gs|
  {
    if d == 0 then map[]
    else GroupMap(SlotMap(gs, va, d - 1), gs[d - 1], va + 8 * Slots(gs, d - 1), |gs[d - 1].imps|)
  }

  /** The import address tables: zeroed, with the address of every symbol's slot. */
  method LayIat(gs: seq<Group>, va: nat) returns (buf: seq<Byte>, off: seq<nat>, m: map<string, nat>)
    ensures AllZero(buf) && |buf| == 8 * Slots(gs, |gs|) && m == SlotMap(gs, va, |gs|)
    ensures off == SlotOffs(gs, 0, |gs|)
  {
    buf, off, m := [], [], map[];
    for d := 0 to |gs|
      invariant AllZero(buf) && |buf| == 8 * Slots(gs, d) && m == SlotMap(gs, va, d)
      invariant off == SlotOffs(gs, 0, d)
    {
      off := off + [|buf|];
      for i := 0 to |gs[d].imps|
        invariant AllZero(buf) && |buf| == 8 * (Slots(gs, d) + i)
        invariant m == GroupMap(SlotMap(gs, va, d), gs[d], va + 8 * Slots(gs, d), i)
      {
        m := m[gs[d].imps[i].sym := va + |buf|];
        buf := ZeroExtend(buf, 8);
      }
      buf := ZeroExtend(buf, 8);
    }
  }

  /** The import lookup tables have the same shape. */
  method LayIlt(gs: seq<Group>, iat: seq<Byte>) returns (buf: seq<Byte>, off: seq<nat>)
    requires AllZero(iat) && |iat| == 8 * Slots(gs, |gs|)
    ensures AllZero(buf) && |buf| == 16 * Slots(gs, |gs|)
    ensures off == SlotOffs(gs, 8 * Slots(gs, |gs|), |gs|)
  {
    buf, off := iat, [];
    for d := 0 to |gs|
      invariant AllZero(buf) && |buf| == |iat| + 8 * Slots(gs, d)
      invariant off == SlotOffs(gs, |iat|, d)
    {
      off := off + [|buf|];
      buf := ZeroExtend(buf, (|gs[d].imps| + 1) * 8);
    }
  }

  ghost predicate SymsDistinct(gs: seq<Group>) {
    forall d, i, e, j | 0 <= d < |gs| && 0 <= e < |gs| && 0 <= i < |gs[d].imps| && 0 <= j < |gs[e].imps| ::
      gs[d].imps[i].sym == gs[e].imps[j].sym ==> d == e && i == j
  }

  lemma {:induction false} GroupMapKeeps(m: map<string, nat>, g: Group, va: nat, k: nat, sym: string)
    requires k <= |g.imps| && forall i :: 0 <= i < k ==> g.imps[i].sym != sym
    ensures (sym in GroupMap(m, g, va, k) <==> sym in m) && (sym in m ==> GroupMap(m, g, va, k)[sym] == m[sym])
  {
    if k > 0 {
      GroupMapKeeps(m, g, va, k - 1, sym);
    }
  }

  lemma {:induction false} GroupMapAt(m: map<string, nat>, g: Group, va: nat, k: nat, i: nat)
    requires i < k <= |g.imps|
    requires forall j :: 0 <= j < k && g.imps[j].sym == g.imps[i].sym ==> i == j
    ensures g.imps[i].sym in GroupMap(m, g, va, k) && GroupMap(m, g, va, k)[g.imps[i].sym] == va + 8 * i
  {
    if i < k - 1 {
      GroupMapAt(m, g, va, k - 1, i);
    }
  }

  /** With distinct symbols every symbol is mapped to its own slot. */
  lemma {:induction false} SlotMapAt(gs: seq<Group>, va: nat, n: nat, d: nat, i: nat)
    requires d < n <= |gs| && i < |gs[d].imps| && SymsDistinct(gs)
    ensures gs[d].imps[i].sym in SlotMap(gs, va, n)
    ensures SlotMap(gs, va, n)[gs[d].imps[i].sym] == va + 8 * (Slots(gs, d) + i)
  {
    var g, m, base := gs[n - 1], SlotMap(gs, va, n - 1), va + 8 * Slots(gs, n - 1);
    if d == n - 1 {
      GroupMapAt(m, g, base, |g.imps|, i);
    } else {
      SlotMapAt(gs, va, n - 1, d, i);
      GroupMapKeeps(m, g, base, |g.imps|, gs[d].imps[i].sym);
    }
  }

  // ---------------------------------------------------------------- names

  /** Padding to an even length. */
  function Even(n: nat): (r: nat)
    ensures n <= r <= n + 1 && IsEven(r)
  {
    if IsEven(n) then n else n + 1
  }

  predicate IsEven(n: nat) {
    n % 2 == 0
  }

  /** `data` appended at the end of `buf`, padded to an even length. */
  function AppendEven(buf: seq<Byte>, data: seq<Byte>): (r: seq<Byte>) {
    if IsEven(|buf| + |data|) then buf + data else buf + data + [0]
  }

  lemma {:induction false} AppendEvenHolds(buf: seq<Byte>, data: seq<Byte>)
    ensures var r := AppendEven(buf, data); |r| == Even(|buf| + |data|) && buf <= r && Holds(r, |buf|, data)
  {
  }

  /** The padding is at most one zero byte. */
  lemma {:induction false} AppendEvenPads(buf: seq<Byte>, data: seq<Byte>)
    ensures var r, n := AppendEven(buf, data), |buf| + |data|;
            |r| % 2 == 0 && r[..n] == buf + data && (r[n..] == [] || r[n..] == [0])
  {
  }

  /** A hint of 0 and the name. */
  function HintName(func: string): (b: seq<Byte>)
    requires IsAscii(func)
    ensures |b| == |func| + 3
  {
    [0, 0] + Encode(func) + [0]
  }

  type Hints = map<(string, string), nat>

  /** A hint/name entry of `func` at address `rva`, on an even offset in the name part of the buffer. */
  ghost predicate HintOk(buf: seq<Byte>, base: nat, lo: nat, func: string, rva: nat) {
    && IsAscii(func) && base + lo <= rva && IsEven(rva - base)
    && Holds(buf, rva - base, HintName(func))
  }

  ghost predicate HintsOk(buf: seq<Byte>, base: nat, lo: nat, hn: Hints) {
    forall key :: key in hn ==> HintOk(buf, base, lo, key.1, hn[key])
  }

  predicate AsciiGroup(g: Group) {
    IsAscii(g.dll) && forall i :: 0 <= i < |g.imps| ==> IsAscii(g.imps[i].func)
  }

  predicate AsciiGroups(gs: seq<Group>) {
    forall d :: 0 <= d < |gs| ==> AsciiGroup(gs[d])
  }

  lemma {:induction false} HintsKept(a: seq<Byte>, b: seq<Byte>, base: nat, lo: nat, hn: Hints)
    requires HintsOk(a, base, lo, hn) && a <= b
    ensures HintsOk(b, base, lo, hn)
  {
    forall key | key in hn
      ensures HintOk(b, base, lo, key.1, hn[key])
    {
      HoldsPrefix(a, b, hn[key] - base, HintName(key.1));
    }
  }

  /** The buffer and the addresses of its hint/name entries. */
  datatype Names = Names(buf: seq<Byte>, hn: Hints)

  /** One more hint/name entry. Two imports of the same name share the later one. */
  function AddHint(n: Names, base: nat, dll: string, func: string): (r: Names)
    requires IsAscii(func)
  {
    Names(AppendEven(n.buf, HintName(func)), n.hn[(dll, func) := base + |n.buf|])
  }

  function AddDll(n: Names, dll: string): (r: Names)
    requires IsAscii(dll)
  {
    Names(AppendEven(n.buf, Encode(dll) + [0]), n.hn)
  }

  /** The first `k` functions of a group. */
  function AddFuncs(n: Names, base: nat, g: Group, k: nat): (r: Names)
    requires AsciiGroup(g) && k <= |g.imps|
  {
    if k == 0 then n else AddHint(AddFuncs(n, base, g, k - 1), base, g.dll, g.imps[k - 1].func)
  }

  function AddGroup(n: Names, base: nat, g: Group): (r: Names)
    requires AsciiGroup(g)
  {
    AddFuncs(AddDll(n, g.dll), base, g, |g.imps|)
  }

  /** The first `d` groups. */
  function AddGroups(buf: seq<Byte>, base: nat, gs: seq<Group>, d: nat): (r: Names)
    requires AsciiGroups(gs) && d <= |gs|
  {
    if d == 0 then Names(buf, map[]) else AddGroup(AddGroups(buf, base, gs, d - 1), base, gs[d - 1])
  }

  /** Where the name of each of the first `d` DLLs starts. */
  function NameOffs(buf: seq<Byte>, base: nat, gs: seq<Group>, d: nat): (r: seq<nat>)
    requires AsciiGroups(gs) && d <= |gs|
    ensures |r| == d
  {
    if d == 0 then [] else NameOffs(buf, base, gs, d - 1) + [|AddGroups(buf, base, gs, d - 1).buf|]
  }

  /** The hint/name entries of one group. */
  method AppendFuncs(buf0: seq<Byte>, base: nat, g: Group, hn0: Hints) returns (buf: seq<Byte>, hn: Hints)
    requires AsciiGroup(g)
    ensures Names(buf, hn) == AddFuncs(Names(buf0, hn0), base, g, |g.imps|)
  {
    buf, hn := buf0, hn0;
    for i := 0 to |g.imps|
      invariant Names(buf, hn) == AddFuncs(Names(buf0, hn0), base, g, i)
    {
      hn := hn[(g.dll, g.imps[i].func) := base + |buf|];
      buf := AppendEven(buf, HintName(g.imps[i].func));
    }
  }

  /** DLL names and hint/name entries of all groups. */
  method AppendNames(buf0: seq<Byte>, base: nat, gs: seq<Group>)
    returns (buf: seq<Byte>, nameOff: seq<nat>, hn: Hints)
    requires AsciiGroups(gs)
    ensures Names(buf, hn) == AddGroups(buf0, base, gs, |gs|) && nameOff == NameOffs(buf0, base, gs, |gs|)
  {
    buf, nameOff, hn := buf0, [], map[];
    for d := 0 to |gs|
      invariant Names(buf, hn) == AddGroups(buf0, base, gs, d) && nameOff == NameOffs(buf0, base, gs, d)
    {
      nameOff := nameOff + [|buf|];
      buf := AppendEven(buf, Encode(gs[d].dll) + [0]);
      buf, hn := AppendFuncs(buf, base, gs[d], hn);
    }
  }

  /** Every recorded address has the hint/name entry of its function; the buffer is ready for more. */
  ghost predicate NamesOk(n: Names, base: nat, lo: nat) {
    HintsOk(n.buf, base, lo, n.hn) && lo <= |n.buf| && IsEven(|n.buf|)
  }

  /** `r` continues `n`. */
  ghost predicate Extends(n: Names, r: Names) {
    n.buf <= r.buf && n.hn.Keys <= r.hn.Keys
  }

  lemma {:induction false} AddHintOk(n: Names, base: nat, lo: nat, dll: string, func: string)
    requires IsAscii(func) && NamesOk(n, base, lo)
    ensures NamesOk(AddHint(n, base, dll, func), base, lo) && Extends(n, AddHint(n, base, dll, func))
  {
    var r := AddHint(n, base, dll, func);
    AppendEvenHolds(n.buf, HintName(func));
    HintsKept(n.buf, r.buf, base, lo, n.hn);
    assert HintOk(r.buf, base, lo, func, base + |n.buf|);
  }

  lemma {:induction false} AddDllOk(n: Names, base: nat, lo: nat, dll: string)
    requires IsAscii(dll) && NamesOk(n, base, lo)
    ensures NamesOk(AddDll(n, dll), base, lo) && Extends(n, AddDll(n, dll))
    ensures Holds(AddDll(n, dll).buf, |n.buf|, Encode(dll) + [0])
  {
    AppendEvenHolds(n.buf, Encode(dll) + [0]);
    HintsKept(n.buf, AddDll(n, dll).buf, base, lo, n.hn);
  }

  lemma {:induction false} ExtendsTrans(a: Names, b: Names, c: Names)
    requires Extends(a, b) && Extends(b, c)
    ensures Extends(a, c)
  {
  }

  lemma {:induction false} AddFuncsOk(n: Names, base: nat, lo: nat, g: Group, k: nat)
    requires AsciiGroup(g) && k <= |g.imps| && NamesOk(n, base, lo)
    ensures NamesOk(AddFuncs(n, base, g, k), base, lo) && Extends(n, AddFuncs(n, base, g, k))
  {
    if k > 0 {
      AddFuncsOk(n, base, lo, g, k - 1);
      AddHintOk(AddFuncs(n, base, g, k - 1), base, lo, g.dll, g.imps[k - 1].func);
      ExtendsTrans(n, AddFuncs(n, base, g, k - 1), AddFuncs(n, base, g, k));
    }
  }

  lemma {:induction false} AddFuncsKeys(n: Names, base: nat, g: Group, k: nat, i: nat)
    requires AsciiGroup(g) && i < k <= |g.imps|
    ensures (g.dll, g.imps[i].func) in AddFuncs(n, base, g, k).hn
  {
    if i < k - 1 {
      AddFuncsKeys(n, base, g, k - 1, i);
    }
  }

  lemma {:induction false} AddGroupOk(n: Names, base: nat, lo: nat, g: Group)
    requires AsciiGroup(g) && NamesOk(n, base, lo)
    ensures NamesOk(AddGroup(n, base, g), base, lo) && Extends(n, AddGroup(n, base, g))
    ensures Holds(AddGroup(n, base, g).buf, |n.buf|, Encode(g.dll) + [0])
  {
    AddDllOk(n, base, lo, g.dll);
    AddFuncsOk(AddDll(n, g.dll), base, lo, g, |g.imps|);
    ExtendsTrans(n, AddDll(n, g.dll), AddGroup(n, base, g));
    HoldsPrefix(AddDll(n, g.dll).buf, AddGroup(n, base, g).buf, |n.buf|, Encode(g.dll) + [0]);
  }

  lemma {:induction false} AddGroupsOk(buf: seq<Byte>, base: nat, gs: seq<Group>, d: nat)
    requires AsciiGroups(gs) && d <= |gs| && IsEven(|buf|)
    ensures NamesOk(AddGroups(buf, base, gs, d), base, |buf|) && buf <= AddGroups(buf, base, gs, d).buf
  {
    if d > 0 {
      AddGroupsOk(buf, base, gs, d - 1);
      AddGroupOk(AddGroups(buf, base, gs, d - 1), base, |buf|, gs[d - 1]);
    }
  }

  lemma {:induction false} AddGroupsGrow(buf: seq<Byte>, base: nat, gs: seq<Group>, d: nat)
    requires AsciiGroups(gs) && 0 < d <= |gs| && IsEven(|buf|)
    ensures Extends(AddGroups(buf, base, gs, d - 1), AddGroups(buf, base, gs, d))
  {
    AddGroupsOk(buf, base, gs, d - 1);
    AddGroupOk(AddGroups(buf, base, gs, d - 1), base, |buf|, gs[d - 1]);
  }

  lemma {:induction false} AddGroupsKeys(buf: seq<Byte>, base: nat, gs: seq<Group>, d: nat, e: nat, i: nat)
    requires AsciiGroups(gs) && e < d <= |gs| && i < |gs[e].imps| && IsEven(|buf|)
    ensures (gs[e].dll, gs[e].imps[i].func) in AddGroups(buf, base, gs, d).hn
  {
    var n, g := AddGroups(buf, base, gs, d - 1), gs[d - 1];
    if e < d - 1 {
      AddGroupsKeys(buf, base, gs, d - 1, e, i);
      AddGroupsGrow(buf, base, gs, d);
    } else {
      AddFuncsKeys(AddDll(n, g.dll), base, g, |g.imps|, i);
    }
  }

  lemma {:induction false} NameKept(n: Names, r: Names, o: nat, dll: string)
    requires IsAscii(dll) && Extends(n, r) && Holds(n.buf, o, Encode(dll) + [0])
    ensures Holds(r.buf, o, Encode(dll) + [0])
  {
    HoldsPrefix(n.buf, r.buf, o, Encode(dll) + [0]);
  }

  lemma {:induction false} NameOffsAt(buf: seq<Byte>, base: nat, gs: seq<Group>, d: nat, e: nat)
    requires AsciiGroups(gs) && e < d <= |gs|
    ensures NameOffs(buf, base, gs, d)[e] == |AddGroups(buf, base, gs, e).buf|
  {
    if e < d - 1 {
      NameOffsAt(buf, base, gs, d - 1, e);
    }
  }

  lemma {:induction false} NamedOnce(buf: seq<Byte>, base: nat, gs: seq<Group>, d: nat)
    requires AsciiGroups(gs) && d < |gs| && IsEven(|buf|)
    ensures var n, r := AddGroups(buf, base, gs, d), AddGroups(buf, base, gs, d + 1);
            Extends(n, r) && Holds(r.buf, |n.buf|, Encode(gs[d].dll) + [0])
  {
    AddGroupsOk(buf, base, gs, d);
    AddGroupOk(AddGroups(buf, base, gs, d), base, |buf|, gs[d]);
  }

  /** The name of DLL `e` stands where it was put. */
  lemma {:induction false} NameHeld(buf: seq<Byte>, base: nat, gs: seq<Group>, d: nat, e: nat, o: nat)
    requires AsciiGroups(gs) && e < d <= |gs| && IsEven(|buf|) && o == |AddGroups(buf, base, gs, e).buf|
    ensures Holds(AddGroups(buf, base, gs, d).buf, o, Encode(gs[e].dll) + [0])
  {
    NamedOnce(buf, base, gs, d - 1);
    if e < d - 1 {
      NameHeld(buf, base, gs, d - 1, e, o);
      NameKept(AddGroups(buf, base, gs, d - 1), AddGroups(buf, base, gs, d), o, gs[e].dll);
    }
  }

  // ---------------------------------------------------------------- thunks

  function Rva(hn: Hints, dll: string, func: string): (r: nat) {
    if (dll, func) in hn then hn[(dll, func)] else 0
  }

  function GroupThunks(g: Group, hn: Hints, k: nat): (ts: seq<nat>)
    requires k <= |g.imps|
    ensures |ts| == k
  {
    if k == 0 then [] else GroupThunks(g, hn, k - 1) + [Rva(hn, g.dll, g.imps[k - 1].func)]
  }

  /** The entries of all tables: the hint/name addresses of each group, then a zero. */
  function Thunks(gs: seq<Group>, hn: Hints, d: nat): (ts: seq<nat>)
    requires d <= |gs|
    ensures |ts| == Slots(gs, d)
  {
    if d == 0 then [] else Thunks(gs, hn, d - 1) + GroupThunks(gs[d - 1], hn, |gs[d - 1].imps|) + [0]
  }

  /** A buffer as its 8-byte words. */
  type Words8 = nat -> nat

  function WordsOf(buf: seq<Byte>): (w: Words8) {
    o => At(buf, o, 8)
  }

  /** `w'` is `w` with `v` written at `p`, in a buffer of `size` bytes. */
  ghost predicate Written(w: Words8, w': Words8, size: nat, p: nat, v: nat) {
    && w'(p) == v
    && forall o: nat :: o + 8 <= size && (o + 8 <= p || p + 8 <= o) ==> w'(o) == w(o)
  }

  /** `struct.pack_into("<Q", buf, p, v)`. */
  method PackQ(buf: seq<Byte>, p: nat, v: nat, ghost lo: nat) returns (r: seq<Byte>)
    requires p + 8 <= lo <= |buf| && v < 0x1_0000_0000_0000_0000
    ensures |r| == |buf| && r[lo..] == buf[lo..]
    ensures Written(WordsOf(buf), WordsOf(r), |buf|, p, v)
  {
    r := Patch(buf, p, LE(v, 8));
    PatchTail(buf, p, LE(v, 8), lo);
    Widths();
    LEValue(v, 8);
    PatchReads(buf, p, LE(v, 8));
    ghost var w, w' := WordsOf(buf), WordsOf(r);
    forall o: nat | o + 8 <= |buf| && (o + 8 <= p || p + 8 <= o)
      ensures w'(o) == w(o)
    {
      PatchKeeps(buf, p, LE(v, 8), o, o + 8);
    }
  }

  /** Entry `s` of a table that holds `pre` so far and zeros after it. */
  function Entry(pre: seq<nat>, s: nat): (v: nat) {
    if s < |pre| then pre[s] else 0
  }

  /** Both tables of `n` words, the second right after the first, hold `pre` so far. */
  ghost predicate Tables(w: Words8, n: nat, pre: seq<nat>) {
    forall s :: 0 <= s < n ==> w(8 * s) == Entry(pre, s) && w(8 * n + 8 * s) == Entry(pre, s)
  }

  lemma {:induction false} ZeroWord(buf: seq<Byte>, lo: nat, o: nat)
    requires o + 8 <= lo <= |buf| && AllZero(buf[..lo])
    ensures At(buf, o, 8) == 0
  {
    SliceOfSlice(buf, 0, lo, o, 8);
    ZeroValue(buf[o..o + 8]);
  }

  lemma {:induction false} ZeroTables(buf: seq<Byte>, n: nat)
    requires 16 * n <= |buf| && AllZero(buf[..16 * n])
    ensures Tables(WordsOf(buf), n, [])
  {
    var w := WordsOf(buf);
    forall s | 0 <= s < n
      ensures w(8 * s) == 0 && w(8 * n + 8 * s) == 0
    {
      ZeroWord(buf, 16 * n, 8 * s);
      ZeroWord(buf, 16 * n, 8 * n + 8 * s);
    }
  }

  lemma {:induction false} BothWritten(w: Words8, w': Words8, w'': Words8, size: nat, n: nat, pre: seq<nat>, v: nat)
    requires Tables(w, n, pre) && 16 * n <= size && |pre| < n
    requires Written(w, w', size, 8 * |pre|, v) && Written(w', w'', size, 8 * n + 8 * |pre|, v)
    ensures Tables(w'', n, pre + [v])
  {
    forall s | 0 <= s < n
      ensures w''(8 * s) == Entry(pre + [v], s) && w''(8 * n + 8 * s) == Entry(pre + [v], s)
    {
      assert w''(8 * s) == w'(8 * s);
      if s != |pre| {
        assert w'(8 * s) == w(8 * s);
        assert w''(8 * n + 8 * s) == w'(8 * n + 8 * s) == w(8 * n + 8 * s);
      }
    }
  }

  lemma {:induction false} TablesZero(w: Words8, n: nat, pre: seq<nat>)
    requires Tables(w, n, pre)
    ensures Tables(w, n, pre + [0])
  {
    assert forall s :: 0 <= s < n ==> Entry(pre + [0], s) == Entry(pre, s);
  }

  /** One address packed into slot |pre| of both tables. */
  method PackBoth(buf0: seq<Byte>, ghost n: nat, ghost pre: seq<nat>, p: nat, q: nat, v: nat) returns (buf: seq<Byte>)
    requires 16 * n <= |buf0| && |pre| < n && v < 0x1_0000_0000_0000_0000 && Tables(WordsOf(buf0), n, pre)
    requires p == 8 * |pre| && q == 8 * n + 8 * |pre|
    ensures |buf| == |buf0| && buf[16 * n..] == buf0[16 * n..]
    ensures Tables(WordsOf(buf), n, pre + [v])
  {
    var mid := PackQ(buf0, p, v, 16 * n);
    buf := PackQ(mid, q, v, 16 * n);
    BothWritten(WordsOf(buf0), WordsOf(mid), WordsOf(buf), |buf0|, n, pre, v);
  }

  /** The two tables of a group, after those of the groups before it. */
  method FillGroup(buf0: seq<Byte>, g: Group, hn: Hints, ghost n: nat, ghost pre: seq<nat>, p: nat, q: nat)
    returns (buf: seq<Byte>)
    requires 16 * n <= |buf0| && |pre| + |g.imps| < n && Tables(WordsOf(buf0), n, pre)
    requires p == 8 * |pre| && q == 8 * n + 8 * |pre|
    requires forall key :: key in hn ==> hn[key] < 0x1_0000_0000_0000_0000
    ensures |buf| == |buf0| && buf[16 * n..] == buf0[16 * n..]
    ensures Tables(WordsOf(buf), n, pre + GroupThunks(g, hn, |g.imps|) + [0])
  {
    buf := buf0;
    assert pre + GroupThunks(g, hn, 0) == pre;
    for i := 0 to |g.imps|
      invariant |buf| == |buf0| && buf[16 * n..] == buf0[16 * n..]
      invariant Tables(WordsOf(buf), n, pre + GroupThunks(g, hn, i))
    {
      var rva := Rva(hn, g.dll, g.imps[i].func);
      ghost var ts := pre + GroupThunks(g, hn, i);
      buf := PackBoth(buf, n, ts, p + i * 8, q + i * 8, rva);
      assert ts + [rva] == pre + GroupThunks(g, hn, i + 1);
    }
    TablesZero(WordsOf(buf), n, pre + GroupThunks(g, hn, |g.imps|));
  }

  /** The addresses of the hint/name entries go into both tables. */
  method FillThunks(buf0: seq<Byte>, gs: seq<Group>, hn: Hints, ghost n: nat, iatOff: seq<nat>, iltOff: seq<nat>)
    returns (buf: seq<Byte>)
    requires n == Slots(gs, |gs|) && 16 * n <= |buf0| && Tables(WordsOf(buf0), n, [])
    requires iatOff == SlotOffs(gs, 0, |gs|) && iltOff == SlotOffs(gs, 8 * n, |gs|)
    requires forall key :: key in hn ==> hn[key] < 0x1_0000_0000_0000_0000
    ensures |buf| == |buf0| && buf[16 * n..] == buf0[16 * n..]
    ensures Tables(WordsOf(buf), n, Thunks(gs, hn, |gs|))
  {
    buf := buf0;
    for d := 0 to |gs|
      invariant |buf| == |buf0| && buf[16 * n..] == buf0[16 * n..]
      invariant Tables(WordsOf(buf), n, Thunks(gs, hn, d))
    {
      SlotsMonotone(gs, d + 1, |gs|);
      SlotOffsAt(gs, 0, |gs|, d);
      SlotOffsAt(gs, 8 * n, |gs|, d);
      buf := FillGroup(buf, gs[d], hn, n, Thunks(gs, hn, d), iatOff[d], iltOff[d]);
    }
  }

  // ---------------------------------------------------------------- descriptors

  datatype Desc = Desc(ilt: nat, stamp: nat, chain: nat, name: nat, iat: nat) {
    predicate Fits() {
      && ilt < 0x1_0000_0000 && stamp < 0x1_0000_0000 && chain < 0x1_0000_0000
      && name < 0x1_0000_0000 && iat < 0x1_0000_0000
    }
  }

  const NULL_DESC := Desc(0, 0, 0, 0, 0)

  function DescBytes(d: Desc): (b: seq<Byte>)
    ensures |b| == 20
  {
    LE(d.ilt, 4) + LE(d.stamp, 4) + LE(d.chain, 4) + LE(d.name, 4) + LE(d.iat, 4)
  }

  /** The buffer after the first `k` descriptors. */
  function DescTable(buf: seq<Byte>, ds: seq<Desc>, k: nat): (r: seq<Byte>)
    requires k <= |ds|
    ensures |r| == |buf| + 20 * k && buf <= r
  {
    if k == 0 then buf else DescTable(buf, ds, k - 1) + DescBytes(ds[k - 1])
  }

  function NewDesc(base: nat, ilt: nat, name: nat, iat: nat): (d: Desc) {
    Desc(base + ilt, 0, 0, base + name, base + iat)
  }

  function NewDescs(base: nat, ilts: seq<nat>, names: seq<nat>, iats: seq<nat>): (ds: seq<Desc>)
    requires |ilts| == |names| == |iats|
    ensures |ds| == |names| && forall d :: 0 <= d < |ds| ==> ds[d] == NewDesc(base, ilts[d], names[d], iats[d])
  {
    seq(|names|, d requires 0 <= d < |names| => NewDesc(base, ilts[d], names[d], iats[d]))
  }

  method AppendTable(buf0: seq<Byte>, ds: seq<Desc>) returns (buf: seq<Byte>)
    ensures buf == DescTable(buf0, ds, |ds|)
  {
    buf := buf0;
    for k := 0 to |ds|
      invariant buf == DescTable(buf0, ds, k)
    {
      buf := buf + DescBytes(ds[k]);
    }
  }

  lemma {:induction false} NullBytes(b: seq<Byte>)
    ensures ZeroExtend(b, 20) == b + DescBytes(NULL_DESC)
  {
    assert LE(0, 1) == [0] && LE(0, 2) == [0, 0] && LE(0, 3) == [0, 0, 0] && LE(0, 4) == [0, 0, 0, 0];
  }

  // ---------------------------------------------------------------- the whole area

  predicate AsciiImps(imps: seq<Imp>) {
    forall i :: 0 <= i < |imps| ==> IsAscii(imps[i].dll) && IsAscii(imps[i].func)
  }

  lemma {:induction false} GroupsAscii(imps: seq<Imp>)
    requires AsciiImps(imps)
    ensures AsciiGroups(GroupsOf(imps, |imps|))
  {
    var gs := GroupsOf(imps, |imps|);
    GroupsExact(imps, |imps|);
    forall d | 0 <= d < |gs|
      ensures AsciiGroup(gs[d])
    {
      FirstIs(imps, gs[d].dll, |imps|);
      assert IsAscii(imps[First(imps, gs[d].dll, |imps|)].dll);
      forall i | 0 <= i < |gs[d].imps|
        ensures IsAscii(gs[d].imps[i].func)
      {
        FilterIn(imps, gs[d].dll, |imps|, gs[d].imps[i]);
      }
    }
  }

  /** The parts of the finished area: the groups, the name addresses, the number of slots per table,
      where the descriptors start, and the new descriptors. */
  datatype Plan = Plan(gs: seq<Group>, hn: Hints, nameOff: seq<nat>, n: nat, desc: nat, news: seq<Desc>)

  /** The plan for the given groups when the area starts at address `base`. */
  function PlanOf(gs: seq<Group>, base: nat): (p: Plan)
    requires AsciiGroups(gs)
  {
    var n := Slots(gs, |gs|);
    var zeros := ZeroExtend([], 16 * n);
    var names := AddGroups(zeros, base, gs, |gs|);
    var nameOff := NameOffs(zeros, base, gs, |gs|);
    Plan(gs, names.hn, nameOff, n, |names.buf|,
         NewDescs(base, SlotOffs(gs, 8 * n, |gs|), nameOff, SlotOffs(gs, 0, |gs|)))
  }

  /** The new descriptors are those of the plan. */
  ghost predicate NewsOf(base: nat, p: Plan) {
    && p.n == Slots(p.gs, |p.gs|) && |p.nameOff| == |p.gs|
    && p.news == NewDescs(base, SlotOffs(p.gs, 8 * p.n, |p.gs|), p.nameOff, SlotOffs(p.gs, 0, |p.gs|))
  }

  lemma {:induction false} PlanNews(gs: seq<Group>, base: nat)
    requires AsciiGroups(gs)
    ensures NewsOf(base, PlanOf(gs, base))
  {
  }

  /** Both tables hold the hint/name addresses. */
  ghost predicate TablesOk(area: seq<Byte>, p: Plan) {
    p.n == Slots(p.gs, |p.gs|) && 16 * p.n <= |area| && Tables(WordsOf(area), p.n, Thunks(p.gs, p.hn, |p.gs|))
  }

  /** The names stand where the plan says. */
  ghost predicate NamesIn(area: seq<Byte>, p: Plan) {
    && |p.nameOff| == |p.gs| && AsciiGroups(p.gs)
    && forall d :: 0 <= d < |p.gs| ==> Holds(area, p.nameOff[d], Encode(p.gs[d].dll) + [0])
  }

  ghost predicate KeysIn(p: Plan) {
    forall d, i :: 0 <= d < |p.gs| && 0 <= i < |p.gs[d].imps| ==> (p.gs[d].dll, p.gs[d].imps[i].func) in p.hn
  }

  /** The descriptors of the image as it was, those of the new DLLs, and a null descriptor. */
  function WithDescs(buf: seq<Byte>, olds: seq<Desc>, news: seq<Desc>): (area: seq<Byte>) {
    ZeroExtend(DescTable(DescTable(buf, olds, |olds|), news, |news|), 20)
  }

  /** `b` has the bytes of `a` from `lo` on. */
  ghost predicate SameTail(a: seq<Byte>, b: seq<Byte>, lo: nat) {
    |a| == |b| && lo <= |a| && b[lo..] == a[lo..]
  }

  lemma {:induction false} HoldsTail(a: seq<Byte>, b: seq<Byte>, lo: nat, o: nat, data: seq<Byte>)
    requires SameTail(a, b, lo) && lo <= o && Holds(a, o, data)
    ensures Holds(b, o, data)
  {
    SliceOfSlice(a, lo, |a|, o - lo, |data|);
    SliceOfSlice(b, lo, |b|, o - lo, |data|);
    assert a[lo..|a|] == a[lo..] && b[lo..|b|] == b[lo..];
  }

  lemma {:induction false} HintsTail(a: seq<Byte>, b: seq<Byte>, base: nat, lo: nat, hn: Hints)
    requires SameTail(a, b, lo) && HintsOk(a, base, lo, hn)
    ensures HintsOk(b, base, lo, hn)
  {
    forall key | key in hn
      ensures HintOk(b, base, lo, key.1, hn[key])
    {
      HoldsTail(a, b, lo, hn[key] - base, HintName(key.1));
    }
  }

  lemma {:induction false} AtPrefix(a: seq<Byte>, b: seq<Byte>, o: nat, w: nat)
    requires a <= b && o + w <= |a|
    ensures At(b, o, w) == At(a, o, w)
  {
    assert b[..|a|] == a;
    SliceOfSlice(b, 0, |a|, o, w);
  }

  lemma {:induction false} TablesPrefix(a: seq<Byte>, b: seq<Byte>, n: nat, pre: seq<nat>)
    requires a <= b && 16 * n <= |a| && Tables(WordsOf(a), n, pre)
    ensures Tables(WordsOf(b), n, pre)
  {
    var v, w := WordsOf(a), WordsOf(b);
    forall s | 0 <= s < n
      ensures w(8 * s) == Entry(pre, s) && w(8 * n + 8 * s) == Entry(pre, s)
    {
      assert v(8 * s) == Entry(pre, s) && v(8 * n + 8 * s) == Entry(pre, s);
      AtPrefix(a, b, 8 * s, 8);
      AtPrefix(a, b, 8 * n + 8 * s, 8);
    }
  }

  /** The names after the tables have been filled in and the descriptors appended. */
  lemma {:induction false} NamesStay(buf: seq<Byte>, filled: seq<Byte>, area: seq<Byte>, p: Plan)
    requires NamesIn(buf, p) && SameTail(buf, filled, 16 * p.n) && filled <= area
    requires forall d :: 0 <= d < |p.gs| ==> p.nameOff[d] >= 16 * p.n
    ensures NamesIn(area, p)
  {
    forall d | 0 <= d < |p.gs|
      ensures Holds(area, p.nameOff[d], Encode(p.gs[d].dll) + [0])
    {
      HoldsTail(buf, filled, 16 * p.n, p.nameOff[d], Encode(p.gs[d].dll) + [0]);
      HoldsPrefix(filled, area, p.nameOff[d], Encode(p.gs[d].dll) + [0]);
    }
  }

  /** The names right after they have been appended to the zeroed tables. */
  lemma {:induction false} NamesPlanned(zeros: seq<Byte>, base: nat, gs: seq<Group>, p: Plan)
    requires AsciiGroups(gs) && IsEven(|zeros|) && p.gs == gs
    requires p.nameOff == NameOffs(zeros, base, gs, |gs|) && p.hn == AddGroups(zeros, base, gs, |gs|).hn
    ensures NamesIn(AddGroups(zeros, base, gs, |gs|).buf, p) && KeysIn(p)
    ensures forall d :: 0 <= d < |gs| ==> p.nameOff[d] >= |zeros|
    ensures HintsOk(AddGroups(zeros, base, gs, |gs|).buf, base, |zeros|, p.hn)
    ensures zeros <= AddGroups(zeros, base, gs, |gs|).buf
  {
    AddGroupsOk(zeros, base, gs, |gs|);
    forall d | 0 <= d < |gs|
      ensures Holds(AddGroups(zeros, base, gs, |gs|).buf, p.nameOff[d], Encode(p.gs[d].dll) + [0])
      ensures p.nameOff[d] >= |zeros|
    {
      NameOffsAt(zeros, base, gs, |gs|, d);
      NameHeld(zeros, base, gs, |gs|, d, p.nameOff[d]);
      AddGroupsOk(zeros, base, gs, d);
    }
    forall d, i | 0 <= d < |p.gs| && 0 <= i < |p.gs[d].imps|
      ensures (p.gs[d].dll, p.gs[d].imps[i].func) in p.hn
    {
      AddGroupsKeys(zeros, base, gs, |gs|, d, i);
    }
  }

  lemma {:induction false} HintsSmall(buf: seq<Byte>, base: nat, lo: nat, hn: Hints)
    requires HintsOk(buf, base, lo, hn)
    ensures forall key :: key in hn ==> hn[key] + 3 <= base + |buf|
  {
    forall key | key in hn
      ensures hn[key] + 3 <= base + |buf|
    {
      assert HintOk(buf, base, lo, key.1, hn[key]);
    }
  }

  /** Both tables, zeroed. */
  method LayTables(gs: seq<Group>, va: nat, ghost n: nat)
    returns (zeros: seq<Byte>, iatVa: map<string, nat>, iats: seq<nat>, ilts: seq<nat>)
    requires n == Slots(gs, |gs|)
    ensures iatVa == SlotMap(gs, va, |gs|) && zeros == ZeroExtend([], 16 * n)
    ensures iats == SlotOffs(gs, 0, |gs|) && ilts == SlotOffs(gs, 8 * n, |gs|)
  {
    var iat;
    iat, iats, iatVa := LayIat(gs, va);
    zeros, ilts := LayIlt(gs, iat);
    assert zeros == ZeroExtend([], 16 * n);
  }

  /** The tables and the names, with the slot addresses of the symbols. */
  method BuildTables(gs: seq<Group>, va: nat, base: nat, ghost p: Plan)
    returns (buf: seq<Byte>, iatVa: map<string, nat>, iats: seq<nat>, ilts: seq<nat>, names: seq<nat>)
    requires AsciiGroups(gs) && p == PlanOf(gs, base) && base + p.desc <= 0x1_0000_0000
    ensures iatVa == SlotMap(gs, va, |gs|)
    ensures iats == SlotOffs(gs, 0, |gs|) && ilts == SlotOffs(gs, 8 * p.n, |gs|) && names == p.nameOff
    ensures |buf| == p.desc && IsArea(buf, base, p)
  {
    var zeros, named, hn;
    zeros, iatVa, iats, ilts := LayTables(gs, va, p.n);
    assert IsEven(|zeros|);
    named, names, hn := AppendNames(zeros, base, gs);
    NamesPlanned(zeros, base, gs, p);
    HintsSmall(named, base, 16 * p.n, hn);
    assert named[..16 * p.n] == zeros;
    ZeroTables(named, p.n);
    buf := FillThunks(named, gs, hn, p.n, iats, ilts);
    NamesStay(named, buf, buf, p);
    HintsTail(named, buf, base, 16 * p.n, hn);
  }

  /** Tables and names of the area at address `base`. */
  ghost predicate IsArea(area: seq<Byte>, base: nat, p: Plan) {
    TablesOk(area, p) && NamesIn(area, p) && KeysIn(p) && HintsOk(area, base, 16 * p.n, p.hn)
  }

  /** Its descriptors. */
  ghost predicate HasDescs(area: seq<Byte>, p: Plan, olds: seq<Desc>) {
    p.desc <= |area| && area == WithDescs(area[..p.desc], olds, p.news)
  }

  /** An import area for address `base`, laid out as `p`, with the directory at `dirRva`. */
  ghost predicate Built(area: seq<Byte>, dirRva: nat, base: nat, p: Plan, olds: seq<Desc>) {
    IsArea(area, base, p) && HasDescs(area, p, olds) && NewsOf(base, p) && dirRva == base + p.desc
  }

  lemma {:induction false} AreaDone(buf: seq<Byte>, base: nat, p: Plan, olds: seq<Desc>, area: seq<Byte>)
    requires |buf| == p.desc && IsArea(buf, base, p) && area == WithDescs(buf, olds, p.news)
    ensures IsArea(area, base, p) && HasDescs(area, p, olds)
  {
    assert buf <= DescTable(buf, olds, |olds|) <= area;
    assert area[..p.desc] == buf;
    TablesPrefix(buf, area, p.n, Thunks(p.gs, p.hn, |p.gs|));
    HintsKept(buf, area, base, 16 * p.n, p.hn);
    forall d | 0 <= d < |p.gs|
      ensures Holds(area, p.nameOff[d], Encode(p.gs[d].dll) + [0])
    {
      HoldsPrefix(buf, area, p.nameOff[d], Encode(p.gs[d].dll) + [0]);
    }
  }

  /** The tables, the names, then the descriptors. */
  method BuildArea(gs: seq<Group>, va: nat, base: nat, olds: seq<Desc>, ghost p: Plan)
    returns (area: seq<Byte>, iatVa: map<string, nat>, dirRva: nat)
    requires AsciiGroups(gs) && p == PlanOf(gs, base) && base + p.desc <= 0x1_0000_0000
    ensures Built(area, dirRva, base, p, olds) && iatVa == SlotMap(gs, va, |gs|)
  {
    var buf, iats, ilts, names;
    buf, iatVa, iats, ilts, names := BuildTables(gs, va, base, p);
    dirRva := base + |buf|;
    area := AppendDescs(buf, olds, NewDescs(base, ilts, names, iats));
    AreaDone(buf, base, p, olds, area);
    PlanNews(gs, base);
  }

  method AppendDescs(buf: seq<Byte>, olds: seq<Desc>, news: seq<Desc>) returns (area: seq<Byte>)
    ensures area == WithDescs(buf, olds, news)
  {
    area := AppendTable(buf, olds);
    area := AppendTable(area, news);
    area := ZeroExtend(area, 20);
  }

  /** The addresses of the area fit the 32-bit fields of the image. */
  ghost predicate FitsImage(imps: seq<Imp>, base: nat)
    requires AsciiImps(imps)
  {
    GroupsAscii(imps);
    base + PlanOf(GroupsOf(imps, |imps|), base).desc <= 0x1_0000_0000
  }

  /** The address of every symbol's slot when the area starts at `base`. */
  function IatFor(imps: seq<Imp>, ib: nat, base: nat): (m: map<string, nat>) {
    var gs := GroupsOf(imps, |imps|);
    SlotMap(gs, ib + base, |gs|)
  }

  /** The same for a section at `sectionRva` whose code takes `codeSize` bytes. */
  ghost predicate FitsSize(imps: seq<Imp>, sectionRva: nat, codeSize: nat)
    requires AsciiImps(imps)
  {
    FitsImage(imps, sectionRva + RoundUp(codeSize, 16))
  }

  /** The import area for a section at `sectionRva` whose code takes `codeSize` bytes: its bytes, the
      address of every symbol's slot, and the address of the import directory. */
  method BuildNewImports(imps: seq<Imp>, ib: nat, sectionRva: nat, codeSize: nat, olds: seq<Desc>)
    returns (area: seq<Byte>, iatVa: map<string, nat>, dirRva: nat, ghost base: nat, ghost p: Plan)
    requires AsciiImps(imps) && FitsSize(imps, sectionRva, codeSize)
    ensures base == sectionRva + RoundUp(codeSize, 16)
    ensures AsciiGroups(GroupsOf(imps, |imps|)) && p == PlanOf(GroupsOf(imps, |imps|), base)
    ensures Built(area, dirRva, base, p, olds) && p.gs == GroupsOf(imps, |imps|)
    ensures iatVa == IatFor(imps, ib, base)
  {
    GroupsAscii(imps);
    var gs := GroupByDll(imps);
    var rva := sectionRva + RoundUp(codeSize, 16);
    base, p := rva, PlanOf(gs, rva);
    var va := ib + rva;
    area, iatVa, dirRva := BuildArea(gs, va, rva, olds, p);
    IatForIs(imps, ib, base, va);
  }

  lemma {:induction false} IatForIs(imps: seq<Imp>, ib: nat, base: nat, va: nat)
    requires va == ib + base
    ensures IatFor(imps, ib, base) == SlotMap(GroupsOf(imps, |imps|), va, |GroupsOf(imps, |imps|)|)
  {
  }
}
