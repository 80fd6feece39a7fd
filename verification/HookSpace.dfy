/** The emulator's address space above the image: a bump allocator and the hook
    addresses carved out of its regions. */
module HookSpace {
  import opened Align
  import opened Reconstruct

  const PAGE: nat := 0x1000

  datatype Region = Region(base: nat, size: nat) {
    /** End of the region once mapped in whole pages. */
    function MappedEnd(): nat {
      base + RoundUp(size, PAGE)
    }
  }

  /** Largest section end. */
  function Ceiling(ends: seq<nat>): (c: nat)
    requires |ends| > 0
    ensures c in ends && forall i :: 0 <= i < |ends| ==> ends[i] <= c
  {
    if |ends| == 1 then ends[0]
    else
      var c := Ceiling(ends[..|ends| - 1]);
      assert forall i :: 0 <= i < |ends| - 1 ==> ends[i] == ends[..|ends| - 1][i];
      if ends[|ends| - 1] > c then ends[|ends| - 1] else c
  }

  const GAP: nat := 0x100_0000

  /** Page-aligned regions, above every section, in order and apart. */
  ghost predicate Disjoint(regions: seq<Region>, ceiling: nat, cursor: nat) {
    && (forall i :: 0 <= i < |regions| ==>
          ceiling + GAP <= regions[i].base && regions[i].base % PAGE == 0
          && regions[i].base + regions[i].size <= cursor)
    && (forall i, j :: 0 <= i < j < |regions| ==> regions[i].base + regions[i].size <= regions[j].base)
  }

  /** Such regions stay apart even after each is rounded up to whole pages for mapping. */
  lemma {:induction false} MappedDisjoint(regions: seq<Region>, ceiling: nat, cursor: nat, i: nat, j: nat)
    requires Disjoint(regions, ceiling, cursor) && i < j < |regions|
    ensures regions[i].MappedEnd() <= regions[j].base
  {
    var r := regions[i];
    RoundUpShift(r.base, r.size, PAGE);
    CoarserRound(r.base + r.size, regions[j].base, PAGE);
  }

  lemma {:induction false} Pow2Page()
    ensures Pow2(12) == PAGE && Pow2(16) == 0x10000
  {
    assert Pow2(4) == 16;
    assert Pow2(8) == 2 * Pow2(7) == 4 * Pow2(6) == 8 * Pow2(5) == 16 * Pow2(4);
    assert Pow2(12) == 2 * Pow2(11) == 4 * Pow2(10) == 8 * Pow2(9) == 16 * Pow2(8);
    assert Pow2(16) == 2 * Pow2(15) == 4 * Pow2(14) == 8 * Pow2(13) == 16 * Pow2(12);
  }

  /** Allocating at a page-or-coarser alignment keeps all regions apart. */
  lemma {:induction false} AllocStep(regions: seq<Region>, ceiling: nat, cursor: nat, base: nat, size: nat, k: nat)
    requires Disjoint(regions, ceiling, cursor) && ceiling + GAP <= cursor <= base
    requires k >= 12 && base % Pow2(k) == 0
    ensures Disjoint(regions + [Region(base, size)], ceiling, base + size)
  {
    Pow2Page();
    MultipleOfPow2(base, 12, k);
  }

  // ---------------------------------------------------------------- hook addresses

  /** `n` hook addresses from `base` up. */
  function Fan(base: nat, n: nat): (s: set<nat>) {
    if n == 0 then {} else Fan(base, n - 1) + {base + 0x10 * (n - 1)}
  }

  lemma {:induction false} FanRange(base: nat, n: nat)
    ensures forall a :: a in Fan(base, n) ==> base <= a < base + 0x10 * n
    ensures |Fan(base, n)| == n
  {
    if n > 0 {
      FanRange(base, n - 1);
      assert base + 0x10 * (n - 1) !in Fan(base, n - 1);
    }
  }

  lemma {:induction false} FanHas(base: nat, n: nat, i: nat)
    requires i < n
    ensures base + 0x10 * i in Fan(base, n)
  {
    if i < n - 1 {
      FanHas(base, n - 1, i);
    }
  }

  function Mangle(s: string): (t: string)
    ensures |t| == |s|
  {
    seq(|s|, i requires 0 <= i < |s| =>
      if 'a' <= s[i] <= 'z' || 'A' <= s[i] <= 'Z' || '0' <= s[i] <= '9' || s[i] == '_' then s[i] else '_')
  }

  function Sym(dll: string, func: string): (s: string) {
    Mangle(dll + "_" + func)
  }

  predicate Alnum(c: char) {
    48 <= c as int <= 57 || 65 <= c as int <= 90 || 97 <= c as int <= 122
  }

  /** Names that only differ in characters that are no letters or digits. */
  ghost predicate Alike(a: string, b: string) {
    |a| == |b| && forall i :: 0 <= i < |a| ==> a[i] == b[i] || (!Alnum(a[i]) && !Alnum(b[i]))
  }

  /** Two APIs share a symbol exactly if their names, joined by an underscore, are alike. */
  lemma {:induction false} SharedSymbols(dll: string, func: string, dll': string, func': string)
    ensures Sym(dll, func) == Sym(dll', func') <==> Alike(dll + "_" + func, dll' + "_" + func')
  {
    var a, b := dll + "_" + func, dll' + "_" + func';
    if Mangle(a) == Mangle(b) {
      forall i | 0 <= i < |a|
        ensures a[i] == b[i] || (!Alnum(a[i]) && !Alnum(b[i]))
      {
        assert Mangle(a)[i] == Mangle(b)[i];
      }
    }
  }

  /** They do: a function of `a.dll` and one of `a` whose name starts with `dll_`. */
  lemma {:induction false} SymbolsCollide(func: string)
    ensures Sym("a.dll", func) == Sym("a", "dll_" + func)
  {
    var a, b := "a.dll" + "_" + func, "a" + "_" + ("dll_" + func);
    assert |a| == |b| && a[1] == '.' && b[1] == '_';
    assert forall i :: 0 <= i < |a| && i != 1 ==> a[i] == b[i];
    SharedSymbols("a.dll", func, "a", "dll_" + func);
  }

  /** An import of the image and the address of its table slot. */
  datatype Import = Import(dll: string, func: string, slot: U64)

  type U64 = x: int | 0 <= x < 0x1_0000_0000_0000_0000

  type Hooks = map<nat, Hook>

  function ImportHook(imp: Import): (h: Hook) {
    Hook(imp.dll, imp.func, imp.slot, Sym(imp.dll, imp.func))
  }

  /** The hooks `h` are those of `hooks` and `n` more from `lo` up. */
  ghost predicate Adds(hooks: Hooks, h: Hooks, lo: nat, n: nat) {
    h.Keys == hooks.Keys + Fan(lo, n)
  }

  /** Hooks for imports, one stride apart. */
  function IatHooks(hooks: Hooks, base: nat, imports: seq<Import>, k: nat): (h: Hooks)
    requires k <= |imports|
  {
    if k == 0 then hooks
    else
      IatHooks(hooks, base, imports, k - 1)[base + 0x10 * (k - 1) := ImportHook(imports[k - 1])]
  }

  lemma {:induction false} IatHooksKeys(hooks: Hooks, base: nat, imports: seq<Import>, k: nat)
    requires k <= |imports|
    ensures IatHooks(hooks, base, imports, k).Keys == hooks.Keys + Fan(base, k)
  {
    if k > 0 {
      IatHooksKeys(hooks, base, imports, k - 1);
    }
  }

  /** A pointer-sized value in the part of .rdata that holds unresolved API pointers. */
  predicate Dark(v: nat, lo: nat, hi: nat) {
    lo <= v < hi
  }

  /** The import loop: one fake address per import. */
  method HookImports(hooks: Hooks, base: nat, imports: seq<Import>) returns (h: Hooks)
    ensures h == IatHooks(hooks, base, imports, |imports|)
  {
    h := hooks;
    var fake := base;
    var k := 0;
    while k < |imports|
      invariant 0 <= k <= |imports| && fake == base + 0x10 * k
      invariant h == IatHooks(hooks, base, imports, k)
    {
      h := h[fake := ImportHook(imports[k])];
      fake := fake + 0x10;
      k := k + 1;
    }
  }

  /** Distinct dark values among the first `k`, in order of first occurrence. */
  function Dedup(vals: seq<nat>, lo: nat, hi: nat, k: nat): (d: seq<nat>)
    requires k <= |vals|
  {
    if k == 0 then []
    else
      var d, v := Dedup(vals, lo, hi, k - 1), vals[k - 1];
      if Dark(v, lo, hi) && v !in d then d + [v] else d
  }

  /** The order holds exactly the dark values seen, each once. */
  lemma {:induction false} DedupExact(vals: seq<nat>, lo: nat, hi: nat, k: nat)
    requires k <= |vals|
    ensures var d := Dedup(vals, lo, hi, k);
            && (forall i :: 0 <= i < k ==> (vals[i] in d <==> lo <= vals[i] < hi))
            && (forall i :: 0 <= i < |d| ==> d[i] in vals[..k])
            && forall i, j :: 0 <= i < j < |d| ==> d[i] != d[j]
  {
    if k > 0 {
      DedupExact(vals, lo, hi, k - 1);
      var d := Dedup(vals, lo, hi, k - 1);
      assert vals[..k] == vals[..k - 1] + [vals[k - 1]];
      assert vals[k - 1] in d ==> vals[k - 1] in vals[..k - 1];
    }
  }

  /** Value number i of the order has address number i. */
  function SeenMap(order: seq<nat>, base: nat): (m: map<nat, nat>) {
    if |order| == 0 then map[]
    else SeenMap(order[..|order| - 1], base)[order[|order| - 1] := base + 0x10 * (|order| - 1)]
  }

  lemma {:induction false} SeenMapAt(order: seq<nat>, base: nat)
    requires forall i, j :: 0 <= i < j < |order| ==> order[i] != order[j]
    ensures forall v :: v in SeenMap(order, base) <==> v in order
    ensures forall i :: 0 <= i < |order| ==> SeenMap(order, base)[order[i]] == base + 0x10 * i
  {
    if |order| > 0 {
      var n := |order| - 1;
      assert order == order[..n] + [order[n]];
      SeenMapAt(order[..n], base);
      assert forall i :: 0 <= i < n ==> order[..n][i] == order[i];
    }
  }

  /** The hooks after value `v`, when the values of `order` have their sentinels. */
  function WithSentinel(h: Hooks, order: seq<nat>, base: nat, v: nat, info: Hook): (r: Hooks) {
    var a := base + 0x10 * |order|;
    if v !in order && a !in h then h[a := info] else h
  }

  /** Hooks after the first `k` values: a fresh address gets the hook of the slot it was first seen in,
      unless the address is already taken. */
  function DarkHooks(hooks: Hooks, base: nat, vals: seq<nat>, lo: nat, hi: nat, info: seq<Hook>, k: nat): (h: Hooks)
    requires k <= |vals| == |info|
  {
    if k == 0 then hooks
    else
      var h := DarkHooks(hooks, base, vals, lo, hi, info, k - 1);
      if Dark(vals[k - 1], lo, hi) then WithSentinel(h, Dedup(vals, lo, hi, k - 1), base, vals[k - 1], info[k - 1])
      else h
  }

  lemma {:induction false} DarkHooksKeys(hooks: Hooks, base: nat, vals: seq<nat>, lo: nat, hi: nat, info: seq<Hook>,
      k: nat)
    requires k <= |vals| == |info|
    ensures var h := DarkHooks(hooks, base, vals, lo, hi, info, k);
            && h.Keys == hooks.Keys + Fan(base, |Dedup(vals, lo, hi, k)|)
            && forall a :: a in hooks ==> h[a] == hooks[a]
  {
    if k > 0 {
      DarkHooksKeys(hooks, base, vals, lo, hi, info, k - 1);
    }
  }

  /** Sentinel written over each dark value among the first `k`. */
  ghost predicate SlotsOk(slots: map<nat, nat>, seen: map<nat, nat>, vals: seq<nat>, lo: nat, hi: nat, k: nat)
    requires k <= |vals|
  {
    && (forall i :: i in slots <==> 0 <= i < k && lo <= vals[i] < hi)
    && (forall i :: i in slots ==> vals[i] in seen && slots[i] == seen[vals[i]])
  }

  lemma {:induction false} SlotsAdd(slots: map<nat, nat>, seen: map<nat, nat>, seen': map<nat, nat>, vals: seq<nat>,
      lo: nat, hi: nat, k: nat)
    requires k < |vals| && SlotsOk(slots, seen, vals, lo, hi, k)
    requires forall v :: v in seen ==> v in seen' && seen'[v] == seen[v]
    ensures Dark(vals[k], lo, hi) && vals[k] in seen' ==>
              SlotsOk(slots[k := seen'[vals[k]]], seen', vals, lo, hi, k + 1)
    ensures !Dark(vals[k], lo, hi) ==> SlotsOk(slots, seen', vals, lo, hi, k + 1)
  {
  }

  /** The table of sentinels for an order of values; all of them are hooked. */
  ghost predicate Table(seen: map<nat, nat>, order: seq<nat>, base: nat, hooks: Hooks) {
    && seen == SeenMap(order, base)
    && (forall v :: v in seen <==> v in order)
    && (forall v :: v in seen ==> seen[v] in hooks)
  }

  /** One dark value: look its sentinel up, or hand out the next one. */
  method SentinelFor(hooks: Hooks, seen: map<nat, nat>, ghost order: seq<nat>, base: nat, v: nat, info: Hook, n: nat)
    returns (h: Hooks, seen': map<nat, nat>, n': nat)
    requires Table(seen, order, base, hooks) && n == |order|
    ensures h == WithSentinel(hooks, order, base, v, info)
    ensures v in order ==> seen' == seen && n' == n
    ensures v !in order ==> n' == n + 1 && Table(seen', order + [v], base, h)
    ensures v in seen' && forall w :: w in seen ==> w in seen' && seen'[w] == seen[w]
  {
    h, seen', n' := hooks, seen, n;
    var sentinel := base + 0x10 * n;
    if v in seen {
      sentinel := seen[v];
    } else {
      seen' := seen[v := sentinel];
      n' := n + 1;
      assert (order + [v])[..n] == order;
    }
    if sentinel !in h {
      h := h[sentinel := info];
    }
  }

  /** The .rdata loop. */
  method HookDarkValues(hooks: Hooks, base: nat, vals: seq<nat>, lo: nat, hi: nat, slotHook: seq<Hook>)
    returns (h: Hooks, n: nat, slots: map<nat, nat>)
    requires |slotHook| == |vals|
    ensures n == |Dedup(vals, lo, hi, |vals|)|
    ensures h == DarkHooks(hooks, base, vals, lo, hi, slotHook, |vals|)
    ensures SlotsOk(slots, SeenMap(Dedup(vals, lo, hi, |vals|), base), vals, lo, hi, |vals|)
    ensures forall i :: i in slots ==> slots[i] in h
  {
    h, n, slots := hooks, 0, map[];
    var seen: map<nat, nat> := map[];
    ghost var order: seq<nat> := [];
    var k := 0;
    while k < |vals|
      invariant 0 <= k <= |vals|
      invariant order == Dedup(vals, lo, hi, k) && n == |order|
      invariant Table(seen, order, base, h)
      invariant SlotsOk(slots, seen, vals, lo, hi, k)
      invariant h == DarkHooks(hooks, base, vals, lo, hi, slotHook, k)
    {
      var v := vals[k];
      if Dark(v, lo, hi) {
        ghost var seen0 := seen;
        h, seen, n := SentinelFor(h, seen, order, base, v, slotHook[k], n);
        order := if v in order then order else order + [v];
        SlotsAdd(slots, seen0, seen, vals, lo, hi, k);
        slots := slots[k := seen[v]];
      } else {
        SlotsAdd(slots, seen, seen, vals, lo, hi, k);
      }
      k := k + 1;
    }
  }

  /** Two dark slots get the same sentinel exactly when they hold the same value. */
  lemma {:induction false} SentinelsDistinguish(slots: map<nat, nat>, base: nat, vals: seq<nat>, lo: nat, hi: nat,
      i: nat, j: nat)
    requires SlotsOk(slots, SeenMap(Dedup(vals, lo, hi, |vals|), base), vals, lo, hi, |vals|)
    requires i in slots && j in slots
    ensures slots[i] == slots[j] <==> vals[i] == vals[j]
  {
    var order := Dedup(vals, lo, hi, |vals|);
    DedupExact(vals, lo, hi, |vals|);
    SeenMapAt(order, base);
    var a :| 0 <= a < |order| && order[a] == vals[i];
    var b :| 0 <= b < |order| && order[b] == vals[j];
  }

  const IAT_SPACE: nat := 0x10000
  const RDATA_SPACE: nat := 0x20000

  class Space {
    var cursor: nat
    var hooks: Hooks
    ghost var regions: seq<Region>
    ghost const ceiling: nat

    ghost predicate Valid()
      reads this
    {
      ceiling + GAP <= cursor && Disjoint(regions, ceiling, cursor)
    }

    /** Nothing is hooked in the space still to be handed out. */
    ghost predicate Below()
      reads this
    {
      forall a :: a in hooks ==> a < cursor
    }

    constructor (ends: seq<nat>)
      requires |ends| > 0
      ensures Valid() && Below() && regions == [] && hooks == map[]
      ensures cursor == RoundUp(Ceiling(ends) + 0x100_0000, 0x10000)
      ensures forall i :: 0 <= i < |ends| ==> ends[i] <= ceiling
      ensures cursor % 0x10000 == 0
    {
      cursor := RoundUp(Ceiling(ends) + GAP, 0x10000);
      ceiling := Ceiling(ends);
      regions := [];
      hooks := map[];
    }

    /** Sequential allocation at alignment 2^k. */
    method Alloc(size: nat, k: nat) returns (base: nat)
      requires Valid() && k >= 12
      modifies this`cursor, this`regions
      ensures Valid()
      ensures base == RoundUp(old(cursor), Pow2(k)) && cursor == base + size
      ensures old(Below()) ==> Below()
      ensures regions == old(regions) + [Region(base, size)]
    {
      base := RoundUp(cursor, Pow2(k));
      AllocStep(regions, ceiling, cursor, base, size, k);
      cursor := base + size;
      regions := regions + [Region(base, size)];
    }

    /** Allocation at the default alignment of 64 KB. */
    method AllocBlock(size: nat) returns (base: nat)
      requires Valid()
      modifies this`cursor, this`regions
      ensures Valid() && (old(Below()) ==> Below())
      ensures base == RoundUp(old(cursor), 0x10000) && cursor == base + size
      ensures regions == old(regions) + [Region(base, size)]
    {
      Pow2Page();
      base := Alloc(size, 16);
    }

    /** Take over the hooks `h`, which add `n` stubs from `lo` up to those that were there. */
    method AddStubs(h: Hooks, ghost lo: nat, ghost n: nat)
      requires Valid() && Adds(hooks, h, lo, n) && lo + 0x10 * n <= cursor
      requires forall a :: a in hooks ==> a < lo
      modifies this`hooks
      ensures Valid() && Below() && hooks == h && |hooks| == |old(hooks)| + n
    {
      FanRange(lo, n);
      assert hooks.Keys !! Fan(lo, n);
      assert |h.Keys| == |hooks.Keys| + |Fan(lo, n)|;
      hooks := h;
    }

    /** Hook every import of the image; returns the base of the fake addresses. */
    method FillIat(imports: seq<Import>) returns (base: nat)
      requires Valid()
      modifies this
      ensures Valid()
      ensures base == RoundUp(old(cursor), 0x10000) && cursor == base + IAT_SPACE
      ensures regions == old(regions) + [Region(base, IAT_SPACE)]
      ensures hooks == IatHooks(old(hooks), base, imports, |imports|)
    {
      base := AllocBlock(IAT_SPACE);
      hooks := HookImports(hooks, base, imports);
    }

    /** Give every dark value of .rdata a sentinel. */
    method FillRdata(vals: seq<nat>, lo: nat, hi: nat, slotHook: seq<Hook>)
      returns (base: nat, n: nat, slots: map<nat, nat>)
      requires Valid() && |slotHook| == |vals|
      modifies this
      ensures Valid()
      ensures base == RoundUp(old(cursor), 0x10000) && cursor == base + RDATA_SPACE
      ensures n == |Dedup(vals, lo, hi, |vals|)|
      ensures hooks == DarkHooks(old(hooks), base, vals, lo, hi, slotHook, |vals|)
      ensures SlotsOk(slots, SeenMap(Dedup(vals, lo, hi, |vals|), base), vals, lo, hi, |vals|)
      ensures forall i :: i in slots ==> slots[i] in hooks
    {
      base := AllocBlock(RDATA_SPACE);
      hooks, n, slots := HookDarkValues(hooks, base, vals, lo, hi, slotHook);
    }
  }

  /** Hook addresses below `iatBase` (fake export stubs), then the import hooks, then the .rdata sentinels
      right behind: all distinct if and only if the imports stay within their 4096 slots or there is
      no sentinel to run into. */
  lemma {:induction false} HookAddressesDistinct(stubs: set<nat>, iatBase: nat, nImports: nat, nDark: nat)
    requires forall a :: a in stubs ==> a < iatBase
    ensures var all := stubs + Fan(iatBase, nImports) + Fan(iatBase + IAT_SPACE, nDark);
            |all| == |stubs| + nImports + nDark <==> nImports <= 4096 || nDark == 0
  {
    var a, b := Fan(iatBase, nImports), Fan(iatBase + IAT_SPACE, nDark);
    FanRange(iatBase, nImports);
    FanRange(iatBase + IAT_SPACE, nDark);
    assert stubs !! a && stubs !! b;
    assert |stubs + a| == |stubs| + |a|;
    if nImports <= 4096 || nDark == 0 {
      assert (stubs + a) !! b;
      assert |stubs + a + b| == |stubs + a| + |b|;
    } else {
      FanHas(iatBase, nImports, 4096);
      FanHas(iatBase + IAT_SPACE, nDark, 0);
      UnionSmaller(stubs + a, b, iatBase + IAT_SPACE);
    }
  }

  lemma {:induction false} UnionSmaller(a: set<nat>, b: set<nat>, x: nat)
    requires x in a && x in b
    ensures |a + b| < |a| + |b|
  {
    assert a + b == a + (b - {x});
    assert |b - {x}| == |b| - 1;
    SetUnionSize(a, b - {x});
  }

  lemma {:induction false} SetUnionSize(a: set<nat>, b: set<nat>)
    ensures |a + b| <= |a| + |b|
  {
    assert a + b == a + (b - a);
    assert |a + (b - a)| == |a| + |b - a|;
    assert b == (b - a) + (b * a);
  }

  /** The two fills as the emulator runs them: the sentinels start exactly where the import space ends, and
      the number of distinct hooks is the number of hooked things exactly under the stated condition. */
  method FillHooks(space: Space, imports: seq<Import>, vals: seq<nat>, lo: nat, hi: nat, slotHook: seq<Hook>)
    returns (n: nat)
    requires space.Valid() && space.Below() && |slotHook| == |vals|
    modifies space
    ensures space.Valid()
    ensures n == |Dedup(vals, lo, hi, |vals|)|
    ensures |space.hooks| == |old(space.hooks)| + |imports| + n <==> |imports| <= 4096 || n == 0
  {
    var iatBase := space.FillIat(imports);
    var base, m, slots := space.FillRdata(vals, lo, hi, slotHook);
    n := m;
    NextBlock(iatBase);
    FilledKeys(old(space.hooks), iatBase, base, imports, vals, lo, hi, slotHook, n);
    CountHooks(old(space.hooks), space.hooks, iatBase, |imports|, n);
  }

  lemma {:induction false} FilledKeys(hooks: Hooks, iatBase: nat, base: nat, imports: seq<Import>, vals: seq<nat>,
      lo: nat, hi: nat, info: seq<Hook>, n: nat)
    requires |info| == |vals| && base == iatBase + IAT_SPACE && n == |Dedup(vals, lo, hi, |vals|)|
    ensures DarkHooks(IatHooks(hooks, iatBase, imports, |imports|), base, vals, lo, hi, info, |vals|).Keys ==
            hooks.Keys + Fan(iatBase, |imports|) + Fan(iatBase + IAT_SPACE, n)
  {
    IatHooksKeys(hooks, iatBase, imports, |imports|);
    DarkHooksKeys(IatHooks(hooks, iatBase, imports, |imports|), base, vals, lo, hi, info, |vals|);
  }

  lemma {:induction false} CountHooks(before: Hooks, after: Hooks, iatBase: nat, nImports: nat, nDark: nat)
    requires forall a :: a in before ==> a < iatBase
    requires after.Keys == before.Keys + Fan(iatBase, nImports) + Fan(iatBase + IAT_SPACE, nDark)
    ensures |after| == |before| + nImports + nDark <==> nImports <= 4096 || nDark == 0
  {
    HookAddressesDistinct(before.Keys, iatBase, nImports, nDark);
  }

  lemma {:induction false} NextBlock(iatBase: nat)
    requires iatBase % 0x10000 == 0
    ensures RoundUp(iatBase + IAT_SPACE, 0x10000) == iatBase + IAT_SPACE
  {
    SumOfMultiples(iatBase, IAT_SPACE, 0x10000);
    RoundUpFixed(iatBase + IAT_SPACE, 0x10000);
  }
}
