/** Where the imports of the generated section come from, and where its calls go: the import list collected
    from the recorded events, the loader that fills the slots, and the reconstructed code that calls through
    them. */
module DevrtImports {
  import opened Registers
  import opened Reconstruct
  import opened Simulation
  import opened TraceSimulation
  import opened Bytes
  import opened ImportArea
  import opened ImportWalk
  import opened DevrtLayout
  import opened DevrtImage
  import opened Options

  // ---------------------------------------------------------------- the import list

  /** A devirtualized function: its hook table and its events. */
  datatype Devirt = Devirt(hooks: HookMap, events: seq<Event>)

  /** The import of a hook; one without a DLL goes to a placeholder. */
  function ImpOf(h: Hook): (imp: Imp) {
    Imp(if h.dll == "?" then "unknown.dll" else h.dll, h.func, h.sym)
  }

  predicate HasSym(imps: seq<Imp>, sym: string) {
    exists i :: 0 <= i < |imps| && imps[i].sym == sym
  }

  /** One event: the first hooked call under a symbol adds its import. */
  function AddApi(imps: seq<Imp>, hooks: HookMap, ev: Event): (r: seq<Imp>)
    ensures imps <= r
  {
    if ev.hook in hooks && !HasSym(imps, hooks[ev.hook].sym) then imps + [ImpOf(hooks[ev.hook])] else imps
  }

  /** The first `k` events of a function. */
  function AddApis(imps: seq<Imp>, d: Devirt, k: nat): (r: seq<Imp>)
    requires k <= |d.events|
    ensures imps <= r
  {
    if k == 0 then imps else AddApi(AddApis(imps, d, k - 1), d.hooks, d.events[k - 1])
  }

  /** The first `k` functions. */
  function Apis(ds: seq<Devirt>, k: nat): (imps: seq<Imp>)
    requires k <= |ds|
  {
    if k == 0 then [] else AddApis(Apis(ds, k - 1), ds[k - 1], |ds[k - 1].events|)
  }

  method CollectApis(ds: seq<Devirt>) returns (imps: seq<Imp>)
    ensures imps == Apis(ds, |ds|)
  {
    imps := [];
    for f := 0 to |ds|
      invariant imps == Apis(ds, f)
    {
      ghost var before := imps;
      for k := 0 to |ds[f].events|
        invariant imps == AddApis(before, ds[f], k)
      {
        var ev := ds[f].events[k];
        if ev.hook !in ds[f].hooks {
          continue;
        }
        var info := ds[f].hooks[ev.hook];
        if HasSym(imps, info.sym) {
          continue;
        }
        imps := imps + [ImpOf(info)];
      }
    }
  }

  lemma {:induction false} AddDistinct(imps: seq<Imp>, hooks: HookMap, ev: Event)
    requires DistinctSyms(imps, |imps|)
    ensures var r := AddApi(imps, hooks, ev); DistinctSyms(r, |r|)
  {
  }

  lemma {:induction false} AddAllDistinct(imps: seq<Imp>, d: Devirt, k: nat)
    requires DistinctSyms(imps, |imps|) && k <= |d.events|
    ensures var r := AddApis(imps, d, k); DistinctSyms(r, |r|)
  {
    if k > 0 {
      AddAllDistinct(imps, d, k - 1);
      AddDistinct(AddApis(imps, d, k - 1), d.hooks, d.events[k - 1]);
    }
  }

  /** No symbol is imported twice. */
  lemma {:induction false} ApisDistinct(ds: seq<Devirt>, k: nat)
    requires k <= |ds|
    ensures DistinctSyms(Apis(ds, k), |Apis(ds, k)|)
  {
    if k > 0 {
      ApisDistinct(ds, k - 1);
      AddAllDistinct(Apis(ds, k - 1), ds[k - 1], |ds[k - 1].events|);
    }
  }

  lemma {:induction false} HasSymLater(a: seq<Imp>, b: seq<Imp>, sym: string)
    requires a <= b && HasSym(a, sym)
    ensures HasSym(b, sym)
  {
    var i :| 0 <= i < |a| && a[i].sym == sym;
    assert b[i] == a[i];
  }

  lemma {:induction false} AddApiHas(imps: seq<Imp>, hooks: HookMap, ev: Event)
    requires ev.hook in hooks
    ensures HasSym(AddApi(imps, hooks, ev), hooks[ev.hook].sym)
  {
    var r := AddApi(imps, hooks, ev);
    if r != imps {
      assert r[|imps|].sym == hooks[ev.hook].sym;
    }
  }

  lemma {:induction false} AddApisHas(imps: seq<Imp>, d: Devirt, k: nat, e: nat)
    requires e < k <= |d.events| && d.events[e].hook in d.hooks
    ensures HasSym(AddApis(imps, d, k), d.hooks[d.events[e].hook].sym)
  {
    if e == k - 1 {
      AddApiHas(AddApis(imps, d, k - 1), d.hooks, d.events[e]);
    } else {
      AddApisHas(imps, d, k - 1, e);
      HasSymLater(AddApis(imps, d, k - 1), AddApis(imps, d, k), d.hooks[d.events[e].hook].sym);
    }
  }

  /** Every hooked call of every function has an import under its symbol. */
  lemma {:induction false} ApisCover(ds: seq<Devirt>, k: nat, f: nat, e: nat)
    requires f < k <= |ds| && e < |ds[f].events| && ds[f].events[e].hook in ds[f].hooks
    ensures HasSym(Apis(ds, k), ds[f].hooks[ds[f].events[e].hook].sym)
  {
    var d := ds[f];
    if f == k - 1 {
      AddApisHas(Apis(ds, f), d, |d.events|, e);
    } else {
      ApisCover(ds, k - 1, f, e);
      HasSymLater(Apis(ds, k - 1), Apis(ds, k), d.hooks[d.events[e].hook].sym);
    }
  }

  /** The import is that of a hooked call of the functions. */
  ghost predicate FromCall(ds: seq<Devirt>, imp: Imp) {
    exists f, e :: 0 <= f < |ds| && 0 <= e < |ds[f].events| && CallImp(ds[f], e, imp)
  }

  ghost predicate CallImp(d: Devirt, e: nat, imp: Imp)
    requires e < |d.events|
  {
    && d.events[e].hook in d.hooks
    && var h := d.hooks[d.events[e].hook];
       imp.sym == h.sym && imp.func == h.func && imp.dll == if h.dll == "?" then "unknown.dll" else h.dll
  }

  lemma {:induction false} AddApisFrom(imps: seq<Imp>, d: Devirt, k: nat, imp: Imp) returns (e: nat)
    requires k <= |d.events| && imp in AddApis(imps, d, k) && imp !in imps
    ensures e < k && CallImp(d, e, imp)
  {
    if imp in AddApis(imps, d, k - 1) {
      e := AddApisFrom(imps, d, k - 1, imp);
    } else {
      e := k - 1;
    }
  }

  /** Nothing else is imported. */
  lemma {:induction false} ApisFrom(ds: seq<Devirt>, k: nat, imp: Imp)
    requires k <= |ds| && imp in Apis(ds, k)
    ensures FromCall(ds, imp)
  {
    if imp in Apis(ds, k - 1) {
      ApisFrom(ds, k - 1, imp);
    } else {
      var e := AddApisFrom(Apis(ds, k - 1), ds[k - 1], |ds[k - 1].events|, imp);
      assert CallImp(ds[k - 1], e, imp);
    }
  }

  // ---------------------------------------------------------------- the loader

  /** The address of a symbol of a DLL. */
  type Resolver = (seq<Byte>, Symbol) -> U64

  /** What the loader leaves in the address table of one descriptor. */
  ghost predicate DllLoaded(mem: nat -> U64, ib: nat, v: View, de: Desc, resolve: Resolver) {
    var d := WalkDll(v, de);
    forall e: nat :: e < |d.symbols| ==> mem(ib + de.iat + 8 * e) == resolve(d.name, d.symbols[e])
  }

  /** A loader has walked the import directory and filled every address table. */
  ghost predicate Loaded(mem: nat -> U64, ib: nat, v: View, ds: seq<Desc>, resolve: Resolver) {
    forall k :: 0 <= k < |ds| ==> DllLoaded(mem, ib, v, ds[k], resolve)
  }

  function Resolved(resolve: Resolver, imp: Imp): (a: U64)
    requires IsAscii(imp.dll) && IsAscii(imp.func)
  {
    resolve(Encode(imp.dll), ByName(0, Encode(imp.func)))
  }

  /** The slot of import `e` of DLL `d` holds that import's address. */
  lemma {:induction false} SlotLoaded(mem: nat -> U64, ib: nat, v: View, olds: seq<Desc>, p: Plan, resolve: Resolver,
      iat: Iat, d: nat, e: nat)
    requires |p.news| == |p.gs| && Decodes(v, olds + p.news, |olds|, p.gs) && SlotsAgree(iat, ib, p)
    requires Loaded(mem, ib, v, olds + p.news, resolve) && d < |p.gs| && e < |p.gs[d].imps|
    ensures AsciiGroup(p.gs[d]) && p.gs[d].imps[e].sym in iat
    ensures mem(iat[p.gs[d].imps[e].sym]) == resolve(Encode(p.gs[d].dll), ByName(0, Encode(p.gs[d].imps[e].func)))
  {
    var de := (olds + p.news)[|olds| + d];
    assert de == p.news[d];
    assert DllLoaded(mem, ib, v, de, resolve);
    assert WalkDll(v, de) == WantedDll(p.gs[d]);
    assert Wanted(p.gs[d])[e] == ByName(0, Encode(p.gs[d].imps[e].func));
  }

  lemma {:induction false} FilterHas(imps: seq<Imp>, dll: string, k: nat, i: nat) returns (e: nat)
    requires i < k <= |imps| && imps[i].dll == dll
    ensures e < |Filter(imps, dll, k)| && Filter(imps, dll, k)[e] == imps[i]
  {
    if i == k - 1 {
      e := |Filter(imps, dll, k - 1)|;
    } else {
      e := FilterHas(imps, dll, k - 1, i);
    }
  }

  /** Every import has its place in the groups. */
  lemma {:induction false} Grouped(imps: seq<Imp>, i: nat) returns (d: nat, e: nat)
    requires i < |imps|
    ensures var gs := GroupsOf(imps, |imps|);
            d < |gs| && e < |gs[d].imps| && gs[d].imps[e] == imps[i] && gs[d].dll == imps[i].dll
  {
    var gs := GroupsOf(imps, |imps|);
    GroupsExact(imps, |imps|);
    d :| 0 <= d < |gs| && gs[d].dll == imps[i].dll;
    e := FilterHas(imps, imps[i].dll, |imps|, i);
    assert gs[d].imps == Filter(imps, gs[d].dll, |imps|);
  }

  /** The section of job `j` stands in the image, where both passes agreed, and a loader has run. */
  ghost predicate InImage(j: Job, m: Made, dirRva: nat, img: seq<Byte>, v: View, mem: nat -> U64, resolve: Resolver) {
    && IsMade(j, m, dirRva) && OldsOk(j.olds) && m.base == j.rva + m.pass.cursor && m.base + |m.area| <= 0x8000_0000
    && Holds(img, j.rva, SectionOf(m.pass.placed, m.area)) && v == ViewOf(img)
    && Loaded(mem, j.ib, v, WalkDescs(v, dirRva), resolve)
  }

  /** The slot the code uses for an import holds the address the loader found for it. */
  lemma {:induction false} ImportLoaded(j: Job, m: Made, dirRva: nat, img: seq<Byte>, v: View, mem: nat -> U64,
      resolve: Resolver, i: nat)
    requires InImage(j, m, dirRva, img, v, mem, resolve) && DistinctSyms(j.imps, |j.imps|) && i < |j.imps|
    ensures IsAscii(j.imps[i].dll) && IsAscii(j.imps[i].func)
    ensures j.imps[i].sym in m.iat && mem(m.iat[j.imps[i].sym]) == Resolved(resolve, j.imps[i])
  {
    SectionDecodes(j, m, dirRva, img, v);
    SlotsAre(j.imps, j.ib, m.base, m.plan);
    var d, e := Grouped(j.imps, i);
    SlotLoaded(mem, j.ib, v, j.olds, m.plan, resolve, m.iat, d, e);
  }

  // ---------------------------------------------------------------- the calls

  /** The machine's import slots are the memory at the addresses the code was assembled against. */
  ghost predicate EnvOf(env: Env, mem: nat -> U64, iat: Iat) {
    forall sym :: sym in iat ==> sym in env.iat && env.iat[sym] == mem(iat[sym])
  }

  /** The import under a symbol. */
  ghost function Under(imps: seq<Imp>, sym: string): (i: nat)
    requires HasSym(imps, sym)
    ensures i < |imps| && imps[i].sym == sym
  {
    var i :| 0 <= i < |imps| && imps[i].sym == sym;
    i
  }

  /** The loader finds address `a` for the import under the symbol. */
  ghost predicate ResolvesTo(resolve: Resolver, imps: seq<Imp>, sym: string, a: U64) {
    && HasSym(imps, sym)
    && var imp := imps[Under(imps, sym)];
       IsAscii(imp.dll) && IsAscii(imp.func) && Resolved(resolve, imp) == a
  }

  /** The loader finds, for every call that goes through no register, the recorded target. */
  ghost predicate AllResolve(resolve: Resolver, imps: seq<Imp>, hooks: HookMap, events: seq<Event>)
    requires NoDark(hooks, events)
  {
    forall k :: 0 <= k < |events| && events[k].via.None? ==>
      ResolvesTo(resolve, imps, hooks[events[k].hook].sym, events[k].hook)
  }

  /** Calls through no register are to hooked addresses; a dark call names no slot and does not assemble. */
  ghost predicate NoDark(hooks: HookMap, events: seq<Event>) {
    forall k :: 0 <= k < |events| && events[k].via.None? ==> events[k].hook in hooks
  }

  /** One call: its slot resolves exactly if the loader finds the recorded target. */
  lemma {:induction false} CallMeets(ds: seq<Devirt>, f: nat, e: nat, env: Env, j: Job, m: Made, dirRva: nat,
      img: seq<Byte>, v: View, mem: nat -> U64, resolve: Resolver)
    requires f < |ds| && e < |ds[f].events| && ds[f].events[e].via.None? && ds[f].events[e].hook in ds[f].hooks
    requires j.imps == Apis(ds, |ds|) && InImage(j, m, dirRva, img, v, mem, resolve) && EnvOf(env, mem, m.iat)
    ensures var ev := ds[f].events[e];
            CallResolves(ds[f].hooks, env, ev) <==> ResolvesTo(resolve, j.imps, ds[f].hooks[ev.hook].sym, ev.hook)
  {
    ApisDistinct(ds, |ds|);
    ApisCover(ds, |ds|, f, e);
    ImportLoaded(j, m, dirRva, img, v, mem, resolve, Under(j.imps, ds[f].hooks[ds[f].events[e].hook].sym));
  }

  /** Reconstruction, section and loader together: for a function whose import list was collected from its own
      and the other functions' events, in a section that stands in the image after a loader has run, and with
      every block clean, the calls go to the recorded targets in order if and only if the loader finds them. */
  lemma {:induction false} SectionCalls(ds: seq<Devirt>, f: nat, ctx: Context, pre: RegFile, exit: U64, env: Env,
      st0: State, j: Job, m: Made, dirRva: nat, img: seq<Byte>, v: View, mem: nat -> U64, resolve: Resolver)
    requires f < |ds| && ctx.hooks == ds[f].hooks && NoDark(ctx.hooks, ds[f].events)
    requires Setup(ctx, pre, ds[f].events, env, st0) && AllClean(ctx, env, pre, ds[f].events)
    requires j.imps == Apis(ds, |ds|) && InImage(j, m, dirRva, img, v, mem, resolve) && EnvOf(env, mem, m.iat)
    ensures var events, fin := ds[f].events, Run(env, Reconstructed(ctx, pre, ds[f].events, exit), st0);
            && |fin.calls| == |events| && AllRegsMatch(events, fin.calls, |events|)
            && (SameTargets(events, fin.calls, |events|) <==> AllResolve(resolve, j.imps, ctx.hooks, events))
  {
    var events := ds[f].events;
    CallTraceExact(ctx, pre, events, exit, env, st0);
    assert CallsResolve(ctx.hooks, env, events, |events|) <==> AllResolve(resolve, j.imps, ctx.hooks, events) by {
      forall e | 0 <= e < |events| && events[e].via.None?
        ensures CallResolves(ctx.hooks, env, events[e]) <==>
                ResolvesTo(resolve, j.imps, ctx.hooks[events[e].hook].sym, events[e].hook)
      {
        CallMeets(ds, f, e, env, j, m, dirRva, img, v, mem, resolve);
      }
    }
  }
}
