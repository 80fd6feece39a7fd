/** A loader's walk over the import directory (section 6.4 of the PE/COFF specification), and what it
    finds in the area that ImportArea builds. */
module ImportWalk {
  import opened Bytes
  import opened ImportArea

  // ---------------------------------------------------------------- the walk

  function DescAt(v: View, o: nat): (d: Desc) {
    Desc(v.word(o, 4), v.word(o + 4, 4), v.word(o + 8, 4), v.word(o + 12, 4), v.word(o + 16, 4))
  }

  /** Entries `k`, `k + 1`, ... of a table, up to the first one that is `stop`; `limit` entries fit. */
  function Walk<T(==)>(at: nat -> T, stop: T, limit: nat, k: nat): (ts: seq<T>)
    decreases limit - k
  {
    if k >= limit || at(k) == stop then [] else [at(k)] + Walk(at, stop, limit, k + 1)
  }

  /** How many entries of `w` bytes fit from address `o` on. */
  function Room(v: View, o: nat, w: nat): (n: nat)
    requires w > 0
  {
    if o <= v.size then (v.size - o) / w else 0
  }

  function DescsAt(v: View, o: nat): (at: nat -> Desc) {
    (k: nat) => DescAt(v, o + 20 * k)
  }

  /** The descriptors from address `o` up to the null one. */
  function WalkDescs(v: View, o: nat): (ds: seq<Desc>) {
    Walk(DescsAt(v, o), NULL_DESC, Room(v, o, 20), 0)
  }

  function ThunksAt(v: View, o: nat): (at: nat -> nat) {
    (k: nat) => v.word(o + 8 * k, 8)
  }

  /** The entries of the lookup or address table at `o`, up to the zero entry. */
  function WalkThunks(v: View, o: nat): (ts: seq<nat>) {
    Walk(ThunksAt(v, o), 0, Room(v, o, 8), 0)
  }

  datatype Symbol = ByOrdinal(ordinal: nat) | ByName(hint: nat, name: seq<Byte>)

  /** Bit 63 selects import by ordinal; otherwise the low 31 bits address a hint/name entry. */
  function SymbolAt(v: View, t: nat): (s: Symbol) {
    if t >= 0x8000_0000_0000_0000 then ByOrdinal(t % 0x1_0000)
    else ByName(v.word(t % 0x8000_0000, 2), v.str(t % 0x8000_0000 + 2))
  }

  function Symbols(v: View, ts: seq<nat>): (ss: seq<Symbol>) {
    seq(|ts|, i requires 0 <= i < |ts| => SymbolAt(v, ts[i]))
  }

  // ---------------------------------------------------------------- what the area shows

  ghost predicate HintsSeen(v: View, hn: Hints) {
    forall key :: key in hn ==>
      IsAscii(key.1) && 0 < hn[key] < 0x8000_0000 && v.word(hn[key], 2) == 0 && v.str(hn[key] + 2) == Encode(key.1)
  }

  /** The entries of the table are `ts`, then a `stop`. */
  ghost predicate Seen<T>(at: nat -> T, stop: T, ts: seq<T>) {
    at(|ts|) == stop && forall i :: 0 <= i < |ts| ==> at(i) == ts[i] && ts[i] != stop
  }

  lemma {:induction false} WalkIs<T>(at: nat -> T, stop: T, limit: nat, ts: seq<T>, k: nat)
    requires Seen(at, stop, ts) && k <= |ts| <= limit
    ensures Walk(at, stop, limit, k) == ts[k..]
    decreases |ts| - k
  {
    if k < |ts| {
      WalkIs(at, stop, limit, ts, k + 1);
      assert ts[k..] == [ts[k]] + ts[k + 1..];
    }
  }

  lemma {:induction false} GroupThunksAt(g: Group, hn: Hints, k: nat, i: nat)
    requires i < k <= |g.imps|
    ensures GroupThunks(g, hn, k)[i] == Rva(hn, g.dll, g.imps[i].func)
  {
    if i < k - 1 {
      GroupThunksAt(g, hn, k - 1, i);
    }
  }

  /** The part of the tables that belongs to group `d`. */
  lemma {:induction false} ThunkEntry(gs: seq<Group>, hn: Hints, m: nat, d: nat, i: nat)
    requires d < m <= |gs| && i <= |gs[d].imps|
    ensures Slots(gs, d) + i < Slots(gs, m)
    ensures Entry(Thunks(gs, hn, m), Slots(gs, d) + i) ==
            if i < |gs[d].imps| then GroupThunks(gs[d], hn, |gs[d].imps|)[i] else 0
  {
    if d < m - 1 {
      ThunkEntry(gs, hn, m - 1, d, i);
    }
  }

  ghost predicate Addressed(g: Group, hn: Hints) {
    forall i :: 0 <= i < |g.imps| ==> Rva(hn, g.dll, g.imps[i].func) != 0
  }

  /** A table of `n` entries at address `o`. */
  ghost predicate TableSeen(v: View, o: nat, n: nat, ts: seq<nat>) {
    o + 8 * n <= v.size && forall s :: 0 <= s < n ==> v.word(o + 8 * s, 8) == Entry(ts, s)
  }

  /** `ts` and a zero stand at entry `k` of a table. */
  ghost predicate Stands(all: seq<nat>, n: nat, k: nat, ts: seq<nat>) {
    k + |ts| < n && forall i :: 0 <= i <= |ts| ==> Entry(all, k + i) == Entry(ts, i)
  }

  lemma {:induction false} StandsSeen(v: View, o: nat, n: nat, all: seq<nat>, k: nat, ts: seq<nat>)
    requires TableSeen(v, o, n, all) && Stands(all, n, k, ts) && forall i :: 0 <= i < |ts| ==> ts[i] != 0
    ensures Seen(ThunksAt(v, o + 8 * k), 0, ts) && |ts| <= Room(v, o + 8 * k, 8)
  {
    var at := ThunksAt(v, o + 8 * k);
    forall i | 0 <= i <= |ts|
      ensures at(i) == Entry(ts, i)
    {
      assert v.word(o + 8 * (k + i), 8) == Entry(all, k + i);
    }
  }

  lemma {:induction false} GroupStands(gs: seq<Group>, hn: Hints, d: nat)
    requires d < |gs| && Addressed(gs[d], hn)
    ensures Stands(Thunks(gs, hn, |gs|), Slots(gs, |gs|), Slots(gs, d), GroupThunks(gs[d], hn, |gs[d].imps|))
    ensures var ts := GroupThunks(gs[d], hn, |gs[d].imps|); forall i :: 0 <= i < |ts| ==> ts[i] != 0
  {
    var ts := GroupThunks(gs[d], hn, |gs[d].imps|);
    ThunkEntry(gs, hn, |gs|, d, |ts|);
    forall i | 0 <= i <= |ts|
      ensures Entry(Thunks(gs, hn, |gs|), Slots(gs, d) + i) == Entry(ts, i)
    {
      ThunkEntry(gs, hn, |gs|, d, i);
    }
    forall i | 0 <= i < |ts|
      ensures ts[i] != 0
    {
      GroupThunksAt(gs[d], hn, |gs[d].imps|, i);
    }
  }

  /** The table of group `d`, from whichever of the two tables it is read. */
  lemma {:induction false} GroupWalk(v: View, o: nat, gs: seq<Group>, hn: Hints, d: nat, p: nat, ts: seq<nat>)
    requires d < |gs| && TableSeen(v, o, Slots(gs, |gs|), Thunks(gs, hn, |gs|)) && Addressed(gs[d], hn)
    requires p == o + 8 * Slots(gs, d) && ts == GroupThunks(gs[d], hn, |gs[d].imps|)
    ensures WalkThunks(v, p) == ts
  {
    GroupStands(gs, hn, d);
    StandsSeen(v, o, Slots(gs, |gs|), Thunks(gs, hn, |gs|), Slots(gs, d), ts);
    WalkIs(ThunksAt(v, p), 0, Room(v, p, 8), ts, 0);
    assert ts[0..] == ts;
  }

  /** The symbols a group asks for. */
  function Wanted(g: Group): (ss: seq<Symbol>)
    requires AsciiGroup(g)
  {
    seq(|g.imps|, i requires 0 <= i < |g.imps| => ByName(0, Encode(g.imps[i].func)))
  }

  lemma {:induction false} SymbolsWanted(v: View, g: Group, hn: Hints)
    requires AsciiGroup(g) && HintsSeen(v, hn)
    requires forall i :: 0 <= i < |g.imps| ==> (g.dll, g.imps[i].func) in hn
    ensures Symbols(v, GroupThunks(g, hn, |g.imps|)) == Wanted(g)
  {
    var ts := GroupThunks(g, hn, |g.imps|);
    forall i | 0 <= i < |ts|
      ensures SymbolAt(v, ts[i]) == ByName(0, Encode(g.imps[i].func))
    {
      GroupThunksAt(g, hn, |g.imps|, i);
      SmallAddress(ts[i]);
    }
  }

  lemma {:induction false} SmallAddress(t: nat)
    requires t < 0x8000_0000
    ensures t % 0x8000_0000 == t
  {
  }

  // ---------------------------------------------------------------- from bytes to the view

  lemma {:induction false} HoldsInside(img: seq<Byte>, base: nat, area: seq<Byte>, o: nat, data: seq<Byte>)
    requires Holds(img, base, area) && Holds(area, o, data)
    ensures Holds(img, base + o, data)
  {
    SliceOfSlice(img, base, base + |area|, o, |data|);
  }

  lemma {:induction false} AtInside(img: seq<Byte>, base: nat, area: seq<Byte>, o: nat, w: nat)
    requires Holds(img, base, area) && o + w <= |area|
    ensures At(img, base + o, w) == At(area, o, w)
  {
    SliceOfSlice(img, base, base + |area|, o, w);
  }

  lemma {:induction false} TablesShown(img: seq<Byte>, base: nat, area: seq<Byte>, n: nat, ts: seq<nat>)
    requires Holds(img, base, area) && 16 * n <= |area| && Tables(WordsOf(area), n, ts)
    ensures TableSeen(ViewOf(img), base, n, ts) && TableSeen(ViewOf(img), base + 8 * n, n, ts)
  {
    var w, v := WordsOf(area), ViewOf(img);
    forall s | 0 <= s < n
      ensures v.word(base + 8 * s, 8) == Entry(ts, s) && v.word(base + 8 * n + 8 * s, 8) == Entry(ts, s)
    {
      assert w(8 * s) == Entry(ts, s) && w(8 * n + 8 * s) == Entry(ts, s);
      AtInside(img, base, area, 8 * s, 8);
      AtInside(img, base, area, 8 * n + 8 * s, 8);
    }
  }

  lemma {:induction false} HintRead(img: seq<Byte>, o: nat, func: string)
    requires IsAscii(func) && Holds(img, o, HintName(func))
    ensures o < |img| && At(img, o, 2) == 0 && CString(img, o + 2) == Encode(func)
  {
    var h := HintName(func);
    SliceOfSlice(img, o, o + |h|, 0, 2);
    assert h[0..2] == [0, 0];
    ZeroValue([0, 0]);
    SliceOfSlice(img, o, o + |h|, 2, |func| + 1);
    assert h[2..2 + (|func| + 1)] == Encode(func) + [0];
    CStringAt(img, o + 2, Encode(func));
  }

  lemma {:induction false} HintsShown(img: seq<Byte>, base: nat, area: seq<Byte>, lo: nat, hn: Hints)
    requires Mapped(img, base, area) && HintsOk(area, base, lo, hn) && lo > 0
    ensures HintsSeen(ViewOf(img), hn)
  {
    var v := ViewOf(img);
    forall key | key in hn
      ensures IsAscii(key.1) && 0 < hn[key] < 0x8000_0000 && v.word(hn[key], 2) == 0
      ensures v.str(hn[key] + 2) == Encode(key.1)
    {
      assert HintOk(area, base, lo, key.1, hn[key]);
      HoldsInside(img, base, area, hn[key] - base, HintName(key.1));
      HintRead(img, hn[key], key.1);
    }
  }

  lemma {:induction false} FieldRead(img: seq<Byte>, o: nat, data: seq<Byte>, j: nat, x: nat)
    requires Holds(img, o, data) && j + 4 <= |data| && data[j..j + 4] == LE(x, 4) && x < 0x1_0000_0000
    ensures At(img, o + j, 4) == x
  {
    SliceOfSlice(img, o, o + |data|, j, 4);
    Widths();
    LEValue(x, 4);
  }

  lemma {:induction false} FiveWords(p: seq<Byte>, q: seq<Byte>, r: seq<Byte>, s: seq<Byte>, t: seq<Byte>)
    requires |p| == |q| == |r| == |s| == |t| == 4
    ensures var b := p + q + r + s + t;
            b[0..4] == p && b[4..8] == q && b[8..12] == r && b[12..16] == s && b[16..20] == t
  {
  }

  lemma {:induction false} DescRead(img: seq<Byte>, o: nat, d: Desc)
    requires Holds(img, o, DescBytes(d)) && d.Fits()
    ensures DescAt(ViewOf(img), o) == d
  {
    var b := DescBytes(d);
    FiveWords(LE(d.ilt, 4), LE(d.stamp, 4), LE(d.chain, 4), LE(d.name, 4), LE(d.iat, 4));
    FieldRead(img, o, b, 0, d.ilt);
    FieldRead(img, o, b, 4, d.stamp);
    FieldRead(img, o, b, 8, d.chain);
    FieldRead(img, o, b, 12, d.name);
    FieldRead(img, o, b, 16, d.iat);
  }

  lemma {:induction false} DescTableAt(buf: seq<Byte>, ds: seq<Desc>, m: nat, k: nat)
    requires k < m <= |ds|
    ensures Holds(DescTable(buf, ds, m), |buf| + 20 * k, DescBytes(ds[k]))
  {
    if k < m - 1 {
      DescTableAt(buf, ds, m - 1, k);
      HoldsPrefix(DescTable(buf, ds, m - 1), DescTable(buf, ds, m), |buf| + 20 * k, DescBytes(ds[k]));
    }
  }

  lemma {:induction false} DescShown(img: seq<Byte>, base: nat, area: seq<Byte>, o: nat, d: Desc, at: nat)
    requires Holds(img, base, area) && Holds(area, o, DescBytes(d)) && d.Fits() && at == base + o
    ensures DescAt(ViewOf(img), at) == d
  {
    HoldsInside(img, base, area, o, DescBytes(d));
    DescRead(img, at, d);
  }

  // ---------------------------------------------------------------- round trip

  /** Descriptors read from an image: 32-bit fields, up to the null descriptor. */
  ghost predicate OldsOk(olds: seq<Desc>) {
    forall k :: 0 <= k < |olds| ==> olds[k].Fits() && olds[k] != NULL_DESC
  }

  /** The import area at its address, which leaves bit 31 of every entry clear. */
  ghost predicate Mapped(img: seq<Byte>, base: nat, area: seq<Byte>) {
    Holds(img, base, area) && base + |area| <= 0x8000_0000
  }

  lemma {:induction false} NewDescIs(base: nat, p: Plan, d: nat)
    requires NewsOf(base, p) && d < |p.gs|
    ensures p.news[d] == Desc(base + 8 * p.n + 8 * Slots(p.gs, d), 0, 0, base + p.nameOff[d], base + 8 * Slots(p.gs, d))
    ensures Slots(p.gs, d) < p.n
  {
    SlotOffsAt(p.gs, 8 * p.n, |p.gs|, d);
    SlotOffsAt(p.gs, 0, |p.gs|, d);
    SlotsMonotone(p.gs, d + 1, |p.gs|);
  }

  lemma {:induction false} NewsFit(base: nat, area: seq<Byte>, p: Plan, d: nat)
    requires base + |area| < 0x1_0000_0000 && TablesOk(area, p) && NamesIn(area, p) && NewsOf(base, p) && d < |p.gs|
    ensures p.news[d].Fits() && p.news[d] != NULL_DESC && p.news[d].stamp == p.news[d].chain == 0
    ensures base > 0 ==> p.news[d].name != 0 && p.news[d].iat != 0
  {
    NewDescIs(base, p, d);
    assert Holds(area, p.nameOff[d], Encode(p.gs[d].dll) + [0]);
  }

  lemma {:induction false} NewsOk(base: nat, area: seq<Byte>, p: Plan)
    requires base + |area| < 0x1_0000_0000 && TablesOk(area, p) && NamesIn(area, p) && NewsOf(base, p)
    ensures OldsOk(p.news)
  {
    forall d | 0 <= d < |p.news|
      ensures p.news[d].Fits() && p.news[d] != NULL_DESC
    {
      NewsFit(base, area, p, d);
    }
  }

  /** Descriptor `k` of all, in the bytes. */
  lemma {:induction false} DescHeld(buf: seq<Byte>, olds: seq<Desc>, news: seq<Desc>, k: nat)
    requires k <= |olds| + |news|
    ensures Holds(WithDescs(buf, olds, news), |buf| + 20 * k, DescBytes((olds + news + [NULL_DESC])[k]))
  {
    var t := DescTable(buf, olds, |olds|);
    if k < |olds| {
      DescTableAt(buf, olds, |olds|, k);
      HoldsPrefix(t, WithDescs(buf, olds, news), |buf| + 20 * k, DescBytes(olds[k]));
    } else {
      NewDescHeld(t, news, k - |olds|);
    }
  }

  lemma {:induction false} NewDescHeld(t: seq<Byte>, news: seq<Desc>, k: nat)
    requires k <= |news|
    ensures Holds(ZeroExtend(DescTable(t, news, |news|), 20), |t| + 20 * k, DescBytes((news + [NULL_DESC])[k]))
  {
    var u := DescTable(t, news, |news|);
    if k < |news| {
      DescTableAt(t, news, |news|, k);
      HoldsPrefix(u, ZeroExtend(u, 20), |t| + 20 * k, DescBytes(news[k]));
    } else {
      NullBytes(u);
    }
  }

  lemma {:induction false} DescsShown(img: seq<Byte>, base: nat, area: seq<Byte>, buf: seq<Byte>, olds: seq<Desc>,
      news: seq<Desc>, dir: nat)
    requires Holds(img, base, area) && area == WithDescs(buf, olds, news) && OldsOk(olds) && OldsOk(news)
    requires dir == base + |buf|
    ensures Seen(DescsAt(ViewOf(img), dir), NULL_DESC, olds + news) && dir + 20 * |olds + news| <= |img|
  {
    var at, all := DescsAt(ViewOf(img), dir), olds + news + [NULL_DESC];
    forall k | 0 <= k <= |olds + news|
      ensures at(k) == all[k]
    {
      DescHeld(buf, olds, news, k);
      DescShown(img, base, area, |buf| + 20 * k, all[k], dir + 20 * k);
    }
  }

  /** Walking the directory gives the descriptors of the image as it was and then the new ones. */
  lemma {:induction false} DirectoryRoundTrip(img: seq<Byte>, v: View, base: nat, area: seq<Byte>, p: Plan,
      olds: seq<Desc>, dir: nat)
    requires v == ViewOf(img) && Mapped(img, base, area) && Built(area, dir, base, p, olds) && OldsOk(olds)
    ensures WalkDescs(v, dir) == olds + p.news
  {
    NewsOk(base, area, p);
    DescsRead(img, v, base, area, p.desc, olds, p.news, dir);
  }

  lemma {:induction false} DescsRead(img: seq<Byte>, v: View, base: nat, area: seq<Byte>, o: nat, olds: seq<Desc>,
      news: seq<Desc>, dir: nat)
    requires v == ViewOf(img) && Holds(img, base, area) && OldsOk(olds) && OldsOk(news)
    requires o <= |area| && area == WithDescs(area[..o], olds, news) && dir == base + o
    ensures WalkDescs(v, dir) == olds + news
  {
    DescsShown(img, base, area, area[..o], olds, news, dir);
    DescsWalked(v, dir, olds + news);
  }

  lemma {:induction false} DescsWalked(v: View, o: nat, ds: seq<Desc>)
    requires Seen(DescsAt(v, o), NULL_DESC, ds) && o + 20 * |ds| <= v.size
    ensures WalkDescs(v, o) == ds
  {
    WalkIs(DescsAt(v, o), NULL_DESC, Room(v, o, 20), ds, 0);
    assert ds[0..] == ds;
  }

  lemma {:induction false} NameShown(img: seq<Byte>, v: View, base: nat, area: seq<Byte>, o: nat, dll: string,
      name: nat)
    requires v == ViewOf(img) && Holds(img, base, area) && IsAscii(dll) && Holds(area, o, Encode(dll) + [0])
    requires name == base + o
    ensures v.str(name) == Encode(dll)
  {
    HoldsInside(img, base, area, o, Encode(dll) + [0]);
    CStringAt(img, base + o, Encode(dll));
  }

  /** What a view shows of the tables and hint/name entries of the area. */
  ghost predicate AreaSeen(v: View, base: nat, p: Plan) {
    && HintsSeen(v, p.hn) && KeysIn(p) && AsciiGroups(p.gs)
    && p.n == Slots(p.gs, |p.gs|) && TableSeen(v, base, p.n, Thunks(p.gs, p.hn, |p.gs|))
    && TableSeen(v, base + 8 * p.n, p.n, Thunks(p.gs, p.hn, |p.gs|))
  }

  lemma {:induction false} AreaShown(img: seq<Byte>, v: View, base: nat, area: seq<Byte>, p: Plan)
    requires v == ViewOf(img) && Mapped(img, base, area) && TablesOk(area, p) && KeysIn(p)
    requires HintsOk(area, base, 16 * p.n, p.hn) && AsciiGroups(p.gs) && p.n > 0
    ensures AreaSeen(v, base, p)
  {
    TablesShown(img, base, area, p.n, Thunks(p.gs, p.hn, |p.gs|));
    HintsShown(img, base, area, 16 * p.n, p.hn);
  }

  lemma {:induction false} TableWalk(v: View, base: nat, p: Plan, d: nat, iat: nat, ilt: nat, ts: seq<nat>)
    requires AreaSeen(v, base, p) && d < |p.gs| && ts == GroupThunks(p.gs[d], p.hn, |p.gs[d].imps|)
    requires iat == base + 8 * Slots(p.gs, d) && ilt == base + 8 * p.n + 8 * Slots(p.gs, d)
    ensures WalkThunks(v, iat) == ts && WalkThunks(v, ilt) == ts
  {
    GroupAddressed(v, p, d);
    GroupWalk(v, base, p.gs, p.hn, d, iat, ts);
    GroupWalk(v, base + 8 * p.n, p.gs, p.hn, d, ilt, ts);
  }

  /** DLL `d` of the new descriptors: its name, and its symbols by name in order. The address table the
      loader fills in has the same entries as the lookup table it reads. */
  lemma {:induction false} ImportRoundTrip(img: seq<Byte>, v: View, base: nat, area: seq<Byte>, p: Plan, d: nat)
    requires v == ViewOf(img) && Mapped(img, base, area) && IsArea(area, base, p) && NewsOf(base, p) && d < |p.gs|
    ensures AsciiGroup(p.gs[d])
    ensures v.str(p.news[d].name) == Encode(p.gs[d].dll)
    ensures Symbols(v, WalkThunks(v, p.news[d].ilt)) == Wanted(p.gs[d])
    ensures WalkThunks(v, p.news[d].iat) == WalkThunks(v, p.news[d].ilt)
  {
    NewDescIs(base, p, d);
    NameShown(img, v, base, area, p.nameOff[d], p.gs[d].dll, p.news[d].name);
    AreaShown(img, v, base, area, p);
    TableWalk(v, base, p, d, p.news[d].iat, p.news[d].ilt, GroupThunks(p.gs[d], p.hn, |p.gs[d].imps|));
    SymbolsWanted(v, p.gs[d], p.hn);
  }

  lemma {:induction false} GroupAddressed(v: View, p: Plan, d: nat)
    requires HintsSeen(v, p.hn) && KeysIn(p) && d < |p.gs|
    ensures Addressed(p.gs[d], p.hn)
  {
    forall i | 0 <= i < |p.gs[d].imps|
      ensures Rva(p.hn, p.gs[d].dll, p.gs[d].imps[i].func) != 0
    {
      assert (p.gs[d].dll, p.gs[d].imps[i].func) in p.hn;
    }
  }

  /** A DLL as a loader sees it: its name and the symbols it is asked for. */
  datatype Dll = Dll(name: seq<Byte>, symbols: seq<Symbol>)

  function WalkDll(v: View, de: Desc): (d: Dll) {
    Dll(v.str(de.name), Symbols(v, WalkThunks(v, de.ilt)))
  }

  function WantedDll(g: Group): (d: Dll)
    requires AsciiGroup(g)
  {
    Dll(Encode(g.dll), Wanted(g))
  }

  /** From descriptor `k` on, the directory gives one DLL per group, in order, with exactly the functions
      of the group, in order. */
  ghost predicate Decodes(v: View, ds: seq<Desc>, k: nat, gs: seq<Group>) {
    && |ds| == k + |gs| && AsciiGroups(gs)
    && forall d :: 0 <= d < |gs| ==> WalkDll(v, ds[k + d]) == WantedDll(gs[d])
  }

  lemma {:induction false} DecodesAfter(v: View, olds: seq<Desc>, news: seq<Desc>, gs: seq<Group>)
    requires Decodes(v, news, 0, gs)
    ensures Decodes(v, olds + news, |olds|, gs)
  {
    forall d | 0 <= d < |gs|
      ensures WalkDll(v, (olds + news)[|olds| + d]) == WantedDll(gs[d])
    {
      assert (olds + news)[|olds| + d] == news[0 + d];
    }
  }

  /** The whole walk: the descriptors the image had, then the requested imports. */
  lemma {:induction false} ImportsDecode(img: seq<Byte>, v: View, base: nat, area: seq<Byte>, p: Plan,
      olds: seq<Desc>, dir: nat)
    requires v == ViewOf(img) && Mapped(img, base, area) && Built(area, dir, base, p, olds) && OldsOk(olds)
    ensures WalkDescs(v, dir) == olds + p.news && Decodes(v, olds + p.news, |olds|, p.gs)
  {
    DirectoryRoundTrip(img, v, base, area, p, olds, dir);
    DllsDecode(img, v, base, area, p);
    DecodesAfter(v, olds, p.news, p.gs);
  }

  lemma {:induction false} DllsDecode(img: seq<Byte>, v: View, base: nat, area: seq<Byte>, p: Plan)
    requires v == ViewOf(img) && Mapped(img, base, area) && IsArea(area, base, p) && NewsOf(base, p)
    ensures Decodes(v, p.news, 0, p.gs)
  {
    forall d | 0 <= d < |p.gs|
      ensures WalkDll(v, p.news[0 + d]) == WantedDll(p.gs[d])
    {
      ImportRoundTrip(img, v, base, area, p, d);
    }
  }

  // ---------------------------------------------------------------- slot addresses

  ghost predicate DistinctSyms(imps: seq<Imp>, k: nat)
    requires k <= |imps|
  {
    forall i, j :: 0 <= i < j < k ==> imps[i].sym != imps[j].sym
  }

  /** Where import `i` of a DLL stands among all imports. */
  function Pos(imps: seq<Imp>, dll: string, k: nat, i: nat): (q: nat)
    requires k <= |imps| && i < |Filter(imps, dll, k)|
    ensures q < k && imps[q] == Filter(imps, dll, k)[i] && imps[q].dll == dll
  {
    if i < |Filter(imps, dll, k - 1)| then Pos(imps, dll, k - 1, i) else k - 1
  }

  lemma {:induction false} PosOrder(imps: seq<Imp>, dll: string, k: nat, i: nat, j: nat)
    requires k <= |imps| && i < j < |Filter(imps, dll, k)|
    ensures Pos(imps, dll, k, i) < Pos(imps, dll, k, j)
  {
    if j < |Filter(imps, dll, k - 1)| {
      PosOrder(imps, dll, k - 1, i, j);
    }
  }

  lemma {:induction false} OneSlot(imps: seq<Imp>, gs: seq<Group>, d: nat, i: nat, e: nat, j: nat)
    requires DistinctSyms(imps, |imps|) && InOrder(imps, |imps|, gs) && Exact(imps, |imps|, gs)
    requires d < |gs| && e < |gs| && i < |gs[d].imps| && j < |gs[e].imps| && gs[d].imps[i].sym == gs[e].imps[j].sym
    ensures d == e && i == j
  {
    var k := |imps|;
    var q, r := Pos(imps, gs[d].dll, k, i), Pos(imps, gs[e].dll, k, j);
    assert q == r;
    assert gs[d].dll == gs[e].dll;
    if i < j {
      PosOrder(imps, gs[d].dll, k, i, j);
    } else if j < i {
      PosOrder(imps, gs[d].dll, k, j, i);
    }
  }

  lemma {:induction false} GroupsDistinct(imps: seq<Imp>, gs: seq<Group>)
    requires DistinctSyms(imps, |imps|) && IsGrouping(imps, |imps|, gs)
    ensures SymsDistinct(gs)
  {
    forall d, i, e, j | 0 <= d < |gs| && 0 <= e < |gs| && 0 <= i < |gs[d].imps| && 0 <= j < |gs[e].imps|
      ensures gs[d].imps[i].sym == gs[e].imps[j].sym ==> d == e && i == j
    {
      if gs[d].imps[i].sym == gs[e].imps[j].sym {
        OneSlot(imps, gs, d, i, e, j);
      }
    }
  }

  /** With distinct symbols the map gives, for every import, the address of its own slot of the address
      table the loader fills in. */
  lemma {:induction false} SlotAddress(imps: seq<Imp>, ib: nat, base: nat, p: Plan, d: nat, i: nat)
    requires DistinctSyms(imps, |imps|) && p.gs == GroupsOf(imps, |imps|) && NewsOf(base, p)
    requires d < |p.gs| && i < |p.gs[d].imps|
    ensures var m := SlotMap(p.gs, ib + base, |p.gs|);
            p.gs[d].imps[i].sym in m && m[p.gs[d].imps[i].sym] == ib + p.news[d].iat + 8 * i
  {
    GroupsExact(imps, |imps|);
    GroupsDistinct(imps, p.gs);
    SlotMapAt(p.gs, ib + base, |p.gs|, d, i);
    NewDescIs(base, p, d);
  }
}
