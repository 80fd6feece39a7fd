/** The fake DLL images of the emulator: a PE file with nothing but an export directory. */
module FakePe {
  import opened Align
  import opened Bytes
  import opened HookSpace
  import opened Reconstruct

  /** Offsets of the parts of an image with `n` exports. */
  datatype Layout = Layout(n: nat, ent: nat, eot: nat, nms: nat, stub: nat, total: nat)

  const HDR: nat := 0x200
  const EAT: nat := 0x228

  function LayoutOf(n: nat, blob: nat): (l: Layout)
    ensures LayoutOk(l, blob) && l.n == n
  {
    var ent := EAT + n * 4;
    var eot := ent + n * 4;
    var nms := RoundUp(eot + n * 2, 4);
    var stub := RoundUp(nms + blob, 0x1000);
    Layout(n, ent, eot, nms, stub, RoundUp(stub + n * 0x10, 0x1000))
  }

  /** Header, address table, name table, ordinal table, name strings and stubs follow each other
      without overlap, the stubs start on a page, and the image ends with the page the last of them is on. */
  predicate LayoutOk(l: Layout, blob: nat) {
    && l.ent == 0x228 + l.n * 4 && l.eot == l.ent + l.n * 4 && l.eot + l.n * 2 <= l.nms
    && l.nms + blob <= l.stub < l.nms + blob + 0x1000 && l.stub % 0x1000 == 0
    && l.stub + l.n * 0x10 <= l.total < l.stub + l.n * 0x10 + 0x1000 && l.total % 0x1000 == 0
  }

  // ---------------------------------------------------------------- names

  /** NUL-terminated names, one after another. */
  function Blob(names: seq<string>): (b: seq<Byte>)
    requires AllAscii(names)
  {
    if |names| == 0 then [] else Blob(names[..|names| - 1]) + Encode(names[|names| - 1]) + [0]
  }

  function NameOff(names: seq<string>, i: nat): (o: nat)
    requires AllAscii(names) && i <= |names|
  {
    |Blob(names[..i])|
  }

  lemma {:induction false} BlobAt(names: seq<string>, i: nat)
    requires AllAscii(names) && i < |names|
    ensures var o, e := NameOff(names, i), Encode(names[i]);
            && o + |e| + 1 <= |Blob(names)|
            && Blob(names)[o..o + |e| + 1] == e + [0]
    decreases |names|
  {
    var n := |names| - 1;
    var init := names[..n];
    if i == n {
      assert Blob(names)[|Blob(init)|..] == Encode(names[n]) + [0];
    } else {
      BlobAt(init, i);
      assert init[..i] == names[..i] && init[i] == names[i];
      var o, e := NameOff(names, i), Encode(names[i]);
      assert Blob(names)[..|Blob(init)|] == Blob(init);
      assert Blob(names)[o..o + |e| + 1] == Blob(init)[o..o + |e| + 1];
    }
  }

  // ---------------------------------------------------------------- the fields

  /** DOS header, PE headers and export directory, in the order they are packed. "MZ" and "PE" are
      written as the little-endian numbers they spell. */
  function HeaderFields(l: Layout, base: nat, dllOff: nat): (fs: seq<Fld>)
    ensures |fs| == 23
  {
    [Fld(0, 2, 0x5A4D),
     Fld(0x3C, 4, 0x80),
     Fld(0x80, 4, 0x4550),
     Fld(0x84, 2, 0x8664),
     Fld(0x86, 2, 0),
     Fld(0x94, 2, 0xF0),
     Fld(0x96, 2, 0x2022),
     Fld(0x98, 2, 0x20B),
     Fld(0xB0, 8, base),
     Fld(0xB8, 4, 0x1000),
     Fld(0xBC, 4, 0x200),
     Fld(0xD0, 4, l.total),
     Fld(0xD4, 4, HDR),
     Fld(0x104, 4, 0x10),
     Fld(0x108, 4, HDR),
     Fld(0x10C, 4, 40),
     Fld(HDR + 12, 4, l.nms + dllOff),
     Fld(HDR + 16, 4, 1),
     Fld(HDR + 20, 4, l.n),
     Fld(HDR + 24, 4, l.n),
     Fld(HDR + 28, 4, EAT),
     Fld(HDR + 32, 4, l.ent),
     Fld(HDR + 36, 4, l.eot)]
  }

  /** The three table entries of export `i`. */
  function EntryFields(l: Layout, names: seq<string>, i: nat): (fs: seq<Fld>)
    requires AllAscii(names) && i < |names|
    ensures |fs| == 3
  {
    [Fld(EAT + i * 4, 4, l.stub + i * 0x10),
     Fld(l.ent + i * 4, 4, l.nms + NameOff(names, i)),
     Fld(l.eot + i * 2, 2, i)]
  }

  function TableFields(l: Layout, names: seq<string>, k: nat): (fs: seq<Fld>)
    requires AllAscii(names) && k <= |names|
    ensures |fs| == 3 * k
  {
    if k == 0 then [] else TableFields(l, names, k - 1) + EntryFields(l, names, k - 1)
  }

  function Int3(): (s: seq<Byte>)
    ensures |s| == 0x10
  {
    seq(0x10, i => 0xCC)
  }

  predicate Within(fs: seq<Fld>, lo: nat, hi: nat) {
    forall i :: 0 <= i < |fs| ==> lo <= fs[i].off && fs[i].off + fs[i].w <= hi
  }

  /** The header fields lie before the tables and apart from each other. */
  lemma {:induction false} HeaderPlaces(l: Layout, base: nat, dllOff: nat)
    ensures var fs := HeaderFields(l, base, dllOff);
            && Within(fs, 0, EAT)
            && forall i :: 0 <= i < |fs| ==> AllApart(fs[..i], fs[i].off, fs[i].off + fs[i].w)
  {
  }

  lemma {:induction false} TablePlaces(l: Layout, blob: nat, names: seq<string>, k: nat)
    requires AllAscii(names) && k <= |names| == l.n && LayoutOk(l, blob)
    ensures Within(TableFields(l, names, k), EAT, l.nms)
    ensures forall j :: 0 <= j < |TableFields(l, names, k)| ==>
              var f := TableFields(l, names, k)[j];
              (f.off + f.w <= EAT + 4 * k) || (l.ent <= f.off && f.off + f.w <= l.ent + 4 * k)
              || (l.eot <= f.off && f.off + f.w <= l.eot + 2 * k)
  {
    if k > 0 {
      TablePlaces(l, blob, names, k - 1);
    }
  }

  /** All values fit their fields when the image fits in 32 bits and there are at most 65536 exports. */
  ghost predicate Representable(l: Layout, base: nat, blob: nat) {
    LayoutOk(l, blob) && l.n <= 0x10000 && l.total < 0x1_0000_0000 && base < 0x1_0000_0000_0000_0000
  }

  lemma {:induction false} HeaderFits(l: Layout, base: nat, dllOff: nat, blob: nat, k: nat)
    requires Representable(l, base, blob) && dllOff <= blob && k < 23
    ensures HeaderFields(l, base, dllOff)[k].Fits(l.total)
  {
    Widths();
  }

  lemma {:induction false} BlobPrefix(names: seq<string>, i: nat)
    requires AllAscii(names) && i <= |names|
    ensures NameOff(names, i) <= |Blob(names)|
    decreases |names|
  {
    if i < |names| {
      var init := names[..|names| - 1];
      assert init[..i] == names[..i];
      BlobPrefix(init, i);
    } else {
      assert names[..i] == names;
    }
  }

  lemma {:induction false} EntryFits(l: Layout, base: nat, blob: nat, names: seq<string>, i: nat)
    requires AllAscii(names) && i < |names| == l.n && Representable(l, base, blob) && NameOff(names, i) <= blob
    ensures forall c :: 0 <= c < 3 ==> EntryFields(l, names, i)[c].Fits(l.total)
  {
    Widths();
  }

  // ---------------------------------------------------------------- building

  method PackHeader(a: array<Byte>, l: Layout, base: nat, dllOff: nat, ghost blob: nat)
    requires a.Length == l.total && Representable(l, base, blob) && dllOff <= blob
    modifies a
    ensures Reads(a[..], HeaderFields(l, base, dllOff))
  {
    var fs := HeaderFields(l, base, dllOff);
    HeaderPlaces(l, base, dllOff);
    var k := 0;
    while k < |fs|
      invariant 0 <= k <= |fs| && Reads(a[..], fs[..k])
    {
      HeaderFits(l, base, dllOff, blob, k);
      PackInto(a, fs[k], fs[..k]);
      assert fs[..k + 1] == fs[..k] + [fs[k]];
      k := k + 1;
    }
    assert fs[..k] == fs;
  }

  /** An entry of export `i` is apart from the headers and from all entries of earlier exports. */
  lemma {:induction false} EntryApart(l: Layout, base: nat, dllOff: nat, blob: nat, names: seq<string>, i: nat, c: nat)
    requires AllAscii(names) && i < |names| == l.n && LayoutOk(l, blob) && c < 3
    ensures var e := EntryFields(l, names, i)[c];
            AllApart(HeaderFields(l, base, dllOff), e.off, e.off + e.w) &&
            AllApart(TableFields(l, names, i), e.off, e.off + e.w)
  {
    HeaderPlaces(l, base, dllOff);
    TablePlaces(l, blob, names, i);
  }

  lemma {:induction false} ApartJoin(a: seq<Fld>, b: seq<Fld>, lo: nat, hi: nat)
    requires AllApart(a, lo, hi) && AllApart(b, lo, hi)
    ensures AllApart(a + b, lo, hi)
  {
  }

  /** The three table entries of one export. */
  method PackEntry(a: array<Byte>, l: Layout, base: nat, dllOff: nat, ghost blob: nat, names: seq<string>, i: nat)
    requires a.Length == l.total && Representable(l, base, blob)
    requires AllAscii(names) && i < |names| == l.n && NameOff(names, i) <= blob
    requires Reads(a[..], HeaderFields(l, base, dllOff) + TableFields(l, names, i))
    modifies a
    ensures Reads(a[..], HeaderFields(l, base, dllOff) + TableFields(l, names, i + 1))
  {
    ghost var fs := HeaderFields(l, base, dllOff) + TableFields(l, names, i);
    var es := EntryFields(l, names, i);
    EntryFits(l, base, blob, names, i);
    forall c | 0 <= c < 3
      ensures AllApart(fs, es[c].off, es[c].off + es[c].w)
    {
      EntryApart(l, base, dllOff, blob, names, i, c);
      ApartJoin(HeaderFields(l, base, dllOff), TableFields(l, names, i), es[c].off, es[c].off + es[c].w);
    }
    PackThree(a, es[0], es[1], es[2], fs);
    assert fs + es == HeaderFields(l, base, dllOff) + TableFields(l, names, i + 1);
  }

  /** Hooks of the export stubs. */
  function StubHooks(hooks: Hooks, base: nat, l: Layout, dll: string, names: seq<string>, k: nat): (h: Hooks)
    requires k <= |names|
  {
    if k == 0 then hooks
    else StubHooks(hooks, base, l, dll, names, k - 1)
         [base + l.stub + (k - 1) * 0x10 := Hook(dll, names[k - 1], 0, Sym(dll, names[k - 1]))]
  }

  /** Stub i is hooked as export i. */
  lemma {:induction false} StubHooked(hooks: Hooks, base: nat, l: Layout, dll: string, names: seq<string>, k: nat,
      i: nat)
    requires i < k <= |names|
    ensures var va, h := base + l.stub + i * 0x10, StubHooks(hooks, base, l, dll, names, k);
            va in h && h[va].dll == dll && h[va].func == names[i]
  {
    if i < k - 1 {
      StubHooked(hooks, base, l, dll, names, k - 1, i);
    }
  }

  lemma {:induction false} StubHooksKeys(hooks: Hooks, base: nat, l: Layout, dll: string, names: seq<string>, k: nat)
    requires k <= |names|
    ensures Adds(hooks, StubHooks(hooks, base, l, dll, names, k), base + l.stub, k)
  {
    if k > 0 {
      StubHooksKeys(hooks, base, l, dll, names, k - 1);
    }
  }

  /** The table loop: entries and hooks of every export. */
  method PackTables(a: array<Byte>, hooks: Hooks, l: Layout, base: nat, ghost blob: nat, dll: string,
                    names: seq<string>, dllOff: nat)
    returns (h: Hooks)
    requires a.Length == l.total && Representable(l, base, blob) && AllAscii(names) && |names| == l.n
    requires |Blob(names)| <= blob
    requires Reads(a[..], HeaderFields(l, base, dllOff))
    modifies a
    ensures Reads(a[..], HeaderFields(l, base, dllOff) + TableFields(l, names, |names|))
    ensures h == StubHooks(hooks, base, l, dll, names, |names|)
  {
    h := hooks;
    assert HeaderFields(l, base, dllOff) + TableFields(l, names, 0) == HeaderFields(l, base, dllOff);
    var i := 0;
    while i < |names|
      invariant 0 <= i <= |names|
      invariant Reads(a[..], HeaderFields(l, base, dllOff) + TableFields(l, names, i))
      invariant h == StubHooks(hooks, base, l, dll, names, i)
    {
      BlobPrefix(names, i);
      PackEntry(a, l, base, dllOff, blob, names, i);
      h := h[base + l.stub + i * 0x10 := Hook(dll, names[i], 0, Sym(dll, names[i]))];
      i := i + 1;
    }
  }

  /** The finished image: every header and table field reads back, the name strings are in place and every
      stub is filled with breakpoints. */
  ghost predicate IsImage(img: seq<Byte>, l: Layout, base: nat, dll: string, names: seq<string>)
    requires IsAscii(dll) && AllAscii(names)
  {
    && |img| == l.total && l.n == |names|
    && Reads(img, HeaderFields(l, base, |Blob(names)|) + TableFields(l, names, |names|))
    && (var blob := Blob(names + [dll]);
        LayoutOk(l, |blob|) && img[l.nms..l.nms + |blob|] == blob)
    && forall j :: l.stub <= j < l.stub + 0x10 * l.n ==> img[j] == 0xCC
  }

  /** Stub `i`. */
  method FillStub(a: array<Byte>, l: Layout, ghost blob: seq<Byte>, ghost fs: seq<Fld>, i: nat)
    requires a.Length == l.total && LayoutOk(l, |blob|) && Reads(a[..], fs) && Within(fs, 0, l.nms) && i < l.n
    requires a[l.nms..l.nms + |blob|] == blob && forall j :: l.stub <= j < l.stub + 0x10 * i ==> a[j] == 0xCC
    modifies a
    ensures Reads(a[..], fs) && a[l.nms..l.nms + |blob|] == blob
    ensures forall j :: l.stub <= j < l.stub + 0x10 * (i + 1) ==> a[j] == 0xCC
  {
    ghost var before := a[..];
    var off := l.stub + i * 0x10;
    ReadsKept(a[..], fs, off, Int3());
    PatchKeeps(a[..], off, Int3(), l.nms, l.nms + |blob|);
    CopyInto(a, off, Int3());
    assert a[l.nms..l.nms + |blob|] == before[l.nms..l.nms + |blob|];
    assert forall j :: l.stub <= j < off ==> a[j] == before[j];
  }

  /** Name strings and stubs, behind the tables. */
  method FillNamesAndStubs(a: array<Byte>, l: Layout, blob: seq<Byte>, ghost fs: seq<Fld>)
    requires a.Length == l.total && LayoutOk(l, |blob|) && Reads(a[..], fs) && Within(fs, 0, l.nms)
    modifies a
    ensures Reads(a[..], fs) && a[l.nms..l.nms + |blob|] == blob
    ensures forall j :: l.stub <= j < l.stub + 0x10 * l.n ==> a[j] == 0xCC
  {
    ReadsKept(a[..], fs, l.nms, blob);
    PatchReads(a[..], l.nms, blob);
    CopyInto(a, l.nms, blob);
    var i := 0;
    while i < l.n
      invariant 0 <= i <= l.n
      invariant Reads(a[..], fs) && a[l.nms..l.nms + |blob|] == blob
      invariant forall j :: l.stub <= j < l.stub + 0x10 * i ==> a[j] == 0xCC
    {
      FillStub(a, l, blob, fs, i);
      i := i + 1;
    }
  }

  /** Fill a zeroed buffer with the image. */
  method FillImage(a: array<Byte>, hooks: Hooks, l: Layout, base: nat, dll: string, names: seq<string>)
    returns (h: Hooks)
    requires IsAscii(dll) && AllAscii(names) && a.Length == l.total && l.n == |names|
    requires Representable(l, base, |Blob(names + [dll])|)
    modifies a
    ensures IsImage(a[..], l, base, dll, names)
    ensures h == StubHooks(hooks, base, l, dll, names, |names|)
  {
    var blob := Blob(names + [dll]);
    assert (names + [dll])[..|names|] == names;
    PackHeader(a, l, base, |Blob(names)|, |blob|);
    h := PackTables(a, hooks, l, base, |blob|, dll, names, |Blob(names)|);
    HeaderPlaces(l, base, |Blob(names)|);
    TablePlaces(l, |blob|, names, |names|);
    FillNamesAndStubs(a, l, blob, HeaderFields(l, base, |Blob(names)|) + TableFields(l, names, |names|));
  }

  /** The image in a buffer of its own. */
  method MakeImage(hooks: Hooks, l: Layout, base: nat, dll: string, names: seq<string>)
    returns (a: array<Byte>, h: Hooks)
    requires IsAscii(dll) && AllAscii(names) && l.n == |names|
    requires Representable(l, base, |Blob(names + [dll])|)
    ensures fresh(a) && IsImage(a[..], l, base, dll, names)
    ensures h == StubHooks(hooks, base, l, dll, names, |names|)
  {
    a := new Byte[l.total](i => 0);
    h := FillImage(a, hooks, l, base, dll, names);
  }

  /** The stubs of an image above everything hooked so far are one new hook each. */
  method HookStubs(space: Space, h: Hooks, ghost l: Layout, ghost base: nat, ghost dll: string,
                   ghost names: seq<string>)
    requires space.Valid() && base + l.stub + 0x10 * |names| <= space.cursor
    requires forall a :: a in space.hooks ==> a < base + l.stub
    requires h == StubHooks(space.hooks, base, l, dll, names, |names|)
    modifies space`hooks
    ensures space.Valid() && space.Below() && space.hooks == h
    ensures Adds(old(space.hooks), h, base + l.stub, |names|) && |h| == |old(space.hooks)| + |names|
  {
    StubHooksKeys(space.hooks, base, l, dll, names, |names|);
    space.AddStubs(h, base + l.stub, |names|);
  }

  /** Build a fake DLL image, map it at a fresh address and hook its stubs. */
  method BuildFakePe(space: Space, dll: string, names: seq<string>) returns (base: nat, a: array<Byte>, l: Layout)
    requires space.Valid() && space.Below() && IsAscii(dll) && AllAscii(names)
    requires |names| <= 0x10000 && LayoutOf(|names|, |Blob(names + [dll])|).total < 0x1_0000_0000
    requires space.cursor + 0x10000 < 0x1_0000_0000_0000_0000
    modifies space
    ensures space.Valid() && space.Below() && fresh(a)
    ensures l == LayoutOf(|names|, |Blob(names + [dll])|)
    ensures base == RoundUp(old(space.cursor), 0x10000)
    ensures space.cursor == base + l.total && space.regions == old(space.regions) + [Region(base, l.total)]
    ensures IsImage(a[..], l, base, dll, names)
    ensures space.hooks == StubHooks(old(space.hooks), base, l, dll, names, |names|)
    ensures Adds(old(space.hooks), space.hooks, base + l.stub, |names|)
    ensures |space.hooks| == |old(space.hooks)| + |names|
  {
    l := LayoutOf(|names|, |Blob(names + [dll])|);
    base := space.AllocBlock(l.total);
    var h;
    a, h := MakeImage(space.hooks, l, base, dll, names);
    ghost var img := a[..];
    HookStubs(space, h, l, base, dll, names);
    assert a[..] == img;
  }

  /** A DLL to fake: its name and its exports. */
  datatype Fake = Fake(dll: string, exports: seq<string>)

  /** The image can be packed. */
  ghost predicate Packable(f: Fake) {
    && IsAscii(f.dll) && AllAscii(f.exports) && |f.exports| <= 0x10000
    && LayoutOf(|f.exports|, |Blob(f.exports + [f.dll])|).total < 0x1_0000_0000
  }

  function Exports(fakes: seq<Fake>, k: nat): (n: nat)
    requires k <= |fakes|
  {
    if k == 0 then 0 else Exports(fakes, k - 1) + |fakes[k - 1].exports|
  }

  /** More than any image and its alignment take. */
  const STRIDE: nat := 0x2_0000_0000

  /** One fake module. */
  method AddFake(space: Space, f: Fake)
    requires space.Valid() && space.Below() && Packable(f) && space.cursor + 0x10000 < 0x1_0000_0000_0000_0000
    modifies space
    ensures space.Valid() && space.Below() && space.cursor <= old(space.cursor) + STRIDE
    ensures |space.hooks| == |old(space.hooks)| + |f.exports|
  {
    var base, a, l := BuildFakePe(space, f.dll, f.exports);
  }

  /** The fake modules, one after another: every export of every one of them is a hook of its own. */
  method BuildFakes(space: Space, fakes: seq<Fake>)
    requires space.Valid() && space.Below() && forall i :: 0 <= i < |fakes| ==> Packable(fakes[i])
    requires space.cursor + STRIDE * (|fakes| + 1) < 0x1_0000_0000_0000_0000
    modifies space
    ensures space.Valid() && space.Below()
    ensures |space.hooks| == |old(space.hooks)| + Exports(fakes, |fakes|)
  {
    var k := 0;
    while k < |fakes|
      invariant 0 <= k <= |fakes| && space.Valid() && space.Below()
      invariant space.cursor <= old(space.cursor) + STRIDE * k
      invariant |space.hooks| == |old(space.hooks)| + Exports(fakes, k)
    {
      AddFake(space, fakes[k]);
      k := k + 1;
    }
  }

  const STACK_SIZE: nat := 0x20_0000
  const TEB_SIZE: nat := 0x2000

  /** The regions before the fake modules: stack, thread and process blocks, loader lists and their strings. */
  method NewSpace(ends: seq<nat>, nFakes: nat) returns (space: Space)
    requires |ends| > 0
    ensures fresh(space) && space.Valid() && space.Below() && space.hooks == map[]
    ensures space.cursor <= Ceiling(ends) + 0x200_0000 + 0x120 * nFakes
  {
    Pow2Page();
    space := new Space(ends);
    var stack := space.AllocBlock(STACK_SIZE);
    var teb := space.Alloc(TEB_SIZE, 12);
    var ldr := space.Alloc(0x1000, 12);
    var entries := space.Alloc(0x120 * (nFakes + 1), 12);
    var strings := space.Alloc(0x4000, 12);
  }

  /** A fresh emulator with its fake modules, then the import hooks and the .rdata sentinels. All hooked
      addresses are distinct if and only if there are at most 4096 imports or no sentinel. */
  method HookAll(ends: seq<nat>, fakes: seq<Fake>, imports: seq<Import>, vals: seq<nat>, lo: nat, hi: nat,
                 slotHook: seq<Hook>)
    returns (space: Space, n: nat)
    requires |ends| > 0 && |slotHook| == |vals| && forall i :: 0 <= i < |fakes| ==> Packable(fakes[i])
    requires Ceiling(ends) + 2 * STRIDE * (|fakes| + 1) < 0x1_0000_0000_0000_0000
    ensures fresh(space) && space.Valid() && n == |Dedup(vals, lo, hi, |vals|)|
    ensures |space.hooks| == Exports(fakes, |fakes|) + |imports| + n <==> |imports| <= 4096 || n == 0
  {
    space := NewSpace(ends, |fakes|);
    BuildFakes(space, fakes);
    n := FillHooks(space, imports, vals, lo, hi, slotHook);
  }

  // ---------------------------------------------------------------- a loader's view

  /** A PE32+ image with its signatures in place. */
  predicate IsPe64(v: View) {
    v.word(0, 2) == 0x5A4D && v.word(v.word(0x3C, 4), 4) == 0x4550 && v.word(v.word(0x3C, 4) + 24, 2) == 0x20B
  }

  /** What a loader maps: an x64 DLL for the given base and of the given size, with all 16 data directories and an
      export directory of `n` functions from ordinal 1. */
  predicate IsDll(v: View, base: nat, size: nat, n: nat) {
    var pe := v.word(0x3C, 4);
    && v.word(pe + 4, 2) == 0x8664 && v.word(pe + 6, 2) == 0 && v.word(pe + 20, 2) == 0xF0
    && v.word(pe + 22, 2) == 0x2022
    && v.word(pe + 48, 8) == base && v.word(pe + 56, 4) == 0x1000 && v.word(pe + 60, 4) == 0x200
    && v.word(pe + 80, 4) == size && v.word(pe + 84, 4) == 0x200 && v.word(pe + 132, 4) == 16
    && v.word(pe + 140, 4) == 40 && v.word(ExportDir(v) + 16, 4) == 1 && v.word(ExportDir(v) + 20, 4) == n
  }

  /** Address of the export directory: entry 0 of the data directories of the PE32+ optional header. */
  function ExportDir(v: View): (rva: nat) {
    v.word(v.word(0x3C, 4) + 24 + 112, 4)
  }

  /** One exported name with the address it resolves to. */
  datatype Export = Export(name: seq<Byte>, rva: nat)

  /** Entry `i` of the export name table, through its ordinal. */
  function ExportAt(v: View, i: nat): (e: Export) {
    var dir := ExportDir(v);
    var fns, nms, ords := v.word(dir + 28, 4), v.word(dir + 32, 4), v.word(dir + 36, 4);
    Export(v.str(v.word(nms + 4 * i, 4)), v.word(fns + 4 * v.word(ords + 2 * i, 2), 4))
  }

  /** The walk over the export table (section 6.3 of the PE/COFF specification). */
  function WalkExports(v: View): (es: seq<Export>) {
    seq(v.word(ExportDir(v) + 24, 4), i requires 0 <= i => ExportAt(v, i))
  }

  function DllName(v: View): (s: seq<Byte>) {
    v.str(v.word(ExportDir(v) + 12, 4))
  }

  /** The fields are what the view shows. */
  ghost predicate Shows(v: View, fs: seq<Fld>) {
    forall i :: 0 <= i < |fs| ==> v.word(fs[i].off, fs[i].w) == fs[i].v
  }

  lemma {:induction false} ShowsSplit(img: seq<Byte>, a: seq<Fld>, b: seq<Fld>)
    requires Reads(img, a + b)
    ensures Shows(ViewOf(img), a) && Shows(ViewOf(img), b)
  {
    assert forall i :: 0 <= i < |a| ==> (a + b)[i] == a[i];
    assert forall i :: 0 <= i < |b| ==> (a + b)[|a| + i] == b[i];
  }

  /** What the headers of the finished image say to a loader. */
  ghost predicate HeaderFacts(v: View, l: Layout, dllOff: nat) {
    && v.word(0, 2) == 0x5A4D && v.word(0x3C, 4) == 0x80 && v.word(0x80, 4) == 0x4550
    && v.word(0x98, 2) == 0x20B && v.word(0x108, 4) == HDR
    && v.word(HDR + 12, 4) == l.nms + dllOff && v.word(HDR + 24, 4) == l.n
    && v.word(HDR + 28, 4) == EAT && v.word(HDR + 32, 4) == l.ent && v.word(HDR + 36, 4) == l.eot
  }

  lemma {:induction false} DllShown(v: View, l: Layout, base: nat, dllOff: nat)
    requires Shows(v, HeaderFields(l, base, dllOff))
    ensures IsDll(v, base, l.total, l.n)
  {
    var fs := HeaderFields(l, base, dllOff);
    assert fs[1] == Fld(0x3C, 4, 0x80) && fs[3] == Fld(0x84, 2, 0x8664) && fs[4] == Fld(0x86, 2, 0);
    assert fs[5] == Fld(0x94, 2, 0xF0) && fs[6] == Fld(0x96, 2, 0x2022) && fs[8] == Fld(0xB0, 8, base);
    assert fs[9] == Fld(0xB8, 4, 0x1000) && fs[10] == Fld(0xBC, 4, 0x200) && fs[11] == Fld(0xD0, 4, l.total);
    assert fs[12] == Fld(0xD4, 4, 0x200) && fs[13] == Fld(0x104, 4, 0x10) && fs[14] == Fld(0x108, 4, HDR);
    assert fs[15] == Fld(0x10C, 4, 40) && fs[17] == Fld(HDR + 16, 4, 1) && fs[18] == Fld(HDR + 20, 4, l.n);
  }

  lemma {:induction false} HeaderShown(v: View, l: Layout, base: nat, dllOff: nat)
    requires Shows(v, HeaderFields(l, base, dllOff))
    ensures HeaderFacts(v, l, dllOff)
  {
    var fs := HeaderFields(l, base, dllOff);
    assert fs[0] == Fld(0, 2, 0x5A4D) && fs[1] == Fld(0x3C, 4, 0x80) && fs[2] == Fld(0x80, 4, 0x4550);
    assert fs[7] == Fld(0x98, 2, 0x20B) && fs[14] == Fld(0x108, 4, HDR);
    assert fs[16] == Fld(HDR + 12, 4, l.nms + dllOff) && fs[19] == Fld(HDR + 24, 4, l.n);
    assert fs[20] == Fld(HDR + 28, 4, EAT) && fs[21] == Fld(HDR + 32, 4, l.ent) && fs[22] == Fld(HDR + 36, 4, l.eot);
  }

  lemma {:induction false} TableHas(l: Layout, names: seq<string>, k: nat, i: nat, c: nat)
    requires AllAscii(names) && i < k <= |names| && c < 3
    ensures EntryFields(l, names, i)[c] in TableFields(l, names, k)
  {
    if i < k - 1 {
      TableHas(l, names, k - 1, i, c);
    }
  }

  /** What the tables say about export `i`. */
  ghost predicate EntryFacts(v: View, l: Layout, names: seq<string>, i: nat)
    requires AllAscii(names) && i < |names|
  {
    && v.word(EAT + i * 4, 4) == l.stub + i * 0x10
    && v.word(l.ent + i * 4, 4) == l.nms + NameOff(names, i)
    && v.word(l.eot + i * 2, 2) == i
  }

  lemma {:induction false} TableShown(v: View, l: Layout, names: seq<string>, i: nat)
    requires AllAscii(names) && i < |names| && Shows(v, TableFields(l, names, |names|))
    ensures EntryFacts(v, l, names, i)
  {
    TableHas(l, names, |names|, i, 0);
    TableHas(l, names, |names|, i, 1);
    TableHas(l, names, |names|, i, 2);
  }

  /** Name `i` (the DLL's own comes last) can be read where the tables point. */
  lemma {:induction false} NameReads(img: seq<Byte>, nms: nat, dll: string, names: seq<string>, i: nat)
    requires IsAscii(dll) && AllAscii(names) && i <= |names|
    requires nms + |Blob(names + [dll])| <= |img| && img[nms..nms + |Blob(names + [dll])|] == Blob(names + [dll])
    ensures CString(img, nms + NameOff(names, i)) == Encode((names + [dll])[i])
  {
    var all := names + [dll];
    var o, e, area := NameOff(names, i), Encode(all[i]), img[nms..nms + |Blob(all)|];
    BlobAt(all, i);
    assert all[..i] == names[..i];
    SliceOfSlice(img, nms, nms + |Blob(all)|, o, |e| + 1);
    CStringAt(img, nms + o, e);
  }

  lemma {:induction false} ExportFrom(v: View, l: Layout, dllOff: nat, names: seq<string>, i: nat)
    requires AllAscii(names) && i < |names| && HeaderFacts(v, l, dllOff) && EntryFacts(v, l, names, i)
    ensures ExportAt(v, i) == Export(v.str(l.nms + NameOff(names, i)), l.stub + i * 0x10)
  {
    assert l.ent + 4 * i == l.ent + i * 4 && l.eot + 2 * i == l.eot + i * 2 && EAT + 4 * i == EAT + i * 4;
  }

  /** All a loader has to see for the walk. */
  ghost predicate ViewFacts(v: View, l: Layout, dll: string, names: seq<string>)
    requires IsAscii(dll) && AllAscii(names)
  {
    && HeaderFacts(v, l, |Blob(names)|)
    && (forall i :: 0 <= i < |names| ==> EntryFacts(v, l, names, i))
    && (forall i :: 0 <= i < |names| ==> v.str(l.nms + NameOff(names, i)) == Encode(names[i]))
    && v.str(l.nms + |Blob(names)|) == Encode(dll)
  }

  lemma {:induction false} FieldsShow(v: View, l: Layout, base: nat, names: seq<string>, dllOff: nat)
    requires AllAscii(names)
    requires Shows(v, HeaderFields(l, base, dllOff)) && Shows(v, TableFields(l, names, |names|))
    ensures HeaderFacts(v, l, dllOff)
    ensures forall i :: 0 <= i < |names| ==> EntryFacts(v, l, names, i)
  {
    HeaderShown(v, l, base, dllOff);
    forall i | 0 <= i < |names|
      ensures EntryFacts(v, l, names, i)
    {
      TableShown(v, l, names, i);
    }
  }

  lemma {:induction false} NamesShow(img: seq<Byte>, nms: nat, dll: string, names: seq<string>)
    requires IsAscii(dll) && AllAscii(names)
    requires nms + |Blob(names + [dll])| <= |img| && img[nms..nms + |Blob(names + [dll])|] == Blob(names + [dll])
    ensures forall i :: 0 <= i < |names| ==> CString(img, nms + NameOff(names, i)) == Encode(names[i])
    ensures CString(img, nms + |Blob(names)|) == Encode(dll)
  {
    forall i | 0 <= i < |names|
      ensures CString(img, nms + NameOff(names, i)) == Encode(names[i])
    {
      NameReads(img, nms, dll, names, i);
    }
    NameReads(img, nms, dll, names, |names|);
    assert names[..|names|] == names;
  }

  lemma {:induction false} WalkFrom(v: View, l: Layout, dll: string, names: seq<string>)
    requires IsAscii(dll) && AllAscii(names) && l.n == |names| && ViewFacts(v, l, dll, names)
    ensures IsPe64(v) && |WalkExports(v)| == |names| && DllName(v) == Encode(dll)
    ensures forall i :: 0 <= i < |names| ==> WalkExports(v)[i] == Export(Encode(names[i]), l.stub + i * 0x10)
  {
    forall i | 0 <= i < |names|
      ensures ExportAt(v, i) == Export(Encode(names[i]), l.stub + i * 0x10)
    {
      ExportFrom(v, l, |Blob(names)|, names, i);
    }
  }

  lemma {:induction false} ImageFields(img: seq<Byte>, v: View, l: Layout, base: nat, dll: string, names: seq<string>)
    requires v == ViewOf(img) && IsAscii(dll) && AllAscii(names) && IsImage(img, l, base, dll, names)
    ensures HeaderFacts(v, l, |Blob(names)|) && forall i :: 0 <= i < |names| ==> EntryFacts(v, l, names, i)
  {
    ShowsSplit(img, HeaderFields(l, base, |Blob(names)|), TableFields(l, names, |names|));
    FieldsShow(v, l, base, names, |Blob(names)|);
  }

  lemma {:induction false} ImageNames(img: seq<Byte>, v: View, l: Layout, base: nat, dll: string, names: seq<string>)
    requires v == ViewOf(img) && IsAscii(dll) && AllAscii(names) && IsImage(img, l, base, dll, names)
    ensures forall i :: 0 <= i < |names| ==> v.str(l.nms + NameOff(names, i)) == Encode(names[i])
    ensures v.str(l.nms + |Blob(names)|) == Encode(dll)
  {
    NamesShow(img, l.nms, dll, names);
  }

  lemma {:induction false} ImageShows(img: seq<Byte>, v: View, l: Layout, base: nat, dll: string, names: seq<string>)
    requires v == ViewOf(img) && IsAscii(dll) && AllAscii(names) && IsImage(img, l, base, dll, names)
    ensures ViewFacts(v, l, dll, names) && l.n == |names|
  {
    ImageFields(img, v, l, base, dll, names);
    ImageNames(img, v, l, base, dll, names);
  }

  lemma {:induction false} ImageIsDll(img: seq<Byte>, v: View, l: Layout, base: nat, dll: string, names: seq<string>)
    requires v == ViewOf(img) && IsAscii(dll) && AllAscii(names) && IsImage(img, l, base, dll, names)
    ensures IsDll(v, base, |img|, |names|)
  {
    ShowsSplit(img, HeaderFields(l, base, |Blob(names)|), TableFields(l, names, |names|));
    DllShown(v, l, base, |Blob(names)|);
  }

  /** Export round trip: walking the export table of the image gives back the names in order, name i at
      the address of stub i, and the DLL's own name; the headers describe the image to a loader. */
  lemma {:induction false} ExportRoundTrip(img: seq<Byte>, v: View, l: Layout, base: nat, dll: string,
      names: seq<string>)
    requires v == ViewOf(img) && IsAscii(dll) && AllAscii(names) && IsImage(img, l, base, dll, names)
    ensures IsPe64(v) && IsDll(v, base, |img|, |names|)
    ensures |WalkExports(v)| == |names|
    ensures forall i :: 0 <= i < |names| ==> WalkExports(v)[i] == Export(Encode(names[i]), l.stub + i * 0x10)
    ensures DllName(v) == Encode(dll)
  {
    ImageShows(img, v, l, base, dll, names);
    ImageIsDll(img, v, l, base, dll, names);
    WalkFrom(v, l, dll, names);
  }

  /** Stub `i` lies inside the image, is a breakpoint, and is hooked under the name of export i. */
  lemma {:induction false} StubIsHooked(img: seq<Byte>, hooks: Hooks, l: Layout, base: nat, dll: string,
      names: seq<string>, i: nat)
    requires IsAscii(dll) && AllAscii(names) && IsImage(img, l, base, dll, names) && i < |names|
    ensures var rva, h := l.stub + i * 0x10, StubHooks(hooks, base, l, dll, names, |names|);
            && rva + 0x10 <= |img| && (forall j :: rva <= j < rva + 0x10 ==> img[j] == 0xCC)
            && base + rva in h && h[base + rva].dll == dll && h[base + rva].func == names[i]
  {
    StubHooked(hooks, base, l, dll, names, |names|, i);
  }
}
