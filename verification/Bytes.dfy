/** Byte buffers: little-endian fields, in-place patches, C strings. */
module Bytes {

  type Byte = b: int | 0 <= b < 256

  function Pow256(n: nat): (p: nat)
    ensures p > 0
  {
    if n == 0 then 1 else 256 * Pow256(n - 1)
  }

  /** Little-endian encoding of `v` in `n` bytes; the value has to fit. */
  function LE(v: nat, n: nat): (s: seq<Byte>)
    ensures |s| == n
  {
    if n == 0 then [] else [v % 256] + LE(v / 256, n - 1)
  }

  /** Little-endian value of a byte string. */
  function Value(s: seq<Byte>): (v: nat) {
    if |s| == 0 then 0 else s[0] + 256 * Value(s[1..])
  }

  lemma {:induction false} LEValue(v: nat, n: nat)
    requires v < Pow256(n)
    ensures Value(LE(v, n)) == v
  {
    if n > 0 {
      LEValue(v / 256, n - 1);
      assert LE(v, n)[1..] == LE(v / 256, n - 1);
    }
  }

  lemma {:induction false} Widths()
    ensures Pow256(2) == 0x1_0000 && Pow256(4) == 0x1_0000_0000 && Pow256(8) == 0x1_0000_0000_0000_0000
  {
    assert Pow256(1) == 256 && Pow256(3) == 256 * Pow256(2);
    assert Pow256(5) == 256 * Pow256(4) && Pow256(6) == 256 * Pow256(5) && Pow256(7) == 256 * Pow256(6);
  }

  /** Field of `n` bytes at offset `o`. */
  function Field(s: seq<Byte>, o: nat, n: nat): (v: nat)
    requires o + n <= |s|
  {
    Value(s[o..o + n])
  }

  predicate AllZero(s: seq<Byte>) {
    forall i :: 0 <= i < |s| ==> s[i] == 0
  }

  /** `s` followed by `n` zero bytes. */
  function ZeroExtend(s: seq<Byte>, n: nat): (r: seq<Byte>)
    ensures |r| == |s| + n && s <= r && AllZero(r[|s|..])
    ensures AllZero(s) ==> AllZero(r)
  {
    s + seq(n, i => 0)
  }

  lemma {:induction false} ZeroValue(s: seq<Byte>)
    requires AllZero(s)
    ensures Value(s) == 0
  {
    if |s| > 0 {
      ZeroValue(s[1..]);
    }
  }

  lemma {:induction false} SliceOfSlice(s: seq<Byte>, a: nat, b: nat, o: nat, k: nat)
    requires a <= b <= |s| && o + k <= b - a
    ensures s[a..b][o..o + k] == s[a + o..a + o + k]
  {
    var x, y := s[a..b][o..o + k], s[a + o..a + o + k];
    forall i | 0 <= i < k
      ensures x[i] == y[i]
    {
      assert x[i] == s[a..b][o + i] == s[a + (o + i)];
    }
  }

  /** `data` stands at offset `o`. */
  ghost predicate Holds(s: seq<Byte>, o: nat, data: seq<Byte>) {
    o + |data| <= |s| && s[o..o + |data|] == data
  }

  lemma {:induction false} HoldsPrefix(s: seq<Byte>, t: seq<Byte>, o: nat, data: seq<Byte>)
    requires s <= t && Holds(s, o, data)
    ensures Holds(t, o, data)
  {
    assert t[..|s|] == s;
    SliceOfSlice(t, 0, |s|, o, |data|);
  }

  // ---------------------------------------------------------------- patches

  /** `s` with `data` written at offset `o`. */
  function Patch(s: seq<Byte>, o: nat, data: seq<Byte>): (t: seq<Byte>)
    requires o + |data| <= |s|
    ensures |t| == |s|
  {
    s[..o] + data + s[o + |data|..]
  }

  lemma {:induction false} PatchReads(s: seq<Byte>, o: nat, data: seq<Byte>)
    requires o + |data| <= |s|
    ensures Patch(s, o, data)[o..o + |data|] == data
  {
  }

  lemma {:induction false} PatchKeeps(s: seq<Byte>, o: nat, data: seq<Byte>, lo: nat, hi: nat)
    requires o + |data| <= |s| && lo <= hi <= |s| && (o + |data| <= lo || hi <= o)
    ensures Patch(s, o, data)[lo..hi] == s[lo..hi]
  {
    forall i | lo <= i < hi
      ensures Patch(s, o, data)[i] == s[i]
    {
    }
  }

  lemma {:induction false} PatchTail(s: seq<Byte>, o: nat, data: seq<Byte>, lo: nat)
    requires o + |data| <= lo <= |s|
    ensures Patch(s, o, data)[lo..] == s[lo..]
  {
    PatchKeeps(s, o, data, lo, |s|);
  }

  // ---------------------------------------------------------------- fields

  /** A little-endian field: offset, width, value. */
  datatype Fld = Fld(off: nat, w: nat, v: nat) {
    predicate Apart(lo: nat, hi: nat) {
      off + w <= lo || hi <= off
    }

    predicate Fits(n: nat) {
      off + w <= n && v < Pow256(w)
    }
  }

  /** The value of `w` bytes at offset `o`, or 0 beyond the end. */
  function At(s: seq<Byte>, o: nat, w: nat): (v: nat) {
    if o + w <= |s| then Field(s, o, w) else 0
  }

  /** Every field of the list reads back from the buffer. */
  ghost predicate Reads(s: seq<Byte>, fs: seq<Fld>) {
    forall i :: 0 <= i < |fs| ==> fs[i].off + fs[i].w <= |s| && At(s, fs[i].off, fs[i].w) == fs[i].v
  }

  ghost predicate AllApart(fs: seq<Fld>, lo: nat, hi: nat) {
    forall i :: 0 <= i < |fs| ==> fs[i].Apart(lo, hi)
  }

  /** A write between the fields keeps them. */
  lemma {:induction false} ReadsKept(s: seq<Byte>, fs: seq<Fld>, o: nat, data: seq<Byte>)
    requires Reads(s, fs) && o + |data| <= |s| && AllApart(fs, o, o + |data|)
    ensures Reads(Patch(s, o, data), fs)
  {
    forall i | 0 <= i < |fs|
      ensures At(Patch(s, o, data), fs[i].off, fs[i].w) == fs[i].v
    {
      PatchKeeps(s, o, data, fs[i].off, fs[i].off + fs[i].w);
    }
  }

  /** Packing one more field. */
  lemma {:induction false} ReadsMore(s: seq<Byte>, fs: seq<Fld>, f: Fld, data: seq<Byte>)
    requires Reads(s, fs) && |data| == f.w && Value(data) == f.v
    requires f.off + f.w <= |s| && AllApart(fs, f.off, f.off + f.w)
    ensures Reads(Patch(s, f.off, data), fs + [f])
  {
    ReadsKept(s, fs, f.off, data);
    PatchReads(s, f.off, data);
  }

  /** `struct.pack_into` of one little-endian field, among others already packed. */
  method PackInto(a: array<Byte>, f: Fld, ghost kept: seq<Fld>)
    requires f.Fits(a.Length) && Reads(a[..], kept) && AllApart(kept, f.off, f.off + f.w)
    modifies a
    ensures Reads(a[..], kept + [f])
  {
    var data := LE(f.v, f.w);
    LEValue(f.v, f.w);
    CopyInto(a, f.off, data);
    ReadsMore(old(a[..]), kept, f, data);
  }

  /** Three fields in a row. */
  method PackThree(a: array<Byte>, f: Fld, g: Fld, h: Fld, ghost kept: seq<Fld>)
    requires f.Fits(a.Length) && g.Fits(a.Length) && h.Fits(a.Length) && Reads(a[..], kept)
    requires AllApart(kept, f.off, f.off + f.w) && AllApart(kept, g.off, g.off + g.w)
    requires AllApart(kept, h.off, h.off + h.w)
    requires f.Apart(g.off, g.off + g.w) && f.Apart(h.off, h.off + h.w) && g.Apart(h.off, h.off + h.w)
    modifies a
    ensures Reads(a[..], kept + [f, g, h])
  {
    PackInto(a, f, kept);
    PackInto(a, g, kept + [f]);
    PackInto(a, h, kept + [f] + [g]);
    assert kept + [f] + [g] + [h] == kept + [f, g, h];
  }

  /** Slice assignment. */
  method CopyInto(a: array<Byte>, o: nat, data: seq<Byte>)
    requires o + |data| <= a.Length
    modifies a
    ensures a[..] == Patch(old(a[..]), o, data)
  {
    var i := 0;
    while i < |data|
      invariant 0 <= i <= |data|
      invariant forall j :: 0 <= j < a.Length ==> a[j] == if o <= j < o + i then data[j - o] else old(a[j])
    {
      a[o + i] := data[i];
      i := i + 1;
    }
  }

  // ---------------------------------------------------------------- NUL-terminated strings

  predicate NulFree(s: seq<Byte>) {
    forall i :: 0 <= i < |s| ==> s[i] != 0
  }

  /** Bytes from `o` up to the next NUL, or to the end of the buffer. */
  function CString(s: seq<Byte>, o: nat): (r: seq<Byte>)
    decreases |s| - o
  {
    if o >= |s| || s[o] == 0 then [] else [s[o]] + CString(s, o + 1)
  }

  lemma {:induction false} CStringAt(s: seq<Byte>, o: nat, name: seq<Byte>)
    requires NulFree(name) && o + |name| + 1 <= |s|
    requires s[o..o + |name| + 1] == name + [0]
    ensures CString(s, o) == name
    decreases |name|
  {
    var w := s[o..o + |name| + 1];
    assert s[o] == w[0];
    if |name| > 0 {
      assert s[o + 1..o + 1 + |name|] == w[1..] == name[1..] + [0];
      CStringAt(s, o + 1, name[1..]);
    }
  }

  predicate IsAscii(s: string) {
    forall i :: 0 <= i < |s| ==> 0 < s[i] as int < 128
  }

  function Encode(s: string): (b: seq<Byte>)
    requires IsAscii(s)
    ensures |b| == |s| && NulFree(b)
  {
    seq(|s|, i requires 0 <= i < |s| => s[i] as int)
  }

  predicate AllAscii(names: seq<string>) {
    forall i :: 0 <= i < |names| ==> IsAscii(names[i])
  }

  // ---------------------------------------------------------------- a loader's view

  /** How a loader looks at an image: little-endian words, NUL-terminated strings, and where it ends. */
  datatype View = View(word: (nat, nat) -> nat, str: nat -> seq<Byte>, size: nat)

  function ViewOf(img: seq<Byte>): (v: View) {
    View((o, w) => At(img, o, w), o => CString(img, o), |img|)
  }
}
