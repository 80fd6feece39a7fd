/** The on-disk store of analysed databases: files, an index by content hash, and eviction. Hashes, clocks
    and the size of the encoded index are inputs. */
module IdbStore {
  import opened Eviction
  import opened Options

  /** What the index says about a binary. */
  datatype Record = Record(hash: string, path: string, kind: string, size: nat, created: string, accessed: string)

  type Index = map<string, Record>

  datatype Text = Blob | Json(index: Index)

  datatype File = File(size: nat, mtime: nat, text: Text)

  type Files = map<string, File>

  const INDEX: string := "index.json"
  const TMP: string := "index.json.tmp"

  // ---------------------------------------------------------------- names

  predicate StandsAt(s: string, p: string, i: nat) {
    i + |p| <= |s| && s[i..i + |p|] == p
  }

  predicate Contains(s: string, p: string) {
    exists i :: 0 <= i <= |s| && StandsAt(s, p, i)
  }

  /** Containing is having the pattern between two parts. */
  lemma {:induction false} ContainsIff(s: string, p: string)
    ensures Contains(s, p) <==> exists i :: 0 <= i <= |s| - |p| && s == s[..i] + p + s[i + |p|..]
  {
    if Contains(s, p) {
      var i :| 0 <= i <= |s| && StandsAt(s, p, i);
      assert s == s[..i] + p + s[i + |p|..];
    }
    if i :| 0 <= i <= |s| - |p| && s == s[..i] + p + s[i + |p|..] {
      assert s[i..i + |p|] == p;
      assert StandsAt(s, p, i);
    }
  }

  predicate EndsWith(s: string, p: string) {
    |p| <= |s| && s[|s| - |p|..] == p
  }

  function Pattern(hash: string): (p: string) {
    "." + hash + "."
  }

  /** The database file name for a binary. */
  function IdbName(basename: string, hash: string): (name: string) {
    basename + "." + hash + ".dylib.i64"
  }

  predicate IsIdbOf(name: string, hash: string) {
    Contains(name, Pattern(hash)) && EndsWith(name, ".i64")
  }

  predicate HasIdb(files: Files, hash: string) {
    exists name :: name in files && IsIdbOf(name, hash)
  }

  /** A database name matches its hash under any basename. */
  lemma {:induction false} NameMatches(basename: string, hash: string)
    ensures IsIdbOf(IdbName(basename, hash), hash)
  {
    var n, p := IdbName(basename, hash), Pattern(hash);
    assert n == basename + p + "dylib.i64";
    assert StandsAt(n, p, |basename|);
    assert n[|n| - 4..] == ".i64";
  }

  function Dots(s: string): (n: nat) {
    if |s| == 0 then 0 else Dots(s[..|s| - 1]) + if s[|s| - 1] == '.' then 1 else 0
  }

  lemma {:induction false} DotsConcat(a: string, b: string)
    ensures Dots(a + b) == Dots(a) + Dots(b)
  {
    if |b| == 0 {
      assert a + b == a;
    } else {
      assert (a + b)[..|a + b| - 1] == a + b[..|b| - 1];
      DotsConcat(a, b[..|b| - 1]);
    }
  }

  lemma {:induction false} ContainsDots(s: string, p: string, i: nat)
    requires StandsAt(s, p, i)
    ensures Dots(p) <= Dots(s)
  {
    assert s == s[..i] + (p + s[i + |p|..]);
    DotsConcat(s[..i], p + s[i + |p|..]);
    DotsConcat(p, s[i + |p|..]);
  }

  lemma {:induction false} PatternDots(hash: string)
    ensures Dots(Pattern(hash)) >= 2
  {
    assert Pattern(hash) == "." + (hash + ".");
    DotsConcat(".", hash + ".");
    DotsConcat(hash, ".");
    IndexDots();
  }

  /** No hash pattern matches the index itself. */
  lemma {:induction false} IndexNeverMatches(hash: string)
    ensures !Contains(INDEX, Pattern(hash)) && !EndsWith(TMP, ".i64")
  {
    forall i: nat
      ensures !StandsAt(INDEX, Pattern(hash), i)
    {
      if StandsAt(INDEX, Pattern(hash), i) {
        ContainsDots(INDEX, Pattern(hash), i);
        PatternDots(hash);
        IndexDots();
        assert false;
      }
    }
  }

  lemma {:induction false} IndexDots()
    ensures Dots(INDEX) == 1 && Dots(".") == 1
  {
    assert INDEX == "index" + ".json";
    DotsConcat("index", ".json");
    assert "index" == "i" + "ndex" && ".json" == "." + "json";
    NoDots("index");
    NoDots("json");
    DotsConcat(".", "json");
  }

  lemma {:induction false} NoDots(s: string)
    requires forall i :: 0 <= i < |s| ==> s[i] != '.'
    ensures Dots(s) == 0
  {
    if |s| > 0 {
      NoDots(s[..|s| - 1]);
    }
  }

  // ---------------------------------------------------------------- lookup

  /** The first listed name that matches. */
  method LookupByHash(files: Files, listing: seq<string>, hash: string) returns (r: Option<string>)
    requires forall name :: name in listing <==> name in files
    ensures r.Some? <==> HasIdb(files, hash)
    ensures r.Some? ==> r.value in files && IsIdbOf(r.value, hash)
  {
    for i := 0 to |listing|
      invariant forall j :: 0 <= j < i ==> !IsIdbOf(listing[j], hash)
    {
      if Contains(listing[i], Pattern(hash)) && EndsWith(listing[i], ".i64") {
        assert listing[i] in files;
        return Some(listing[i]);
      }
    }
    forall name | name in files
      ensures !IsIdbOf(name, hash)
    {
      assert name in listing;
    }
    r := None;
  }

  /** A stored database is found for every binary with the same content, whatever its name. */
  lemma {:induction false} LookupFinds(files: Files, basename: string, hash: string)
    requires IdbName(basename, hash) in files
    ensures HasIdb(files, hash)
  {
    NameMatches(basename, hash);
  }

  // ---------------------------------------------------------------- the index

  function ReadIndex(files: Files): (idx: Index) {
    if INDEX in files && files[INDEX].text.Json? then files[INDEX].text.index else map[]
  }

  /** Write to a temporary file, then rename it over the index. */
  function WriteIndex(files: Files, idx: Index, size: nat, now: nat): (r: Files)
    ensures ReadIndex(r) == idx && r.Keys == files.Keys - {TMP} + {INDEX}
    ensures r[INDEX].size == size && r[INDEX].mtime == now
    ensures forall n :: n in files && n != INDEX && n != TMP ==> r[n] == files[n]
  {
    (files - {TMP})[INDEX := File(size, now, Json(idx))]
  }

  lemma {:induction false} WriteKeepsIdbs(files: Files, idx: Index, size: nat, now: nat, hash: string)
    ensures HasIdb(WriteIndex(files, idx, size, now), hash) <==> HasIdb(files, hash)
  {
    IndexNeverMatches(hash);
    var r := WriteIndex(files, idx, size, now);
    if HasIdb(files, hash) {
      var name :| name in files && IsIdbOf(name, hash);
      assert name in r;
    }
    if HasIdb(r, hash) {
      var name :| name in r && IsIdbOf(name, hash);
      assert name in files;
    }
  }

  function Kept(idx: Index, files: Files): (r: Index) {
    map h | h in idx && HasIdb(files, h) :: idx[h]
  }

  /** Drop the index entries without a database file; the file is rewritten only if there are any. */
  function Clean(files: Files, size: nat, now: nat): (r: Files) {
    var idx := ReadIndex(files);
    if Kept(idx, files) == idx then files else WriteIndex(files, Kept(idx, files), size, now)
  }

  /** After cleaning every remaining key has a database file, and only orphans were dropped. */
  lemma {:induction false} CleanExact(files: Files, size: nat, now: nat)
    ensures var idx, r := ReadIndex(files), Clean(files, size, now);
            && ReadIndex(r) == Kept(idx, files)
            && forall h :: h in idx ==>
                 (h in ReadIndex(r) <==> HasIdb(files, h)) && (HasIdb(r, h) <==> HasIdb(files, h))
  {
    var idx := ReadIndex(files);
    forall h | h in idx
      ensures HasIdb(Clean(files, size, now), h) <==> HasIdb(files, h)
    {
      WriteKeepsIdbs(files, Kept(idx, files), size, now, h);
    }
  }

  /** The last component of a path, from its first `i` characters back. */
  function FileName(path: string, i: nat): (name: string)
    requires i <= |path|
  {
    if i == 0 || path[i - 1] == '/' then path[i..] else FileName(path, i - 1)
  }

  /** By the extension of the file name; a leading dot starts no extension. */
  function KindOf(path: string): (k: string) {
    var name := FileName(path, |path|);
    var d := LastDot(name, |name|);
    if d > 0 && name[d + 1..] == "so" then "sbpf" else "native"
  }

  lemma {:induction false} FileNameIs(path: string, i: nat)
    requires i <= |path| && forall j :: i <= j < |path| ==> path[j] != '/'
    ensures var n := FileName(path, i);
            && |n| <= |path| && n == path[|path| - |n|..] && |n| >= |path| - i
            && (|n| < |path| ==> path[|path| - |n| - 1] == '/')
            && forall j :: 0 <= j < |n| ==> n[j] != '/'
  {
    if i > 0 && path[i - 1] != '/' {
      FileNameIs(path, i - 1);
    }
  }

  /** The path ends in `.so` after a character that is no slash. */
  predicate EndsInSo(path: string) {
    var n := |path|;
    n > 3 && path[n - 4] != '/' && path[n - 3] == '.' && path[n - 2] == 's' && path[n - 1] == 'o'
  }

  lemma {:induction false} SoName(path: string, name: string)
    requires name == FileName(path, |path|) && EndsInSo(path)
    ensures |name| > 3 && name[|name| - 3] == '.' && name[|name| - 2] == 's' && name[|name| - 1] == 'o'
  {
    FileNameIs(path, |path|);
    var m := |name|;
    if m > 3 {
      assert name[m - 3] == path[|path| - 3] && name[m - 2] == path[|path| - 2] && name[m - 1] == path[|path| - 1];
    }
  }

  lemma {:induction false} SoHasExtension(name: string)
    requires |name| > 3 && name[|name| - 3] == '.' && name[|name| - 2] == 's' && name[|name| - 1] == 'o'
    ensures var d := LastDot(name, |name|); d > 0 && name[d + 1..] == "so"
  {
    NoLaterDot(name, |name| - 3, |name|);
    assert name[|name| - 2..] == ['s', 'o'];
  }

  lemma {:induction false} ExtensionIsSo(path: string, name: string, d: nat)
    requires name == FileName(path, |path|) && 0 < d < |name| && name[d] == '.' && name[d + 1..] == "so"
    ensures EndsInSo(path)
  {
    FileNameIs(path, |path|);
    assert |name| == d + 3 && name[d + 1..][0] == 's' && name[d + 1..][1] == 'o';
    assert forall j :: 0 <= j < |name| ==> name[j] == path[|path| - |name| + j];
  }

  /** A binary is sbpf if its path ends so, and native otherwise. */
  lemma {:induction false} KindExact(path: string)
    ensures KindOf(path) == if EndsInSo(path) then "sbpf" else "native"
  {
    var name := FileName(path, |path|);
    var d := LastDot(name, |name|);
    if EndsInSo(path) {
      SoName(path, name);
      SoHasExtension(name);
    } else if d > 0 {
      if name[d + 1..] == "so" {
        ExtensionIsSo(path, name, d);
      }
    }
  }

  /** `record`: the first `created` of a hash is kept. */
  function Recorded(files: Files, hash: string, path: string, bytes: nat, stamp: string, size: nat,
                    now: nat): (r: Files) {
    var idx := ReadIndex(files);
    var created := if hash in idx then idx[hash].created else stamp;
    WriteIndex(files, idx[hash := Record(hash, path, KindOf(path), bytes, created, stamp)], size, now)
  }

  lemma {:induction false} RecordExact(files: Files, hash: string, path: string, bytes: nat, stamp: string, size: nat,
      now: nat)
    ensures var idx, idx' := ReadIndex(files), ReadIndex(Recorded(files, hash, path, bytes, stamp, size, now));
            && idx'.Keys == idx.Keys + {hash} && idx'[hash].hash == hash && idx'[hash].accessed == stamp
            && idx'[hash].path == path && idx'[hash].size == bytes
            && idx'[hash].created == (if hash in idx then idx[hash].created else stamp)
            && forall h :: h in idx && h != hash ==> idx'[h] == idx[h]
  {
  }

  function RemoveFiles(files: Files, hash: string): (r: Files) {
    map n | n in files && !Contains(n, Pattern(hash)) :: files[n]
  }

  /** `remove`: index entry and all files of a hash. */
  function Removed(files: Files, hash: string, size: nat, now: nat): (r: Files) {
    var idx := ReadIndex(files);
    if hash in idx then WriteIndex(RemoveFiles(files, hash), idx - {hash}, size, now) else files
  }

  lemma {:induction false} RemoveExact(files: Files, hash: string, size: nat, now: nat)
    requires hash in ReadIndex(files)
    ensures var r := Removed(files, hash, size, now);
            && ReadIndex(r) == ReadIndex(files) - {hash} && !HasIdb(r, hash)
            && forall n :: n in files && n != INDEX && n != TMP ==> (n in r <==> !Contains(n, Pattern(hash)))
  {
    var r := Removed(files, hash, size, now);
    IndexNeverMatches(hash);
  }

  // ---------------------------------------------------------------- eviction

  /** A directory listing: every file once, in any order. */
  ghost predicate IsListing(files: Files, es: seq<Entry>) {
    && (forall i :: 0 <= i < |es| ==> Listed(files, es[i]))
    && (forall i, j :: 0 <= i < j < |es| ==> es[i].name != es[j].name)
    && (forall name :: name in files ==> exists i :: 0 <= i < |es| && es[i].name == name)
  }

  ghost predicate Listed(files: Files, e: Entry) {
    e.name in files && files[e.name].size == e.size && files[e.name].mtime == e.mtime
  }

  function NamesOf(out: seq<Group>, k: nat): (names: set<string>)
    requires k <= |out|
  {
    if k == 0 then {} else NamesOf(out, k - 1) + Members(out[k - 1].files)
  }

  function Members(names: seq<string>): (r: set<string>) {
    set n | n in names
  }

  function CountFiles(out: seq<Group>, k: nat): (n: nat)
    requires k <= |out|
  {
    if k == 0 then 0 else CountFiles(out, k - 1) + |out[k - 1].files|
  }

  function SatSum(out: seq<Group>, k: nat): (n: nat)
    requires k <= |out|
  {
    if k == 0 then 0 else SatAdd(SatSum(out, k - 1), out[k - 1].bytes)
  }

  lemma {:induction false} NamesOfHas(out: seq<Group>, k: nat, name: string)
    requires k <= |out|
    ensures name in NamesOf(out, k) <==> exists i :: 0 <= i < k && name in out[i].files
  {
    if k > 0 {
      NamesOfHas(out, k - 1, name);
    }
  }

  lemma {:induction false} GroupHas(es: seq<Entry>, stem: string, k: nat, name: string)
    requires k <= |es|
    ensures name in GroupOf(es, stem, k).files <==> Stem(name) == stem && exists i :: 0 <= i < k && es[i].name == name
  {
    if k > 0 {
      GroupHas(es, stem, k - 1, name);
    }
  }

  /** The groups evicted from a listing: those of the sorted grouping the loop takes. */
  ghost predicate IsEviction(es: seq<Entry>, gs: seq<Group>, max: nat, pinned: set<string>, out: seq<Group>) {
    && IsGrouping(es, |es|, gs)
    && var o, total := Sorted(gs, |gs|), TotalOf(es, |es|);
       out == if total <= max then [] else Evict(o, |o|, total, max, pinned).out
  }

  ghost predicate OutHas(out: seq<Group>, stem: string) {
    exists i :: 0 <= i < |out| && out[i].stem == stem
  }

  lemma {:induction false} OutIsGroup(es: seq<Entry>, gs: seq<Group>, max: nat, pinned: set<string>, out: seq<Group>,
      i: nat)
    requires IsEviction(es, gs, max, pinned, out) && i < |out|
    ensures out[i] in gs && out[i] == GroupOf(es, out[i].stem, |es|) && out[i].stem !in pinned
  {
    var o, total := Sorted(gs, |gs|), TotalOf(es, |es|);
    EvictedAre(o, |o|, total, max, pinned, out[i]);
    SortedHas(gs, |gs|, out[i]);
    assert o[..|o|] == o && gs[..|gs|] == gs;
  }

  /** Known before the eviction: the unpinned groups before that of `stem`, oldest first, are not enough to
      bring the total down to the limit. */
  ghost predicate Goes(es: seq<Entry>, gs: seq<Group>, max: nat, pinned: set<string>, stem: string) {
    var o := Sorted(gs, |gs|);
    && stem !in pinned
    && exists i :: 0 <= i < |o| && o[i].stem == stem && TotalOf(es, |es|) - Unpinned(o, i, pinned) > max
  }

  /** The evicted groups are exactly the ones that could be told beforehand. */
  lemma {:induction false} GoesExactly(es: seq<Entry>, gs: seq<Group>, max: nat, pinned: set<string>,
      out: seq<Group>, stem: string)
    requires IsEviction(es, gs, max, pinned, out)
    ensures OutHas(out, stem) <==> Goes(es, gs, max, pinned, stem)
  {
    var o, total := Sorted(gs, |gs|), TotalOf(es, |es|);
    SortedDistinct(gs, |gs|);
    if OutHas(out, stem) {
      var j :| 0 <= j < |out| && out[j].stem == stem;
      OutIsGroup(es, gs, max, pinned, out, j);
      assert out[j] in Evict(o, |o|, total, max, pinned).out;
      EvictedAre(o, |o|, total, max, pinned, out[j]);
      assert o[..|o|] == o;
      var i :| 0 <= i < |o| && o[i] == out[j];
      EvictedExactly(o, total, max, pinned, i);
    }
    if Goes(es, gs, max, pinned, stem) {
      var i :| 0 <= i < |o| && o[i].stem == stem && total - Unpinned(o, i, pinned) > max;
      EvictedExactly(o, total, max, pinned, i);
      var j :| 0 <= j < |out| && out[j] == o[i];
    }
  }

  /** The files whose groups do not go. */
  ghost function Survivors(files: Files, es: seq<Entry>, gs: seq<Group>, max: nat, pinned: set<string>): (left: Files) {
    map n | n in files && !Goes(es, gs, max, pinned, Stem(n)) :: files[n]
  }

  lemma {:induction false} SurvivorsAre(files: Files, es: seq<Entry>, gs: seq<Group>, max: nat, pinned: set<string>,
      out: seq<Group>)
    requires IsListing(files, es) && IsEviction(es, gs, max, pinned, out)
    ensures files - NamesOf(out, |out|) == Survivors(files, es, gs, max, pinned)
  {
    forall n | n in files
      ensures n in NamesOf(out, |out|) <==> Goes(es, gs, max, pinned, Stem(n))
    {
      FileGoes(files, es, gs, max, pinned, out, n);
      GoesExactly(es, gs, max, pinned, out, Stem(n));
    }
  }

  /** A file goes exactly if its stem's group is evicted: groups go whole or not at all. */
  lemma {:induction false} FileGoes(files: Files, es: seq<Entry>, gs: seq<Group>, max: nat, pinned: set<string>,
      out: seq<Group>, name: string)
    requires IsListing(files, es) && IsEviction(es, gs, max, pinned, out) && name in files
    ensures name in NamesOf(out, |out|) <==> OutHas(out, Stem(name))
  {
    NamesOfHas(out, |out|, name);
    forall i | 0 <= i < |out|
      ensures name in out[i].files <==> Stem(name) == out[i].stem
    {
      OutIsGroup(es, gs, max, pinned, out, i);
      GroupHas(es, out[i].stem, |es|, name);
    }
  }

  /** Pinned stems are untouched. */
  lemma {:induction false} PinnedStay(files: Files, es: seq<Entry>, gs: seq<Group>, max: nat, pinned: set<string>,
      out: seq<Group>, name: string)
    requires IsListing(files, es) && IsEviction(es, gs, max, pinned, out) && name in files && Stem(name) in pinned
    ensures name !in NamesOf(out, |out|)
  {
    FileGoes(files, es, gs, max, pinned, out, name);
    forall i | 0 <= i < |out|
      ensures out[i].stem != Stem(name)
    {
      OutIsGroup(es, gs, max, pinned, out, i);
    }
  }

  /** Some file with the stem of `name` is at least as new as time `t`. */
  ghost predicate SiblingSince(files: Files, name: string, t: nat) {
    exists n :: n in files && Stem(n) == Stem(name) && files[n].mtime >= t
  }

  /** For every evicted file and every unpinned file that stays, some file with the latter's stem is at least as
      new as the former; and the run stops at or below the limit or with every unpinned file gone. */
  lemma {:induction false} EvictionOrder(files: Files, es: seq<Entry>, gs: seq<Group>, max: nat, pinned: set<string>,
      out: seq<Group>, gone: string, stays: string)
    requires IsListing(files, es) && IsEviction(es, gs, max, pinned, out) && gone in files && stays in files
    requires Stem(stays) !in pinned && stays !in NamesOf(out, |out|)
    ensures gone in NamesOf(out, |out|) ==> SiblingSince(files, stays, files[gone].mtime)
    ensures var o, total := Sorted(gs, |gs|), TotalOf(es, |es|);
            total <= max || Evict(o, |o|, total, max, pinned).total <= max
  {
    GroupOrder(files, es, gs, max, pinned, out, gone, stays);
    if gone in NamesOf(out, |out|) {
      NewestSibling(files, es, gone, stays);
    }
  }

  lemma {:induction false} NewestSibling(files: Files, es: seq<Entry>, gone: string, stays: string)
    requires IsListing(files, es) && gone in files && stays in files
    requires GroupOf(es, Stem(gone), |es|).newest <= GroupOf(es, Stem(stays), |es|).newest
    ensures SiblingSince(files, stays, files[gone].mtime)
  {
    NewestIs(es, Stem(gone), |es|);
    NewestIs(es, Stem(stays), |es|);
    var g :| 0 <= g < |es| && es[g].name == gone;
    assert Listed(files, es[g]);
    if GroupOf(es, Stem(stays), |es|).newest > 0 {
      var i :| 0 <= i < |es| && Stem(es[i].name) == Stem(stays) && es[i].mtime == GroupOf(es, Stem(stays), |es|).newest;
      assert Listed(files, es[i]);
    } else {
      assert files[stays].mtime >= 0;
    }
  }

  /** The same by the times of the groups. */
  lemma {:induction false} GroupOrder(files: Files, es: seq<Entry>, gs: seq<Group>, max: nat, pinned: set<string>,
      out: seq<Group>, gone: string, stays: string)
    requires IsListing(files, es) && IsEviction(es, gs, max, pinned, out) && gone in files && stays in files
    requires Stem(stays) !in pinned && stays !in NamesOf(out, |out|)
    ensures gone in NamesOf(out, |out|) ==>
              GroupOf(es, Stem(gone), |es|).newest <= GroupOf(es, Stem(stays), |es|).newest
    ensures var o, total := Sorted(gs, |gs|), TotalOf(es, |es|);
            total <= max || Evict(o, |o|, total, max, pinned).total <= max
  {
    var o, total := Sorted(gs, |gs|), TotalOf(es, |es|);
    FileGoes(files, es, gs, max, pinned, out, stays);
    FileGoes(files, es, gs, max, pinned, out, gone);
    var h := StemGroup(files, es, gs, stays);
    if total > max {
      var j :| 0 <= j < |o| && o[j] == h;
      Stopped(o, |o|, total, max, pinned, j);
      if gone in NamesOf(out, |out|) {
        var i :| 0 <= i < |out| && out[i].stem == Stem(gone);
        OutIsGroup(es, gs, max, pinned, out, i);
        SortedAscending(gs, |gs|);
        OldestFirst(o, total, max, pinned, out[i], h);
      }
    }
  }

  lemma {:induction false} StemGroup(files: Files, es: seq<Entry>, gs: seq<Group>, name: string) returns (h: Group)
    requires IsListing(files, es) && IsGrouping(es, |es|, gs) && name in files
    ensures h in Sorted(gs, |gs|) && h.stem == Stem(name) && h == GroupOf(es, h.stem, |es|)
  {
    var i :| 0 <= i < |es| && es[i].name == name;
    assert HasStem(gs, Stem(es[i].name));
    var d :| 0 <= d < |gs| && gs[d].stem == Stem(name);
    h := gs[d];
    SortedHas(gs, |gs|, h);
    assert gs[..|gs|] == gs;
  }

  // ---------------------------------------------------------------- bytes

  /** Bytes of the first `k` entries whose stem is in `stems`. */
  function SizeOf(es: seq<Entry>, stems: set<string>, k: nat): (n: nat)
    requires k <= |es|
  {
    if k == 0 then 0 else SizeOf(es, stems, k - 1) + if Stem(es[k - 1].name) in stems then es[k - 1].size else 0
  }

  lemma {:induction false} SizeAdd(es: seq<Entry>, stems: set<string>, x: string, k: nat)
    requires k <= |es| && x !in stems
    ensures SizeOf(es, stems + {x}, k) == SizeOf(es, stems, k) + SizeOf(es, {x}, k)
  {
    if k > 0 {
      SizeAdd(es, stems, x, k - 1);
    }
  }

  lemma {:induction false} GroupBytes(es: seq<Entry>, x: string, k: nat)
    requires k <= |es| && TrueSum(es, k) <= MAX_U64
    ensures GroupOf(es, x, k).bytes == SizeOf(es, {x}, k) <= TrueSum(es, k)
  {
    if k > 0 {
      GroupBytes(es, x, k - 1);
    }
  }

  function StemsOf(out: seq<Group>, k: nat): (r: set<string>)
    requires k <= |out|
  {
    if k == 0 then {} else StemsOf(out, k - 1) + {out[k - 1].stem}
  }

  lemma {:induction false} StemsOfHas(out: seq<Group>, k: nat, x: string)
    requires k <= |out|
    ensures x in StemsOf(out, k) <==> exists i :: 0 <= i < k && out[i].stem == x
  {
    if k > 0 {
      StemsOfHas(out, k - 1, x);
    }
  }

  /** The bytes of distinct groups of a listing are the bytes of the files with their stems. */
  lemma {:induction false} SumIsSize(es: seq<Entry>, out: seq<Group>, k: nat)
    requires k <= |out| && Distinct(out) && TrueSum(es, |es|) <= MAX_U64
    requires forall i :: 0 <= i < |out| ==> out[i] == GroupOf(es, out[i].stem, |es|)
    ensures Sum(out[..k]) == SizeOf(es, StemsOf(out, k), |es|)
  {
    if k == 0 {
      SizeNone(es, |es|);
    } else {
      SumIsSize(es, out, k - 1);
      StemsOfHas(out, k - 1, out[k - 1].stem);
      SizeAdd(es, StemsOf(out, k - 1), out[k - 1].stem, |es|);
      GroupBytes(es, out[k - 1].stem, |es|);
      assert out[..k][..k - 1] == out[..k - 1];
    }
  }

  lemma {:induction false} SizeNone(es: seq<Entry>, k: nat)
    requires k <= |es|
    ensures SizeOf(es, {}, k) == 0
  {
    if k > 0 {
      SizeNone(es, k - 1);
    }
  }

  lemma {:induction false} EvictDistinct(o: seq<Group>, k: nat, total: nat, max: nat, pinned: set<string>)
    requires k <= |o| && Distinct(o)
    ensures Distinct(Evict(o, k, total, max, pinned).out)
  {
    if k > 0 {
      EvictDistinct(o, k - 1, total, max, pinned);
      var out := Evict(o, k - 1, total, max, pinned).out;
      forall i | 0 <= i < |out|
        ensures out[i].stem != o[k - 1].stem
      {
        EvictedAre(o, k - 1, total, max, pinned, out[i]);
      }
      SnocDistinct(out, o[k - 1]);
    }
  }

  /** Conservation: unless the total saturates, evicted and remaining bytes make up the total, and the
      evicted bytes are those of the files whose stems went. */
  lemma {:induction false} BytesConserved(es: seq<Entry>, gs: seq<Group>, max: nat, pinned: set<string>,
      out: seq<Group>)
    requires IsEviction(es, gs, max, pinned, out) && TrueSum(es, |es|) <= MAX_U64 && TotalOf(es, |es|) > max
    ensures var o, total := Sorted(gs, |gs|), TotalOf(es, |es|);
            && Evict(o, |o|, total, max, pinned).total + Sum(out) == total == TrueSum(es, |es|)
            && Sum(out) == SizeOf(es, StemsOf(out, |out|), |es|)
  {
    var o, total := Sorted(gs, |gs|), TotalOf(es, |es|);
    SortedSum(gs, |gs|);
    assert gs[..|gs|] == gs && o[..|o|] == o && out[..|out|] == out;
    Conserved(o, |o|, total, max, pinned);
    SortedDistinct(gs, |gs|);
    EvictDistinct(o, |o|, total, max, pinned);
    forall i | 0 <= i < |out|
      ensures out[i] == GroupOf(es, out[i].stem, |es|)
    {
      OutIsGroup(es, gs, max, pinned, out, i);
    }
    SumIsSize(es, out, |out|);
  }

  lemma {:induction false} SatSumIs(out: seq<Group>, k: nat)
    requires k <= |out| && Sum(out[..k]) <= MAX_U64
    ensures SatSum(out, k) == Sum(out[..k])
  {
    if k > 0 {
      assert out[..k][..k - 1] == out[..k - 1];
      SatSumIs(out, k - 1);
    }
  }

  /** Putting the last evicted group back would exceed the limit. */
  lemma {:induction false} LastEvictionNeeded(es: seq<Entry>, gs: seq<Group>, max: nat, pinned: set<string>,
      out: seq<Group>)
    requires IsEviction(es, gs, max, pinned, out) && out != []
    ensures var o, total := Sorted(gs, |gs|), TotalOf(es, |es|);
            Evict(o, |o|, total, max, pinned).total + out[|out| - 1].bytes > max
  {
    var o, total := Sorted(gs, |gs|), TotalOf(es, |es|);
    var e := Evict(o, |o|, total, max, pinned);
    assert out == e.out;
    LastNeeded(o, |o|, total, max, pinned);
    assert e.total + e.out[|e.out| - 1].bytes > max;
  }

  // ---------------------------------------------------------------- index and eviction

  /** The store after evicting `out` and cleaning up. */
  function Swept(files: Files, out: seq<Group>, size: nat, now: nat): (r: Files) {
    Clean(files - NamesOf(out, |out|), size, now)
  }

  /** The index after the files `names` went and the rest was cleaned. */
  lemma {:induction false} SweptIndex(files: Files, names: set<string>, size: nat, now: nat)
    ensures var left := files - names;
            && (forall h :: h in ReadIndex(Clean(left, size, now)) ==> HasIdb(Clean(left, size, now), h))
            && (ReadIndex(Clean(left, size, now)) == Kept(ReadIndex(files), left) <==>
                INDEX !in names || INDEX !in files || Kept(ReadIndex(files), left) == map[])
  {
    var left := files - names;
    CleanExact(left, size, now);
    assert Kept(map[], left) == map[];
    if INDEX !in names || INDEX !in files {
      assert ReadIndex(left) == ReadIndex(files);
    } else {
      assert ReadIndex(left) == map[];
    }
  }

  /** After an eviction every remaining key has a database file; exactly the orphans were dropped if and
      only if the index does not go or no database that stays has a key. */
  lemma {:induction false} EvictionIndex(files: Files, es: seq<Entry>, gs: seq<Group>, max: nat, pinned: set<string>,
      out: seq<Group>, size: nat, now: nat)
    requires IsListing(files, es) && IsEviction(es, gs, max, pinned, out)
    ensures var left, r := Survivors(files, es, gs, max, pinned), Swept(files, out, size, now);
            && (forall h :: h in ReadIndex(r) ==> HasIdb(r, h))
            && (ReadIndex(r) == Kept(ReadIndex(files), left) <==>
                || INDEX !in files || !Goes(es, gs, max, pinned, "index")
                || forall h :: h in ReadIndex(files) ==> !HasIdb(left, h))
  {
    var left := Survivors(files, es, gs, max, pinned);
    SurvivorsAre(files, es, gs, max, pinned, out);
    SweptIndex(files, NamesOf(out, |out|), size, now);
    KeptNothing(ReadIndex(files), left);
    IndexStem();
    if INDEX in files {
      FileGoes(files, es, gs, max, pinned, out, INDEX);
      GoesExactly(es, gs, max, pinned, out, "index");
    }
  }

  lemma {:induction false} KeptNothing(idx: Index, files: Files)
    ensures Kept(idx, files) == map[] <==> forall h :: h in idx ==> !HasIdb(files, h)
  {
    if Kept(idx, files) == map[] {
      forall h | h in idx
        ensures !HasIdb(files, h)
      {
        assert h !in Kept(idx, files);
      }
    }
  }

  lemma {:induction false} IndexStem()
    ensures Stem(INDEX) == "index"
  {
    assert LastDot(INDEX, 10) == LastDot(INDEX, 9) == LastDot(INDEX, 8) == LastDot(INDEX, 7) == LastDot(INDEX, 6) == 5;
  }

  /** Pinning the stem "index" is enough. */
  lemma {:induction false} PinnedIndexKept(files: Files, es: seq<Entry>, gs: seq<Group>, max: nat,
      pinned: set<string>, out: seq<Group>, size: nat, now: nat)
    requires IsListing(files, es) && IsEviction(es, gs, max, pinned, out) && "index" in pinned
    ensures ReadIndex(Swept(files, out, size, now)) == Kept(ReadIndex(files), Survivors(files, es, gs, max, pinned))
  {
    EvictionIndex(files, es, gs, max, pinned, out, size, now);
  }
}
