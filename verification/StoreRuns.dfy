/** The store's operations as they change the directory, and what holds over whole runs of them. */
module StoreRuns {
  import opened Eviction
  import opened IdbStore

  datatype Stats = Stats(groups: nat, files: nat, bytes: nat, remaining: nat)

  class Store {
    var files: Files

    constructor (f: Files)
      ensures files == f
    {
      files := f;
    }

    method RecordBinary(hash: string, path: string, bytes: nat, stamp: string, size: nat, now: nat)
      modifies this
      ensures files == Recorded(old(files), hash, path, bytes, stamp, size, now)
      ensures files == Apply(old(files), DoRecord(hash, path, bytes, stamp, size, now))
      ensures var idx, idx' := ReadIndex(old(files)), ReadIndex(files);
              && idx'.Keys == idx.Keys + {hash} && (forall h :: h in idx && h != hash ==> idx'[h] == idx[h])
              && idx'[hash].created == (if hash in idx then idx[hash].created else stamp)
      ensures forall h :: HasIdb(files, h) <==> HasIdb(old(files), h)
    {
      forall h
        ensures HasIdb(Recorded(files, hash, path, bytes, stamp, size, now), h) <==> HasIdb(files, h)
      {
        RecordKeepsIdbs(files, hash, path, bytes, stamp, size, now, h);
      }
      RecordExact(files, hash, path, bytes, stamp, size, now);
      var index := ReadIndex(files);
      var created := stamp;
      if hash in index {
        created := index[hash].created;
      }
      index := index[hash := Record(hash, path, KindOf(path), bytes, created, stamp)];
      files := WriteIndex(files, index, size, now);
    }

    /** Delete every listed file whose name contains the pattern of `hash`. */
    method RemoveFilesByHash(hash: string, listing: seq<string>)
      requires forall name :: name in listing <==> name in files
      modifies this
      ensures files == RemoveFiles(old(files), hash)
    {
      for i := 0 to |listing|
        invariant forall n :: n in files <==> n in old(files) && !(n in listing[..i] && Contains(n, Pattern(hash)))
        invariant forall n :: n in files ==> files[n] == old(files)[n]
      {
        if Contains(listing[i], Pattern(hash)) {
          files := files - {listing[i]};
        }
        assert listing[..i + 1] == listing[..i] + [listing[i]];
      }
      assert listing[..|listing|] == listing;
    }

    method RemoveHash(hash: string, listing: seq<string>, size: nat, now: nat) returns (found: bool)
      requires forall name :: name in listing <==> name in files
      modifies this
      ensures found <==> hash in ReadIndex(old(files))
      ensures files == Removed(old(files), hash, size, now) == Apply(old(files), DoRemove(hash, size, now))
    {
      var index := ReadIndex(files);
      found := hash in index;
      if found {
        RemoveFilesByHash(hash, listing);
        files := WriteIndex(files, index - {hash}, size, now);
      }
    }

    /** Returns the hashes of the dropped entries. */
    method CleanIndex(size: nat, now: nat) returns (dropped: set<string>)
      modifies this
      ensures files == Clean(old(files), size, now) == Apply(old(files), DoClean(size, now))
      ensures dropped == set h | h in ReadIndex(old(files)) && !HasIdb(old(files), h)
    {
      var index := ReadIndex(files);
      dropped := {};
      var rest := index.Keys;
      while rest != {}
        invariant rest <= index.Keys
        invariant forall h :: h in dropped <==> h in index && h !in rest && !HasIdb(files, h)
      {
        var h :| h in rest;
        if !HasIdb(files, h) {
          dropped := dropped + {h};
        }
        rest := rest - {h};
      }
      assert index - dropped == Kept(index, files);
      if dropped != {} {
        files := WriteIndex(files, index - dropped, size, now);
      }
    }

    /** Delete the files of one group. */
    method RemoveGroup(g: Group)
      modifies this
      ensures files == old(files) - Members(g.files)
    {
      for i := 0 to |g.files|
        invariant files == old(files) - Members(g.files[..i])
      {
        files := files - {g.files[i]};
        assert g.files[..i + 1] == g.files[..i] + [g.files[i]];
      }
      assert g.files[..|g.files|] == g.files;
    }

    /** The eviction loop over the groups, oldest first. */
    method EvictGroups(o: seq<Group>, start: nat, max: nat, pinned: set<string>)
      returns (stats: Stats, ghost out: seq<Group>)
      modifies this
      ensures out == Evict(o, |o|, start, max, pinned).out
      ensures files == old(files) - NamesOf(out, |out|)
      ensures stats == Stats(|out|, CountFiles(out, |out|), SatSum(out, |out|), Evict(o, |o|, start, max, pinned).total)
    {
      var groups, count, bytes: nat, total: nat := 0, 0, 0, start;
      out := [];
      var k := 0;
      while k < |o|
        invariant k <= |o| && Round(total, out) == Evict(o, k, start, max, pinned)
        invariant files == old(files) - NamesOf(out, |out|)
        invariant groups == |out| && count == CountFiles(out, |out|) && bytes == SatSum(out, |out|)
      {
        if total <= max {
          EvictDone(o, k, |o|, start, max, pinned);
          break;
        }
        var g := o[k];
        k := k + 1;
        if g.stem in pinned {
          continue;
        }
        RemoveGroup(g);
        Snoc(out, g);
        total := SatSub(total, g.bytes);
        groups, count, bytes := groups + 1, count + |g.files|, SatAdd(bytes, g.bytes);
        out := out + [g];
      }
      stats := Stats(groups, count, bytes, total);
    }

    method EvictToLimit(es: seq<Entry>, max: nat, pinned: set<string>, size: nat, now: nat)
      returns (stats: Stats, ghost gs: seq<Group>, ghost out: seq<Group>)
      requires IsListing(files, es)
      modifies this
      ensures IsEviction(es, gs, max, pinned, out)
      ensures files == if TotalOf(es, |es|) <= max then old(files) else Swept(old(files), out, size, now)
      ensures files == Apply(old(files), DoEvict(es, gs, max, pinned, out, size, now))
      ensures stats == Stats(|out|, CountFiles(out, |out|), SatSum(out, |out|), Remaining(es, gs, max, pinned))
    {
      var groups, total := GroupFiles(es);
      gs := groups;
      if total <= max {
        out := [];
        return Stats(0, 0, 0, total), gs, out;
      }
      stats, out := EvictGroups(Sorted(groups, |groups|), total, max, pinned);
      var _ := CleanIndex(size, now);
    }
  }

  lemma {:induction false} RecordKeepsIdbs(files: Files, hash: string, path: string, bytes: nat, stamp: string,
      size: nat, now: nat, h: string)
    ensures HasIdb(Recorded(files, hash, path, bytes, stamp, size, now), h) <==> HasIdb(files, h)
  {
    var idx := ReadIndex(files);
    var created := if hash in idx then idx[hash].created else stamp;
    WriteKeepsIdbs(files, idx[hash := Record(hash, path, KindOf(path), bytes, created, stamp)], size, now, h);
  }

  /** Bytes left by the loop. */
  function Remaining(es: seq<Entry>, gs: seq<Group>, max: nat, pinned: set<string>): (n: nat) {
    var o, total := Sorted(gs, |gs|), TotalOf(es, |es|);
    if total <= max then total else Evict(o, |o|, total, max, pinned).total
  }

  lemma {:induction false} EvictDone(o: seq<Group>, k: nat, n: nat, start: nat, max: nat, pinned: set<string>)
    requires k <= n <= |o| && Evict(o, k, start, max, pinned).total <= max
    ensures Evict(o, n, start, max, pinned) == Evict(o, k, start, max, pinned)
  {
    if k < n {
      EvictDone(o, k, n - 1, start, max, pinned);
    }
  }

  lemma {:induction false} Prefix(out: seq<Group>, g: Group, k: nat)
    requires k <= |out|
    ensures NamesOf(out + [g], k) == NamesOf(out, k) && CountFiles(out + [g], k) == CountFiles(out, k)
    ensures SatSum(out + [g], k) == SatSum(out, k)
  {
    if k > 0 {
      Prefix(out, g, k - 1);
    }
  }

  lemma {:induction false} Snoc(out: seq<Group>, g: Group)
    ensures var r := out + [g];
            && NamesOf(r, |r|) == NamesOf(out, |out|) + Members(g.files)
            && CountFiles(r, |r|) == CountFiles(out, |out|) + |g.files|
            && SatSum(r, |r|) == SatAdd(SatSum(out, |out|), g.bytes)
  {
    Prefix(out, g, |out|);
  }

  /** The reported bytes: unless the total saturates, evicted and remaining make up what was listed. */
  lemma {:induction false} StatsConserve(es: seq<Entry>, gs: seq<Group>, max: nat, pinned: set<string>, out: seq<Group>)
    requires IsEviction(es, gs, max, pinned, out) && TrueSum(es, |es|) <= MAX_U64
    ensures SatSum(out, |out|) + Remaining(es, gs, max, pinned) == TrueSum(es, |es|)
  {
    if TotalOf(es, |es|) > max {
      BytesConserved(es, gs, max, pinned, out);
      assert out[..|out|] == out;
      SatSumIs(out, |out|);
    }
  }

  // ---------------------------------------------------------------- the index can be lost

  const HASH: string := "0123456789ab"
  const STEM: string := "a.0123456789ab"
  const NAME: string := "a.0123456789ab.i64"

  function Small(): (files: Files) {
    map["index.json" := File(10, 1, Json(map[HASH := Record(HASH, "/bin/a", "native", 1, "0Z", "0Z")])),
        NAME := File(10, 5, Blob)]
  }

  function SmallList(): (es: seq<Entry>) {
    [Entry("index.json", 10, 1), Entry(NAME, 10, 5)]
  }

  lemma {:induction false} SmallStems()
    ensures Stem("index.json") == "index" && Stem(NAME) == STEM
  {
    IndexStem();
    assert LastDot(NAME, 18) == LastDot(NAME, 17) == LastDot(NAME, 16) == LastDot(NAME, 15) == 14;
    assert NAME[..14] == STEM;
  }

  lemma {:induction false} SmallGrouping()
    ensures IsGrouping(SmallList(), 2, [Group("index", ["index.json"], 10, 1), Group(STEM, [NAME], 10, 5)])
  {
    SmallStems();
    var es, gs := SmallList(), [Group("index", ["index.json"], 10, 1), Group(STEM, [NAME], 10, 5)];
    assert GroupOf(es, "index", 1) == gs[0] && GroupOf(es, "index", 2) == gs[0];
    assert GroupOf(es, STEM, 1) == Group(STEM, [], 0, 0) && GroupOf(es, STEM, 2) == gs[1];
    assert gs[0].stem == Stem(es[0].name) && gs[1].stem == Stem(es[1].name);
    assert HasStem(gs, Stem(es[0].name)) && HasStem(gs, Stem(es[1].name));
    assert TrueSum(es, 1) == TotalOf(es, 1) == 10;
    assert gs[..1] == [gs[0]] && Sum([gs[0]]) == 10;
  }

  lemma {:induction false} SmallEviction()
    ensures IsEviction(SmallList(), [Group("index", ["index.json"], 10, 1), Group(STEM, [NAME], 10, 5)], 15, {},
                       [Group("index", ["index.json"], 10, 1)])
  {
    SmallGrouping();
    var es, g, h := SmallList(), Group("index", ["index.json"], 10, 1), Group(STEM, [NAME], 10, 5);
    assert TotalOf(es, 1) == 10 && TotalOf(es, 2) == 20;
    assert Sorted([g, h], 1) == [g] && Sorted([g, h], 2) == [g, h];
    assert Evict([g, h], 1, 20, 15, {}) == Round(10, [g]);
    assert Evict([g, h], 2, 20, 15, {}) == Round(10, [g]);
  }

  lemma {:induction false} SmallListing()
    ensures IsListing(Small(), SmallList())
  {
    var es := SmallList();
    assert es[0].name == "index.json" && es[1].name == NAME;
    forall name | name in Small()
      ensures exists i :: 0 <= i < |es| && es[i].name == name
    {
      assert name == es[0].name || name == es[1].name;
    }
  }

  lemma {:induction false} SmallNames()
    ensures NamesOf([Group("index", ["index.json"], 10, 1)], 1) == {INDEX}
  {
    assert Members(["index.json"]) == {INDEX};
  }

  lemma {:induction false} SmallLeft()
    ensures HasIdb(Small() - {INDEX}, HASH)
  {
    assert Pattern(HASH) == ".0123456789ab.";
    assert StandsAt(NAME, Pattern(HASH), 1) && EndsWith(NAME, ".i64");
    assert NAME != INDEX;
    assert NAME in Small() - {INDEX};
  }

  /** The index is the oldest file of a store that is too big: it goes, and with it the entry of a
      database that stays. */
  lemma {:induction false} IndexCanBeLost(size: nat, now: nat)
    ensures var gs, out := [Group("index", ["index.json"], 10, 1), Group(STEM, [NAME], 10, 5)],
                           [Group("index", ["index.json"], 10, 1)];
            && IsListing(Small(), SmallList()) && IsEviction(SmallList(), gs, 15, {}, out)
            && HASH in ReadIndex(Small()) && HasIdb(Small() - NamesOf(out, |out|), HASH)
            && HASH !in ReadIndex(Swept(Small(), out, size, now))
  {
    SmallListing();
    SmallEviction();
    SmallNames();
    SmallLeft();
    CleanExact(Small() - {INDEX}, size, now);
  }

  // ---------------------------------------------------------------- runs

  /** Operations of the store, and files that come and go beside the index. */
  datatype Op =
    | DoRecord(hash: string, path: string, bytes: nat, stamp: string, size: nat, now: nat)
    | DoRemove(hash: string, size: nat, now: nat)
    | DoClean(size: nat, now: nat)
    | DoEvict(es: seq<Entry>, gs: seq<Group>, max: nat, pinned: set<string>, out: seq<Group>, size: nat, now: nat)
    | Put(name: string, file: File)
    | Delete(name: string)

  ghost predicate Allowed(files: Files, op: Op) {
    match op
    case DoEvict(es, gs, max, pinned, out, _, _) => IsListing(files, es) && IsEviction(es, gs, max, pinned, out)
    case Put(name, _) => name != INDEX
    case Delete(name) => name != INDEX
    case _ => true
  }

  function Apply(files: Files, op: Op): (r: Files) {
    match op
    case DoRecord(hash, path, bytes, stamp, size, now) => Recorded(files, hash, path, bytes, stamp, size, now)
    case DoRemove(hash, size, now) => Removed(files, hash, size, now)
    case DoClean(size, now) => Clean(files, size, now)
    case DoEvict(es, gs, max, pinned, out, size, now) =>
      if TotalOf(es, |es|) <= max then files else Swept(files, out, size, now)
    case Put(name, file) => files[name := file]
    case Delete(name) => files - {name}
  }

  ghost predicate Moves(r: seq<Files>, k: nat)
    requires k + 1 < |r|
  {
    exists op :: Allowed(r[k], op) && r[k + 1] == Apply(r[k], op)
  }

  ghost predicate IsRun(r: seq<Files>) {
    |r| > 0 && INDEX !in r[0] && forall k: nat :: k + 1 < |r| ==> Moves(r, k)
  }

  /** Every index key is the hash of its entry. */
  ghost predicate KeysAgree(files: Files) {
    forall h :: h in ReadIndex(files) ==> ReadIndex(files)[h].hash == h
  }

  lemma {:induction false} CleanKeeps(files: Files, size: nat, now: nat)
    requires KeysAgree(files)
    ensures KeysAgree(Clean(files, size, now))
  {
    CleanExact(files, size, now);
  }

  lemma {:induction false} EvictKeeps(files: Files, names: set<string>, size: nat, now: nat)
    requires KeysAgree(files)
    ensures KeysAgree(Clean(files - names, size, now))
  {
    assert ReadIndex(files - names) == if INDEX in names then map[] else ReadIndex(files);
    CleanKeeps(files - names, size, now);
  }

  lemma {:induction false} RecordKeeps(files: Files, hash: string, path: string, bytes: nat, stamp: string, size: nat,
      now: nat)
    requires KeysAgree(files)
    ensures KeysAgree(Recorded(files, hash, path, bytes, stamp, size, now))
  {
  }

  lemma {:induction false} RemoveKeeps(files: Files, hash: string, size: nat, now: nat)
    requires KeysAgree(files)
    ensures KeysAgree(Removed(files, hash, size, now))
  {
  }

  lemma {:induction false} ApplyKeeps(files: Files, op: Op)
    requires KeysAgree(files) && Allowed(files, op)
    ensures KeysAgree(Apply(files, op))
  {
    match op
    case DoRecord(hash, path, bytes, stamp, size, now) => RecordKeeps(files, hash, path, bytes, stamp, size, now);
    case DoRemove(hash, size, now) => RemoveKeeps(files, hash, size, now);
    case DoClean(size, now) => CleanKeeps(files, size, now);
    case DoEvict(es, gs, max, pinned, out, size, now) => EvictKeeps(files, NamesOf(out, |out|), size, now);
    case Put(name, file) => assert ReadIndex(files[name := file]) == ReadIndex(files);
    case Delete(name) => assert ReadIndex(files - {name}) == ReadIndex(files);
  }

  lemma {:induction false} RunKeeps(r: seq<Files>, k: nat)
    requires IsRun(r) && k < |r|
    ensures KeysAgree(r[k])
  {
    if k > 0 {
      RunKeeps(r, k - 1);
      assert Moves(r, k - 1);
      var op :| Allowed(r[k - 1], op) && r[k] == Apply(r[k - 1], op);
      ApplyKeeps(r[k - 1], op);
    }
  }

  lemma {:induction false} CleanRecords(files: Files, size: nat, now: nat, h: string)
    requires h in ReadIndex(Clean(files, size, now))
    ensures h in ReadIndex(files) && ReadIndex(Clean(files, size, now))[h] == ReadIndex(files)[h]
  {
    CleanExact(files, size, now);
  }

  /** No operation changes the creation time of a key it leaves in the index. */
  lemma {:induction false} ApplyCreated(files: Files, op: Op, h: string)
    requires Allowed(files, op) && h in ReadIndex(files) && h in ReadIndex(Apply(files, op))
    ensures ReadIndex(Apply(files, op))[h].created == ReadIndex(files)[h].created
  {
    match op
    case DoRecord(hash, path, bytes, stamp, size, now) => RecordExact(files, hash, path, bytes, stamp, size, now);
    case DoRemove(hash, size, now) =>
    case DoClean(size, now) => CleanRecords(files, size, now, h);
    case DoEvict(es, gs, max, pinned, out, size, now) =>
      if TotalOf(es, |es|) > max {
        CleanRecords(files - NamesOf(out, |out|), size, now, h);
      }
    case Put(name, file) => assert ReadIndex(files[name := file]) == ReadIndex(files);
    case Delete(name) => assert ReadIndex(files - {name}) == ReadIndex(files);
  }

  /** Over any run a key keeps its first creation time for as long as it stays in the index, however often
      its binary is recorded again. */
  lemma {:induction false} RunCreated(r: seq<Files>, i: nat, j: nat, h: string)
    requires IsRun(r) && i <= j < |r| && forall k :: i <= k <= j ==> h in ReadIndex(r[k])
    ensures ReadIndex(r[j])[h].created == ReadIndex(r[i])[h].created
    decreases j - i
  {
    if i < j {
      RunCreated(r, i, j - 1, h);
      assert Moves(r, j - 1);
      var op :| Allowed(r[j - 1], op) && r[j] == Apply(r[j - 1], op);
      ApplyCreated(r[j - 1], op, h);
    }
  }
}
