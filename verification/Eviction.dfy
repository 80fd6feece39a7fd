/** Oldest-first eviction of whole file groups, with pinned groups left alone. */
module Eviction {

  const MAX_U64: nat := 0xFFFF_FFFF_FFFF_FFFF

  function SatAdd(a: nat, b: nat): (r: nat) {
    if a + b <= MAX_U64 then a + b else MAX_U64
  }

  function SatSub(a: nat, b: nat): (r: nat) {
    if b <= a then a - b else 0
  }

  /** The last dot of the first `i` characters, if any. */
  function LastDot(name: string, i: nat): (r: int)
    requires i <= |name|
    ensures -1 <= r < i && (r >= 0 ==> name[r] == '.')
  {
    if i == 0 then -1 else if name[i - 1] == '.' then i - 1 else LastDot(name, i - 1)
  }

  /** The name without its extension; a leading dot starts no extension. */
  function Stem(name: string): (s: string) {
    var d := LastDot(name, |name|);
    if d <= 0 then name else name[..d]
  }

  lemma {:induction false} NoLaterDot(name: string, d: int, i: nat)
    requires -1 <= d < i <= |name| && (d >= 0 ==> name[d] == '.') && forall j :: d < j < |name| ==> name[j] != '.'
    ensures LastDot(name, i) == d
  {
    if i - 1 > d {
      NoLaterDot(name, d, i - 1);
    }
  }

  /** What follows the last dot is cut off, with the dot, if anything comes before it. */
  lemma {:induction false} StemCuts(base: string, ext: string)
    requires |base| > 0 && '.' !in ext
    ensures Stem(base + "." + ext) == base
  {
    var name := base + "." + ext;
    assert forall j :: |base| < j < |name| ==> name[j] == ext[j - |base| - 1];
    NoLaterDot(name, |base|, |name|);
  }

  /** A name without a dot after its first character is its own stem. */
  lemma {:induction false} StemKeeps(name: string)
    requires forall j :: 0 < j < |name| ==> name[j] != '.'
    ensures Stem(name) == name
  {
    if |name| > 0 {
      NoLaterDot(name, if name[0] == '.' then 0 else -1, |name|);
    }
  }

  /** A file as the directory lists it. */
  datatype Entry = Entry(name: string, size: nat, mtime: nat)

  /** The files that share a stem. */
  datatype Group = Group(stem: string, files: seq<string>, bytes: nat, newest: nat)

  // ---------------------------------------------------------------- grouping

  function IndexOf(gs: seq<Group>, stem: string): (d: nat)
    ensures d <= |gs| && (d < |gs| ==> gs[d].stem == stem)
    ensures forall e :: 0 <= e < d ==> gs[e].stem != stem
  {
    if |gs| == 0 then 0
    else if gs[0].stem == stem then 0 else 1 + IndexOf(gs[1..], stem)
  }

  function Max(a: nat, b: nat): (m: nat) {
    if a < b then b else a
  }

  function Joined(g: Group, e: Entry): (r: Group) {
    Group(g.stem, g.files + [e.name], SatAdd(g.bytes, e.size), Max(g.newest, e.mtime))
  }

  /** The group of `stem` among the first `k` entries, on its own. */
  function GroupOf(es: seq<Entry>, stem: string, k: nat): (g: Group)
    requires k <= |es|
    ensures g.stem == stem
  {
    if k == 0 then Group(stem, [], 0, 0)
    else if Stem(es[k - 1].name) == stem then Joined(GroupOf(es, stem, k - 1), es[k - 1])
    else GroupOf(es, stem, k - 1)
  }

  function TotalOf(es: seq<Entry>, k: nat): (n: nat)
    requires k <= |es|
  {
    if k == 0 then 0 else SatAdd(TotalOf(es, k - 1), es[k - 1].size)
  }

  /** No two groups share a stem. */
  ghost predicate Distinct(gs: seq<Group>) {
    forall d, e :: 0 <= d < e < |gs| ==> gs[d].stem != gs[e].stem
  }

  /** Every group is the group of its stem. */
  ghost predicate Exact(es: seq<Entry>, k: nat, gs: seq<Group>)
    requires k <= |es|
  {
    forall d :: 0 <= d < |gs| ==> gs[d] == GroupOf(es, gs[d].stem, k)
  }

  /** Every entry has a group. */
  ghost predicate Covered(es: seq<Entry>, k: nat, gs: seq<Group>)
    requires k <= |es|
  {
    forall i :: 0 <= i < k ==> HasStem(gs, Stem(es[i].name))
  }

  ghost predicate HasStem(gs: seq<Group>, stem: string) {
    exists d :: 0 <= d < |gs| && gs[d].stem == stem
  }

  lemma {:induction false} NoGroup(es: seq<Entry>, stem: string, k: nat)
    requires k <= |es| && forall i :: 0 <= i < k ==> Stem(es[i].name) != stem
    ensures GroupOf(es, stem, k) == Group(stem, [], 0, 0)
  {
    if k > 0 {
      NoGroup(es, stem, k - 1);
    }
  }

  /** The time of a group is that of its newest file. */
  lemma {:induction false} NewestIs(es: seq<Entry>, stem: string, k: nat)
    requires k <= |es|
    ensures var t := GroupOf(es, stem, k).newest;
            && (forall i :: 0 <= i < k && Stem(es[i].name) == stem ==> es[i].mtime <= t)
            && (t == 0 || exists i :: 0 <= i < k && Stem(es[i].name) == stem && es[i].mtime == t)
  {
    if k > 0 {
      NewestIs(es, stem, k - 1);
    }
  }

  /** The bytes of a group are those of its files, up to saturation; its files are those with the stem. */
  lemma {:induction false} GroupIs(es: seq<Entry>, stem: string, k: nat)
    requires k <= |es|
    ensures GroupOf(es, stem, k).files == FilesOf(es, stem, k)
    ensures var b := BytesOf(es, stem, k);
            GroupOf(es, stem, k).bytes == if b < 0x1_0000_0000_0000_0000 then b else 0xFFFF_FFFF_FFFF_FFFF
  {
    if k > 0 {
      GroupIs(es, stem, k - 1);
    }
  }

  function FilesOf(es: seq<Entry>, stem: string, k: nat): (names: seq<string>)
    requires k <= |es|
  {
    if k == 0 then []
    else FilesOf(es, stem, k - 1) + if Stem(es[k - 1].name) == stem then [es[k - 1].name] else []
  }

  function BytesOf(es: seq<Entry>, stem: string, k: nat): (n: nat)
    requires k <= |es|
  {
    if k == 0 then 0 else BytesOf(es, stem, k - 1) + if Stem(es[k - 1].name) == stem then es[k - 1].size else 0
  }

  /** What Insert does, place by place: group `d` gains the entry, the others stay. */
  ghost predicate Inserted(gs: seq<Group>, e: Entry, d: nat, r: seq<Group>) {
    && d < |r| && |gs| <= |r| && (d < |gs| ==> |r| == |gs|) && (d >= |gs| ==> d == |gs| && |r| == |gs| + 1)
    && r[d] == Joined(if d < |gs| then gs[d] else Group(Stem(e.name), [], 0, 0), e)
    && (d < |gs| ==> gs[d].stem == Stem(e.name))
    && (d == |gs| ==> !HasStem(gs, Stem(e.name)))
    && forall i :: 0 <= i < |gs| && i != d ==> r[i] == gs[i]
  }

  /** `groups.entry(stem).or_default()`, then the file joins the group. */
  method AddEntry(gs: seq<Group>, e: Entry) returns (r: seq<Group>, ghost d: nat)
    ensures Inserted(gs, e, d, r)
  {
    var i := IndexOf(gs, Stem(e.name));
    d := i;
    if i < |gs| {
      r := gs[i := Joined(gs[i], e)];
    } else {
      r := gs + [Joined(Group(Stem(e.name), [], 0, 0), e)];
    }
  }

  lemma {:induction false} InsertedDistinct(gs: seq<Group>, e: Entry, d: nat, r: seq<Group>)
    requires Inserted(gs, e, d, r) && Distinct(gs)
    ensures Distinct(r)
  {
    forall i | 0 <= i < |gs|
      ensures r[i].stem == gs[i].stem
    {
    }
  }

  lemma {:induction false} InsertedCovered(es: seq<Entry>, k: nat, gs: seq<Group>, d: nat, r: seq<Group>)
    requires k < |es| && Inserted(gs, es[k], d, r) && Covered(es, k, gs)
    ensures Covered(es, k + 1, r)
  {
    forall i | 0 <= i < k + 1
      ensures HasStem(r, Stem(es[i].name))
    {
      if i == k {
        assert r[d].stem == Stem(es[k].name);
      } else {
        assert HasStem(gs, Stem(es[i].name));
        var e :| 0 <= e < |gs| && gs[e].stem == Stem(es[i].name);
        assert r[e].stem == gs[e].stem;
      }
    }
  }

  lemma {:induction false} InsertedExact(es: seq<Entry>, k: nat, gs: seq<Group>, d: nat, r: seq<Group>)
    requires k < |es| && Inserted(gs, es[k], d, r) && Distinct(gs) && Covered(es, k, gs) && Exact(es, k, gs)
    ensures Exact(es, k + 1, r)
  {
    var stem := Stem(es[k].name);
    if d == |gs| {
      forall i | 0 <= i < k
        ensures Stem(es[i].name) != stem
      {
        assert HasStem(gs, Stem(es[i].name));
      }
      NoGroup(es, stem, k);
    }
    forall e | 0 <= e < |r|
      ensures r[e] == GroupOf(es, r[e].stem, k + 1)
    {
      if e != d {
        assert r[e] == gs[e];
        assert d == |gs| ==> HasStem(gs, gs[e].stem);
        assert gs[e].stem != stem;
      }
    }
  }

  // ---------------------------------------------------------------- sums

  function Sum(gs: seq<Group>): (n: nat) {
    if |gs| == 0 then 0 else Sum(gs[..|gs| - 1]) + gs[|gs| - 1].bytes
  }

  lemma {:induction false} SumUpdate(gs: seq<Group>, d: nat, g: Group)
    requires d < |gs|
    ensures Sum(gs[d := g]) + gs[d].bytes == Sum(gs) + g.bytes
  {
    var n := |gs| - 1;
    if d < n {
      SumUpdate(gs[..n], d, g);
      assert gs[d := g][..n] == gs[..n][d := g];
    } else {
      assert gs[d := g][..n] == gs[..n];
    }
  }

  /** Sizes of the first `k` entries, unbounded. */
  function TrueSum(es: seq<Entry>, k: nat): (n: nat)
    requires k <= |es|
  {
    if k == 0 then 0 else TrueSum(es, k - 1) + es[k - 1].size
  }

  lemma {:induction false} MemberSmall(gs: seq<Group>, d: nat)
    requires d < |gs|
    ensures gs[d].bytes <= Sum(gs)
  {
    if d < |gs| - 1 {
      MemberSmall(gs[..|gs| - 1], d);
    }
  }

  lemma {:induction false} InsertedSum(gs: seq<Group>, e: Entry, d: nat, r: seq<Group>)
    requires Inserted(gs, e, d, r) && Sum(gs) + e.size <= MAX_U64
    ensures Sum(r) == Sum(gs) + e.size
  {
    if d < |gs| {
      MemberSmall(gs, d);
      assert r == gs[d := r[d]];
      SumUpdate(gs, d, r[d]);
    } else {
      assert r[..|gs|] == gs;
    }
  }

  /** One group per stem, with all its files; the groups account for every listed byte unless the total
      saturates. */
  ghost predicate IsGrouping(es: seq<Entry>, k: nat, gs: seq<Group>)
    requires k <= |es|
  {
    && Distinct(gs) && Covered(es, k, gs) && Exact(es, k, gs)
    && (TrueSum(es, k) <= MAX_U64 ==> Sum(gs) == TotalOf(es, k) == TrueSum(es, k))
  }

  lemma {:induction false} GroupingStep(es: seq<Entry>, k: nat, gs: seq<Group>, d: nat, r: seq<Group>)
    requires k < |es| && IsGrouping(es, k, gs) && Inserted(gs, es[k], d, r)
    ensures IsGrouping(es, k + 1, r)
  {
    InsertedDistinct(gs, es[k], d, r);
    InsertedCovered(es, k, gs, d, r);
    InsertedExact(es, k, gs, d, r);
    if TrueSum(es, k + 1) <= MAX_U64 {
      InsertedSum(gs, es[k], d, r);
    }
  }

  /** The pass over the directory. */
  method GroupFiles(es: seq<Entry>) returns (gs: seq<Group>, total: nat)
    ensures IsGrouping(es, |es|, gs) && total == TotalOf(es, |es|)
  {
    gs, total := [], 0;
    for k := 0 to |es|
      invariant IsGrouping(es, k, gs) && total == TotalOf(es, k)
    {
      total := SatAdd(total, es[k].size);
      ghost var was, d := gs, 0;
      gs, d := AddEntry(gs, es[k]);
      GroupingStep(es, k, was, d, gs);
    }
  }

  // ---------------------------------------------------------------- sorting by age

  function Less(a: string, b: string): (r: bool) {
    if |b| == 0 then false
    else if |a| == 0 then true
    else if a[0] != b[0] then a[0] < b[0] else Less(a[1..], b[1..])
  }

  /** By newest modification; groups of the same age stay in the order of their stems. */
  predicate Before(g: Group, h: Group) {
    g.newest < h.newest || (g.newest == h.newest && Less(g.stem, h.stem))
  }

  function InsertSorted(o: seq<Group>, g: Group): (r: seq<Group>) {
    if |o| == 0 then [g]
    else if Before(g, o[|o| - 1]) then InsertSorted(o[..|o| - 1], g) + [o[|o| - 1]]
    else o + [g]
  }

  function Sorted(gs: seq<Group>, k: nat): (o: seq<Group>)
    requires k <= |gs|
  {
    if k == 0 then [] else InsertSorted(Sorted(gs, k - 1), gs[k - 1])
  }

  ghost predicate Ascending(o: seq<Group>) {
    forall i, j :: 0 <= i < j < |o| ==> o[i].newest <= o[j].newest
  }

  lemma {:induction false} InsertSortedSum(o: seq<Group>, g: Group)
    ensures Sum(InsertSorted(o, g)) == Sum(o) + g.bytes
    decreases |o|
  {
    var r := InsertSorted(o, g);
    if |o| == 0 {
      assert r[..0] == [];
    } else if Before(g, o[|o| - 1]) {
      InsertSortedSum(o[..|o| - 1], g);
      assert r[..|r| - 1] == InsertSorted(o[..|o| - 1], g);
    } else {
      assert r[..|o|] == o;
    }
  }

  lemma {:induction false} InsertSortedHas(o: seq<Group>, g: Group, x: Group)
    ensures x in InsertSorted(o, g) <==> x == g || x in o
    decreases |o|
  {
    if |o| > 0 && Before(g, o[|o| - 1]) {
      InsertSortedHas(o[..|o| - 1], g, x);
      assert o == o[..|o| - 1] + [o[|o| - 1]];
    }
  }

  lemma {:induction false} SnocAscending(p: seq<Group>, x: Group)
    requires Ascending(p) && forall i :: 0 <= i < |p| ==> p[i].newest <= x.newest
    ensures Ascending(p + [x])
  {
  }

  lemma {:induction false} InsertSortedAscending(o: seq<Group>, g: Group)
    requires Ascending(o)
    ensures Ascending(InsertSorted(o, g))
    decreases |o|
  {
    if |o| > 0 && Before(g, o[|o| - 1]) {
      var init, last := o[..|o| - 1], o[|o| - 1];
      InsertSortedAscending(init, g);
      var p := InsertSorted(init, g);
      forall i | 0 <= i < |p|
        ensures p[i].newest <= last.newest
      {
        InsertSortedHas(init, g, p[i]);
      }
      SnocAscending(p, last);
    } else {
      SnocAscending(o, g);
    }
  }

  lemma {:induction false} SnocDistinct(p: seq<Group>, x: Group)
    requires Distinct(p) && forall i :: 0 <= i < |p| ==> p[i].stem != x.stem
    ensures Distinct(p + [x])
  {
  }

  lemma {:induction false} InsertSortedDistinct(o: seq<Group>, g: Group)
    requires Distinct(o) && forall i :: 0 <= i < |o| ==> o[i].stem != g.stem
    ensures Distinct(InsertSorted(o, g))
    decreases |o|
  {
    if |o| > 0 && Before(g, o[|o| - 1]) {
      var init, last := o[..|o| - 1], o[|o| - 1];
      InsertSortedDistinct(init, g);
      var p := InsertSorted(init, g);
      forall i | 0 <= i < |p|
        ensures p[i].stem != last.stem
      {
        InsertSortedHas(init, g, p[i]);
      }
      SnocDistinct(p, last);
    } else {
      SnocDistinct(o, g);
    }
  }

  lemma {:induction false} SortedHas(gs: seq<Group>, k: nat, x: Group)
    requires k <= |gs|
    ensures x in Sorted(gs, k) <==> x in gs[..k]
  {
    if k > 0 {
      SortedHas(gs, k - 1, x);
      InsertSortedHas(Sorted(gs, k - 1), gs[k - 1], x);
      assert gs[..k] == gs[..k - 1] + [gs[k - 1]];
    }
  }

  /** The order of strings: by the first character where they differ, a prefix first. */
  ghost predicate Precedes(a: string, b: string, n: nat) {
    n <= |a| && n < |b| && a[..n] == b[..n] && (n == |a| || a[n] < b[n])
  }

  lemma {:induction false} LessExact(a: string, b: string)
    ensures Less(a, b) <==> exists n: nat :: Precedes(a, b, n)
    decreases |a|
  {
    if |a| == 0 {
      if |b| > 0 {
        assert Precedes(a, b, 0);
      }
    } else if |b| > 0 {
      if a[0] != b[0] {
        assert Precedes(a, b, 0) <==> a[0] < b[0];
        assert forall n: nat :: n > 0 && n <= |a| && n <= |b| ==> a[..n][0] == a[0] && b[..n][0] == b[0];
      } else {
        LessExact(a[1..], b[1..]);
        forall n: nat
          ensures Precedes(a[1..], b[1..], n) <==> Precedes(a, b, n + 1)
        {
          PrecedesTail(a, b, n);
        }
        if n: nat :| Precedes(a, b, n) {
          assert n == n - 1 + 1;
          assert Precedes(a[1..], b[1..], n - 1);
        }
      }
    }
  }

  lemma {:induction false} PrecedesTail(a: string, b: string, n: nat)
    requires |a| > 0 && |b| > 0 && a[0] == b[0]
    ensures Precedes(a[1..], b[1..], n) <==> Precedes(a, b, n + 1)
  {
    if n < |a| && n < |b| {
      assert a[..n + 1] == [a[0]] + a[1..][..n] && b[..n + 1] == [b[0]] + b[1..][..n];
      assert a[1..][..n] == a[..n + 1][1..] && b[1..][..n] == b[..n + 1][1..];
    }
  }

  lemma {:induction false} LessTotal(a: string, b: string)
    requires a != b
    ensures Less(a, b) <==> !Less(b, a)
    decreases |a|
  {
    if |a| > 0 && |b| > 0 && a[0] == b[0] {
      assert a == [a[0]] + a[1..] && b == [b[0]] + b[1..];
      LessTotal(a[1..], b[1..]);
    }
  }

  lemma {:induction false} LessTrans(a: string, b: string, c: string)
    requires Less(a, b) && Less(b, c)
    ensures Less(a, c)
    decreases |a|
  {
    if |a| > 0 && a[0] == b[0] == c[0] {
      LessTrans(a[1..], b[1..], c[1..]);
    }
  }

  /** Every group comes before every later one. */
  ghost predicate Ranked(o: seq<Group>) {
    forall i, j :: 0 <= i < j < |o| ==> Before(o[i], o[j])
  }

  lemma {:induction false} BeforeTrans(f: Group, g: Group, h: Group)
    requires Before(f, g) && Before(g, h)
    ensures Before(f, h)
  {
    if f.newest == g.newest == h.newest {
      LessTrans(f.stem, g.stem, h.stem);
    }
  }

  lemma {:induction false} InsertSortedRanked(o: seq<Group>, g: Group)
    requires Ranked(o) && forall i :: 0 <= i < |o| ==> o[i].stem != g.stem
    ensures Ranked(InsertSorted(o, g))
    decreases |o|
  {
    if |o| > 0 {
      var init, last := o[..|o| - 1], o[|o| - 1];
      LessTotal(g.stem, last.stem);
      if Before(g, last) {
        InsertSortedRanked(init, g);
        var p := InsertSorted(init, g);
        forall i | 0 <= i < |p|
          ensures Before(p[i], last)
        {
          InsertSortedHas(init, g, p[i]);
        }
      } else {
        forall i | 0 <= i < |o|
          ensures Before(o[i], g)
        {
          if i < |o| - 1 {
            BeforeTrans(o[i], last, g);
          }
        }
      }
    }
  }

  /** Sorting groups with different stems ranks them, oldest first and by stem among those of one age. */
  lemma {:induction false} SortedRanked(gs: seq<Group>, k: nat)
    requires k <= |gs| && Distinct(gs)
    ensures Ranked(Sorted(gs, k))
    ensures var o := Sorted(gs, k);
            forall i, j :: 0 <= i < j < |o| ==>
              o[i].newest < o[j].newest || (o[i].newest == o[j].newest && Less(o[i].stem, o[j].stem))
  {
    if k > 0 {
      var o, g := Sorted(gs, k - 1), gs[k - 1];
      SortedRanked(gs, k - 1);
      forall i | 0 <= i < |o|
        ensures o[i].stem != g.stem
      {
        SortedHas(gs, k - 1, o[i]);
      }
      InsertSortedRanked(o, g);
    }
  }

  lemma {:induction false} SortedAscending(gs: seq<Group>, k: nat)
    requires k <= |gs|
    ensures Ascending(Sorted(gs, k))
  {
    if k > 0 {
      SortedAscending(gs, k - 1);
      InsertSortedAscending(Sorted(gs, k - 1), gs[k - 1]);
    }
  }

  lemma {:induction false} SortedSum(gs: seq<Group>, k: nat)
    requires k <= |gs|
    ensures Sum(Sorted(gs, k)) == Sum(gs[..k])
  {
    if k > 0 {
      SortedSum(gs, k - 1);
      InsertSortedSum(Sorted(gs, k - 1), gs[k - 1]);
      assert gs[..k][..k - 1] == gs[..k - 1];
    }
  }

  lemma {:induction false} SortedDistinct(gs: seq<Group>, k: nat)
    requires k <= |gs| && Distinct(gs)
    ensures Distinct(Sorted(gs, k))
  {
    if k > 0 {
      SortedDistinct(gs, k - 1);
      var o, g := Sorted(gs, k - 1), gs[k - 1];
      forall i | 0 <= i < |o|
        ensures o[i].stem != g.stem
      {
        SortedHas(gs, k - 1, o[i]);
      }
      InsertSortedDistinct(o, g);
    }
  }

  // ---------------------------------------------------------------- evicting

  /** Bytes left and the groups evicted so far, in order. */
  datatype Round = Round(total: nat, out: seq<Group>)

  /** One group of the loop: nothing happens once the limit is met, and nothing to a pinned group. */
  function Consider(r: Round, g: Group, max: nat, pinned: set<string>): (r': Round) {
    if r.total <= max || g.stem in pinned then r else Round(SatSub(r.total, g.bytes), r.out + [g])
  }

  function Evict(o: seq<Group>, k: nat, total: nat, max: nat, pinned: set<string>): (r: Round)
    requires k <= |o|
  {
    if k == 0 then Round(total, []) else Consider(Evict(o, k - 1, total, max, pinned), o[k - 1], max, pinned)
  }

  /** Conservation: when nothing saturates, evicted and remaining bytes make up the total. */
  lemma {:induction false} Conserved(o: seq<Group>, k: nat, total: nat, max: nat, pinned: set<string>)
    requires k <= |o| && Sum(o[..k]) <= total
    ensures var r := Evict(o, k, total, max, pinned); r.total + Sum(r.out) == total && Sum(r.out) <= Sum(o[..k])
  {
    if k > 0 {
      assert o[..k][..k - 1] == o[..k - 1];
      Conserved(o, k - 1, total, max, pinned);
      var p := Evict(o, k - 1, total, max, pinned);
      assert (p.out + [o[k - 1]])[..|p.out|] == p.out;
    }
  }

  /** Only unpinned groups are evicted. */
  lemma {:induction false} EvictedAre(o: seq<Group>, k: nat, total: nat, max: nat, pinned: set<string>, g: Group)
    requires k <= |o| && g in Evict(o, k, total, max, pinned).out
    ensures g in o[..k] && g.stem !in pinned
  {
    var p := Evict(o, k - 1, total, max, pinned);
    assert o[..k] == o[..k - 1] + [o[k - 1]];
    if g in p.out {
      EvictedAre(o, k - 1, total, max, pinned, g);
    }
  }

  /** The loop ends at or below the limit or with every unpinned group gone; an unpinned group that stays
      was met with the limit already satisfied. */
  lemma {:induction false} Stopped(o: seq<Group>, k: nat, total: nat, max: nat, pinned: set<string>, i: nat)
    requires i < k <= |o| && o[i].stem !in pinned
    ensures var r := Evict(o, k, total, max, pinned);
            o[i] in r.out || (r.total <= max && r.out == Evict(o, i, total, max, pinned).out)
  {
    if i < k - 1 {
      Stopped(o, k - 1, total, max, pinned, i);
    }
  }

  /** Bytes of the unpinned groups among the first `k`. */
  function Unpinned(o: seq<Group>, k: nat, pinned: set<string>): (n: nat)
    requires k <= |o|
  {
    if k == 0 then 0 else Unpinned(o, k - 1, pinned) + if o[k - 1].stem in pinned then 0 else o[k - 1].bytes
  }

  /** While the loop is above the limit it has subtracted every unpinned group, and it is above the limit
      exactly as long as that leaves more than the limit. */
  lemma {:induction false} TotalAt(o: seq<Group>, k: nat, total: nat, max: nat, pinned: set<string>)
    requires k <= |o|
    ensures var t := Evict(o, k, total, max, pinned).total;
            (t > max <==> total - Unpinned(o, k, pinned) > max) && (t > max ==> t == total - Unpinned(o, k, pinned))
  {
    if k > 0 {
      TotalAt(o, k - 1, total, max, pinned);
    }
  }

  lemma {:induction false} EvictedStays(o: seq<Group>, k: nat, total: nat, max: nat, pinned: set<string>, i: nat)
    requires i < k <= |o| && Distinct(o)
    ensures o[i] in Evict(o, k, total, max, pinned).out <==> o[i] in Evict(o, i + 1, total, max, pinned).out
  {
    if i + 1 < k {
      EvictedStays(o, k - 1, total, max, pinned, i);
    }
  }

  /** Which groups go: exactly the unpinned ones that are met with the unpinned groups before them not
      enough to come down to the limit. */
  lemma {:induction false} EvictedExactly(o: seq<Group>, total: nat, max: nat, pinned: set<string>, i: nat)
    requires Distinct(o) && i < |o|
    ensures o[i] in Evict(o, |o|, total, max, pinned).out <==>
            o[i].stem !in pinned && total - Unpinned(o, i, pinned) > max
  {
    EvictedStays(o, |o|, total, max, pinned, i);
    TotalAt(o, i, total, max, pinned);
    if o[i] in Evict(o, i, total, max, pinned).out {
      EvictedAre(o, i, total, max, pinned, o[i]);
      assert false;
    }
  }

  /** Putting the last evicted group back would exceed the limit. */
  lemma {:induction false} LastNeeded(o: seq<Group>, k: nat, total: nat, max: nat, pinned: set<string>)
    requires k <= |o| && Evict(o, k, total, max, pinned).out != []
    ensures var r := Evict(o, k, total, max, pinned); r.total + r.out[|r.out| - 1].bytes > max
  {
    var p := Evict(o, k - 1, total, max, pinned);
    if Consider(p, o[k - 1], max, pinned) == p {
      LastNeeded(o, k - 1, total, max, pinned);
    }
  }

  /** No evicted group is newer than an unpinned one that stays. */
  lemma {:induction false} OldestFirst(o: seq<Group>, total: nat, max: nat, pinned: set<string>, g: Group, h: Group)
    requires Ascending(o) && g in Evict(o, |o|, total, max, pinned).out
    requires h in o && h.stem !in pinned && h !in Evict(o, |o|, total, max, pinned).out
    ensures g.newest <= h.newest
  {
    var j :| 0 <= j < |o| && o[j] == h;
    Stopped(o, |o|, total, max, pinned, j);
    EvictedAre(o, j, total, max, pinned, g);
    var i :| 0 <= i < |o[..j]| && o[..j][i] == g;
    assert o[i] == g;
  }
}
