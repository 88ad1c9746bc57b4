// fsutil/check.c lsxfs_check: the count test after phase 4 has cleared inodes,
// and the volume that the check leaves.
module FsckRepair {
  import opened Words
  import opened FreeBlocks
  import opened Inodes
  import opened Runs
  import opened FsckBlocks
  import opened FsckFree
  import opened FreeLists
  import opened FsckVerdict

  // The end of phase 5: the list is not corrupted, and used_blocks and the
  // free blocks add up.  Clearing an inode passes no counter to pass4, so
  // used_blocks stays what phase 1 made it.
  ghost predicate Accepts(v: Volume, t: Tables)
    requires v.Valid() && t.Valid(v)
  {
    var f := CheckFreeList(v, t.busy);
    !f.corrupted && t.used + f.count == v.fsize - v.isize - 2
  }

  // ---- what used_blocks counts ----

  function Flip(m: seq<bool>): (r: seq<bool>)
    ensures |r| == |m| && forall i | 0 <= i < |m| :: r[i] == !m[i]
  {
    seq(|m|, i requires 0 <= i < |m| => !m[i])
  }

  // The busy blocks of the data area.
  function BusyBlocks(v: Volume, busy: seq<bool>): seq<word>
    requires v.Valid() && |busy| == v.fsize
  {
    Descending(v.isize + 2, v.fsize - 1, Flip(busy))
  }

  lemma BusyBag(v: Volume, busy: seq<bool>)
    requires v.Valid() && |busy| == v.fsize
    ensures forall b: word :: multiset(BusyBlocks(v, busy))[b] == if v.InArea(b) && busy[b] then 1 else 0
  {
    DescendingExact(v.isize + 2, v.fsize - 1, Flip(busy));
  }

  // used_blocks is the number of busy blocks.
  ghost predicate Tallied(v: Volume, t: Tables)
    requires v.Valid()
  {
    && t.Valid(v) && t.used == |BusyBlocks(v, t.busy)|
    && forall b: word | b < v.fsize && t.busy[b] :: v.InArea(b)
  }

  lemma BusyMore(v: Volume, busy: seq<bool>, b: word)
    requires v.Valid() && |busy| == v.fsize && v.InArea(b) && !busy[b]
    ensures |BusyBlocks(v, busy[b := true])| == |BusyBlocks(v, busy)| + 1
  {
    BusyBag(v, busy);
    BusyBag(v, busy[b := true]);
    hide BusyBlocks;
    var m: multiset<word>, n: multiset<word> := multiset(BusyBlocks(v, busy)), multiset(BusyBlocks(v, busy[b := true]));
    assert n == m + multiset{b};
    assert |n| == |m| + 1;
  }

  lemma Pass1Tallies(v: Volume, t: Tables, blk: word)
    requires v.Valid() && Tallied(v, t)
    ensures Tallied(v, Pass1(v, t, blk).0)
  {
    hide BusyBlocks;
    if v.InArea(blk) && !t.busy[blk] { BusyMore(v, t.busy, blk); }
  }

  lemma {:induction false} ScanTallies(v: Volume, t: Tables, bs: seq<word>)
    requires v.Valid() && Tallied(v, t)
    ensures Tallied(v, Scan(v, One, t, bs).0)
    decreases |bs|
  {
    if bs != [] {
      Pass1Tallies(v, t, bs[0]);
      if Pass1(v, t, bs[0]).1 != Stop { ScanTallies(v, Pass1(v, t, bs[0]).0, bs[1..]); }
    }
  }

  // Whatever phase 1 finds, and also when scans stop early.
  lemma {:induction false} Phase1Tallies(v: Volume, t: Tables, inos: seq<Inode>)
    requires v.Valid() && Tallied(v, t) && forall i | 0 <= i < |inos| :: inos[i].Valid()
    ensures Tallied(v, Phase1(v, t, inos).t)
    decreases |inos|
  {
    if inos != [] {
      var t0 := t.(bad := 0, dup := 0, clear := false);
      ScanTallies(v, t0, Counts(v, inos[0]));
      Phase1Tallies(v, Scan(v, One, t0, Counts(v, inos[0])).0, inos[1..]);
    }
  }

  lemma NoneTallied(v: Volume)
    requires v.Valid()
    ensures Tallied(v, NoTables(v))
  {
    var bs := BusyBlocks(v, NoTables(v).busy);
    BusyBag(v, NoTables(v).busy);
    hide BusyBlocks;
    assert multiset(bs) == multiset{};
    assert |bs| == |multiset(bs)|;
  }

  lemma Phase1bTallies(v: Volume, t: Tables, bs: seq<word>)
    requires v.Valid() && Tallied(v, t)
    ensures Tallied(v, Scan(v, OneB, t, bs).0)
  {
    ScanOneBPermutes(v, t, bs);
  }

  // ---- what clearing changes ----

  // Busy blocks may become free, and the count stays.
  ghost predicate Fewer(t: Tables, u: Tables) {
    |u.busy| == |t.busy| && u.used == t.used && forall b | 0 <= b < |t.busy| && u.busy[b] :: t.busy[b]
  }

  lemma {:induction false} ScanFewer(v: Volume, t: Tables, bs: seq<word>)
    requires t.Valid(v)
    ensures Fewer(t, Scan(v, Four, t, bs).0)
    decreases |bs|
  {
    if bs != [] && Pass4(v, t, bs[0]).1 != Stop { ScanFewer(v, Pass4(v, t, bs[0]).0, bs[1..]); }
  }

  lemma {:induction false} ClearFewer(v: Volume, t: Tables, inos: seq<Inode>, which: seq<nat>)
    requires v.Valid() && t.Valid(v) && (forall i | 0 <= i < |inos| :: inos[i].Valid())
    requires forall k | 0 <= k < |which| :: which[k] < |inos|
    ensures Fewer(t, ClearAll(v, t, inos, which).0)
    decreases |which|
  {
    if which != [] {
      var t1 := Clear(v, t, inos[which[0]]);
      ScanFewer(v, t, Blocks(v, inos[which[0]]));
      ClearFewer(v, t1, inos[which[0] := CLEARED], which[1..]);
    }
  }

  // ---- the verdict ----

  // When the count test is passed, the busy blocks and the free blocks that
  // were visited share out the data area if and only if clearing inodes has
  // freed no block.  Blocks may be bad or shared, and scans cut short.
  lemma AcceptsIff(v: Volume, t: Tables, inos: seq<Inode>, which: seq<nat>) returns (s: seq<word>)
    requires v.Valid() && (forall i | 0 <= i < |inos| :: inos[i].Valid()) && v.isize + 2 <= v.fsize
    requires (forall k | 0 <= k < |which| :: which[k] < |inos|) && Tallied(v, t)
    requires Accepts(v, ClearAll(v, t, inos, which).0)
    ensures
      var busy := ClearAll(v, t, inos, which).0.busy;
      && Lists(v, s) && Clean(v, busy, s) && CheckFreeList(v, busy).seen == Mark(busy, s)
      && (multiset(s) + multiset(BusyBlocks(v, busy)) == v.Area() <==> busy == t.busy)
  {
    ClearFewer(v, t, inos, which);
    var u := ClearAll(v, t, inos, which).0;
    s := FreeListSound(v, u.busy);
    Shares(v, t, u, s);
  }

  lemma Shares(v: Volume, t: Tables, u: Tables, s: seq<word>)
    requires v.Valid() && v.isize + 2 <= v.fsize && Tallied(v, t) && u.Valid(v) && Fewer(t, u)
    requires Clean(v, u.busy, s) && u.used + |s| == v.fsize - v.isize - 2
    ensures multiset(s) + multiset(BusyBlocks(v, u.busy)) == v.Area() <==> u.busy == t.busy
  {
    BusyBag(v, u.busy);
    BusyBag(v, t.busy);
    var m: multiset<word>, n: multiset<word> := multiset(BusyBlocks(v, u.busy)), multiset(BusyBlocks(v, t.busy));
    hide BusyBlocks, Clean;
    OnceTogether(v, u.busy, s, m);
    FillsArea(v, multiset(s) + m);
    FewerSame(v, u.busy, t.busy, m, n);
    assert |multiset(s) + m| == |s| + |m|;
  }

  lemma FewerSame(v: Volume, busy: seq<bool>, was: seq<bool>, m: multiset<word>, n: multiset<word>)
    requires v.Valid() && |busy| == |was| == v.fsize
    requires forall b: word | b < v.fsize && was[b] :: v.InArea(b)
    requires forall b | 0 <= b < v.fsize && busy[b] :: was[b]
    requires forall b: word :: m[b] == if v.InArea(b) && busy[b] then 1 else 0
    requires forall b: word :: n[b] == if v.InArea(b) && was[b] then 1 else 0
    ensures |m| == |n| <==> busy == was
  {
    assert m <= n;
    assert n == m + (n - m);
    if |m| == |n| {
      assert n == m;
      forall b: word | b < v.fsize ensures busy[b] == was[b] {
        assert m[b] == n[b];
      }
    }
    if busy == was { assert m == n; }
  }

  lemma OnceTogether(v: Volume, busy: seq<bool>, s: seq<word>, m: multiset<word>)
    requires v.Valid() && |busy| == v.fsize && Clean(v, busy, s)
    requires forall b: word :: m[b] == if v.InArea(b) && busy[b] then 1 else 0
    ensures Once(multiset(s) + m) && forall b | b in multiset(s) + m :: v.InArea(b)
  {
    forall b: word ensures (multiset(s) + m)[b] <= 1 {
      if b in multiset(s) { assert b in s; }
    }
    forall b | b in multiset(s) + m ensures v.InArea(b) {
      if b in multiset(s) { assert b in s; } else { assert b in m; }
    }
  }

  // A consistent volume passes the test whichever inodes are cleared in phase
  // 4: blocks that this frees are lost.
  lemma ClearedPasses(v: Volume, inos: seq<Inode>, s: seq<word>, which: seq<nat>)
    requires v.Valid() && (forall i | 0 <= i < |inos| :: inos[i].Valid()) && v.isize + 2 <= v.fsize
    requires Consistent(v, inos, s) && forall k | 0 <= k < |which| :: which[k] < |inos|
    ensures Accepts(v, ClearAll(v, Phase1(v, NoTables(v), inos).t, inos, which).0)
  {
    assert |NoTables(v).busy| == v.fsize;
    hide *;
    var t := Phase1(v, NoTables(v), inos).t;
    ClearFewer(v, t, inos, which);
    var c: seq<word> := CountSeq(v, inos);
    ListsOf(v, inos, s);
    PassesComplete(v, inos, s);
    AreaIsClean(v, s, c);
    CleanConcat(v, NoTables(v).busy, s, c);
    Phase1IsClean(v, NoTables(v), inos);
    PassesUsed(v, inos, s);
    StillAccepts(v, t, ClearAll(v, t, inos, which).0, s);
  }

  lemma ListsOf(v: Volume, inos: seq<Inode>, s: seq<word>)
    requires v.Valid() && (forall i | 0 <= i < |inos| :: inos[i].Valid()) && Consistent(v, inos, s)
    ensures Lists(v, s) && multiset(s) + multiset(CountSeq(v, inos)) == v.Area()
  {
  }

  lemma PassesUsed(v: Volume, inos: seq<Inode>, s: seq<word>)
    requires v.Valid() && (forall i | 0 <= i < |inos| :: inos[i].Valid()) && Passes(v, inos) && Lists(v, s)
    requires var t := NoTables(v); CleanPhase(v, t, CountSeq(v, inos), Phase1(v, t, inos))
    requires Clean(v, Mark(NoTables(v).busy, CountSeq(v, inos)), s) && Clean(v, NoTables(v).busy, CountSeq(v, inos))
    ensures var t := Phase1(v, NoTables(v), inos).t; Clean(v, t.busy, s) && t.used + |s| == v.fsize - v.isize - 2
  {
    hide Clean, Mark, Lists, CheckFreeList;
    FreeListComplete(v, Phase1(v, NoTables(v), inos).t.busy, s);
  }

  lemma StillAccepts(v: Volume, t: Tables, u: Tables, s: seq<word>)
    requires v.Valid() && t.Valid(v) && u.Valid(v) && Fewer(t, u) && Lists(v, s)
    requires Clean(v, t.busy, s) && t.used + |s| == v.fsize - v.isize - 2
    ensures Accepts(v, u)
  {
    assert Clean(v, u.busy, s);
    hide Clean, Lists, CheckFreeList;
    FreeListComplete(v, u.busy, s);
  }

  // ---- a block that is lost ----

  // One file of one block fills a volume with an empty free list.
  function LostVolume(): Volume {
    Volume(1, 4, 1, seq(SLOTS, _ => 0), seq(4, _ => Zeros()), Zeros())
  }

  function LostInodes(): seq<Inode> {
    [Inode(0x8000, 512, [3, 0, 0, 0, 0, 0, 0, 0])]
  }

  lemma LostCounts(v: Volume, inos: seq<Inode>)
    requires v == LostVolume() && inos == LostInodes()
    ensures v.Valid() && inos[0].Valid() && Allocated(inos[0].mode)
    ensures Blocks(v, inos[0]) == [3] && CountSeq(v, inos) == [3]
  {
    var mode: bv16 := 0x8000;
    assert Allocated(mode) && !Special(mode) && !Large(mode);
    var rest: seq<word> := [0, 0, 0, 0, 0, 0, 0];
    assert rest == seq(7, _ => 0);
    ZerosOwnNothing(v, 7);
    assert inos[0].addr == [3] + rest;
    assert inos[0].addr[1..] == rest;
    assert Own(v, 3, 0) == [3];
    assert inos[1..] == [] && CountSeq(v, []) == [];
    assert [3] + [] == [3];
  }

  lemma LostSizes(v: Volume, inos: seq<Inode>)
    requires v == LostVolume() && inos == LostInodes()
    ensures v.isize == 1 && v.fsize == 4 && |inos| == 1 && Tidied(inos) == inos
    ensures forall i | 0 <= i < |inos| :: inos[i].Valid()
  {
    var mode: bv16 := 0x8000;
    assert Allocated(mode);
    assert inos[0].Valid();
  }

  lemma LostConsistent(v: Volume, inos: seq<Inode>)
    requires v == LostVolume() && inos == LostInodes()
    ensures v.Valid() && inos[0].Valid() && Consistent(v, inos, [])
  {
    LostCounts(v, inos);
    AreaBag(v);
    assert v.free[1..1] == [];
    assert Chain(v, 1, v.free, []);
    assert multiset([]) + multiset([3 as word]) == v.Area();
  }

  // The file is cleared: the test is passed, and block 3 is neither busy nor
  // on the free list.
  lemma LostExample(v: Volume, inos: seq<Inode>)
    requires v == LostVolume() && inos == LostInodes()
    ensures v.Valid() && inos[0].Valid() && Consistent(v, inos, [])
    ensures
      var u := ClearAll(v, Phase1(v, NoTables(v), inos).t, inos, [0]).0;
      Accepts(v, u) && !u.busy[3] && !CheckFreeList(v, u.busy).seen[3]
  {
    hide *;
    LostConsistent(v, inos);
    LostSizes(v, inos);
    ClearedPasses(v, inos, [], [0]);
    PassesComplete(v, inos, []);
    PassesWhole(v, inos);
    Phase1CountsAll(v, inos);
    LostFree(v, Phase1(v, NoTables(v), inos).t, inos);
  }

  lemma PassesWhole(v: Volume, inos: seq<Inode>)
    requires v.Valid() && (forall i | 0 <= i < |inos| :: inos[i].Valid()) && Passes(v, inos)
    ensures Phase1(v, NoTables(v), inos).complete
  {
  }

  lemma LostFree(v: Volume, t: Tables, inos: seq<Inode>)
    requires v == LostVolume() && inos == LostInodes() && v.Valid() && inos[0].Valid() && CountsAll(v, t, inos)
    ensures
      var busy := ClearAll(v, t, inos, [0]).0.busy;
      !busy[3] && !CheckFreeList(v, busy).seen[3]
  {
    BusyIffReferred(v, t, inos, [0], 3);
    var r := ClearAll(v, t, inos, [0]);
    assert [0][1..] == [] && inos[0 := CLEARED] == [CLEARED];
    assert r.1 == [CLEARED];
    ClearedOwnsNothing(v, 0);
    assert CLEARED.(mode := 0) == CLEARED;
    assert ScanSlots(v, FreeScan(r.0.busy, 0, 0, false, 0), v.free, 0).0.seen == r.0.busy;
  }

  // ---- salvaging ----

  lemma {:induction false} ClearAllTidy(v: Volume, t: Tables, inos: seq<Inode>, which: seq<nat>)
    requires v.Valid() && t.Valid(v) && (forall i | 0 <= i < |inos| :: inos[i].Valid()) && Tidy(v, inos)
    requires forall k | 0 <= k < |which| :: which[k] < |inos|
    ensures Tidy(v, ClearAll(v, t, inos, which).1)
    decreases |which|
  {
    if which != [] {
      ClearedOwnsNothing(v, 0);
      assert CLEARED.(mode := 0) == CLEARED;
      hide Blocks;
      ClearAllTidy(v, Clear(v, t, inos[which[0]]), inos[which[0] := CLEARED], which[1..]);
    }
  }

  // Where all references are counted, the busy blocks are those referred to.
  lemma BusyAre(v: Volume, t: Tables, inos: seq<Inode>)
    requires v.Valid() && (forall i | 0 <= i < |inos| :: inos[i].Valid())
    requires CountsAll(v, t, inos) && Tidy(v, inos)
    ensures forall b: word | v.InArea(b) :: t.busy[b] <==> b in CountSeq(v, inos)
  {
    CountSeqBag(v, inos);
    TidyCounts(v, inos);
    forall b: word | v.InArea(b) ensures t.busy[b] <==> b in CountSeq(v, inos) {
      assert Refs(t, b) == multiset(CountSeq(v, inos))[b];
      if !t.busy[b] {
        assert b !in t.dups;
        assert multiset(t.dups)[b] == 0;
      }
    }
  }

  // The list is rebuilt from the busy map: the blocks of the inodes stay.
  lemma SalvageKeeps(v: Volume, busy: seq<bool>, inos: seq<Inode>)
    requires v.Valid() && (forall i | 0 <= i < |inos| :: inos[i].Valid()) && |busy| == v.fsize
    requires forall b: word | v.InArea(b) :: busy[b] <==> b in CountSeq(v, inos)
    ensures
      var u := MakeList(v, busy);
      u.Valid() && u.isize == v.isize && u.fsize == v.fsize && CountSeq(u, inos) == CountSeq(v, inos)
  {
    var d := Descending(v.isize + 2, v.fsize - 1, busy);
    MakeListExact(v, busy);
    BusyNotListed(v, busy, CountSeq(v, inos), d);
    hide CountSeq, MakeList, Descending, FreeStack;
    CountSeqFrame(v, MakeList(v, busy), inos, multiset(d));
  }

  lemma BusyNotListed(v: Volume, busy: seq<bool>, c: seq<word>, d: seq<word>)
    requires v.Valid() && |busy| == v.fsize && d == Descending(v.isize + 2, v.fsize - 1, busy)
    requires forall b: word | v.InArea(b) :: busy[b] <==> b in c
    ensures forall b | b in c :: b !in multiset(d)
  {
    DescendingExact(v.isize + 2, v.fsize - 1, busy);
    hide Descending;
    forall b | b in c ensures b !in multiset(d) { assert multiset(d)[b] == 0; }
  }

  lemma CleanElsewhere(v: Volume, u: Volume, c: seq<word>)
    requires v.Valid() && u.Valid() && u.isize == v.isize && u.fsize == v.fsize
    ensures Clean(u, NoTables(u).busy, c) <==> Clean(v, NoTables(v).busy, c)
  {
  }

  lemma MarkIs(v: Volume, busy: seq<bool>, c: seq<word>)
    requires v.Valid() && |busy| == v.fsize && Clean(v, NoTables(v).busy, c)
    requires forall b: word | v.InArea(b) :: busy[b] <==> b in c
    requires forall b: word | b < v.fsize && busy[b] :: v.InArea(b)
    ensures busy == Mark(NoTables(v).busy, c)
  {
    forall b: word | b < v.fsize ensures busy[b] == Mark(NoTables(v).busy, c)[b] {}
  }

  // Inodes that refer to these busy blocks of the volume.
  ghost predicate Referred(v: Volume, busy: seq<bool>, inos: seq<Inode>)
    requires v.Valid() && forall i | 0 <= i < |inos| :: inos[i].Valid()
  {
    && |busy| == v.fsize && (forall b: word | v.InArea(b) :: busy[b] <==> b in CountSeq(v, inos))
    && forall b: word | b < v.fsize && busy[b] :: v.InArea(b)
  }

  // Phase 4 leaves that behind.
  lemma ClearedReferred(v: Volume, t: Tables, inos: seq<Inode>, which: seq<nat>)
    requires v.Valid() && (forall i | 0 <= i < |inos| :: inos[i].Valid()) && Tallied(v, t)
    requires CountsAll(v, t, inos) && Tidy(v, inos) && forall k | 0 <= k < |which| :: which[k] < |inos|
    ensures var (u, left) := ClearAll(v, t, inos, which); Referred(v, u.busy, left)
  {
    var (u, left) := ClearAll(v, t, inos, which);
    ClearAllCounts(v, t, inos, which);
    ClearAllTidy(v, t, inos, which);
    BusyAre(v, u, left);
    ClearFewer(v, t, inos, which);
  }

  // The salvaged volume passes if and only if the inodes hold no bad and no
  // shared block.
  lemma SalvageIff(v: Volume, busy: seq<bool>, inos: seq<Inode>)
    requires v.Valid() && (forall i | 0 <= i < |inos| :: inos[i].Valid()) && v.isize + 2 <= v.fsize
    requires Referred(v, busy, inos)
    ensures Passes(MakeList(v, busy), inos) <==> Clean(v, NoTables(v).busy, CountSeq(v, inos))
  {
    var u := MakeList(v, busy);
    SalvageKeeps(v, busy, inos);
    CleanElsewhere(v, u, CountSeq(v, inos));
    Phase1IsClean(u, NoTables(u), inos);
    if Clean(v, NoTables(v).busy, CountSeq(v, inos)) {
      MarkIs(v, busy, CountSeq(v, inos));
      SalvageConsistent(v, inos, busy);
    }
  }

  lemma SalvagePasses(v: Volume, t: Tables, inos: seq<Inode>, which: seq<nat>)
    requires v.Valid() && (forall i | 0 <= i < |inos| :: inos[i].Valid()) && v.isize + 2 <= v.fsize
    requires Tallied(v, t) && CountsAll(v, t, inos) && Tidy(v, inos)
    requires forall k | 0 <= k < |which| :: which[k] < |inos|
    ensures
      var (u, left) := ClearAll(v, t, inos, which);
      Passes(MakeList(v, u.busy), left) <==> Clean(v, NoTables(v).busy, CountSeq(v, left))
  {
    ClearedReferred(v, t, inos, which);
    SalvageIff(v, ClearAll(v, t, inos, which).0.busy, ClearAll(v, t, inos, which).1);
  }

  // ---- the volume that the check leaves ----

  // Phase 6 rebuilds the list unless the test was passed.
  ghost function Checked(v: Volume, t: Tables): (u: Volume)
    requires v.Valid() && t.Valid(v)
    ensures u.Valid()
  {
    if Accepts(v, t) then v else MakeList(v, t.busy)
  }

  // It is consistent if and only if the inodes that are left hold no bad and
  // no shared block, and the list was rebuilt or clearing had freed nothing.
  lemma CheckedIff(v: Volume, t: Tables, inos: seq<Inode>, which: seq<nat>)
    requires v.Valid() && (forall i | 0 <= i < |inos| :: inos[i].Valid()) && v.isize + 2 <= v.fsize
    requires Tallied(v, t) && CountsAll(v, t, inos) && Tidy(v, inos)
    requires forall k | 0 <= k < |which| :: which[k] < |inos|
    ensures
      var (u, left) := ClearAll(v, t, inos, which);
      (exists s :: Consistent(Checked(v, u), left, s)) <==>
        Clean(v, NoTables(v).busy, CountSeq(v, left)) && (!Accepts(v, u) || u.busy == t.busy)
  {
    assert t.Valid(v);
    hide *;
    var (u, left) := ClearAll(v, t, inos, which);
    ClearedReferred(v, t, inos, which);
    CheckedIs(v, u);
    if Accepts(v, u) {
      var s := AcceptsIff(v, t, inos, which);
      KeptIff(v, u.busy, left, s);
    } else {
      SalvageIff(v, u.busy, left);
      PassesIff(MakeList(v, u.busy), left);
    }
  }

  lemma CheckedIs(v: Volume, t: Tables)
    requires v.Valid() && t.Valid(v)
    ensures Checked(v, t) == if Accepts(v, t) then v else MakeList(v, t.busy)
    ensures MakeList(v, t.busy).isize == v.isize && MakeList(v, t.busy).fsize == v.fsize
  {
  }

  lemma PassesIff(v: Volume, inos: seq<Inode>)
    requires v.Valid() && (forall i | 0 <= i < |inos| :: inos[i].Valid()) && v.isize + 2 <= v.fsize
    ensures Passes(v, inos) <==> exists s :: Consistent(v, inos, s)
  {
    if Passes(v, inos) { var s := PassesSound(v, inos); }
    if exists s :: Consistent(v, inos, s) {
      var s :| Consistent(v, inos, s);
      PassesComplete(v, inos, s);
    }
  }

  // The list s is kept.
  lemma KeptIff(v: Volume, busy: seq<bool>, inos: seq<Inode>, s: seq<word>)
    requires v.Valid() && (forall i | 0 <= i < |inos| :: inos[i].Valid()) && Referred(v, busy, inos)
    requires Lists(v, s)
    ensures (exists s1 :: Consistent(v, inos, s1)) <==>
      Clean(v, NoTables(v).busy, CountSeq(v, inos)) && multiset(s) + multiset(BusyBlocks(v, busy)) == v.Area()
  {
    var c: seq<word> := CountSeq(v, inos);
    BusyBag(v, busy);
    if Clean(v, NoTables(v).busy, c) {
      SameBags(v, busy, c);
      if multiset(s) + multiset(c) == v.Area() { assert Consistent(v, inos, s); }
    }
    forall s1 | Consistent(v, inos, s1)
      ensures Clean(v, NoTables(v).busy, c) && multiset(s) + multiset(c) == v.Area()
    {
      ListsUnique(v, s, s1);
      AreaIsClean(v, s, c);
      CleanConcat(v, NoTables(v).busy, s, c);
    }
  }

  lemma SameBags(v: Volume, busy: seq<bool>, c: seq<word>)
    requires v.Valid() && |busy| == v.fsize && Clean(v, NoTables(v).busy, c)
    requires forall b: word | v.InArea(b) :: busy[b] <==> b in c
    ensures multiset(BusyBlocks(v, busy)) == multiset(c)
  {
    BusyBag(v, busy);
    hide BusyBlocks;
    forall b: word ensures multiset(BusyBlocks(v, busy))[b] == multiset(c)[b] {
      assert multiset(c)[b] <= 1;
      assert b in c <==> multiset(c)[b] > 0;
    }
  }

  lemma ListsUnique(v: Volume, s: seq<word>, t: seq<word>)
    requires Lists(v, s) && Lists(v, t)
    ensures s == t
  {
    if v.nfree != 0 { ChainUnique(v, v.nfree, v.free, s, t); }
  }

  // ---- a run of the check ----

  lemma TidiedIsTidy(v: Volume, inos: seq<Inode>)
    requires v.Valid() && forall i | 0 <= i < |inos| :: inos[i].Valid()
    ensures Tidy(v, Tidied(inos))
  {
    ClearedOwnsNothing(v, 0);
    assert CLEARED.(mode := 0) == CLEARED;
  }

  // The tables when phase 1 has scanned the inodes and phase 1b the blocks bs.
  ghost function Counting(v: Volume, inos: seq<Inode>, bs: seq<word>): (t: Tables)
    requires v.Valid() && forall i | 0 <= i < |inos| :: inos[i].Valid()
    ensures t.Valid(v)
  {
    Scan(v, OneB, Phase1(v, NoTables(v), inos).t, bs).0
  }

  lemma CountingTallies(v: Volume, inos: seq<Inode>, bs: seq<word>)
    requires v.Valid() && forall i | 0 <= i < |inos| :: inos[i].Valid()
    ensures Tallied(v, Counting(v, inos, bs))
  {
    NoneTallied(v);
    Phase1Tallies(v, NoTables(v), inos);
    Phase1bTallies(v, Phase1(v, NoTables(v), inos).t, bs);
  }

  // Whatever the volume holds, also when scans stop early: when the count test
  // is passed after phases 1, 1b and 4, busy and free blocks share out the
  // data area if and only if clearing has freed no block.
  lemma RunAccepts(v: Volume, inos: seq<Inode>, bs: seq<word>, which: seq<nat>) returns (s: seq<word>)
    requires v.Valid() && (forall i | 0 <= i < |inos| :: inos[i].Valid()) && v.isize + 2 <= v.fsize
    requires forall k | 0 <= k < |which| :: which[k] < |inos|
    requires Accepts(v, ClearAll(v, Counting(v, inos, bs), Tidied(inos), which).0)
    ensures
      var t := Counting(v, inos, bs);
      var busy := ClearAll(v, t, Tidied(inos), which).0.busy;
      && Lists(v, s) && Clean(v, busy, s) && CheckFreeList(v, busy).seen == Mark(busy, s)
      && (multiset(s) + multiset(BusyBlocks(v, busy)) == v.Area() <==> busy == t.busy)
  {
    CountingTallies(v, inos, bs);
    s := AcceptsIff(v, Counting(v, inos, bs), Tidied(inos), which);
  }

  // While no scan of phase 1 stops early: the exact condition for the volume
  // that the check leaves to be consistent.
  lemma RunIff(v: Volume, inos: seq<Inode>, bs: seq<word>, which: seq<nat>)
    requires v.Valid() && (forall i | 0 <= i < |inos| :: inos[i].Valid()) && v.isize + 2 <= v.fsize
    requires Phase1(v, NoTables(v), inos).complete && forall k | 0 <= k < |which| :: which[k] < |inos|
    ensures
      var t := Counting(v, inos, bs);
      var (u, left) := ClearAll(v, t, Tidied(inos), which);
      (exists s :: Consistent(Checked(v, u), left, s)) <==>
        Clean(v, NoTables(v).busy, CountSeq(v, left)) && (!Accepts(v, u) || u.busy == t.busy)
  {
    CountingTallies(v, inos, bs);
    Phase1CountsAll(v, inos);
    Phase1bKeepsCounts(v, Phase1(v, NoTables(v), inos).t, Tidied(inos), bs);
    TidiedIsTidy(v, inos);
    hide Clean, Consistent, Checked, Accepts, CountsAll;
    CheckedIff(v, Counting(v, inos, bs), Tidied(inos), which);
  }
}
