// fsutil/check.c lsxfs_check: what it means that the check finds nothing.
module FsckVerdict {
  import opened Words
  import opened FreeBlocks
  import opened Inodes
  import opened Runs
  import opened FsckBlocks
  import opened FsckFree
  import opened FreeLists

  // No inode marked and no scan cut short in phase 1, a free list without
  // errors in phase 5, and the count test.
  ghost predicate Passes(v: Volume, inos: seq<Inode>)
    requires v.Valid() && forall i | 0 <= i < |inos| :: inos[i].Valid()
  {
    var r := Phase1(v, NoTables(v), inos);
    var f := CheckFreeList(v, r.t.busy);
    r.complete && r.clean && !f.corrupted && r.t.used + f.count == v.fsize - v.isize - 2
  }

  // The free list of a volume; one with no list at all counts as empty.
  ghost predicate Lists(v: Volume, s: seq<word>) {
    v.Valid() && if v.nfree == 0 then s == [] else FreeStack(v, s)
  }

  // Free list and inodes share out the data area.
  ghost predicate Consistent(v: Volume, inos: seq<Inode>, s: seq<word>)
    requires v.Valid() && forall i | 0 <= i < |inos| :: inos[i].Valid()
  {
    Lists(v, s) && multiset(s) + multiset(CountSeq(v, inos)) == v.Area()
  }

  // The blocks of the inodes, in the order of the scan.
  ghost function CountSeq(v: Volume, inos: seq<Inode>): seq<word>
    requires v.Valid() && forall i | 0 <= i < |inos| :: inos[i].Valid()
  {
    if inos == [] then [] else Counts(v, inos[0]) + CountSeq(v, inos[1..])
  }

  lemma {:induction false} CountSeqBag(v: Volume, inos: seq<Inode>)
    requires v.Valid() && forall i | 0 <= i < |inos| :: inos[i].Valid()
    ensures multiset(CountSeq(v, inos)) == AllCounts(v, inos)
  {
    if inos != [] {
      CountSeqBag(v, inos[1..]);
    }
  }

  // ---- phase 1 on clean inodes ----

  lemma CleanFirst(v: Volume, m: seq<bool>, b: word, rest: seq<word>)
    requires |m| == v.fsize && v.Valid()
    ensures !v.InArea(b) || m[b] ==> !Clean(v, m, [b] + rest)
    ensures v.InArea(b) && !m[b] ==>
      && (Clean(v, m, [b] + rest) <==> Clean(v, m[b := true], rest))
      && Mark(m, [b] + rest) == Mark(m[b := true], rest)
  {
    CleanSwap(v, m, [b], rest);
    CleanLast(v, m, rest, b);
  }

  lemma CleanSwap(v: Volume, m: seq<bool>, a: seq<word>, b: seq<word>)
    requires |m| == v.fsize && v.Valid()
    ensures Clean(v, m, a + b) <==> Clean(v, m, b + a)
    ensures Mark(m, a + b) == Mark(m, b + a)
  {
    assert multiset(a + b) == multiset(b + a);
    assert forall x :: x in a + b <==> x in b + a;
    assert forall x: word | x < |m| :: Mark(m, a + b)[x] == Mark(m, b + a)[x];
  }

  lemma {:induction false} ClearSticks(v: Volume, t: Tables, bs: seq<word>)
    requires t.Valid(v) && t.clear
    ensures Scan(v, One, t, bs).0.clear
    decreases |bs|
  {
    if bs != [] {
      ClearSticks(v, Pass1(v, t, bs[0]).0, bs[1..]);
    }
  }

  // What scanning bs does to tables without duplicates.
  ghost predicate CleanScan(v: Volume, t: Tables, bs: seq<word>, r: (Tables, bool))
    requires t.Valid(v)
  {
    if Clean(v, t.busy, bs) then r == (t.(busy := Mark(t.busy, bs), used := t.used + |bs|), true)
    else r.0.clear
  }

  lemma {:induction false} ScanIsClean(v: Volume, t: Tables, bs: seq<word>)
    requires v.Valid() && t.Valid(v) && !t.clear
    ensures CleanScan(v, t, bs, Scan(v, One, t, bs))
    decreases |bs|
  {
    if bs != [] {
      var b, rest := bs[0], bs[1..];
      assert bs == [b] + rest;
      CleanFirst(v, t.busy, b, rest);
      var t1 := Pass1(v, t, b).0;
      if v.InArea(b) && !t.busy[b] {
        ScanIsClean(v, t1, rest);
        CleanScanMore(v, t, t1, b, rest, Scan(v, One, t, bs));
      } else {
        ClearSticks(v, t1, rest);
      }
    }
  }

  lemma CleanScanMore(v: Volume, t: Tables, t1: Tables, b: word, rest: seq<word>, r: (Tables, bool))
    requires v.Valid() && t.Valid(v) && v.InArea(b) && !t.busy[b]
    requires t1 == t.(busy := t.busy[b := true], used := t.used + 1) && CleanScan(v, t1, rest, r)
    ensures CleanScan(v, t, [b] + rest, r)
  {
    CleanFirst(v, t.busy, b, rest);
  }

  ghost predicate CleanPhase(v: Volume, t: Tables, bs: seq<word>, r: Phase1Result)
    requires t.Valid(v)
  {
    if Clean(v, t.busy, bs) then
      r.complete && r.clean && r.t.busy == Mark(t.busy, bs) && r.t.used == t.used + |bs|
    else !r.clean
  }

  lemma {:induction false} Phase1IsClean(v: Volume, t: Tables, inos: seq<Inode>)
    requires v.Valid() && t.Valid(v) && forall i | 0 <= i < |inos| :: inos[i].Valid()
    ensures CleanPhase(v, t, CountSeq(v, inos), Phase1(v, t, inos))
    decreases |inos|
  {
    if inos != [] {
      var t0 := t.(bad := 0, dup := 0, clear := false);
      var c: seq<word>, rest: seq<word> := Counts(v, inos[0]), CountSeq(v, inos[1..]);
      ScanIsClean(v, t0, c);
      var s := Scan(v, One, t0, c);
      Phase1IsClean(v, s.0, inos[1..]);
      CleanPhaseMore(v, t0, c, s, rest, Phase1(v, s.0, inos[1..]), Phase1(v, t, inos));
    }
  }

  lemma CleanPhaseMore(v: Volume, t: Tables, c: seq<word>, s: (Tables, bool), rest: seq<word>, r1: Phase1Result,
                       r: Phase1Result)
    requires v.Valid() && t.Valid(v) && s.0.Valid(v) && !t.clear
    requires CleanScan(v, t, c, s) && CleanPhase(v, s.0, rest, r1)
    requires r == Phase1Result(r1.t, s.1 && r1.complete, !s.0.clear && r1.clean)
    ensures CleanPhase(v, t, c + rest, r)
  {
    CleanSwap(v, t.busy, c, rest);
    CleanConcat(v, t.busy, rest, c);
    MarkConcat(t.busy, rest, c);
  }

  // ---- counting ----

  predicate Within(lo: nat, b: word, hi: nat) { lo <= b < hi }

  lemma {:induction false} RangeSize(lo: nat, hi: nat)
    requires lo <= hi <= 0x10000
    ensures |set b: word | Within(lo, b, hi)| == hi - lo
    decreases hi - lo
  {
    if lo < hi {
      RangeSize(lo, hi - 1);
      var last: word := hi - 1;
      assert (set b: word | Within(lo, b, hi)) == (set b: word | Within(lo, b, last)) + {last};
    } else {
      assert (set b: word | Within(lo, b, hi)) == {};
    }
  }

  lemma AreaSize(v: Volume)
    requires v.Valid() && v.isize + 2 <= v.fsize
    ensures |v.Area()| == v.fsize - v.isize - 2
  {
    RangeSize(v.isize + 2, v.fsize);
    var lo, hi := v.isize + 2, v.fsize;
    assert (set b: word {:trigger v.InArea(b)} | v.InArea(b)) == set b: word | Within(lo, b, hi);
  }

  // Distinct blocks of the data area fill it iff there are enough of them.
  lemma FillsArea(v: Volume, m: multiset<word>)
    requires v.Valid() && v.isize + 2 <= v.fsize && Once(m) && forall b | b in m :: v.InArea(b)
    ensures m == v.Area() <==> |m| == v.fsize - v.isize - 2
  {
    AreaSize(v);
    AreaBag(v);
    assert m <= v.Area() by {
      forall b: word ensures m[b] <= v.Area()[b] {
        assert m[b] <= 1;
        if m[b] > 0 { assert b in m; }
      }
    }
    var rest: multiset<word> := v.Area() - m;
    assert v.Area() == m + rest;
    assert |v.Area()| == |m| + |rest|;
  }

  // ---- the verdict ----

  lemma FreeListSound(v: Volume, busy: seq<bool>) returns (s: seq<word>)
    requires v.Valid() && |busy| == v.fsize && |v.free| == SLOTS
    requires !CheckFreeList(v, busy).corrupted
    ensures Lists(v, s) && Clean(v, busy, s)
    ensures CheckFreeList(v, busy).count == |s| && CheckFreeList(v, busy).seen == Mark(busy, s)
  {
    var f := FreeScan(busy, 0, 0, false, 0);
    if v.nfree == 0 {
      s := [];
    } else {
      s := CheckChainSound(v, f, v.nfree, v.free);
    }
  }

  lemma FreeListComplete(v: Volume, busy: seq<bool>, s: seq<word>)
    requires Lists(v, s) && |busy| == v.fsize && Clean(v, busy, s)
    ensures !CheckFreeList(v, busy).corrupted && CheckFreeList(v, busy).count == |s|
  {
    if v.nfree != 0 {
      CheckChainComplete(v, FreeScan(busy, 0, 0, false, 0), v.nfree, v.free, s);
    }
  }

  // The blocks c of the inodes and s of the free list, scanned one after the
  // other without a repetition, are the data area iff the count is right.
  lemma CountTest(v: Volume, s: seq<word>, c: seq<word>)
    requires v.Valid() && v.isize + 2 <= v.fsize
    requires Clean(v, NoTables(v).busy, s + c)
    ensures multiset(s) + multiset(c) == v.Area() <==> |c| + |s| == v.fsize - v.isize - 2
  {
    var m: multiset<word> := multiset(s + c);
    assert m == multiset(s) + multiset(c);
    forall b | b in m ensures v.InArea(b) { assert b in s + c; }
    FillsArea(v, m);
  }

  lemma AreaIsClean(v: Volume, s: seq<word>, c: seq<word>)
    requires v.Valid() && multiset(s) + multiset(c) == v.Area()
    ensures Clean(v, NoTables(v).busy, s + c)
  {
    AreaBag(v);
    assert multiset(s + c) == v.Area();
    forall b | b in s + c ensures v.InArea(b) {
      assert b in multiset(s + c);
    }
  }

  // If the check finds nothing, the data area is shared out without overlap
  // and without loss between the free list and the inodes ...
  lemma PassesSound(v: Volume, inos: seq<Inode>) returns (s: seq<word>)
    requires v.Valid() && (forall i | 0 <= i < |inos| :: inos[i].Valid()) && v.isize + 2 <= v.fsize
    requires Passes(v, inos)
    ensures Consistent(v, inos, s)
  {
    var t := NoTables(v);
    var c: seq<word> := CountSeq(v, inos);
    Phase1IsClean(v, t, inos);
    s := FreeListSound(v, Phase1(v, t, inos).t.busy);
    CleanConcat(v, t.busy, s, c);
    CountTest(v, s, c);
  }

  // ... and on every such volume it finds nothing.
  lemma PassesComplete(v: Volume, inos: seq<Inode>, s: seq<word>)
    requires v.Valid() && (forall i | 0 <= i < |inos| :: inos[i].Valid()) && v.isize + 2 <= v.fsize
    requires Consistent(v, inos, s)
    ensures Passes(v, inos)
  {
    var t := NoTables(v);
    var c: seq<word> := CountSeq(v, inos);
    AreaIsClean(v, s, c);
    CleanConcat(v, t.busy, s, c);
    Phase1IsClean(v, t, inos);
    FreeListComplete(v, Phase1(v, t, inos).t.busy, s);
    CountTest(v, s, c);
  }

  // Every volume that the operations of the file system can produce passes,
  // when no block is held outside the inodes.
  lemma PartitionPasses(w: World, s: seq<word>)
    requires Partition(w, s) && w.held == multiset{} && w.vol.isize + 2 <= w.vol.fsize
    requires Tidy(w.vol, w.inos)
    ensures Passes(w.vol, w.inos)
  {
    CountSeqBag(w.vol, w.inos);
    TidyCounts(w.vol, w.inos);
    assert multiset(s) + AllBlocks(w.vol, w.inos) + w.held == multiset(s) + AllBlocks(w.vol, w.inos);
    PassesComplete(w.vol, w.inos, s);
  }

  lemma {:induction false} CountSeqFrame(v: Volume, u: Volume, inos: seq<Inode>, at: multiset<word>)
    requires v.Valid() && u.Valid() && (forall i | 0 <= i < |inos| :: inos[i].Valid()) && SameBut(v, u, at)
    requires forall b | b in CountSeq(v, inos) :: b !in at
    ensures CountSeq(u, inos) == CountSeq(v, inos)
  {
    if inos != [] {
      var c, rest := Counts(v, inos[0]), CountSeq(v, inos[1..]);
      assert forall b | b in c :: b in c + rest;
      assert forall b | b in rest :: b in c + rest;
      if Allocated(inos[0].mode) {
        BlocksFrame(v, u, inos[0], at);
      }
      CountSeqFrame(v, u, inos[1..], at);
    }
  }

  // make_free_list gives a list that check_free_list accepts with its count.
  lemma RebuiltIsAccepted(v: Volume, busy: seq<bool>)
    requires v.Valid() && |busy| == v.fsize
    ensures var f := CheckFreeList(MakeList(v, busy), busy);
      !f.corrupted && f.count == |Descending(v.isize + 2, v.fsize - 1, busy)|
  {
    var d := Descending(v.isize + 2, v.fsize - 1, busy);
    MakeListExact(v, busy);
    FreeListComplete(MakeList(v, busy), busy, d);
  }

  // Salvaging the free list makes the volume pass, whatever was wrong with
  // the list before, when the busy map is that of inodes without bad or
  // shared blocks.
  lemma SalvageConsistent(v: Volume, inos: seq<Inode>, busy: seq<bool>)
    requires v.Valid() && (forall i | 0 <= i < |inos| :: inos[i].Valid()) && v.isize + 2 <= v.fsize
    requires Clean(v, NoTables(v).busy, CountSeq(v, inos)) && busy == Mark(NoTables(v).busy, CountSeq(v, inos))
    requires |busy| == v.fsize <= 0xFFFF
    ensures Passes(MakeList(v, busy), inos)
  {
    hide *;
    var d := Descending(v.isize + 2, v.fsize - 1, busy);
    var u := MakeList(v, busy);
    MakeListExact(v, busy);
    DescendingExact(v.isize + 2, v.fsize - 1, busy);
    SalvagedCounts(v, u, inos, busy, d);
    PassesComplete(u, inos, d);
  }

  lemma SalvagedCounts(v: Volume, u: Volume, inos: seq<Inode>, busy: seq<bool>, d: seq<word>)
    requires v.Valid() && u.Valid() && (forall i | 0 <= i < |inos| :: inos[i].Valid())
    requires Clean(v, NoTables(v).busy, CountSeq(v, inos)) && busy == Mark(NoTables(v).busy, CountSeq(v, inos))
    requires FreeStack(u, d) && SameBut(v, u, multiset(d))
    requires forall b: word :: multiset(d)[b] == if v.isize + 2 <= b <= v.fsize - 1 && !busy[b] then 1 else 0
    ensures Consistent(u, inos, d)
  {
    forall b | b in CountSeq(v, inos) ensures b !in multiset(d) {
      assert busy[b];
      assert multiset(d)[b] == 0;
    }
    CountSeqFrame(v, u, inos, multiset(d));
    BusyOrFree(v, u, busy, CountSeq(v, inos), d);
  }

  lemma BusyOrFree(v: Volume, u: Volume, busy: seq<bool>, c: seq<word>, d: seq<word>)
    requires v.Valid() && u.Valid() && u.isize == v.isize && u.fsize == v.fsize
    requires Clean(v, NoTables(v).busy, c) && busy == Mark(NoTables(v).busy, c)
    requires forall b: word :: multiset(d)[b] == if v.isize + 2 <= b <= v.fsize - 1 && !busy[b] then 1 else 0
    ensures multiset(d) + multiset(c) == u.Area()
  {
    AreaBag(u);
    forall b: word ensures (multiset(d) + multiset(c))[b] == u.Area()[b] {
      assert multiset(c)[b] <= 1;
      assert b in c <==> multiset(c)[b] > 0;
    }
  }
}
