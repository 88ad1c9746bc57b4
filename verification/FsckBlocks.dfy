// fsutil/check.c, phases 1, 1b and 4: the busy map and the duplicate list as
// a reference count of every block.
module FsckBlocks {
  import opened Words
  import opened FreeBlocks
  import opened Inodes
  import opened Runs

  const MAXDUP := 10
  const MAXBAD := 10
  const DUP_LIST_SIZE := 100

  datatype Ret = KeepOn | Skip | Stop

  // The scanner functions that scan_inode is called with.
  datatype Pass = One | OneB | Four

  // block_map; dup_list up to dup_end; the index dup_multi; the counters of
  // the inode being scanned; used_blocks; whether the inode was marked CLEAR.
  datatype Tables = Tables(busy: seq<bool>, dups: seq<word>, multi: nat, bad: nat, dup: nat, used: nat, clear: bool)
  {
    predicate Valid(v: Volume) { |busy| == v.fsize && multi <= |dups| }
  }

  function Pass1(v: Volume, t: Tables, blk: word): (r: (Tables, Ret))
    requires t.Valid(v)
    ensures r.0.Valid(v)
  {
    if !v.InArea(blk) then
      (t.(bad := t.bad + 1, clear := true), if t.bad + 1 >= MAXBAD then Stop else Skip)
    else if t.busy[blk] then
      var t1 := t.(dup := t.dup + 1, clear := true);
      if t1.dup >= MAXDUP || |t.dups| >= DUP_LIST_SIZE then (t1, Stop)
      else if blk in t.dups[..t.multi] then (t1.(dups := t.dups + [blk]), KeepOn)
      else if t.multi == |t.dups| then (t1.(dups := t.dups + [blk], multi := t.multi + 1), KeepOn)
      else (t1.(dups := t.dups[t.multi := blk] + [t.dups[t.multi]], multi := t.multi + 1), KeepOn)
    else (t.(busy := t.busy[blk := true], used := t.used + 1), KeepOn)
  }

  // The first index of b in s, or |s|.
  function Find(s: seq<word>, b: word): (i: nat)
    ensures i <= |s| && (i < |s| ==> s[i] == b) && b !in s[..i]
    ensures i < |s| <==> b in s
  {
    if s == [] then 0 else if s[0] == b then 0 else
      var k := Find(s[1..], b);
      assert s[..1 + k] == [s[0]] + s[1..][..k];
      1 + k
  }

  function Pass1b(v: Volume, t: Tables, blk: word): (r: (Tables, Ret))
    requires t.Valid(v)
    ensures r.0.Valid(v)
  {
    if !v.InArea(blk) then (t, Skip)
    else
      var i := Find(t.dups[..t.multi], blk);
      if i == t.multi then (t, KeepOn)
      else
        var m := t.multi - 1;
        (t.(dups := t.dups[i := t.dups[m]][m := blk], multi := m, clear := true), if m == 0 then Stop else KeepOn)
  }

  function Pass4(v: Volume, t: Tables, blk: word): (r: (Tables, Ret))
    requires t.Valid(v)
    ensures r.0.Valid(v)
  {
    if !v.InArea(blk) then (t, Skip)
    else if !t.busy[blk] then (t, KeepOn)
    else
      var i := Find(t.dups, blk);
      if i == |t.dups| then (t.(busy := t.busy[blk := false]), KeepOn)
      else
        var last := |t.dups| - 1;
        (t.(dups := t.dups[i := t.dups[last]][..last], multi := if t.multi <= last then t.multi else last), KeepOn)
  }

  function Visit(v: Volume, p: Pass, t: Tables, blk: word): (r: (Tables, Ret))
    requires t.Valid(v)
    ensures r.0.Valid(v)
  {
    match p
    case One => Pass1(v, t, blk)
    case OneB => Pass1b(v, t, blk)
    case Four => Pass4(v, t, blk)
  }

  // The scan of a list of blocks, until a scanner says STOP.
  function Scan(v: Volume, p: Pass, t: Tables, bs: seq<word>): (r: (Tables, bool))
    requires t.Valid(v)
    ensures r.0.Valid(v)
    decreases |bs|
  {
    if bs == [] then (t, true)
    else
      var (t1, ret) := Visit(v, p, t, bs[0]);
      if ret == Stop then (t1, false) else Scan(v, p, t1, bs[1..])
  }

  lemma {:induction false} ScanConcat(v: Volume, p: Pass, t: Tables, a: seq<word>, b: seq<word>)
    requires t.Valid(v)
    ensures Scan(v, p, t, a + b) ==
      if Scan(v, p, t, a).1 then Scan(v, p, Scan(v, p, t, a).0, b) else Scan(v, p, t, a)
    decreases |a|
  {
    if a == [] {
      assert a + b == b;
    } else {
      assert (a + b)[1..] == a[1..] + b;
      ScanConcat(v, p, Visit(v, p, t, a[0]).0, a[1..], b);
    }
  }

  // ---- the reference count ----

  function Refs(t: Tables, b: word): nat
    requires b < |t.busy|
  {
    (if t.busy[b] then 1 else 0) + multiset(t.dups)[b]
  }

  // Every listed duplicate is busy, and the part of the list below dup_multi
  // names each duplicated block once.
  ghost predicate Shape(v: Volume, t: Tables) {
    && t.Valid(v)
    && (forall b | b in t.dups :: v.InArea(b) && t.busy[b])
    && Once(multiset(t.dups[..t.multi]))
    && (forall b | b in t.dups :: b in t.dups[..t.multi])
  }

  lemma Pass1Counts(v: Volume, t: Tables, blk: word)
    requires v.Valid() && Shape(v, t) && Pass1(v, t, blk).1 != Stop
    ensures Shape(v, Pass1(v, t, blk).0)
    ensures forall b: word | v.InArea(b) ::
      Refs(Pass1(v, t, blk).0, b) == Refs(t, b) + if b == blk then 1 else 0
  {
    if v.InArea(blk) {
      if t.busy[blk] {
        Pass1Lists(v, t, blk);
      } else {
        Pass1Marks(v, t, blk);
      }
      hide Pass1;
    }
  }

  // A block that was not busy becomes so.
  lemma Pass1Marks(v: Volume, t: Tables, blk: word)
    requires v.Valid() && Shape(v, t) && v.InArea(blk) && !t.busy[blk]
    ensures var u := Pass1(v, t, blk).0; Shape(v, u) && u.busy == t.busy[blk := true] && u.dups == t.dups
    ensures blk !in t.dups && multiset(t.dups)[blk] == 0
  {
  }

  // One that was is listed, in front of dup_multi when it was not listed yet.
  lemma Pass1Lists(v: Volume, t: Tables, blk: word)
    requires v.Valid() && Shape(v, t) && v.InArea(blk) && t.busy[blk] && Pass1(v, t, blk).1 != Stop
    ensures var u := Pass1(v, t, blk).0;
      Shape(v, u) && u.busy == t.busy && multiset(u.dups) == multiset(t.dups) + multiset{blk}
  {
    var u := Pass1(v, t, blk).0;
    var first := t.dups[..t.multi];
    if blk in first {
      assert u.dups == t.dups + [blk] && u.dups[..u.multi] == first;
    } else {
      assert u.dups[..u.multi] == first + [blk] by {
        if t.multi < |t.dups| { assert t.dups[t.multi := blk][..t.multi + 1] == first + [blk]; }
      }
      if t.multi < |t.dups| { MovedMiddle(t.dups, t.multi, blk); }
      NewFirst(first, blk);
    }
    hide Pass1;
  }

  lemma NewFirst(s: seq<word>, b: word)
    requires Once(multiset(s)) && b !in s
    ensures Once(multiset(s + [b]))
  {
    assert multiset(s + [b]) == multiset(s) + multiset{b};
  }

  lemma MovedMiddle(s: seq<word>, m: nat, b: word)
    requires m < |s|
    ensures multiset(s[m := b] + [s[m]]) == multiset(s) + multiset{b}
    ensures forall x | x in s[m := b] + [s[m]] :: x in s || x == b
  {
    assert s == s[..m] + [s[m]] + s[m + 1..];
    assert s[m := b] == s[..m] + [b] + s[m + 1..];
  }

  // Phase 1b only reorders the list: counts and busy map stay.
  lemma Pass1bPermutes(v: Volume, t: Tables, blk: word)
    requires t.Valid(v)
    ensures var t' := Pass1b(v, t, blk).0;
      && t'.busy == t.busy && |t'.dups| == |t.dups| && multiset(t'.dups) == multiset(t.dups)
      && t'.multi <= t.multi && t'.used == t.used
    ensures Pass1b(v, t, blk).1 == Stop <==> v.InArea(blk) && t.multi == 1 && t.dups[0] == blk
    ensures Pass1b(v, t, blk).0.clear <==> t.clear || (v.InArea(blk) && blk in t.dups[..t.multi])
  {
    var first := t.dups[..t.multi];
    var i := Find(first, blk);
    if v.InArea(blk) && i < t.multi {
      SwapPermutes(t.dups, i, t.multi - 1);
    }
  }

  lemma SwapPermutes(s: seq<word>, i: nat, m: nat)
    requires i <= m < |s|
    ensures multiset(s[i := s[m]][m := s[i]]) == multiset(s)
  {
    if i < m {
      assert s == s[..i] + [s[i]] + s[i + 1..m] + [s[m]] + s[m + 1..];
      assert s[i := s[m]][m := s[i]] == s[..i] + [s[m]] + s[i + 1..m] + [s[i]] + s[m + 1..];
    } else {
      assert s[i := s[m]][m := s[i]] == s;
    }
  }

  // What phase 4 needs of the tables; the order of the list does not matter.
  ghost predicate Counted(v: Volume, t: Tables) {
    t.Valid(v) && forall b | b in t.dups :: v.InArea(b) && t.busy[b]
  }

  lemma RemovedOne(s: seq<word>, i: nat)
    requires i < |s|
    ensures var r := s[i := s[|s| - 1]][..|s| - 1];
      && multiset(r) == multiset(s) - multiset{s[i]}
      && forall x | x in r :: x in s
  {
    var n := |s| - 1;
    if i < n {
      assert s == s[..i] + [s[i]] + s[i + 1..n] + [s[n]];
      assert s[i := s[n]][..n] == s[..i] + [s[n]] + s[i + 1..n];
    } else {
      assert s == s[..n] + [s[n]];
      assert s[i := s[n]][..n] == s[..n];
    }
  }

  lemma Pass4Unlists(v: Volume, t: Tables, blk: word)
    requires v.Valid() && Counted(v, t) && v.InArea(blk) && blk in t.dups
    ensures Pass4(v, t, blk).1 == KeepOn && Counted(v, Pass4(v, t, blk).0)
    ensures Pass4(v, t, blk).0.busy == t.busy
    ensures multiset(Pass4(v, t, blk).0.dups) == multiset(t.dups) - multiset{blk}
  {
    var i, last := Find(t.dups, blk), |t.dups| - 1;
    RemovedOne(t.dups, i);
    var u := t.(dups := t.dups[i := t.dups[last]][..last], multi := if t.multi <= last then t.multi else last);
    assert Pass4(v, t, blk) == (u, KeepOn);
    hide Pass4, Find;
  }

  lemma Pass4Frees(v: Volume, t: Tables, blk: word)
    requires v.Valid() && Counted(v, t) && v.InArea(blk) && blk !in t.dups
    ensures Pass4(v, t, blk).1 == KeepOn && Counted(v, Pass4(v, t, blk).0)
    ensures Pass4(v, t, blk).0.busy == t.busy[blk := false] && Pass4(v, t, blk).0.dups == t.dups
  {
  }

  lemma Pass4Counts(v: Volume, t: Tables, blk: word)
    requires v.Valid() && Counted(v, t)
    ensures Pass4(v, t, blk).1 != Stop && Counted(v, Pass4(v, t, blk).0)
    ensures forall b: word | v.InArea(b) ::
      Refs(Pass4(v, t, blk).0, b) == Refs(t, b) - if b == blk && Refs(t, b) > 0 then 1 else 0
  {
    if v.InArea(blk) {
      if blk in t.dups {
        Pass4Unlists(v, t, blk);
        assert multiset(t.dups)[blk] > 0;
      } else {
        Pass4Frees(v, t, blk);
        assert multiset(t.dups)[blk] == 0;
      }
    }
    hide Pass4;
  }

  lemma {:induction false} ScanOneCounts(v: Volume, t: Tables, bs: seq<word>)
    requires v.Valid() && Shape(v, t) && Scan(v, One, t, bs).1
    ensures Shape(v, Scan(v, One, t, bs).0)
    ensures forall b: word | v.InArea(b) :: Refs(Scan(v, One, t, bs).0, b) == Refs(t, b) + multiset(bs)[b]
    decreases |bs|
  {
    if bs != [] {
      Pass1Counts(v, t, bs[0]);
      ScanOneCounts(v, Pass1(v, t, bs[0]).0, bs[1..]);
      assert bs == [bs[0]] + bs[1..];
      assert multiset(bs) == multiset{bs[0]} + multiset(bs[1..]);
    }
  }

  lemma {:induction false} ScanOneBPermutes(v: Volume, t: Tables, bs: seq<word>)
    requires t.Valid(v)
    ensures var t' := Scan(v, OneB, t, bs).0;
      t'.busy == t.busy && multiset(t'.dups) == multiset(t.dups) && t'.used == t.used
    decreases |bs|
  {
    if bs != [] {
      Pass1bPermutes(v, t, bs[0]);
      ScanOneBPermutes(v, Pass1b(v, t, bs[0]).0, bs[1..]);
    }
  }

  lemma {:induction false} ScanFourCounts(v: Volume, t: Tables, bs: seq<word>)
    requires v.Valid() && Counted(v, t)
    requires forall b: word | v.InArea(b) :: multiset(bs)[b] <= Refs(t, b)
    ensures Scan(v, Four, t, bs).1 && Counted(v, Scan(v, Four, t, bs).0)
    ensures forall b: word | v.InArea(b) :: Refs(Scan(v, Four, t, bs).0, b) == Refs(t, b) - multiset(bs)[b]
    decreases |bs|
  {
    if bs != [] {
      assert bs == [bs[0]] + bs[1..];
      assert multiset(bs) == multiset{bs[0]} + multiset(bs[1..]);
      Pass4Counts(v, t, bs[0]);
      ScanFourCounts(v, Pass4(v, t, bs[0]).0, bs[1..]);
    }
  }

  // ---- the phases ----

  // INODE_MODE_ALLOC
  predicate Allocated(mode: bv16) { mode & 0x8000 != 0 }

  // The blocks that phase 1 counts for an inode.
  ghost function Counts(v: Volume, ino: Inode): seq<word>
    requires v.Valid() && ino.Valid()
  {
    if Allocated(ino.mode) then Blocks(v, ino) else []
  }

  ghost function AllCounts(v: Volume, inos: seq<Inode>): multiset<word>
    requires v.Valid() && forall i | 0 <= i < |inos| :: inos[i].Valid()
  {
    if inos == [] then multiset{} else multiset(Counts(v, inos[0])) + AllCounts(v, inos[1..])
  }

  // Phase 1 over the inode table; false as second result when a scan stopped
  // early.  The counters bad and dup are per inode; `clean` tells whether any
  // inode was marked.
  datatype Phase1Result = Phase1Result(t: Tables, complete: bool, clean: bool)

  ghost function Phase1(v: Volume, t: Tables, inos: seq<Inode>): (r: Phase1Result)
    requires v.Valid() && t.Valid(v) && forall i | 0 <= i < |inos| :: inos[i].Valid()
    ensures r.t.Valid(v)
    decreases |inos|
  {
    if inos == [] then Phase1Result(t, true, true)
    else
      var s := Scan(v, One, t.(bad := 0, dup := 0, clear := false), Counts(v, inos[0]));
      var r := Phase1(v, s.0, inos[1..]);
      Phase1Result(r.t, s.1 && r.complete, !s.0.clear && r.clean)
  }

  function NoTables(v: Volume): (t: Tables)
    requires v.Valid()
    ensures t.Valid(v)
  {
    Tables(seq(v.fsize, _ => false), [], 0, 0, 0, 0, false)
  }

  lemma {:induction false} Phase1Counts(v: Volume, t: Tables, inos: seq<Inode>)
    requires v.Valid() && Shape(v, t) && forall i | 0 <= i < |inos| :: inos[i].Valid()
    requires Phase1(v, t, inos).complete
    ensures Shape(v, Phase1(v, t, inos).t)
    ensures forall b: word | v.InArea(b) ::
      Refs(Phase1(v, t, inos).t, b) == Refs(t, b) + AllCounts(v, inos)[b]
    decreases |inos|
  {
    if inos != [] {
      var t0 := t.(bad := 0, dup := 0, clear := false);
      var c: seq<word> := Counts(v, inos[0]);
      ScanOneCounts(v, t0, c);
      var t1 := Scan(v, One, t0, c).0;
      Phase1Counts(v, t1, inos[1..]);
      forall b: word | v.InArea(b)
        ensures Refs(Phase1(v, t, inos).t, b) == Refs(t, b) + AllCounts(v, inos)[b]
      {
        assert Refs(t0, b) == Refs(t, b);
        assert AllCounts(v, inos)[b] == multiset(c)[b] + AllCounts(v, inos[1..])[b];
      }
    }
  }

  // Clearing an inode in phase 4.
  ghost function Clear(v: Volume, t: Tables, ino: Inode): (r: Tables)
    requires v.Valid() && t.Valid(v) && ino.Valid()
    ensures r.Valid(v)
  {
    Scan(v, Four, t, Blocks(v, ino)).0
  }

  // Phase 4 clears the inodes named by `which`, in that order.
  ghost function ClearAll(v: Volume, t: Tables, inos: seq<Inode>, which: seq<nat>): (r: (Tables, seq<Inode>))
    requires v.Valid() && t.Valid(v) && (forall i | 0 <= i < |inos| :: inos[i].Valid())
    requires forall k | 0 <= k < |which| :: which[k] < |inos|
    ensures r.0.Valid(v) && |r.1| == |inos| && (forall i | 0 <= i < |r.1| :: r.1[i].Valid())
    decreases |which|
  {
    if which == [] then (t, inos)
    else ClearAll(v, Clear(v, t, inos[which[0]]), inos[which[0] := CLEARED], which[1..])
  }

  // The busy map and the list count the references from the inodes.
  ghost predicate CountsAll(v: Volume, t: Tables, inos: seq<Inode>)
    requires v.Valid() && forall i | 0 <= i < |inos| :: inos[i].Valid()
  {
    Counted(v, t) && forall b: word | v.InArea(b) :: Refs(t, b) == AllBlocks(v, inos)[b]
  }

  lemma ClearCounts(v: Volume, t: Tables, inos: seq<Inode>, i: nat)
    requires v.Valid() && (forall k | 0 <= k < |inos| :: inos[k].Valid()) && i < |inos|
    requires CountsAll(v, t, inos)
    ensures CountsAll(v, Clear(v, t, inos[i]), inos[i := CLEARED])
  {
    hide *;
    var bs: seq<word> := Blocks(v, inos[i]);
    CountsParts(v, t, inos);
    OneOfAll(v, inos, i);
    FewerRefs(v, t, bs, AllBlocks(v, inos));
    ScanFourCounts(v, t, bs);
    ClearIs(v, t, inos[i]);
    BagLess(v, inos, i);
    MakeCounts(v, t, Clear(v, t, inos[i]), inos[i := CLEARED], AllBlocks(v, inos), bs);
  }

  lemma CountsParts(v: Volume, t: Tables, inos: seq<Inode>)
    requires v.Valid() && (forall k | 0 <= k < |inos| :: inos[k].Valid()) && CountsAll(v, t, inos)
    ensures Counted(v, t) && t.Valid(v)
    ensures forall b: word | v.InArea(b) :: b < |t.busy| && Refs(t, b) == AllBlocks(v, inos)[b]
  {
    hide AllBlocks, Refs;
  }

  lemma FewerRefs(v: Volume, t: Tables, bs: seq<word>, all: multiset<word>)
    requires t.Valid(v) && multiset(bs) <= all && forall b: word | v.InArea(b) :: Refs(t, b) == all[b]
    ensures forall b: word | v.InArea(b) :: multiset(bs)[b] <= Refs(t, b)
  {
    hide Refs;
    forall b: word | v.InArea(b) ensures multiset(bs)[b] <= Refs(t, b) { assert multiset(bs)[b] <= all[b]; }
  }

  lemma ClearIs(v: Volume, t: Tables, ino: Inode)
    requires v.Valid() && t.Valid(v) && ino.Valid()
    ensures Clear(v, t, ino) == Scan(v, Four, t, Blocks(v, ino)).0
  {
  }

  // Clearing an inode takes its blocks away from the bag.
  lemma BagLess(v: Volume, inos: seq<Inode>, i: nat)
    requires v.Valid() && (forall k | 0 <= k < |inos| :: inos[k].Valid()) && i < |inos|
    ensures var left := inos[i := CLEARED]; forall k | 0 <= k < |left| :: left[k].Valid()
    ensures AllBlocks(v, inos[i := CLEARED]) + multiset(Blocks(v, inos[i])) == AllBlocks(v, inos)
  {
    ClearedOwnsNothing(v, 0);
    assert CLEARED.(mode := 0) == CLEARED;
    hide Blocks, AllBlocks;
    OneChanges(v, inos, v, i, CLEARED, multiset(Blocks(v, inos[i])), multiset{});
  }

  lemma MakeCounts(v: Volume, t: Tables, u: Tables, left: seq<Inode>, all: multiset<word>, bs: seq<word>)
    requires v.Valid() && (forall k | 0 <= k < |left| :: left[k].Valid()) && t.Valid(v) && Counted(v, u)
    requires u.Valid(v) && AllBlocks(v, left) + multiset(bs) == all
    requires forall b: word | v.InArea(b) :: Refs(t, b) == all[b] && Refs(u, b) == Refs(t, b) - multiset(bs)[b]
    ensures CountsAll(v, u, left)
  {
    var rest: multiset<word> := AllBlocks(v, left);
    hide AllBlocks, Refs;
    forall b: word | v.InArea(b) ensures Refs(u, b) == rest[b] { assert (rest + multiset(bs))[b] == all[b]; }
  }

  lemma {:induction false} ClearAllCounts(v: Volume, t: Tables, inos: seq<Inode>, which: seq<nat>)
    requires v.Valid() && (forall k | 0 <= k < |inos| :: inos[k].Valid())
    requires CountsAll(v, t, inos) && forall k | 0 <= k < |which| :: which[k] < |inos|
    ensures var (t', inos') := ClearAll(v, t, inos, which); CountsAll(v, t', inos')
    decreases |which|
  {
    if which != [] {
      ClearCounts(v, t, inos, which[0]);
      ClearAllCounts(v, Clear(v, t, inos[which[0]]), inos[which[0] := CLEARED], which[1..]);
    }
  }

  lemma {:induction false} AllBlocksMember(v: Volume, inos: seq<Inode>, b: word)
    requires v.Valid() && forall k | 0 <= k < |inos| :: inos[k].Valid()
    ensures b in AllBlocks(v, inos) <==> exists i :: 0 <= i < |inos| && b in Blocks(v, inos[i])
  {
    if inos != [] {
      AllBlocksMember(v, inos[1..], b);
      var first: seq<word> := Blocks(v, inos[0]);
      assert b in first <==> b in multiset(first);
      assert forall i | 0 <= i < |inos| - 1 :: inos[1..][i] == inos[i + 1];
      if exists i :: 0 <= i < |inos| && b in Blocks(v, inos[i]) {
        var i :| 0 <= i < |inos| && b in Blocks(v, inos[i]);
        if i > 0 { assert b in Blocks(v, inos[1..][i - 1]); }
      }
    }
  }

  // After phase 1 has counted every inode and phase 4 has cleared any set of
  // them, a block is busy iff a surviving inode refers to it.
  lemma BusyIffReferred(v: Volume, t: Tables, inos: seq<Inode>, which: seq<nat>, b: word)
    requires v.Valid() && (forall k | 0 <= k < |inos| :: inos[k].Valid())
    requires CountsAll(v, t, inos) && (forall k | 0 <= k < |which| :: which[k] < |inos|) && v.InArea(b)
    ensures var (t', inos') := ClearAll(v, t, inos, which);
      t'.busy[b] <==> exists i :: 0 <= i < |inos'| && b in Blocks(v, inos'[i])
  {
    var (t', inos') := ClearAll(v, t, inos, which);
    ClearAllCounts(v, t, inos, which);
    AllBlocksMember(v, inos', b);
    assert Refs(t', b) == AllBlocks(v, inos')[b];
    if !t'.busy[b] {
      assert b !in t'.dups;
      assert multiset(t'.dups)[b] == 0;
    }
  }

  // The inode table after phase 1: a partially allocated inode, whose blocks
  // are not counted, is cleared, and an unused one is not looked at.
  function Tidied(inos: seq<Inode>): (r: seq<Inode>)
    ensures |r| == |inos|
    ensures forall i | 0 <= i < |inos| :: r[i] == if Allocated(inos[i].mode) then inos[i] else CLEARED
  {
    seq(|inos|, i requires 0 <= i < |inos| => if Allocated(inos[i].mode) then inos[i] else CLEARED)
  }

  lemma {:induction false} AllCountsAreBlocks(v: Volume, inos: seq<Inode>)
    requires v.Valid() && forall k | 0 <= k < |inos| :: inos[k].Valid()
    ensures AllCounts(v, inos) == AllBlocks(v, Tidied(inos))
  {
    if inos != [] {
      assert Tidied(inos)[1..] == Tidied(inos[1..]);
      AllCountsAreBlocks(v, inos[1..]);
      ClearedOwnsNothing(v, 0);
      assert CLEARED.(mode := 0) == CLEARED;
    }
  }

  // Every block is in an allocated inode.
  ghost predicate Tidy(v: Volume, inos: seq<Inode>)
    requires v.Valid() && forall k | 0 <= k < |inos| :: inos[k].Valid()
  {
    forall k | 0 <= k < |inos| && !Allocated(inos[k].mode) :: Blocks(v, inos[k]) == []
  }

  lemma {:induction false} TidyCounts(v: Volume, inos: seq<Inode>)
    requires v.Valid() && (forall k | 0 <= k < |inos| :: inos[k].Valid()) && Tidy(v, inos)
    ensures AllCounts(v, inos) == AllBlocks(v, inos)
  {
    if inos != [] {
      assert forall k | 0 <= k < |inos| - 1 :: inos[1..][k] == inos[k + 1];
      TidyCounts(v, inos[1..]);
      assert Counts(v, inos[0]) == Blocks(v, inos[0]);
    }
  }

  // Phase 1, when no scan stopped early, counts exactly the references of the
  // inodes that it leaves, and phase 1b does not change that.
  lemma Phase1CountsAll(v: Volume, inos: seq<Inode>)
    requires v.Valid() && (forall k | 0 <= k < |inos| :: inos[k].Valid())
    requires Phase1(v, NoTables(v), inos).complete
    ensures CountsAll(v, Phase1(v, NoTables(v), inos).t, Tidied(inos))
  {
    hide Phase1, Blocks, Counts, Scan, Own, OwnAll;
    Phase1Counts(v, NoTables(v), inos);
    AllCountsAreBlocks(v, inos);
  }

  lemma Phase1bKeepsCounts(v: Volume, t: Tables, inos: seq<Inode>, bs: seq<word>)
    requires v.Valid() && (forall k | 0 <= k < |inos| :: inos[k].Valid()) && CountsAll(v, t, inos)
    ensures CountsAll(v, Scan(v, OneB, t, bs).0, inos)
  {
    ScanOneBPermutes(v, t, bs);
    var t' := Scan(v, OneB, t, bs).0;
    forall b | b in t'.dups ensures v.InArea(b) && t'.busy[b] {
      assert b in multiset(t'.dups);
      assert b in t.dups;
    }
  }
}
