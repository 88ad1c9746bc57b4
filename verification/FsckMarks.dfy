// fsutil/check.c: which inodes phases 1 and 1b mark as CLEAR, and what clearing
// them does.
module FsckMarks {
  import opened Words
  import opened FreeBlocks
  import opened Inodes
  import opened Runs
  import opened FsckBlocks
  import opened FsckFree
  import opened FreeLists
  import opened FsckVerdict
  import opened FsckRepair

  // ---- phase 1 ----

  // The inodes that phase 1 marks: those whose scan sets the flag.
  ghost function Marks1(v: Volume, t: Tables, inos: seq<Inode>): (r: seq<bool>)
    requires v.Valid() && t.Valid(v) && forall i | 0 <= i < |inos| :: inos[i].Valid()
    ensures |r| == |inos|
    decreases |inos|
  {
    if inos == [] then []
    else
      var s := Scan(v, One, t.(bad := 0, dup := 0, clear := false), Counts(v, inos[0])).0;
      [s.clear] + Marks1(v, s, inos[1..])
  }

  // A scan that is not cut short marks its blocks as busy.
  lemma {:induction false} ScanBusy(v: Volume, t: Tables, bs: seq<word>)
    requires v.Valid() && t.Valid(v) && Scan(v, One, t, bs).1
    ensures forall b: word | b < v.fsize :: Scan(v, One, t, bs).0.busy[b] <==> t.busy[b] || (v.InArea(b) && b in bs)
    decreases |bs|
  {
    if bs != [] { ScanBusy(v, Pass1(v, t, bs[0]).0, bs[1..]); }
  }

  // The blocks of the first i inodes.
  ghost function Before(v: Volume, inos: seq<Inode>, i: nat): seq<word>
    requires v.Valid() && i <= |inos| && forall k | 0 <= k < |inos| :: inos[k].Valid()
  {
    CountSeq(v, inos[..i])
  }

  lemma BeforeNext(v: Volume, inos: seq<Inode>, i: nat)
    requires v.Valid() && 0 < i <= |inos| && forall k | 0 <= k < |inos| :: inos[k].Valid()
    ensures Before(v, inos, i) == Counts(v, inos[0]) + Before(v, inos[1..], i - 1)
  {
    assert inos[..i][1..] == inos[1..][..i - 1];
  }

  // The block is bad, or busy in m, or of an inode before the i-th, or twice
  // in the i-th.
  ghost predicate Faulty(v: Volume, m: seq<bool>, inos: seq<Inode>, i: nat, b: word)
    requires v.Valid() && |m| == v.fsize && i < |inos| && forall k | 0 <= k < |inos| :: inos[k].Valid()
  {
    !v.InArea(b) || m[b] || b in Before(v, inos, i) || multiset(Counts(v, inos[i]))[b] > 1
  }

  lemma FaultyLater(v: Volume, m: seq<bool>, m1: seq<bool>, inos: seq<Inode>, i: nat, b: word)
    requires v.Valid() && |m| == |m1| == v.fsize && 0 < i < |inos| && forall k | 0 <= k < |inos| :: inos[k].Valid()
    requires forall x: word | x < v.fsize :: m1[x] <==> m[x] || (v.InArea(x) && x in Counts(v, inos[0]))
    ensures Faulty(v, m, inos, i, b) <==> Faulty(v, m1, inos[1..], i - 1, b)
  {
    BeforeNext(v, inos, i);
  }

  lemma FaultyFirst(v: Volume, m: seq<bool>, inos: seq<Inode>)
    requires v.Valid() && |m| == v.fsize && inos != [] && forall k | 0 <= k < |inos| :: inos[k].Valid()
    ensures !Clean(v, m, Counts(v, inos[0])) <==> exists b :: b in Counts(v, inos[0]) && Faulty(v, m, inos, 0, b)
  {
    var bs: seq<word> := Counts(v, inos[0]);
    assert Before(v, inos, 0) == [];
    if !Once(multiset(bs)) {
      var b: word :| multiset(bs)[b] > 1;
      assert b in bs && Faulty(v, m, inos, 0, b);
    }
    if b :| b in bs && (!v.InArea(b) || m[b]) { assert Faulty(v, m, inos, 0, b); }
  }

  // Phase 1 marks the inodes with a bad block or one that is busy already.
  lemma {:induction false} Marks1Are(v: Volume, t: Tables, inos: seq<Inode>, i: nat)
    requires v.Valid() && t.Valid(v) && i < |inos| && forall k | 0 <= k < |inos| :: inos[k].Valid()
    requires Phase1(v, t, inos).complete
    ensures Marks1(v, t, inos)[i] <==> exists b :: b in Counts(v, inos[i]) && Faulty(v, t.busy, inos, i, b)
    decreases |inos|
  {
    var t0 := t.(bad := 0, dup := 0, clear := false);
    var c: seq<word> := Counts(v, inos[0]);
    var s := Scan(v, One, t0, c);
    if i == 0 {
      ScanIsClean(v, t0, c);
      FaultyFirst(v, t.busy, inos);
    } else {
      ScanBusy(v, t0, c);
      Marks1Are(v, s.0, inos[1..], i - 1);
      forall b ensures Faulty(v, t.busy, inos, i, b) <==> Faulty(v, s.0.busy, inos[1..], i - 1, b) {
        FaultyLater(v, t.busy, s.0.busy, inos, i, b);
      }
    }
  }

  // ---- phase 1b ----

  // Phase 1b over the inodes, until a scan says that no block is left to be
  // found; the tables then, and which inodes it marks.
  ghost function Phase1b(v: Volume, t: Tables, inos: seq<Inode>): (r: (Tables, seq<bool>))
    requires v.Valid() && t.Valid(v) && forall i | 0 <= i < |inos| :: inos[i].Valid()
    ensures r.0.Valid(v) && |r.1| == |inos|
    decreases |inos|
  {
    if inos == [] then (t, [])
    else
      var s := Scan(v, OneB, t.(clear := false), Counts(v, inos[0]));
      if !s.1 then (s.0, [s.0.clear] + seq(|inos| - 1, _ => false))
      else
        var r := Phase1b(v, s.0, inos[1..]);
        (r.0, [s.0.clear] + r.1)
  }

  // The blocks that phase 1b looks for, once each.
  ghost predicate Sought(v: Volume, t: Tables) {
    t.Valid(v) && Once(multiset(t.dups[..t.multi])) && forall b | b in t.dups[..t.multi] :: v.InArea(b)
  }

  lemma Pass1bSeeks(v: Volume, t: Tables, blk: word)
    requires Sought(v, t)
    ensures
      var (u, ret) := Pass1b(v, t, blk);
      && Sought(v, u) && (forall b: word :: b in u.dups[..u.multi] <==> b in t.dups[..t.multi] && b != blk)
      && (u.clear <==> t.clear || blk in t.dups[..t.multi])
      && (ret == Stop ==> u.dups[..u.multi] == [])
  {
    hide *;
    SoughtParts(v, t);
    var first := t.dups[..t.multi];
    if blk in first {
      var i := Pass1bHits(v, t, blk);
      TakenOut(first, i);
      MakeSought(v, t, Pass1b(v, t, blk).0);
    } else {
      Pass1bMisses(v, t, blk);
    }
  }

  lemma SoughtParts(v: Volume, t: Tables)
    requires Sought(v, t)
    ensures t.Valid(v) && t.multi <= |t.dups| && Once(multiset(t.dups[..t.multi]))
    ensures forall b | b in t.dups[..t.multi] :: v.InArea(b)
  {
  }

  lemma MakeSought(v: Volume, t: Tables, u: Tables)
    requires Sought(v, t) && u.Valid(v) && Once(multiset(u.dups[..u.multi]))
    requires forall b: word | b in u.dups[..u.multi] :: b in t.dups[..t.multi]
    ensures Sought(v, u)
  {
  }

  lemma Pass1bMisses(v: Volume, t: Tables, blk: word)
    requires t.Valid(v) && blk !in t.dups[..t.multi]
    ensures Pass1b(v, t, blk).0 == t && Pass1b(v, t, blk).1 != Stop
  {
  }

  // A block that is found goes behind the part that is searched.
  lemma Pass1bHits(v: Volume, t: Tables, blk: word) returns (i: nat)
    requires Sought(v, t) && blk in t.dups[..t.multi]
    ensures t.multi <= |t.dups| && i < t.multi && t.dups[..t.multi][i] == blk
    ensures
      var (u, ret) := Pass1b(v, t, blk);
      var first := t.dups[..t.multi];
      && u.multi == t.multi - 1 <= |u.dups| && u.clear
      && u.dups[..u.multi] == first[i := first[|first| - 1]][..|first| - 1]
      && (ret == Stop ==> u.multi == 0)
  {
    i := Find(t.dups[..t.multi], blk);
    hide Find;
  }

  lemma TakenOut(s: seq<word>, i: nat)
    requires i < |s| && Once(multiset(s))
    ensures
      var r := s[i := s[|s| - 1]][..|s| - 1];
      Once(multiset(r)) && forall b: word :: b in r <==> b in s && b != s[i]
  {
    var r: seq<word> := s[i := s[|s| - 1]][..|s| - 1];
    RemovedOne(s, i);
    var m: multiset<word>, n: multiset<word> := multiset(s), multiset(r);
    assert m[s[i]] <= 1;
    forall b: word ensures n[b] <= 1 && (b in r <==> b in s && b != s[i]) {
      assert m[b] <= 1;
      assert b in r <==> b in n;
      assert b in s <==> b in m;
    }
  }

  lemma {:induction false} ScanSeeks(v: Volume, t: Tables, bs: seq<word>)
    requires Sought(v, t)
    ensures
      var (u, on) := Scan(v, OneB, t, bs);
      && Sought(v, u) && (forall b: word :: b in u.dups[..u.multi] <==> b in t.dups[..t.multi] && b !in bs)
      && (u.clear <==> t.clear || exists b :: b in bs && b in t.dups[..t.multi])
      && (!on ==> u.dups[..u.multi] == [])
    decreases |bs|
  {
    if bs != [] {
      Pass1bSeeks(v, t, bs[0]);
      var (t1, ret) := Pass1b(v, t, bs[0]);
      if ret == Stop {
        assert forall b: word | b in t.dups[..t.multi] && b != bs[0] :: b in t1.dups[..t1.multi];
      } else {
        ScanSeeks(v, t1, bs[1..]);
      }
    }
  }

  // A block that is still sought when phase 1b comes to inode i.
  ghost predicate Awaited(v: Volume, t: Tables, inos: seq<Inode>, i: nat, b: word)
    requires v.Valid() && t.Valid(v) && i <= |inos| && forall k | 0 <= k < |inos| :: inos[k].Valid()
  {
    b in t.dups[..t.multi] && b !in Before(v, inos, i)
  }

  // Phase 1b marks the first inode with each block it looks for.
  lemma {:induction false} Marks1bAre(v: Volume, t: Tables, inos: seq<Inode>, i: nat)
    requires v.Valid() && Sought(v, t) && i < |inos| && forall k | 0 <= k < |inos| :: inos[k].Valid()
    ensures Phase1b(v, t, inos).1[i] <==> exists b :: b in Counts(v, inos[i]) && Awaited(v, t, inos, i, b)
    decreases |inos|
  {
    hide *;
    var s := Phase1bTurn(v, t, inos);
    if i == 0 {
      AwaitedFirst(v, t, inos);
    } else {
      forall b ensures Awaited(v, t, inos, i, b) <==> Awaited(v, s.0, inos[1..], i - 1, b) {
        AwaitedLater(v, t, s.0, inos, i, b);
      }
      if s.1 {
        Marks1bAre(v, s.0, inos[1..], i - 1);
      } else {
        NoneAwaited(v, s.0, inos[1..], i - 1);
      }
      assert inos[1..][i - 1] == inos[i];
    }
  }

  // The scan of the first inode.
  lemma Phase1bTurn(v: Volume, t: Tables, inos: seq<Inode>) returns (s: (Tables, bool))
    requires v.Valid() && Sought(v, t) && inos != [] && forall k | 0 <= k < |inos| :: inos[k].Valid()
    ensures Sought(v, s.0) && (!s.1 ==> s.0.dups[..s.0.multi] == []) && t.Valid(v) && s.0.Valid(v)
    ensures forall b: word :: b in s.0.dups[..s.0.multi] <==> b in t.dups[..t.multi] && b !in Counts(v, inos[0])
    ensures s.0.clear <==> exists b :: b in Counts(v, inos[0]) && b in t.dups[..t.multi]
    ensures
      var r := Phase1b(v, t, inos).1;
      && r[0] == s.0.clear
      && forall i | 0 < i < |inos| :: r[i] == if s.1 then Phase1b(v, s.0, inos[1..]).1[i - 1] else false
  {
    ScanSeeks(v, t.(clear := false), Counts(v, inos[0]));
    s := Scan(v, OneB, t.(clear := false), Counts(v, inos[0]));
    hide Scan, Counts;
  }

  lemma AwaitedFirst(v: Volume, t: Tables, inos: seq<Inode>)
    requires v.Valid() && t.Valid(v) && inos != [] && forall k | 0 <= k < |inos| :: inos[k].Valid()
    ensures forall b :: Awaited(v, t, inos, 0, b) <==> b in t.dups[..t.multi]
  {
    assert Before(v, inos, 0) == [];
  }

  lemma AwaitedLater(v: Volume, t: Tables, u: Tables, inos: seq<Inode>, i: nat, b: word)
    requires v.Valid() && t.Valid(v) && u.Valid(v) && 0 < i < |inos| && forall k | 0 <= k < |inos| :: inos[k].Valid()
    requires b in u.dups[..u.multi] <==> b in t.dups[..t.multi] && b !in Counts(v, inos[0])
    ensures Awaited(v, t, inos, i, b) <==> Awaited(v, u, inos[1..], i - 1, b)
  {
    BeforeNext(v, inos, i);
    hide Counts, Before;
  }

  lemma NoneAwaited(v: Volume, t: Tables, inos: seq<Inode>, i: nat)
    requires v.Valid() && t.Valid(v) && i < |inos| && forall k | 0 <= k < |inos| :: inos[k].Valid()
    requires t.dups[..t.multi] == []
    ensures forall b :: !Awaited(v, t, inos, i, b)
  {
  }

  // ---- both ----

  // The inodes marked as CLEAR when phases 1 and 1b are over.
  ghost predicate Marked(v: Volume, inos: seq<Inode>, i: nat)
    requires v.Valid() && i < |inos| && forall k | 0 <= k < |inos| :: inos[k].Valid()
  {
    || Marks1(v, NoTables(v), inos)[i]
    || Phase1b(v, Phase1(v, NoTables(v), inos).t, inos).1[i]
  }

  // A block out of range, or referred to more than once.
  ghost predicate BadOrShared(v: Volume, inos: seq<Inode>, b: word)
    requires v.Valid() && forall k | 0 <= k < |inos| :: inos[k].Valid()
  {
    !v.InArea(b) || AllCounts(v, inos)[b] > 1
  }

  lemma ShapeSought(v: Volume, t: Tables)
    requires Shape(v, t)
    ensures Sought(v, t)
  {
    assert forall b | b in t.dups[..t.multi] :: b in t.dups;
  }

  // After phase 1 the blocks sought are the shared ones.
  lemma SoughtAre(v: Volume, inos: seq<Inode>, b: word)
    requires v.Valid() && (forall k | 0 <= k < |inos| :: inos[k].Valid()) && Phase1(v, NoTables(v), inos).complete
    ensures var t := Phase1(v, NoTables(v), inos).t;
      Sought(v, t) && (b in t.dups[..t.multi] <==> v.InArea(b) && AllCounts(v, inos)[b] > 1)
  {
    hide Phase1, AllCounts;
    Phase1Counts(v, NoTables(v), inos);
    var t := Phase1(v, NoTables(v), inos).t;
    ShapeSought(v, t);
    if v.InArea(b) {
      assert Refs(t, b) == AllCounts(v, inos)[b];
      assert b in t.dups <==> multiset(t.dups)[b] > 0;
    } else {
      assert b !in t.dups;
    }
  }

  lemma {:induction false} SplitCounts(v: Volume, inos: seq<Inode>, i: nat)
    requires v.Valid() && i < |inos| && forall k | 0 <= k < |inos| :: inos[k].Valid()
    ensures multiset(Before(v, inos, i)) + multiset(Counts(v, inos[i])) <= AllCounts(v, inos)
    decreases |inos|
  {
    if i == 0 {
      assert Before(v, inos, 0) == [];
    } else {
      SplitCounts(v, inos[1..], i - 1);
      BeforeNext(v, inos, i);
    }
  }

  // For a block of inode i: phase 1 finds it at fault or phase 1b awaits it if
  // and only if it is bad or shared.
  lemma FoundIff(v: Volume, inos: seq<Inode>, i: nat, b: word)
    requires v.Valid() && (forall k | 0 <= k < |inos| :: inos[k].Valid()) && i < |inos|
    requires Phase1(v, NoTables(v), inos).complete && b in Counts(v, inos[i])
    ensures
      Faulty(v, NoTables(v).busy, inos, i, b) || Awaited(v, Phase1(v, NoTables(v), inos).t, inos, i, b) <==>
        BadOrShared(v, inos, b)
  {
    SoughtAre(v, inos, b);
    SplitCounts(v, inos, i);
    var c: multiset<word>, d: multiset<word> := multiset(Counts(v, inos[i])), multiset(Before(v, inos, i));
    var all: multiset<word> := AllCounts(v, inos);
    assert b in c && c[b] + d[b] <= all[b];
    assert b in Before(v, inos, i) <==> b in d;
    hide Phase1, AllCounts, Counts, Before;
  }

  // While no scan stops early, an inode is marked if and only if it has a
  // block out of range or one that is referred to more than once.
  lemma MarkedIff(v: Volume, inos: seq<Inode>, i: nat)
    requires v.Valid() && (forall k | 0 <= k < |inos| :: inos[k].Valid()) && i < |inos|
    requires Phase1(v, NoTables(v), inos).complete
    ensures Marked(v, inos, i) <==> exists b :: b in Counts(v, inos[i]) && BadOrShared(v, inos, b)
  {
    var t := Phase1(v, NoTables(v), inos).t;
    Marks1Are(v, NoTables(v), inos, i);
    if b :| b in Counts(v, inos[i]) { SoughtAre(v, inos, b); }
    hide Faulty, Awaited, BadOrShared, Phase1, Counts;
    forall b | b in Counts(v, inos[i])
      ensures Faulty(v, NoTables(v).busy, inos, i, b) || Awaited(v, t, inos, i, b) <==> BadOrShared(v, inos, b)
    {
      FoundIff(v, inos, i, b);
    }
    Sought1(v, inos);
    Marks1bAre(v, t, inos, i);
  }

  lemma Sought1(v: Volume, inos: seq<Inode>)
    requires v.Valid() && (forall k | 0 <= k < |inos| :: inos[k].Valid()) && Phase1(v, NoTables(v), inos).complete
    ensures Sought(v, Phase1(v, NoTables(v), inos).t)
  {
    SoughtAre(v, inos, 0);
  }

  // ---- clearing ----

  // What phase 4 leaves of each inode.
  lemma {:induction false} ClearedOrLeft(v: Volume, t: Tables, inos: seq<Inode>, which: seq<nat>)
    requires v.Valid() && t.Valid(v) && (forall i | 0 <= i < |inos| :: inos[i].Valid())
    requires forall k | 0 <= k < |which| :: which[k] < |inos|
    ensures
      var left := ClearAll(v, t, inos, which).1;
      forall i | 0 <= i < |inos| :: left[i] == if i in which then CLEARED else inos[i]
    decreases |which|
  {
    if which != [] {
      assert which == [which[0]] + which[1..];
      ClearedOrLeft(v, Clear(v, t, inos[which[0]]), inos[which[0] := CLEARED], which[1..]);
    }
  }

  // Each inode has kept its blocks or has none.
  ghost predicate SomeLeft(v: Volume, inos: seq<Inode>, left: seq<Inode>)
    requires v.Valid() && (forall k | 0 <= k < |inos| :: inos[k].Valid())
    requires forall k | 0 <= k < |left| :: left[k].Valid()
  {
    && |left| == |inos|
    && forall i | 0 <= i < |left| :: Counts(v, left[i]) == [] || Counts(v, left[i]) == Counts(v, inos[i])
  }

  lemma {:induction false} LeftCounts(v: Volume, inos: seq<Inode>, left: seq<Inode>)
    requires v.Valid() && (forall k | 0 <= k < |inos| :: inos[k].Valid())
    requires forall k | 0 <= k < |left| :: left[k].Valid()
    requires SomeLeft(v, inos, left)
    ensures AllCounts(v, left) <= AllCounts(v, inos)
    decreases |inos|
  {
    if inos != [] {
      assert Counts(v, left[0]) == [] || Counts(v, left[0]) == Counts(v, inos[0]);
      forall i | 0 <= i < |left| - 1
        ensures Counts(v, left[1..][i]) == [] || Counts(v, left[1..][i]) == Counts(v, inos[1..][i])
      {
        assert left[1..][i] == left[i + 1] && inos[1..][i] == inos[i + 1];
      }
      LeftCounts(v, inos[1..], left[1..]);
    }
  }

  lemma {:induction false} InSome(v: Volume, inos: seq<Inode>, b: word) returns (i: nat)
    requires v.Valid() && (forall k | 0 <= k < |inos| :: inos[k].Valid()) && b in CountSeq(v, inos)
    ensures i < |inos| && b in Counts(v, inos[i])
  {
    if b in Counts(v, inos[0]) {
      i := 0;
    } else {
      i := InSome(v, inos[1..], b);
      i := i + 1;
    }
  }

  // Inodes without bad and shared blocks are clean.
  lemma LeftClean(v: Volume, inos: seq<Inode>, left: seq<Inode>)
    requires v.Valid() && (forall k | 0 <= k < |inos| :: inos[k].Valid())
    requires forall k | 0 <= k < |left| :: left[k].Valid()
    requires SomeLeft(v, inos, left)
    requires forall i, b | 0 <= i < |left| && b in Counts(v, left[i]) :: !BadOrShared(v, inos, b)
    ensures Clean(v, NoTables(v).busy, CountSeq(v, left))
  {
    var c: seq<word> := CountSeq(v, left);
    LeftCounts(v, inos, left);
    CountSeqBag(v, left);
    forall b | b in c ensures v.InArea(b) && AllCounts(v, inos)[b] <= 1 {
      var i := InSome(v, left, b);
      assert !BadOrShared(v, inos, b);
    }
    hide AllCounts, CountSeq;
    forall b: word ensures multiset(c)[b] <= 1 {
      if b in c { assert multiset(c)[b] <= AllCounts(v, inos)[b]; }
    }
  }

  // ---- a run that clears what is marked ----

  lemma {:induction false} Phase1bKeeps(v: Volume, t: Tables, inos: seq<Inode>)
    requires v.Valid() && t.Valid(v) && forall k | 0 <= k < |inos| :: inos[k].Valid()
    ensures var u := Phase1b(v, t, inos).0;
      u.busy == t.busy && u.used == t.used && multiset(u.dups) == multiset(t.dups)
    decreases |inos|
  {
    if inos != [] {
      var t0 := t.(clear := false);
      ScanOneBPermutes(v, t0, Counts(v, inos[0]));
      var s := Scan(v, OneB, t0, Counts(v, inos[0]));
      if s.1 { Phase1bKeeps(v, s.0, inos[1..]); }
    }
  }

  lemma SameCounts(v: Volume, t: Tables, u: Tables, inos: seq<Inode>)
    requires v.Valid() && (forall k | 0 <= k < |inos| :: inos[k].Valid()) && CountsAll(v, t, inos) && Tallied(v, t)
    requires u.Valid(v) && u.busy == t.busy && u.used == t.used && multiset(u.dups) == multiset(t.dups)
    ensures CountsAll(v, u, inos) && Tallied(v, u)
  {
    hide AllBlocks, BusyBlocks;
    forall b | b in u.dups ensures v.InArea(b) && u.busy[b] {
      assert b in multiset(u.dups);
      assert b in t.dups;
    }
  }

  // The tables when phases 1 and 1b have scanned the inodes.
  ghost function Counted1b(v: Volume, inos: seq<Inode>): (t: Tables)
    requires v.Valid() && forall k | 0 <= k < |inos| :: inos[k].Valid()
    ensures t.Valid(v)
  {
    Phase1b(v, Phase1(v, NoTables(v), inos).t, inos).0
  }

  lemma CountedAll(v: Volume, inos: seq<Inode>)
    requires v.Valid() && (forall k | 0 <= k < |inos| :: inos[k].Valid()) && Phase1(v, NoTables(v), inos).complete
    ensures CountsAll(v, Counted1b(v, inos), Tidied(inos)) && Tallied(v, Counted1b(v, inos))
  {
    var t := Phase1(v, NoTables(v), inos).t;
    Phase1CountsAll(v, inos);
    NoneTallied(v);
    Phase1Tallies(v, NoTables(v), inos);
    Phase1bKeeps(v, t, inos);
    hide Phase1, CountsAll, Tallied, Phase1b;
    SameCounts(v, t, Phase1b(v, t, inos).0, Tidied(inos));
  }

  // What is left when all marked inodes are cleared.
  lemma MarkedCleared(v: Volume, inos: seq<Inode>, t: Tables, which: seq<nat>)
    requires v.Valid() && (forall k | 0 <= k < |inos| :: inos[k].Valid()) && t.Valid(v)
    requires Phase1(v, NoTables(v), inos).complete && forall k | 0 <= k < |which| :: which[k] < |inos|
    requires forall i | 0 <= i < |inos| && Marked(v, inos, i) :: i in which
    ensures Clean(v, NoTables(v).busy, CountSeq(v, ClearAll(v, t, Tidied(inos), which).1))
  {
    hide *;
    TidiedValid(inos);
    var left := ClearAll(v, t, Tidied(inos), which).1;
    ClearedOrLeft(v, t, Tidied(inos), which);
    LeftOnes(v, inos, left, which);
    forall i, b | 0 <= i < |left| && b in Counts(v, left[i]) ensures !BadOrShared(v, inos, b) {
      NoFault(v, inos, left, which, i, b);
    }
    LeftClean(v, inos, left);
  }

  lemma TidiedValid(inos: seq<Inode>)
    requires forall k | 0 <= k < |inos| :: inos[k].Valid()
    ensures |Tidied(inos)| == |inos| && forall k | 0 <= k < |inos| :: Tidied(inos)[k].Valid()
  {
  }

  // The inodes of `which` cleared, and the others as phase 1 leaves them.
  ghost predicate AreLeft(inos: seq<Inode>, left: seq<Inode>, which: seq<nat>) {
    |left| == |inos| && forall i | 0 <= i < |inos| :: left[i] == if i in which then CLEARED else Tidied(inos)[i]
  }

  lemma LeftOnes(v: Volume, inos: seq<Inode>, left: seq<Inode>, which: seq<nat>)
    requires v.Valid() && (forall k | 0 <= k < |inos| :: inos[k].Valid())
    requires forall k | 0 <= k < |left| :: left[k].Valid()
    requires |left| == |inos|
    requires forall i | 0 <= i < |inos| :: left[i] == if i in which then CLEARED else Tidied(inos)[i]
    ensures AreLeft(inos, left, which) && SomeLeft(v, inos, left)
  {
    hide Blocks;
    assert !Allocated(CLEARED.mode);
  }

  lemma NoFault(v: Volume, inos: seq<Inode>, left: seq<Inode>, which: seq<nat>, i: nat, b: word)
    requires v.Valid() && (forall k | 0 <= k < |inos| :: inos[k].Valid())
    requires forall k | 0 <= k < |left| :: left[k].Valid()
    requires AreLeft(inos, left, which) && Phase1(v, NoTables(v), inos).complete
    requires i < |left| && b in Counts(v, left[i]) && (Marked(v, inos, i) ==> i in which)
    ensures !BadOrShared(v, inos, b)
  {
    hide Blocks, Marked, BadOrShared, Phase1;
    assert !Allocated(CLEARED.mode);
    MarkedIff(v, inos, i);
  }

  // While no scan of phase 1 stops early: when phase 4 clears at least the
  // inodes that are marked, those that are left hold no bad and no shared
  // block, the volume with the rebuilt list passes, and the volume that the
  // check leaves is consistent if and only if the list was rebuilt or
  // clearing freed nothing.
  lemma MarkedRun(v: Volume, inos: seq<Inode>, which: seq<nat>)
    requires v.Valid() && (forall k | 0 <= k < |inos| :: inos[k].Valid()) && v.isize + 2 <= v.fsize
    requires Phase1(v, NoTables(v), inos).complete && forall k | 0 <= k < |which| :: which[k] < |inos|
    requires forall i | 0 <= i < |inos| && Marked(v, inos, i) :: i in which
    ensures
      var t := Counted1b(v, inos);
      var (u, left) := ClearAll(v, t, Tidied(inos), which);
      && Clean(v, NoTables(v).busy, CountSeq(v, left)) && Passes(MakeList(v, u.busy), left)
      && ((exists s :: Consistent(Checked(v, u), left, s)) <==> !Accepts(v, u) || u.busy == t.busy)
  {
    hide *;
    TidiedValid(inos);
    var t := Counted1b(v, inos);
    CountedAll(v, inos);
    TidiedIsTidy(v, inos);
    MarkedCleared(v, inos, t, which);
    SalvagePasses(v, t, Tidied(inos), which);
    CheckedIff(v, t, Tidied(inos), which);
  }
}
