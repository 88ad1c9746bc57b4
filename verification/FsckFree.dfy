// fsutil/check.c, phase 5: the scan of the free list.
module FsckFree {
  import opened Words
  import opened FreeBlocks
  import opened FsckBlocks

  // free_map, bad_blocks, dup_blocks, free_list_corrupted, free_blocks
  datatype FreeScan = FreeScan(seen: seq<bool>, bad: nat, dup: nat, corrupted: bool, count: nat)

  function CountFalse(m: seq<bool>): nat {
    if m == [] then 0 else (if m[0] then 0 else 1) + CountFalse(m[1..])
  }

  lemma {:induction false} MarkOne(m: seq<bool>, i: nat)
    requires i < |m| && !m[i]
    ensures CountFalse(m[i := true]) == CountFalse(m) - 1
  {
    if i > 0 {
      assert m[i := true][1..] == m[1..][i - 1 := true];
      MarkOne(m[1..], i - 1);
    }
  }

  // What bounds the scan of a cyclic list: blocks not yet seen, and the
  // duplicates that pass5 puts up with.
  function Left(f: FreeScan): nat {
    CountFalse(f.seen) + if f.dup < 100 then 100 - f.dup else 0
  }

  function Pass5(v: Volume, f: FreeScan, blk: word): (r: (FreeScan, Ret))
    requires |f.seen| == v.fsize
    ensures |r.0.seen| == v.fsize && Left(r.0) <= Left(f)
    ensures r.1 == KeepOn ==> Left(r.0) < Left(f) && v.InArea(blk)
    ensures f.corrupted ==> r.0.corrupted
  {
    if !v.InArea(blk) then
      (f.(corrupted := true, bad := f.bad + 1), if f.bad + 1 >= MAXBAD then Stop else Skip)
    else if f.seen[blk] then
      (f.(corrupted := true, dup := f.dup + 1), if f.dup + 1 >= DUP_LIST_SIZE then Stop else KeepOn)
    else
      MarkOne(f.seen, blk);
      (f.(seen := f.seen[blk := true], count := f.count + 1), KeepOn)
  }

  // The inner loop: slots k, k-1, .., 1; true as second result when it stopped.
  function ScanSlots(v: Volume, f: FreeScan, slots: seq<word>, k: nat): (r: (FreeScan, bool))
    requires |f.seen| == v.fsize && k < |slots|
    ensures |r.0.seen| == v.fsize && Left(r.0) <= Left(f)
    ensures f.corrupted ==> r.0.corrupted
    decreases k
  {
    if k == 0 then (f, false)
    else
      var (f1, ret) := Pass5(v, f, slots[k]);
      if ret == Stop then (f1, true) else ScanSlots(v, f1, slots, k - 1)
  }

  // The outer loop.  It ends on every disk, also when the chain is cyclic.
  function CheckChain(v: Volume, f: FreeScan, n: nat, slots: seq<word>): (r: FreeScan)
    requires v.Valid() && |f.seen| == v.fsize && |slots| == SLOTS
    ensures |r.seen| == v.fsize
    ensures f.corrupted ==> r.corrupted
    decreases Left(f)
  {
    if n == 0 || n > SLOTS then f.(corrupted := true)
    else
      var (f1, stopped) := ScanSlots(v, f, slots, n - 1);
      if stopped then f1
      else if slots[0] == 0 then f1
      else
        var (f2, ret) := Pass5(v, f1, slots[0]);
        if ret != KeepOn then f2
        else CheckChain(v, f2, WordAt(v.disk[slots[0]], 0), SlotsOf(v.disk[slots[0]]))
  }

  // check_free_list, with free_map a copy of the busy map
  function CheckFreeList(v: Volume, busy: seq<bool>): FreeScan
    requires v.Valid() && |busy| == v.fsize
  {
    var f := FreeScan(busy, 0, 0, false, 0);
    if v.nfree == 0 then f else CheckChain(v, f, v.nfree, v.free)
  }

  // ---- what an uncorrupted scan means ----

  // The blocks of s are in the data area, unmarked in m, and distinct.
  ghost predicate Clean(v: Volume, m: seq<bool>, s: seq<word>)
    requires |m| == v.fsize
  {
    (forall b | b in s :: v.InArea(b) && !m[b]) && Once(multiset(s))
  }

  function Mark(m: seq<bool>, s: seq<word>): (r: seq<bool>)
    ensures |r| == |m|
    ensures forall b: word | b < |m| :: r[b] <==> m[b] || b in s
    decreases |s|
  {
    if s == [] then m
    else
      var n := |s| - 1;
      assert s == s[..n] + [s[n]];
      Mark(if s[n] < |m| then m[s[n] := true] else m, s[..n])
  }

  lemma {:induction false} MarkConcat(m: seq<bool>, a: seq<word>, b: seq<word>)
    ensures Mark(m, a + b) == Mark(Mark(m, b), a)
    decreases |b|
  {
    if b == [] {
      assert a + b == a;
    } else {
      var n := |b| - 1;
      assert a + b == a + b[..n] + [b[n]];
      assert (a + b)[..|a| + n] == a + b[..n];
      MarkConcat(if b[n] < |m| then m[b[n] := true] else m, a, b[..n]);
    }
  }

  lemma CleanConcat(v: Volume, m: seq<bool>, a: seq<word>, b: seq<word>)
    requires |m| == v.fsize
    ensures Clean(v, m, a + b) <==> Clean(v, m, b) && Clean(v, Mark(m, b), a)
  {
    assert multiset(a + b) == multiset(a) + multiset(b);
    if Clean(v, m, a + b) {
      forall x | x in b ensures v.InArea(x) && !m[x] { assert x in a + b; }
      forall x: word ensures multiset(b)[x] <= 1 && multiset(a)[x] <= 1 { assert multiset(a + b)[x] <= 1; }
      forall x | x in a ensures v.InArea(x) && !Mark(m, b)[x] {
        assert x in a + b;
        assert multiset(a + b)[x] <= 1 && multiset(a)[x] > 0;
        assert multiset(b)[x] == 0;
      }
    }
    if Clean(v, m, b) && Clean(v, Mark(m, b), a) {
      forall x | x in a + b ensures v.InArea(x) && !m[x] {
        if x in b { } else { assert x in a; }
      }
      forall x: word ensures multiset(a + b)[x] <= 1 {
        if x in b {
          assert Mark(m, b)[x];
          assert multiset(a)[x] == 0;
        }
        assert multiset(a)[x] <= 1 && multiset(b)[x] <= 1;
      }
    }
  }

  lemma CleanOne(v: Volume, m: seq<bool>, b: word)
    requires |m| == v.fsize
    ensures Clean(v, m, [b]) <==> v.InArea(b) && !m[b]
  {
    if Clean(v, m, [b]) { assert b in [b]; }
  }

  lemma CleanLast(v: Volume, m: seq<bool>, a: seq<word>, b: word)
    requires |m| == v.fsize && v.Valid()
    ensures !v.InArea(b) || m[b] ==> !Clean(v, m, a + [b])
    ensures v.InArea(b) && !m[b] ==>
      && (Clean(v, m, a + [b]) <==> Clean(v, m[b := true], a))
      && Mark(m, a + [b]) == Mark(m[b := true], a)
  {
    CleanConcat(v, m, a, [b]);
    CleanOne(v, m, b);
    MarkConcat(m, a, [b]);
    if v.InArea(b) && !m[b] {
      assert Mark(m, [b]) == m[b := true];
    }
  }

  lemma ScanSlotsTurn(v: Volume, f: FreeScan, slots: seq<word>, k: nat)
    requires v.Valid() && |f.seen| == v.fsize && k < |slots| && !f.corrupted
    ensures ScanSlots(v, f, slots, 0) == (f, false) && Clean(v, f.seen, []) && Mark(f.seen, []) == f.seen
    ensures k > 0 && (!v.InArea(slots[k]) || f.seen[slots[k]]) ==> ScanSlots(v, f, slots, k).0.corrupted
    ensures k > 0 && v.InArea(slots[k]) && !f.seen[slots[k]] ==>
      ScanSlots(v, f, slots, k) ==
        ScanSlots(v, f.(seen := f.seen[slots[k] := true], count := f.count + 1), slots, k - 1)
  {
  }

  // What the scan of the slots in `part` does to f.
  ghost predicate Scanned(v: Volume, f: FreeScan, part: seq<word>, r: (FreeScan, bool))
    requires |f.seen| == v.fsize
  {
    if Clean(v, f.seen, part) then r == (f.(seen := Mark(f.seen, part), count := f.count + |part|), false)
    else r.0.corrupted
  }

  // The scan of the slots 1..k of one piece of the chain.
  lemma {:induction false} ScanSlotsIff(v: Volume, f: FreeScan, slots: seq<word>, k: nat)
    requires v.Valid() && |f.seen| == v.fsize && k < |slots| && !f.corrupted
    ensures Scanned(v, f, slots[1..k + 1], ScanSlots(v, f, slots, k))
    decreases k
  {
    ScanSlotsTurn(v, f, slots, k);
    if k == 0 {
      assert slots[1..1] == [];
    } else {
      var a, b := slots[1..k], slots[k];
      assert slots[1..k + 1] == a + [b];
      CleanLast(v, f.seen, a, b);
      if v.InArea(b) && !f.seen[b] {
        var f1 := f.(seen := f.seen[b := true], count := f.count + 1);
        ScanSlotsIff(v, f1, slots, k - 1);
        ScannedMore(v, f, f1, a, b, ScanSlots(v, f, slots, k));
      }
    }
  }

  lemma ScannedMore(v: Volume, f: FreeScan, f1: FreeScan, a: seq<word>, b: word, r: (FreeScan, bool))
    requires v.Valid() && |f.seen| == v.fsize && v.InArea(b) && !f.seen[b]
    requires f1 == f.(seen := f.seen[b := true], count := f.count + 1) && Scanned(v, f1, a, r)
    ensures Scanned(v, f, a + [b], r)
  {
    CleanLast(v, f.seen, a, b);
  }

  // One piece of the chain, slots n-1 down to 0, in front of `rest`.
  lemma CleanPiece(v: Volume, m: seq<bool>, rest: seq<word>, b: word, top: seq<word>)
    requires |m| == v.fsize && v.Valid()
    ensures Clean(v, m, rest + ([b] + top)) <==>
      && Clean(v, m, top) && v.InArea(b) && !Mark(m, top)[b]
      && Clean(v, Mark(m, top)[b := true], rest)
    ensures v.InArea(b) && !Mark(m, top)[b] ==>
      Mark(m, rest + ([b] + top)) == Mark(Mark(m, top)[b := true], rest)
  {
    assert rest + ([b] + top) == (rest + [b]) + top;
    CleanConcat(v, m, rest + [b], top);
    MarkConcat(m, rest + [b], top);
    CleanLast(v, Mark(m, top), rest, b);
  }

  // If the scan leaves the flag clear, the chain is well formed and stands for
  // a stack of distinct blocks that were not marked before; the scan marks
  // and counts exactly those.
  lemma {:induction false} CheckChainSound(v: Volume, f: FreeScan, n: nat, slots: seq<word>) returns (s: seq<word>)
    requires v.Valid() && |f.seen| == v.fsize && |slots| == SLOTS && !f.corrupted
    requires !CheckChain(v, f, n, slots).corrupted
    ensures Chain(v, n, slots, s) && Clean(v, f.seen, s)
    ensures CheckChain(v, f, n, slots).seen == Mark(f.seen, s)
    ensures CheckChain(v, f, n, slots).count == f.count + |s|
    decreases Left(f)
  {
    hide Clean, Mark, SlotsOf;
    ScanSlotsIff(v, f, slots, n - 1);
    var b, top := slots[0], slots[1..n];
    if b == 0 {
      s := top;
    } else {
      var f2 := Pass5(v, ScanSlots(v, f, slots, n - 1).0, b).0;
      var rest := CheckChainSound(v, f2, WordAt(v.disk[b], 0), SlotsOf(v.disk[b]));
      s := rest + slots[..n];
      ChainPiece(rest, slots, n);
      CleanPiece(v, f.seen, rest, b, top);
    }
  }

  lemma ChainPiece(rest: seq<word>, slots: seq<word>, n: nat)
    requires 1 <= n <= |slots|
    ensures var s := rest + slots[..n];
      s[|s| - n..] == slots[..n] && s[..|s| - n] == rest
    ensures slots[..n] == [slots[0]] + slots[1..n]
  {
  }

  // Every well-formed chain of distinct unmarked blocks passes, with its count.
  lemma {:induction false} CheckChainComplete(v: Volume, f: FreeScan, n: nat, slots: seq<word>, s: seq<word>)
    requires v.Valid() && |f.seen| == v.fsize && |slots| == SLOTS && !f.corrupted
    requires Chain(v, n, slots, s) && Clean(v, f.seen, s)
    ensures !CheckChain(v, f, n, slots).corrupted
    ensures CheckChain(v, f, n, slots).count == f.count + |s|
    decreases |s|
  {
    hide Clean, Mark, SlotsOf, Left, CountFalse, ScanSlots;
    ScanSlotsIff(v, f, slots, n - 1);
    if slots[0] != 0 {
      var b, top, rest := slots[0], slots[1..n], s[..|s| - n];
      assert s == rest + slots[..n];
      ChainPiece(rest, slots, n);
      CleanPiece(v, f.seen, rest, b, top);
      var f2 := Pass5(v, ScanSlots(v, f, slots, n - 1).0, b).0;
      CheckChainComplete(v, f2, WordAt(v.disk[b], 0), SlotsOf(v.disk[b]), rest);
    }
  }
}
