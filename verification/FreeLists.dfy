// Building a free list from scratch: the loops of fsutil/create.c lsxfs_create
// and fsutil/check.c make_free_list, and create.c's own allocate_block.
module FreeLists {
  import opened Words
  import opened FreeBlocks
  import opened Inodes

  // The blocks of d are freed one after the other.
  function FreeAll(v: Volume, d: seq<word>): (r: Volume)
    requires v.Valid()
    ensures r.Valid() && r.isize == v.isize && r.fsize == v.fsize
    decreases |d|
  {
    if d == [] then v else FreeAll(Free(v, d[0]).0, d[1..])
  }

  // The eligible blocks lo..n, highest first.
  function Descending(lo: nat, n: int, busy: seq<bool>): (s: seq<word>)
    requires n < |busy| <= 0x10000
    ensures forall b | b in s :: lo <= b <= n && !busy[b]
    decreases n
  {
    if n < lo then [] else (if busy[n] then [] else [n]) + Descending(lo, n - 1, busy)
  }

  // The list is emptied, a 0 is entered as its end, and every block of the
  // data area that is not busy is freed, from the highest down.
  function MakeList(v: Volume, busy: seq<bool>): (r: Volume)
    requires v.Valid() && |busy| == v.fsize
    ensures r.Valid() && r.isize == v.isize && r.fsize == v.fsize
  {
    FreeAll(Free(v.(nfree := 0), 0).0, Descending(v.isize + 2, v.fsize - 1, busy))
  }

  // Popped from the top, the list gives the blocks in ascending order ...
  lemma {:induction false} DescendingOrder(lo: nat, n: int, busy: seq<bool>)
    requires n < |busy| <= 0x10000
    ensures forall i, j | 0 <= i < j < |Descending(lo, n, busy)| ::
      Descending(lo, n, busy)[i] > Descending(lo, n, busy)[j]
    decreases n
  {
    if n >= lo {
      var rest := Descending(lo, n - 1, busy);
      DescendingOrder(lo, n - 1, busy);
      assert forall j | 0 <= j < |rest| :: rest[j] in rest;
    }
  }

  // ... and every eligible block once.
  lemma {:induction false} DescendingExact(lo: nat, n: int, busy: seq<bool>)
    requires n < |busy| <= 0x10000
    ensures forall b: word :: multiset(Descending(lo, n, busy))[b] == if lo <= b <= n && !busy[b] then 1 else 0
    decreases n
  {
    if n >= lo {
      var rest := Descending(lo, n - 1, busy);
      DescendingExact(lo, n - 1, busy);
      if !busy[n] {
        assert Descending(lo, n, busy) == [n] + rest;
        assert multiset([n] + rest) == multiset{n as word} + multiset(rest);
      }
    }
  }

  lemma {:induction false} FreeAllPushes(v: Volume, s: seq<word>, d: seq<word>)
    requires Apart(v, s, d)
    ensures FreeStack(FreeAll(v, d), s + d)
    ensures SameBut(v, FreeAll(v, d), multiset(d))
    decreases |d|
  {
    hide Chain, Free, Apart, SameBut, FreeStack;
    FreeAllNone(v, s);
    if d == [] {
      assert s + d == s;
    } else {
      var n, rest := d[0], d[1..];
      assert d == [n] + rest;
      ApartSplit(v, s, [n], rest);
      InApart(v, s, d, n);
      FreePushes(v, s, n);
      var u := Free(v, n).0;
      ApartAfter(v, s, n, rest, u);
      FreeAllPushes(u, s + [n], rest);
      assert s + [n] + rest == s + d;
      SameButThen(v, u, n, FreeAll(v, d), rest);
    }
  }

  lemma FreeAllNone(v: Volume, s: seq<word>)
    ensures Apart(v, s, []) ==> FreeStack(v, s)
    ensures forall d :: Apart(v, s, d) ==> v.Valid()
    ensures SameBut(v, v, multiset([]))
  {
  }

  lemma ApartAfter(v: Volume, s: seq<word>, n: word, rest: seq<word>, u: Volume)
    requires Apart(v, s, [n] + rest) && FreeStack(u, s + [n]) && SameBut(v, u, multiset{n})
    ensures Apart(u, s + [n], rest)
  {
    assert multiset([n] + rest) == multiset{n} + multiset(rest);
    assert multiset(s + [n]) == multiset(s) + multiset{n};
    assert multiset(s + [n]) + multiset(rest) == multiset(s) + multiset([n] + rest);
    assert forall x | x in rest :: x in [n] + rest;
  }

  lemma SameButThen(v: Volume, u: Volume, n: word, t: Volume, rest: seq<word>)
    requires SameBut(v, u, multiset{n}) && SameBut(u, t, multiset(rest))
    ensures SameBut(v, t, multiset([n] + rest))
  {
    assert multiset([n] + rest) == multiset{n} + multiset(rest);
  }

  lemma EmptyList(v: Volume)
    requires v.Valid() && v.nfree == 0
    ensures FreeStack(Free(v, 0).0, []) && SameBut(v, Free(v, 0).0, multiset{})
  {
  }

  lemma EmptyThenAll(v: Volume, d: seq<word>)
    requires v.Valid() && (forall b | b in d :: v.InArea(b)) && forall b: word :: multiset(d)[b] <= 1
    ensures var r := FreeAll(Free(v.(nfree := 0), 0).0, d);
      FreeStack(r, d) && SameBut(v, r, multiset(d))
  {
    var v1 := Free(v.(nfree := 0), 0).0;
    EmptyList(v.(nfree := 0));
    DescendingApart(v1, d);
    FreeAllPushes(v1, [], d);
    assert [] + d == d;
    SameButBoth(v, v1, FreeAll(v1, d), d);
  }

  // A rebuilt list holds exactly the blocks that are not busy, and writes to
  // no other block.
  lemma MakeListExact(v: Volume, busy: seq<bool>)
    requires v.Valid() && |busy| == v.fsize
    ensures FreeStack(MakeList(v, busy), Descending(v.isize + 2, v.fsize - 1, busy))
    ensures SameBut(v, MakeList(v, busy), multiset(Descending(v.isize + 2, v.fsize - 1, busy)))
  {
    hide *;
    SizeIsWord(v);
    var d := Descending(v.isize + 2, v.fsize - 1, busy);
    DescendingOnce(v, busy, d);
    EmptyThenAll(v, d);
    MakeListIs(v, busy);
  }

  lemma SizeIsWord(v: Volume)
    requires v.Valid()
    ensures v.fsize < 0x10000
  {
  }

  lemma MakeListIs(v: Volume, busy: seq<bool>)
    requires v.Valid() && |busy| == v.fsize
    ensures MakeList(v, busy) == FreeAll(Free(v.(nfree := 0), 0).0, Descending(v.isize + 2, v.fsize - 1, busy))
  {
  }

  lemma DescendingOnce(v: Volume, busy: seq<bool>, d: seq<word>)
    requires v.Valid() && |busy| == v.fsize && d == Descending(v.isize + 2, v.fsize - 1, busy)
    ensures (forall b | b in d :: v.InArea(b)) && forall b: word :: multiset(d)[b] <= 1
  {
    DescendingExact(v.isize + 2, v.fsize - 1, busy);
  }

  lemma DescendingApart(v: Volume, d: seq<word>)
    requires FreeStack(v, []) && (forall b | b in d :: v.InArea(b)) && forall b: word :: multiset(d)[b] <= 1
    ensures Apart(v, [], d)
  {
    assert multiset([]) + multiset(d) == multiset(d);
  }

  lemma SameButBoth(v: Volume, u: Volume, t: Volume, d: seq<word>)
    requires SameBut(v, u, multiset{}) && SameBut(u, t, multiset(d))
    ensures SameBut(v, t, multiset(d))
  {
  }

  // create.c allocate_block, which does not test for an empty list first.
  function AllocateBlock(v: Volume): (r: (Volume, word))
    requires v.Valid() && 1 <= v.nfree <= SLOTS
    ensures r.0.Valid()
  {
    var n := v.nfree - 1;
    var b := v.free[n];
    var v1 := v.(nfree := n, free := v.free[n := 0]);
    if b == 0 then (v1, 0)
    else if n == 0 then
      if !v.InArea(b) then (v1, 0)
      else (v1.(nfree := WordAt(v.disk[b], 0), free := SlotsOf(v.disk[b])), b)
    else (v1, b)
  }

  // On a well-formed list it is lsxfs_block_alloc.
  lemma AllocateBlockSame(v: Volume, s: seq<word>)
    requires FreeStack(v, s)
    ensures AllocateBlock(v) == Alloc(v)
  {
    if s != [] {
      TopOfChain(v, s);
    }
  }
}
