// fsutil/block.c: the free list of a V6 volume.
//
// The superblock holds up to 100 free block numbers.  When block_free finds
// the 100 slots full it copies them, with their count, into the block being
// freed and starts a new list with that block in slot 0; block_alloc reloads
// them when slot 0 is popped.  A 0 in slot 0 is the end of the chain.
module FreeBlocks {
  import opened Words

  const SLOTS := 100

  // The part of lsxfs_t that block.c and inode.c work on.  `junk` is what the
  // uninitialised C buffer of block_free holds: words 101..255 of a spilled
  // block are copied from it.
  datatype Volume = Volume(
    isize: nat, fsize: nat,
    nfree: nat, free: seq<word>,
    disk: seq<Block>, junk: Block)
  {
    predicate Valid() {
      |free| == SLOTS && |disk| == fsize <= 0xFFFF && nfree <= 0xFFFF
    }

    // What lsxfs_read_block and lsxfs_write_block accept.
    predicate InArea(b: nat) {
      isize + 2 <= b < fsize
    }

    // Every block of the data area, once.
    ghost function Area(): multiset<word> {
      multiset(set b: word {:trigger InArea(b)} | InArea(b))
    }
  }

  // lsxfs_write_block on a block of the data area
  function Write(v: Volume, b: nat, block: Block): (r: Volume)
    requires v.Valid() && v.InArea(b)
    ensures r.Valid()
  {
    v.(disk := v.disk[b := block])
  }

  function SpillBlock(v: Volume): Block
    requires v.Valid()
  {
    SetWords(v.junk, 0, [v.nfree as word] + v.free)
  }

  function SlotsOf(b: Block): (s: seq<word>)
    ensures |s| == SLOTS
  {
    WordsOf(b)[1..101]
  }

  // lsxfs_block_free
  function Free(v: Volume, b: word): (r: (Volume, bool))
    requires v.Valid()
    ensures r.0.Valid() && r.0.isize == v.isize && r.0.fsize == v.fsize
  {
    if v.nfree >= SLOTS then
      if !v.InArea(b) then (v, false)
      else (v.(disk := v.disk[b := SpillBlock(v)], nfree := 1, free := v.free[0 := b]), true)
    else
      (v.(free := v.free[v.nfree := b], nfree := v.nfree + 1), true)
  }

  // lsxfs_block_alloc; block 0 stands for the failure return.  A count above
  // 100, which makes the C code read past its array, is taken as a failure.
  function Alloc(v: Volume): (r: (Volume, word))
    requires v.Valid()
    ensures r.0.Valid() && r.0.disk == v.disk && r.0.isize == v.isize && r.0.fsize == v.fsize
    decreases v.nfree
  {
    if v.nfree == 0 || v.nfree > SLOTS then (v, 0)
    else
      var n := v.nfree - 1;
      var b := v.free[n];
      var v1 := v.(nfree := n, free := v.free[n := 0]);
      if n == 0 then
        if !v.InArea(b) then (v1, 0)
        else (v1.(nfree := WordAt(v.disk[b], 0), free := SlotsOf(v.disk[b])), b)
      else if b == 0 then Alloc(v1)
      else (v1, b)
  }

  // The chain with count n and slots f stands for the stack s, top last.
  ghost predicate Chain(v: Volume, n: nat, f: seq<word>, s: seq<word>)
    requires v.Valid()
    decreases |s|
  {
    && 1 <= n <= SLOTS && |f| == SLOTS
    && if f[0] == 0 then s == f[1..n]
       else
         && |s| >= n && s[|s| - n..] == f[..n] && v.InArea(f[0])
         && Chain(v, WordAt(v.disk[f[0]], 0), SlotsOf(v.disk[f[0]]), s[..|s| - n])
  }

  // The abstract free list: every free block once, in the data area.
  ghost predicate FreeStack(v: Volume, s: seq<word>) {
    && v.Valid()
    && Chain(v, v.nfree, v.free, s)
    && (forall b | b in s :: v.InArea(b))
    && Once(multiset(s))
  }

  // v and w are the same volume except for the contents of blocks in `at`
  // and the in-core list.
  ghost predicate SameBut(v: Volume, w: Volume, at: multiset<word>) {
    && w.isize == v.isize && w.fsize == v.fsize && w.junk == v.junk
    && |w.disk| == |v.disk|
    && forall b: word | b < |v.disk| && b !in at :: w.disk[b] == v.disk[b]
  }

  lemma {:induction false} ChainFrame(v: Volume, w: Volume, n: nat, f: seq<word>, s: seq<word>, at: multiset<word>)
    requires v.Valid() && w.Valid() && Chain(v, n, f, s)
    requires SameBut(v, w, at) && forall b | b in s :: b !in at
    ensures Chain(w, n, f, s)
    decreases |s|
  {
    if f[0] != 0 {
      assert s[|s| - n..][0] in s;
      ChainFrame(v, w, WordAt(v.disk[f[0]], 0), SlotsOf(v.disk[f[0]]), s[..|s| - n], at);
    }
  }

  // Writing to a block that is in use leaves the list alone.
  lemma WriteKeepsStack(v: Volume, s: seq<word>, b: word, block: Block)
    requires FreeStack(v, s) && v.InArea(b) && b !in s
    ensures FreeStack(Write(v, b, block), s)
  {
    ChainFrame(v, Write(v, b, block), v.nfree, v.free, s, multiset{b});
  }

  lemma PushSpilled(v: Volume, s: seq<word>, b: word)
    requires FreeStack(v, s) && v.InArea(b) && b !in s && v.nfree >= SLOTS
    ensures Chain(Free(v, b).0, 1, Free(v, b).0.free, s + [b])
  {
    var v' := Free(v, b).0;
    assert SlotsOf(v'.disk[b]) == v.free;
    ChainFrame(v, v', v.nfree, v.free, s, multiset{b});
    assert (s + [b])[..|s|] == s;
    assert (s + [b])[|s|..] == v'.free[..1];
  }

  lemma PushInCore(v: Volume, s: seq<word>, b: word)
    requires FreeStack(v, s) && v.InArea(b) && v.nfree < SLOTS
    ensures var w := Free(v, b).0; Chain(w, w.nfree, w.free, s + [b])
  {
    var v' := Free(v, b).0;
    var n := v.nfree;
    if v.free[0] == 0 {
      assert v'.free[1..n + 1] == v.free[1..n] + [b];
    } else {
      assert (s + [b])[|s| - n..] == s[|s| - n..] + [b] == v'.free[..n + 1];
      assert (s + [b])[..|s| - n] == s[..|s| - n];
      ChainFrame(v, v', WordAt(v.disk[v.free[0]], 0), SlotsOf(v.disk[v.free[0]]), s[..|s| - n], multiset{});
    }
  }

  // Freeing pushes on the abstract stack, across the spill.
  lemma FreePushes(v: Volume, s: seq<word>, b: word)
    requires FreeStack(v, s) && v.InArea(b) && b !in s
    ensures Free(v, b).1
    ensures FreeStack(Free(v, b).0, s + [b])
    ensures SameBut(v, Free(v, b).0, multiset{b})
  {
    if v.nfree >= SLOTS {
      PushSpilled(v, s, b);
    } else {
      PushInCore(v, s, b);
    }
  }

  // What alloc does when there is something to pop.
  lemma TopOfChain(v: Volume, s: seq<word>)
    requires FreeStack(v, s) && s != []
    ensures v.free[v.nfree - 1] == s[|s| - 1] != 0
    ensures v.nfree == 1 ==> v.InArea(v.free[0]) && v.free[0] != 0
    ensures Alloc(v) ==
      if v.nfree == 1 then
        (v.(nfree := WordAt(v.disk[v.free[0]], 0), free := SlotsOf(v.disk[v.free[0]])), s[|s| - 1])
      else
        (v.(nfree := v.nfree - 1, free := v.free[v.nfree - 1 := 0]), s[|s| - 1])
  {
    var n := v.nfree;
    assert s[|s| - 1] in s;
    if v.free[0] == 0 {
      assert v.free[1..n][n - 2] == v.free[n - 1];
    } else {
      assert s[|s| - n..][n - 1] == s[|s| - 1];
    }
  }

  lemma Slots(f: seq<word>, n: nat)
    requires 1 < n <= |f|
    ensures f[n - 1 := 0][1..n - 1] == f[1..n][..n - 2] && f[n - 1 := 0][..n - 1] == f[..n - 1]
  {
  }

  lemma PopInCore(v: Volume, s: seq<word>)
    requires FreeStack(v, s) && s != [] && v.nfree > 1
    ensures Chain(v, v.nfree - 1, v.free[v.nfree - 1 := 0], s[..|s| - 1])
  {
    var n := v.nfree;
    var f := v.free[n - 1 := 0];
    var t := s[..|s| - 1];
    if v.free[0] == 0 {
      assert t == v.free[1..n][..n - 2];
      Slots(v.free, n);
    } else {
      assert t[|t| - (n - 1)..] == s[|s| - n..][..n - 1] == f[..n - 1];
      assert t[..|t| - (n - 1)] == s[..|s| - n];
    }
  }

  // Allocation pops the top of the abstract stack; it fails exactly when the
  // stack is empty.
  lemma AllocPops(v: Volume, s: seq<word>)
    requires FreeStack(v, s)
    ensures s == [] ==> Alloc(v).1 == 0
    ensures s != [] ==>
      && Alloc(v).1 == s[|s| - 1] != 0
      && FreeStack(Alloc(v).0, s[..|s| - 1])
      && SameBut(v, Alloc(v).0, multiset{})
  {
    if s != [] {
      TopOfChain(v, s);
      var t := s[..|s| - 1];
      var v' := Alloc(v).0;
      assert Chain(v, v'.nfree, v'.free, t) by {
        if v.nfree > 1 { PopInCore(v, s); }
      }
      ChainFrame(v, v', v'.nfree, v'.free, t, multiset{});
      PrefixOnce(s, |s| - 1);
    }
  }

  lemma PrefixOnce(s: seq<word>, k: nat)
    requires k <= |s| && Once(multiset(s))
    ensures Once(multiset(s[..k])) && (forall b | b in s[..k] :: b in s)
    ensures forall b | b in s[k..] :: b !in s[..k] && b in s
  {
    assert s == s[..k] + s[k..];
    assert multiset(s) == multiset(s[..k]) + multiset(s[k..]);
    forall x: word ensures multiset(s[..k])[x] <= 1 {
      assert multiset(s)[x] <= 1;
    }
    forall b | b in s[k..] ensures b !in s[..k] {
      assert multiset(s)[b] <= 1 && b in multiset(s[k..]);
      assert multiset(s[k..])[b] >= 1;
      assert multiset(s[..k])[b] == 0;
    }
  }

  // block_alloc after block_free returns that block and the same free list.
  lemma AllocAfterFree(v: Volume, s: seq<word>, b: word)
    requires FreeStack(v, s) && v.InArea(b) && b !in s
    ensures var v1 := Free(v, b).0;
      Alloc(v1).1 == b && FreeStack(Alloc(v1).0, s)
  {
    FreePushes(v, s, b);
    AllocPops(Free(v, b).0, s + [b]);
    assert (s + [b])[..|s|] == s;
  }

  // A volume has at most one abstract free list.
  lemma {:induction false} ChainUnique(v: Volume, n: nat, f: seq<word>, s: seq<word>, t: seq<word>)
    requires v.Valid() && Chain(v, n, f, s) && Chain(v, n, f, t)
    ensures s == t
    decreases |s|
  {
    if f[0] != 0 {
      ChainUnique(v, WordAt(v.disk[f[0]], 0), SlotsOf(v.disk[f[0]]), s[..|s| - n], t[..|t| - n]);
      assert s == s[..|s| - n] + s[|s| - n..];
      assert t == t[..|t| - n] + t[|t| - n..];
    }
  }
}
