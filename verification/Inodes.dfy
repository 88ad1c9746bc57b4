// fsutil/inode.c: which blocks an inode refers to, mapping a logical block to
// a physical one, allocating while mapping, and truncation.
module Inodes {
  import opened Words
  import opened FreeBlocks

  // The fields of lsxfs_inode_t that decide where a file's bytes are.
  datatype Inode = Inode(mode: bv16, size: nat, addr: seq<word>)
  {
    predicate Valid() { |addr| == 8 }
  }

  // INODE_MODE_LARG, INODE_MODE_FMT, INODE_MODE_FCHR, INODE_MODE_FBLK
  const LARG: bv16 := 0x1000
  const FMT: bv16 := 0x6000
  const FCHR: bv16 := 0x2000
  const FBLK: bv16 := 0x6000

  predicate Large(mode: bv16) { mode & LARG != 0 }
  predicate Special(mode: bv16) { mode & FMT == FCHR || mode & FMT == FBLK }

  function SetLarge(mode: bv16): (r: bv16)
    ensures Large(r) && Special(r) == Special(mode)
  {
    mode | LARG
  }

  function ClearLarge(mode: bv16): (r: bv16)
    ensures !Large(r) && Special(r) == Special(mode)
  {
    mode & !LARG
  }

  // The blocks reached from block number w at indirection depth d, in the
  // order in which fsck's scan visits them: the block, then its entries.
  ghost function Own(v: Volume, w: word, d: nat): seq<word>
    requires v.Valid()
    decreases d, 257, 1
  {
    if w == 0 then []
    else if d == 0 || !v.InArea(w) then [w]
    else [w] + OwnAll(v, WordsOf(v.disk[w]), d - 1)
  }

  ghost function OwnAll(v: Volume, ws: seq<word>, d: nat): seq<word>
    requires v.Valid()
    decreases d, 257, 2, |ws|
  {
    if ws == [] then [] else Own(v, ws[0], d) + OwnAll(v, ws[1..], d)
  }

  // Every block an inode refers to.
  ghost function Blocks(v: Volume, ino: Inode): seq<word>
    requires v.Valid() && ino.Valid()
  {
    if Special(ino.mode) then []
    else if !Large(ino.mode) then OwnAll(v, ino.addr, 0)
    else OwnAll(v, ino.addr[..7], 1) + Own(v, ino.addr[7], 2)
  }

  // ---- truncation ----

  // lsxfs_block_free (d = 0), lsxfs_indirect_block_free (d = 1) and
  // lsxfs_double_indirect_block_free (d = 2) on a nonzero block number.
  function FreeTree(v: Volume, w: word, d: nat): (r: Volume)
    requires v.Valid()
    ensures r.Valid()
    decreases d, 257, 1
  {
    if w == 0 then v
    else if d == 0 then Free(v, w).0
    else if !v.InArea(w) then v
    else Free(FreeTrees(v, WordsOf(v.disk[w]), d - 1), w).0
  }

  // The descending loop over an address list.
  function FreeTrees(v: Volume, ws: seq<word>, d: nat): (r: Volume)
    requires v.Valid()
    ensures r.Valid()
    decreases d, 257, 2, |ws|
  {
    if ws == [] then v else FreeTree(FreeTrees(v, ws[1..], d), ws[0], d)
  }

  // lsxfs_inode_truncate
  function Truncate(v: Volume, ino: Inode): (r: (Volume, Inode))
    requires v.Valid() && ino.Valid()
    ensures r.0.Valid() && r.1.Valid()
  {
    if Special(ino.mode) then (v, ino)
    else
      var v' :=
        if !Large(ino.mode) then FreeTrees(v, ino.addr, 0)
        else FreeTrees(FreeTree(v, ino.addr[7], 2), ino.addr[..7], 1);
      (v', Inode(ClearLarge(ino.mode), 0, seq(8, _ => 0)))
  }

  lemma {:induction false} OwnFrame(v: Volume, u: Volume, w: word, d: nat, at: multiset<word>)
    requires v.Valid() && u.Valid() && SameBut(v, u, at)
    requires forall b | b in Own(v, w, d) :: b !in at
    ensures Own(u, w, d) == Own(v, w, d)
    decreases d, 257, 1
  {
    if w != 0 && d > 0 && v.InArea(w) {
      assert w in Own(v, w, d);
      assert u.disk[w] == v.disk[w];
      OwnAllFrame(v, u, WordsOf(v.disk[w]), d - 1, at);
    }
  }

  lemma {:induction false} OwnAllFrame(v: Volume, u: Volume, ws: seq<word>, d: nat, at: multiset<word>)
    requires v.Valid() && u.Valid() && SameBut(v, u, at)
    requires forall b | b in OwnAll(v, ws, d) :: b !in at
    ensures OwnAll(u, ws, d) == OwnAll(v, ws, d)
    decreases d, 257, 2, |ws|
  {
    if ws != [] {
      OwnFrame(v, u, ws[0], d, at);
      OwnAllFrame(v, u, ws[1..], d, at);
    }
  }

  lemma BlocksFrame(v: Volume, u: Volume, ino: Inode, at: multiset<word>)
    requires v.Valid() && u.Valid() && ino.Valid() && SameBut(v, u, at)
    requires forall b | b in Blocks(v, ino) :: b !in at
    ensures Blocks(u, ino) == Blocks(v, ino)
  {
    if Special(ino.mode) {
    } else if !Large(ino.mode) {
      OwnAllFrame(v, u, ino.addr, 0, at);
    } else {
      OwnAllFrame(v, u, ino.addr[..7], 1, at);
      OwnFrame(v, u, ino.addr[7], 2, at);
    }
  }

  // The stack s of free blocks and the blocks bs are disjoint, in the data
  // area, and none occurs twice.
  ghost predicate Apart(v: Volume, s: seq<word>, bs: seq<word>) {
    && FreeStack(v, s)
    && (forall b | b in bs :: v.InArea(b))
    && Once(multiset(s) + multiset(bs))
  }

  lemma ApartSplit(v: Volume, s: seq<word>, a: seq<word>, b: seq<word>)
    requires Apart(v, s, a + b)
    ensures Apart(v, s, a) && Apart(v, s, b)
    ensures forall x | x in a :: x !in b && x !in s
    ensures forall x | x in b :: x !in a && x !in s
  {
    var m := multiset(s) + multiset(a + b);
    assert multiset(a + b) == multiset(a) + multiset(b);
    assert forall x :: m[x] == multiset(s)[x] + multiset(a)[x] + multiset(b)[x];
    forall x: word ensures multiset(s)[x] + multiset(a)[x] + multiset(b)[x] <= 1 {
      assert m[x] <= 1;
    }
    forall x: word
      ensures (x in a <==> multiset(a)[x] > 0) && (x in b <==> multiset(b)[x] > 0) && (x in s <==> multiset(s)[x] > 0)
    {
    }
    assert forall x | x in a :: x in a + b;
    assert forall x | x in b :: x in a + b;
  }

  // From v, whose free stack is s, the blocks bs were freed, last one first.
  ghost predicate Pushed(v: Volume, s: seq<word>, bs: seq<word>, u: Volume) {
    && v.Valid()
    && FreeStack(u, s + Reverse(bs))
    && SameBut(v, u, multiset(bs))
  }

  lemma PushedNothing(v: Volume, s: seq<word>)
    requires FreeStack(v, s)
    ensures Pushed(v, s, [], v)
  {
    assert s + Reverse([]) == s;
  }

  lemma PushedOne(v: Volume, s: seq<word>, w: word)
    requires FreeStack(v, s) && v.InArea(w) && w !in s
    ensures Pushed(v, s, [w], Free(v, w).0)
  {
    FreePushes(v, s, w);
    assert Reverse([w]) == [w];
  }

  lemma PushedTwice(v: Volume, s: seq<word>, b: seq<word>, u: Volume, a: seq<word>, t: Volume)
    requires Pushed(v, s, b, u) && Pushed(u, s + Reverse(b), a, t)
    ensures Pushed(v, s, a + b, t)
  {
    PushedStack(s, a, b);
    SameButTwice(v, u, t, a, b);
  }

  lemma PushedStack(s: seq<word>, a: seq<word>, b: seq<word>)
    ensures s + Reverse(a + b) == s + Reverse(b) + Reverse(a)
  {
    ReverseConcat(a, b);
  }

  lemma SameButTwice(v: Volume, u: Volume, t: Volume, a: seq<word>, b: seq<word>)
    requires SameBut(v, u, multiset(b)) && SameBut(u, t, multiset(a))
    ensures SameBut(v, t, multiset(a + b))
  {
    assert multiset(a + b) == multiset(a) + multiset(b);
  }

  // After pushing b, what was apart from b and s is apart from the new stack.
  lemma ApartPushed(v: Volume, s: seq<word>, a: seq<word>, b: seq<word>, u: Volume)
    requires Apart(v, s, a + b) && Pushed(v, s, b, u)
    ensures Apart(u, s + Reverse(b), a)
  {
    var m := multiset(s) + multiset(a + b);
    assert multiset(a + b) == multiset(a) + multiset(b);
    assert multiset(s + Reverse(b)) == multiset(s) + multiset(b);
    assert multiset(s + Reverse(b)) + multiset(a) == m;
    assert forall x | x in a :: x in a + b;
  }

  lemma {:induction false} FreeTreePushes(v: Volume, s: seq<word>, w: word, d: nat)
    requires v.Valid() && Apart(v, s, Own(v, w, d))
    ensures Pushed(v, s, Own(v, w, d), FreeTree(v, w, d))
    decreases d, 257, 1
  {
    if w == 0 {
      PushedNothing(v, s);
    } else if d == 0 {
      InApart(v, s, [w], w);
      PushedOne(v, s, w);
    } else {
      InApart(v, s, Own(v, w, d), w);
      var ws := WordsOf(v.disk[w]);
      FreeBlockAndEntries(v, s, w, ws, OwnAll(v, ws, d - 1), d - 1);
    }
  }

  lemma InApart(v: Volume, s: seq<word>, bs: seq<word>, w: word)
    requires Apart(v, s, bs) && bs != [] && bs[0] == w
    ensures v.InArea(w) && w !in s
  {
    assert w in bs;
    assert bs == [w] + bs[1..];
    ApartSplit(v, s, [w], bs[1..]);
    assert w in [w];
  }

  lemma {:induction false} FreeBlockAndEntries(v: Volume, s: seq<word>, w: word, ws: seq<word>, rest: seq<word>, d: nat)
    requires v.Valid() && |ws| <= 256 && rest == OwnAll(v, ws, d)
    requires Apart(v, s, [w] + rest)
    ensures Pushed(v, s, [w] + rest, Free(FreeTrees(v, ws, d), w).0)
    decreases d, 257, 2, 257
  {
    ApartSplit(v, s, [w], rest);
    FreeTreesPush(v, s, ws, d);
    var u := FreeTrees(v, ws, d);
    ApartPushed(v, s, [w], rest, u);
    InApart(u, s + Reverse(rest), [w], w);
    PushedOne(u, s + Reverse(rest), w);
    PushedTwice(v, s, rest, u, [w], Free(u, w).0);
  }

  lemma {:induction false} FreeTreesPush(v: Volume, s: seq<word>, ws: seq<word>, d: nat)
    requires v.Valid() && Apart(v, s, OwnAll(v, ws, d))
    ensures Pushed(v, s, OwnAll(v, ws, d), FreeTrees(v, ws, d))
    decreases d, 257, 2, |ws|
  {
    if ws == [] {
      PushedNothing(v, s);
    } else {
      var first, rest := Own(v, ws[0], d), OwnAll(v, ws[1..], d);
      ApartSplit(v, s, first, rest);
      FreeTreesPush(v, s, ws[1..], d);
      var u := FreeTrees(v, ws[1..], d);
      ApartPushed(v, s, first, rest, u);
      OwnFrame(v, u, ws[0], d, multiset(rest));
      FreeTreePushes(u, s + Reverse(rest), ws[0], d);
      PushedTwice(v, s, rest, u, first, FreeTree(u, ws[0], d));
    }
  }

  lemma {:induction false} FreeLarge(v: Volume, s: seq<word>, ws: seq<word>, w: word)
    requires v.Valid() && Apart(v, s, OwnAll(v, ws, 1) + Own(v, w, 2))
    ensures Pushed(v, s, OwnAll(v, ws, 1) + Own(v, w, 2), FreeTrees(FreeTree(v, w, 2), ws, 1))
  {
    var a, b := OwnAll(v, ws, 1), Own(v, w, 2);
    ApartSplit(v, s, a, b);
    FreeTreePushes(v, s, w, 2);
    var u := FreeTree(v, w, 2);
    ApartPushed(v, s, a, b, u);
    OwnAllFrame(v, u, ws, 1, multiset(b));
    FreeTreesPush(u, s + Reverse(b), ws, 1);
    PushedTwice(v, s, b, u, a, FreeTrees(u, ws, 1));
  }

  // Truncation gives back exactly the blocks of the inode, each once, in the
  // reverse of fsck's scan order, and writes no other block, although the
  // spills of the free list overwrite blocks that were just freed.
  lemma TruncatePushes(v: Volume, s: seq<word>, ino: Inode)
    requires v.Valid() && ino.Valid() && Apart(v, s, Blocks(v, ino))
    ensures var (v', ino') := Truncate(v, ino);
      && FreeStack(v', s + Reverse(Blocks(v, ino)))
      && SameBut(v, v', multiset(Blocks(v, ino)))
      && Blocks(v', ino') == []
  {
    if Special(ino.mode) {
      PushedNothing(v, s);
    } else {
      ZerosOwnNothing(Truncate(v, ino).0, 8);
      if !Large(ino.mode) {
        FreeTreesPush(v, s, ino.addr, 0);
      } else {
        FreeLarge(v, s, ino.addr[..7], ino.addr[7]);
      }
    }
  }

  lemma {:induction false} ZerosOwnNothing(v: Volume, n: nat)
    requires v.Valid()
    ensures OwnAll(v, seq(n, _ => 0), 0) == []
  {
    if n > 0 {
      ZerosOwnNothing(v, n - 1);
      assert seq<word>(n, _ => 0)[1..] == seq<word>(n - 1, _ => 0);
    }
  }
}
