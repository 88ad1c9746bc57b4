// fsutil/create.c: a fresh volume, and every run that starts from one.
module Format {
  import opened Words
  import opened FreeBlocks
  import opened Inodes
  import opened FreeLists
  import opened Runs

  function InodeBlocks(fsize: nat): nat { (fsize / 6 + 15) / 16 }

  // INODE_MODE_ALLOC | INODE_MODE_FDIR | 0777
  const ROOT_MODE: bv16 := 0xC1FF

  function RootInode(b: word): Inode { Inode(ROOT_MODE, 32, [b, 0, 0, 0, 0, 0, 0, 0]) }

  // lsxfs_create on an image of |disk| blocks; `root` is the directory block.
  function Create(disk: seq<Block>, junk: Block, root: Block): Option<World>
    requires |disk| <= 0xFFFF
  {
    var isize := InodeBlocks(|disk|);
    if isize < 1 then None
    else
      var v := MakeList(Volume(isize, |disk|, 0, seq(100, _ => 0), disk, junk), seq(|disk|, _ => false));
      if v.nfree == 0 || v.nfree > SLOTS then None
      else
        var (v1, b) := AllocateBlock(v);
        if !v1.InArea(b) then None
        else Some(World(Write(v1, b, root), [RootInode(b)] + seq(16 * isize - 1, _ => CLEARED), multiset{}))
  }

  lemma {:induction false} ClearedTable(v: Volume, n: nat)
    requires v.Valid()
    ensures AllBlocks(v, seq(n, _ => CLEARED)) == multiset{}
  {
    if n > 0 {
      ClearedTable(v, n - 1);
      assert seq<Inode>(n, _ => CLEARED)[1..] == seq<Inode>(n - 1, _ => CLEARED);
      ClearedOwnsNothing(v, 0);
      assert CLEARED.(mode := 0) == CLEARED;
    }
  }

  lemma RootOwns(v: Volume, b: word)
    requires v.Valid() && b != 0
    ensures Blocks(v, RootInode(b)) == [b]
  {
    assert !Special(ROOT_MODE) && !Large(ROOT_MODE);
    var addr := RootInode(b).addr;
    assert addr[1..] == seq(7, _ => 0);
    ZerosOwnNothing(v, 7);
    assert Own(v, b, 0) == [b];
    assert OwnAll(v, addr, 0) == Own(v, addr[0], 0) + OwnAll(v, addr[1..], 0);
  }

  // The list of a fresh volume, before the root directory gets its block.
  function FreshList(fsize: nat): seq<word>
    requires fsize <= 0xFFFF
  {
    Descending(InodeBlocks(fsize) + 2, fsize - 1, seq(fsize, _ => false))
  }

  lemma FreshListBag(v: Volume)
    requires v.Valid() && v.isize == InodeBlocks(v.fsize)
    ensures multiset(FreshList(v.fsize)) == v.Area()
    ensures 6 <= v.fsize ==> FreshList(v.fsize) != []
  {
    DescendingExact(v.isize + 2, v.fsize - 1, seq(v.fsize, _ => false));
    AreaBag(v);
    var d: seq<word> := FreshList(v.fsize);
    if 6 <= v.fsize {
      var b: word := v.isize + 2;
      assert multiset(d)[b] == 1;
      assert b in d;
    }
  }

  // A volume can be made exactly from 6 blocks up, and its data area is then
  // partitioned between the root directory and the free list.
  lemma CreatePartition(disk: seq<Block>, junk: Block, root: Block) returns (s: seq<word>)
    requires |disk| <= 0xFFFF
    ensures Create(disk, junk, root).Some? <==> 6 <= |disk|
    ensures 6 <= |disk| ==> Partition(Create(disk, junk, root).value, s)
  {
    hide Partition, Descending, MakeList, Alloc, Write;
    var isize := InodeBlocks(|disk|);
    s := [];
    if 6 <= |disk| {
      var v0 := Volume(isize, |disk|, 0, seq(100, _ => 0), disk, junk);
      var v := MakeList(v0, seq(|disk|, _ => false));
      MakeListExact(v0, seq(|disk|, _ => false));
      FreshListBag(v);
      var d := FreshList(|disk|);
      AllocateBlockSame(v, d);
      AllocPops(v, d);
      s := d[..|d| - 1];
      FreshWorld(v, d, root, isize);
    }
  }

  lemma FreshWorld(v: Volume, d: seq<word>, root: Block, isize: nat)
    requires FreeStack(v, d) && d != [] && multiset(d) == v.Area() && 1 <= isize
    ensures v.InArea(d[|d| - 1]) && Alloc(v).1 == d[|d| - 1] && v.InArea(Alloc(v).1)
    ensures Partition(World(Write(Alloc(v).0, d[|d| - 1], root),
                            [RootInode(d[|d| - 1])] + seq(16 * isize - 1, _ => CLEARED), multiset{}), d[..|d| - 1])
  {
    AllocPops(v, d);
    var b, t := d[|d| - 1], d[..|d| - 1];
    assert d == t + [b];
    assert b in d;
    PrefixOnce(d, |d| - 1);
    assert b in d[|d| - 1..];
    var u := Write(Alloc(v).0, b, root);
    WriteKeepsStack(Alloc(v).0, t, b, root);
    FreshTable(u, t, b, isize, v);
  }

  lemma FreshTable(u: Volume, t: seq<word>, b: word, isize: nat, v: Volume)
    requires FreeStack(u, t) && b != 0 && 1 <= isize
    requires v.isize == u.isize && v.fsize == u.fsize && multiset(t) + multiset{b} == v.Area()
    ensures Partition(World(u, [RootInode(b)] + seq(16 * isize - 1, _ => CLEARED), multiset{}), t)
  {
    hide *;
    var rest := seq<Inode>(16 * isize - 1, _ => CLEARED);
    StackValid(u, t);
    TableSound(u, b, rest);
    RootOwns(u, b);
    ClearedTable(u, 16 * isize - 1);
    AllBlocksSplit(u, [RootInode(b)] + rest);
    assert ([RootInode(b)] + rest)[1..] == rest;
    SameArea(v, u);
    TableUnused(u, b, rest);
    MakeFresh(u, [RootInode(b)] + rest, t, b);
  }

  lemma StackValid(u: Volume, t: seq<word>)
    requires FreeStack(u, t)
    ensures u.Valid()
  {
  }

  lemma TableSound(u: Volume, b: word, rest: seq<Inode>)
    requires forall i | 0 <= i < |rest| :: rest[i] == CLEARED
    ensures forall i | 0 <= i < |[RootInode(b)] + rest| :: ([RootInode(b)] + rest)[i].Valid()
    ensures ([RootInode(b)] + rest)[0] == RootInode(b)
    ensures forall i | 0 <= i < |rest| :: rest[i].Valid()
  {
  }

  lemma TableUnused(u: Volume, b: word, rest: seq<Inode>)
    requires u.Valid() && forall i | 0 <= i < |rest| :: rest[i] == CLEARED
    requires forall i | 0 <= i < |[RootInode(b)] + rest| :: ([RootInode(b)] + rest)[i].Valid()
    ensures
      var inos := [RootInode(b)] + rest;
      forall i | 0 <= i < |inos| && inos[i].mode == 0 :: Blocks(u, inos[i]) == []
  {
    ClearedOwnsNothing(u, 0);
    assert CLEARED.(mode := 0) == CLEARED;
    hide Blocks;
  }

  lemma MakeFresh(u: Volume, inos: seq<Inode>, t: seq<word>, b: word)
    requires FreeStack(u, t) && u.Valid() && forall i | 0 <= i < |inos| :: inos[i].Valid()
    requires AllBlocks(u, inos) == multiset{b} && multiset(t) + multiset{b} == u.Area()
    requires forall i | 0 <= i < |inos| && inos[i].mode == 0 :: Blocks(u, inos[i]) == []
    ensures Partition(World(u, inos, multiset{}), t)
  {
    hide FreeStack, Blocks, AllBlocks;
  }

  // In every run from a fresh volume, up to the first operation that fails,
  // the data area stays partitioned.
  lemma RunFromFresh(disk: seq<Block>, junk: Block, root: Block, ops: seq<Op>) returns (t: seq<word>)
    requires 6 <= |disk| <= 0xFFFF
    requires Create(disk, junk, root).Some?
    requires Sound(Create(disk, junk, root).value) && Run(Create(disk, junk, root).value, ops).Some?
    ensures Partition(Run(Create(disk, junk, root).value, ops).value, t)
  {
    t := CreatePartition(disk, junk, root);
    t := RunPartition(Create(disk, junk, root).value, t, ops);
  }
}
