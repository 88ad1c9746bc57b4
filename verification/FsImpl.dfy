// The statements of fsutil/block.c and fsutil/inode.c over the superblock and
// inode structures they update in place, proved against the functions of
// FreeBlocks, Inodes, Mapping and Files.
module FsImpl {
  import opened Words
  import opened FreeBlocks
  import opened Inodes
  import opened Mapping
  import opened Files
  import opened FreeLists
  import opened CopyLoops

  // lsxfs_t; the image is an array of blocks.
  class Fs {
    const isize: nat
    const fsize: nat
    var nfree: nat
    const free: array<word>
    const disk: array<Block>
    const junk: Block

    constructor (isize: nat, fsize: nat, junk: Block)
      requires fsize <= 0xFFFF
      ensures Valid() && fresh(free) && fresh(disk)
      ensures State().isize == isize && State().fsize == fsize && nfree == 0
    {
      this.isize := isize;
      this.fsize := fsize;
      nfree := 0;
      free := new word[100](_ => 0);
      disk := new Block[fsize](_ => Zeros());
      this.junk := junk;
    }

    ghost predicate Valid()
      reads this
    {
      free.Length == 100 && disk.Length == fsize <= 0xFFFF && nfree <= 0xFFFF
    }

    ghost function State(): (v: Volume)
      requires Valid()
      reads this, free, disk
      ensures v.Valid()
    {
      Volume(isize, fsize, nfree, free[..], disk[..], junk)
    }

    method ReadBlock(b: nat) returns (ok: bool, data: Block)
      requires Valid()
      ensures ok <==> State().InArea(b)
      ensures ok ==> data == disk[b]
    {
      data := Zeros();
      if b <= isize + 1 { return false, data; }
      if b >= fsize { return false, data; }
      return true, disk[b];
    }

    method WriteBlock(b: nat, data: Block) returns (ok: bool)
      requires Valid()
      modifies disk
      ensures Valid() && ok == old(State()).InArea(b)
      ensures State() == if ok then Write(old(State()), b, data) else old(State())
    {
      if b <= isize + 1 { return false; }
      if b >= fsize { return false; }
      disk[b] := data;
      return true;
    }

    // lsxfs_block_free
    method BlockFree(b: word) returns (ok: bool)
      requires Valid()
      modifies this`nfree, free, disk
      ensures Valid() && (State(), ok) == Free(old(State()), b)
    {
      ghost var v := State();
      if nfree >= 100 {
        var buf := SetWord(junk, 0, nfree);
        assert SetWords(junk, 0, [nfree as word]) == buf;
        for i := 0 to 100
          invariant Valid() && State() == v
          invariant buf == SetWords(junk, 0, [nfree as word] + free[..i])
        {
          SetWordsAppend(junk, 0, [nfree as word] + free[..i], free[i]);
          assert [nfree as word] + free[..i + 1] == [nfree as word] + free[..i] + [free[i]];
          buf := SetWord(buf, i + 1, free[i]);
        }
        assert free[..100] == free[..];
        ok := WriteBlock(b, buf);
        if !ok { return; }
        nfree := 0;
      }
      free[nfree] := b;
      nfree := nfree + 1;
      ok := true;
      assert State() == Free(v, b).0;
    }

    // lsxfs_block_alloc
    method BlockAlloc() returns (ok: bool, b: word)
      requires Valid()
      modifies this`nfree, free
      ensures Valid() && State() == Alloc(old(State())).0
      ensures b == Alloc(old(State())).1 && (ok <==> b != 0)
    {
      ghost var v := State();
      b := 0;
      while true
        invariant Valid() && disk[..] == v.disk
        invariant Alloc(State()) == Alloc(v)
        decreases nfree
      {
        if nfree == 0 || nfree > 100 { return false, 0; }
        nfree := nfree - 1;
        b := free[nfree];
        free[nfree] := 0;
        if nfree <= 0 {
          var read, buf := ReadBlock(b);
          if !read { return false, 0; }
          nfree := WordAt(buf, 0);
          for i := 0 to 100
            invariant free[..i] == SlotsOf(buf)[..i]
            invariant nfree == WordAt(buf, 0) && disk[..] == v.disk
          {
            free[i] := WordAt(buf, i + 1);
          }
          assert free[..] == SlotsOf(buf);
        }
        if b != 0 { return true, b; }
      }
    }

    // lsxfs_indirect_block_free
    method IndirectBlockFree(b: word) returns (ok: bool)
      requires Valid()
      modifies this`nfree, free, disk
      ensures Valid() && State() == FreeTree(old(State()), b, 1)
    {
      ghost var v := State();
      var read, data := ReadBlock(b);
      if !read { return false; }
      ghost var ws := WordsOf(data);
      var i := 256;
      while i > 0
        invariant 0 <= i <= 256 && Valid() && State() == FreeTrees(v, ws[i..], 0)
      {
        i := i - 1;
        assert ws[i..] == [ws[i]] + ws[i + 1..];
        var nb := WordAt(data, i);
        if nb != 0 { var _ := BlockFree(nb); }
      }
      assert ws[0..] == ws;
      var _ := BlockFree(b);
      ok := true;
    }

    // lsxfs_double_indirect_block_free
    method DoubleIndirectBlockFree(b: word) returns (ok: bool)
      requires Valid()
      modifies this`nfree, free, disk
      ensures Valid() && State() == FreeTree(old(State()), b, 2)
    {
      ghost var v := State();
      var read, data := ReadBlock(b);
      if !read { return false; }
      ghost var ws := WordsOf(data);
      var i := 256;
      while i > 0
        invariant 0 <= i <= 256 && Valid() && State() == FreeTrees(v, ws[i..], 1)
      {
        i := i - 1;
        assert ws[i..] == [ws[i]] + ws[i + 1..];
        var nb := WordAt(data, i);
        if nb != 0 { var _ := IndirectBlockFree(nb); }
      }
      assert ws[0..] == ws;
      var _ := BlockFree(b);
      ok := true;
    }
  }

  // check.c make_free_list; with no busy block, the loop of lsxfs_create
  method MakeFreeList(fs: Fs, busy: seq<bool>) returns (count: nat)
    requires fs.Valid() && |busy| == fs.fsize
    modifies fs`nfree, fs.free, fs.disk
    ensures fs.Valid() && fs.State() == MakeList(old(fs.State()), busy)
    ensures count == |Descending(fs.isize + 2, fs.fsize - 1, busy)|
  {
    ghost var v := fs.State();
    fs.nfree := 0;
    assert fs.State() == v.(nfree := 0);
    count := 0;
    var _ := fs.BlockFree(0);
    var n := fs.fsize - 1;
    while n >= fs.isize + 2
      invariant fs.Valid() && n < fs.fsize
      invariant FreeAll(fs.State(), Descending(fs.isize + 2, n, busy)) == MakeList(v, busy)
      invariant count + |Descending(fs.isize + 2, n, busy)| == |Descending(fs.isize + 2, fs.fsize - 1, busy)|
      decreases n
    {
      ghost var rest := Descending(fs.isize + 2, n - 1, busy);
      if !busy[n] {
        assert Descending(fs.isize + 2, n, busy) == [n] + rest;
        count := count + 1;
        var _ := fs.BlockFree(n);
        assert ([n] + rest)[1..] == rest;
      } else {
        assert Descending(fs.isize + 2, n, busy) == rest;
      }
      n := n - 1;
    }
  }

  // The loop of add_file, on the bytes of the file that is read.
  method AddFile(ino: InodeRec, content: seq<byte>) returns (ok: bool)
    requires ino.Valid()
    modifies ino, ino.addr, ino.fs`nfree, ino.fs.free, ino.fs.disk
    ensures ino.Valid()
    ensures (ino.fs.State(), ino.Value(), ok) == AddChunks(old(ino.fs.State()), old(ino.Value()), 0, content)
  {
    var offset: nat, rest := 0, content;
    ghost var v, was := ino.fs.State(), ino.Value();
    while true
      invariant ino.Valid()
      invariant AddChunks(ino.fs.State(), ino.Value(), offset, rest) == AddChunks(v, was, 0, content)
      decreases |rest|
    {
      var len := if |rest| < 512 then |rest| else 512;
      if len <= 0 { return true; }
      var data := rest[..len];
      AddChunksTurn(ino.fs.State(), ino.Value(), offset, rest, data, rest[len..]);
      hide InodeWrite;
      var done := ino.WriteBytes(offset, data, len);
      if !done { return false; }
      offset := offset + len;
      rest := rest[len..];
    }
  }

  // The loop of extract_inode: the bytes written out.
  method ExtractFile(ino: InodeRec, buf: Block) returns (out: seq<byte>)
    requires ino.Valid()
    ensures out == Extract(ino.fs.State(), ino.Value(), 0, buf)
  {
    out := [];
    var offset: nat, data: Block := 0, buf;
    while offset < ino.size
      invariant out + Extract(ino.fs.State(), ino.Value(), offset, data) == Extract(ino.fs.State(), ino.Value(), 0, buf)
    {
      var n := ino.size - offset;
      if n > 512 { n := 512; }
      var got, ok := ino.Read(offset, data, n);
      if !ok { break; }
      out := out + got[..n];
      offset := offset + 512;
      data := got;
    }
  }

  // lsxfs_inode_t
  class InodeRec {
    const fs: Fs
    var mode: bv16
    var size: nat
    const addr: array<word>

    constructor (fs: Fs)
      requires fs.Valid()
      ensures Valid() && this.fs == fs && fresh(addr)
      ensures Value() == Inode(0, 0, seq(8, _ => 0))
    {
      this.fs := fs;
      mode := 0;
      size := 0;
      addr := new word[8](_ => 0);
    }

    ghost predicate Valid()
      reads this, fs
    {
      fs.Valid() && addr.Length == 8 && addr != fs.free
    }

    ghost function Value(): (ino: Inode)
      requires Valid()
      reads this, fs, addr
      ensures ino.Valid()
    {
      Inode(mode, size, addr[..])
    }

    method MapBlockRead(lbn: word) returns (nb: word)
      requires Valid()
      ensures nb == MapBlock(fs.State(), Value(), lbn)
    {
      if lbn > 0x7FFF { return 0; }
      if !Large(mode) {
        if lbn > 7 { return 0; }
        return addr[lbn];
      }
      var i := lbn / 256;
      if i > 7 { i := 7; }
      nb := addr[i];
      if nb == 0 { return 0; }
      var ok, block := fs.ReadBlock(nb);
      if !ok { return 0; }
      if i == 7 {
        nb := WordAt(block, lbn / 256 - 7);
        if nb == 0 { return 0; }
        ok, block := fs.ReadBlock(nb);
        if !ok { return 0; }
      }
      nb := WordAt(block, lbn % 256);
    }

    // The "normal indirect fetch" that ends map_block_write.
    method FetchEntry(ib: word, block: Block, k: nat) returns (nb: word)
      requires Valid() && k < 256
      modifies fs`nfree, fs.free, fs.disk
      ensures Valid() && Value() == old(Value())
      ensures Mapped(fs.State(), Value(), nb) == EntryWrite(old(fs.State()), old(Value()), ib, block, k)
    {
      nb := WordAt(block, k);
      if nb != 0 { return nb; }
      var ok;
      ok, nb := fs.BlockAlloc();
      if !ok { return 0; }
      ok := fs.WriteBlock(ib, SetWord(block, k, nb));
      if !ok { return 0; }
    }

    // The part of map_block_write after the label `large`.
    method LargeAlgorithm(lbn: word) returns (nb: word)
      requires Valid() && lbn <= 0x7FFF
      modifies addr, fs`nfree, fs.free, fs.disk
      ensures Valid() && Mapped(fs.State(), Value(), nb) == LargeWrite(old(fs.State()), old(Value()), lbn)
    {
      var ok, block := true, Zeros();
      var i := lbn / 256;
      if i > 7 { i := 7; }
      var ib := addr[i];
      if ib != 0 {
        ok, block := fs.ReadBlock(ib);
        if !ok { return 0; }
      } else {
        ok, ib := fs.BlockAlloc();
        if !ok { return 0; }
        addr[i] := ib;
      }
      if i == 7 {
        nb := DoubleFetch(ib, block, lbn);
      } else {
        nb := FetchEntry(ib, block, lbn % 256);
      }
    }

    // The double-indirect part of map_block_write, and what follows it.
    method DoubleFetch(ib: word, top: Block, lbn: word) returns (nb: word)
      requires Valid() && 0x700 <= lbn <= 0x7FFF
      modifies fs`nfree, fs.free, fs.disk
      ensures Valid() && Value() == old(Value())
      ensures Mapped(fs.State(), Value(), nb) == DoubleWrite(old(fs.State()), old(Value()), ib, top, lbn)
    {
      var i := lbn / 256 - 7;
      var ok, block := true, top;
      nb := WordAt(block, i);
      if nb != 0 {
        ok, block := fs.ReadBlock(nb);
        if !ok { return 0; }
      } else {
        ok, nb := fs.BlockAlloc();
        if !ok { return 0; }
        block := SetWord(Zeros(), 2 * i, nb);
        ok := fs.WriteBlock(ib, block);
        if !ok { return 0; }
      }
      nb := FetchEntry(nb, block, lbn % 256);
    }

    // The loop that moves the eight addresses to a block buffer.
    method MoveAddresses() returns (block: Block)
      requires Valid()
      modifies addr
      ensures Valid() && block == SetWords(Zeros(), 0, old(addr[..]))
      ensures addr[..] == seq(8, _ => 0)
    {
      hide SetWords, SetWord, WordAt, Zeros;
      block := Zeros();
      ghost var was := addr[..];
      SetNoWords(Zeros(), 0);
      for i := 0 to 8
        invariant block == SetWords(Zeros(), 0, was[..i])
        invariant forall k | 0 <= k < 8 :: addr[k] == if k < i then 0 else was[k]
      {
        SetWordsAppend(Zeros(), 0, was[..i], addr[i]);
        assert was[..i + 1] == was[..i] + [addr[i]];
        block := SetWord(block, i, addr[i]);
        addr[i] := 0;
      }
      assert was[..8] == was;
    }

    // "convert small to large" in map_block_write
    method ConvertToLarge() returns (ok: bool)
      requires Valid() && !Large(mode)
      modifies this`mode, addr, fs`nfree, fs.free, fs.disk
      ensures Valid()
      ensures ok <==> old(fs.State()).InArea(Alloc(old(fs.State())).1)
      ensures fs.State() ==
        if ok then Write(Alloc(old(fs.State())).0, Alloc(old(fs.State())).1, SetWords(Zeros(), 0, old(Value()).addr))
        else Alloc(old(fs.State())).0
      ensures Value() ==
        if Alloc(old(fs.State())).1 == 0 then old(Value())
        else Inode(if ok then SetLarge(old(mode)) else old(mode), size, [Alloc(old(fs.State())).1, 0, 0, 0, 0, 0, 0, 0])
    {
      var nb;
      ok, nb := fs.BlockAlloc();
      if !ok { return; }
      var block := MoveAddresses();
      addr[0] := nb;
      assert addr[..] == [nb, 0, 0, 0, 0, 0, 0, 0];
      ok := fs.WriteBlock(nb, block);
      if !ok { return; }
      mode := SetLarge(mode);
    }

    // map_block_write
    method MapBlockWrite(lbn: word) returns (nb: word)
      requires Valid()
      modifies this`mode, addr, fs`nfree, fs.free, fs.disk
      ensures Valid() && Mapped(fs.State(), Value(), nb) == MapWrite(old(fs.State()), old(Value()), lbn)
    {
      if lbn > 0x7FFF { return 0; }
      if !Large(mode) {
        if lbn <= 7 {
          nb := addr[lbn];
          if nb != 0 { return nb; }
          var ok;
          ok, nb := fs.BlockAlloc();
          if !ok { return 0; }
          addr[lbn] := nb;
          return nb;
        }
        var ok := ConvertToLarge();
        if !ok { return 0; }
      }
      nb := LargeAlgorithm(lbn);
    }

    // lsxfs_inode_read
    method Read(off: nat, data: seq<byte>, bytes: nat) returns (out: seq<byte>, ok: bool)
      requires Valid() && bytes <= |data|
      ensures (out, ok) == InodeRead(fs.State(), Value(), off, data, bytes)
    {
      out := data;
      if bytes + off > size { return out, false; }
      hide ReadLoop, MapBlock;
      var offset: nat, left: nat := off, bytes;
      while left != 0
        invariant left <= |out| == |data|
        invariant ReadLoop(fs.State(), Value(), offset, out, left) == ReadLoop(fs.State(), Value(), off, data, bytes)
      {
        ReadTurn(fs.State(), Value(), offset, out, left);
        var inblock := offset % 512;
        var n := 512 - inblock;
        if n > left { n := left; }
        var bn := MapBlockRead(BlockOf(offset));
        if bn == 0 { return out, false; }
        var read, block := fs.ReadBlock(bn);
        if !read { return out, false; }
        out := block[inblock..inblock + n] + out[n..];
        offset := offset + n;
        left := left - n;
      }
      ReadNone(fs.State(), Value(), offset, out);
      ok := true;
    }

    // The body of the loop of lsxfs_inode_write.
    method WritePiece(offset: nat, data: seq<byte>) returns (ok: bool)
      requires Valid() && offset % 512 + |data| <= 512
      modifies this, addr, fs`nfree, fs.free, fs.disk
      ensures Valid()
      ensures var c := WriteChunk(old(fs.State()), old(Value()), offset, data);
        fs.State() == c.vol && Value() == c.ino && (ok <==> c.bno != 0)
    {
      var n := |data|;
      var bn := MapBlockWrite(BlockOf(offset));
      if bn == 0 { return false; }
      if size < offset + n { size := offset + n; }
      if n == 512 {
        ok := fs.WriteBlock(bn, data);
        ghost var m := MapWrite(old(fs.State()), old(Value()), BlockOf(offset));
        if ok { assert Patch(m.vol.disk[bn], offset % 512, data) == data; }
      } else {
        var read, block := fs.ReadBlock(bn);
        if !read { return false; }
        block := Patch(block, offset % 512, data);
        ok := fs.WriteBlock(bn, block);
      }
    }

    // lsxfs_inode_write
    method WriteBytes(off: nat, data: seq<byte>, bytes: nat) returns (ok: bool)
      requires Valid() && bytes <= |data|
      modifies this, addr, fs`nfree, fs.free, fs.disk
      ensures Valid() && (fs.State(), Value(), ok) == InodeWrite(old(fs.State()), old(Value()), off, data, bytes)
    {
      hide InodeWrite, WriteChunk;
      var offset: nat, left: nat := off, bytes;
      ghost var v, ino := fs.State(), Value();
      while left != 0
        invariant Valid() && left <= |data|
        invariant InodeWrite(fs.State(), Value(), offset, data, left) == InodeWrite(v, ino, off, data, bytes)
      {
        var n := Chunk(offset, left);
        WriteTurn(fs.State(), Value(), offset, data, left);
        var done := WritePiece(offset, data[..n]);
        if !done { return false; }
        offset := offset + n;
        left := left - n;
      }
      WriteNone(fs.State(), Value(), offset, data);
      ok := true;
    }

    // What one address of the inode leads to.
    method FreeAddress(b: word, blk: nat)
      requires Valid()
      modifies fs`nfree, fs.free, fs.disk
      ensures Valid() && Value() == old(Value()) && fs.State() == FreeTree(old(fs.State()), b, Depth(mode, blk))
    {
      if b != 0 {
        if !Large(mode) {
          var _ := fs.BlockFree(b);
        } else if blk == 7 {
          var _ := fs.DoubleIndirectBlockFree(b);
        } else {
          var _ := fs.IndirectBlockFree(b);
        }
      }
    }

    // The loop of lsxfs_inode_truncate
    method FreeAddresses()
      requires Valid()
      modifies addr, fs`nfree, fs.free, fs.disk
      ensures Valid() && addr[..] == seq(8, _ => 0)
      ensures fs.State() == FreeFrom(old(fs.State()), mode, old(addr[..]), 0)
    {
      ghost var v, was := fs.State(), addr[..];
      hide FreeFrom, FreeTree, Depth;
      FreeFromNone(v, mode, was);
      var blk := 8;
      while blk > 0
        invariant 0 <= blk <= 8 && Valid()
        invariant addr[..] == was[..blk] + seq(8 - blk, _ => 0)
        invariant fs.State() == FreeFrom(v, mode, was, blk)
      {
        blk := blk - 1;
        FreeFromStep(v, mode, was, blk);
        FreeAddress(addr[blk], blk);
        if addr[blk] != 0 { addr[blk] := 0; }
        ZeroAdded(was, blk);
      }
    }

    // lsxfs_inode_truncate
    method TruncateInode()
      requires Valid()
      modifies this, addr, fs`nfree, fs.free, fs.disk
      ensures Valid() && (fs.State(), Value()) == Truncate(old(fs.State()), old(Value()))
    {
      if Special(mode) { return; }
      TruncateIs(fs.State(), Value());
      hide Truncate, FreeFrom;
      FreeAddresses();
      mode := ClearLarge(mode);
      size := 0;
    }
  }

  lemma ReadNone(v: Volume, ino: Inode, off: nat, data: seq<byte>)
    requires v.Valid() && ino.Valid()
    ensures ReadLoop(v, ino, off, data, 0) == (data, true)
  {
  }

  lemma ReadTurn(v: Volume, ino: Inode, off: nat, data: seq<byte>, bytes: nat)
    requires v.Valid() && ino.Valid() && 0 < bytes <= |data|
    ensures
      var n := Chunk(off, bytes);
      var bn := MapBlock(v, ino, BlockOf(off));
      ReadLoop(v, ino, off, data, bytes) ==
        if bn == 0 || !v.InArea(bn) then (data, false)
        else ReadLoop(v, ino, off + n, v.disk[bn][off % 512..off % 512 + n] + data[n..], bytes - n)
  {
  }

  lemma WriteNone(v: Volume, ino: Inode, off: nat, data: seq<byte>)
    requires v.Valid() && ino.Valid()
    ensures InodeWrite(v, ino, off, data, 0) == (v, ino, true)
  {
  }

  lemma WriteTurn(v: Volume, ino: Inode, off: nat, data: seq<byte>, bytes: nat)
    requires v.Valid() && ino.Valid() && 0 < bytes <= |data|
    ensures
      var n := Chunk(off, bytes);
      var m := WriteChunk(v, ino, off, data[..n]);
      InodeWrite(v, ino, off, data, bytes) ==
        if m.bno == 0 then (m.vol, m.ino, false) else InodeWrite(m.vol, m.ino, off + n, data, bytes - n)
  {
  }

  lemma ZeroAdded(ws: seq<word>, blk: nat)
    requires |ws| == 8 && blk < 8
    ensures (ws[..blk + 1] + seq(7 - blk, _ => 0 as word))[blk := 0] == ws[..blk] + seq(8 - blk, _ => 0 as word)
  {
  }

  // How deep the tree is at address blk.
  function Depth(mode: bv16, blk: nat): nat {
    if !Large(mode) then 0 else if blk == 7 then 2 else 1
  }

  // The volume when the addresses from blk on have been freed, the last first.
  ghost function FreeFrom(v: Volume, mode: bv16, ws: seq<word>, blk: nat): (r: Volume)
    requires v.Valid() && blk <= |ws|
    ensures r.Valid()
    decreases |ws| - blk
  {
    if blk == |ws| then v else FreeTree(FreeFrom(v, mode, ws, blk + 1), ws[blk], Depth(mode, blk))
  }

  lemma FreeFromNone(v: Volume, mode: bv16, ws: seq<word>)
    requires v.Valid()
    ensures FreeFrom(v, mode, ws, |ws|) == v
  {
  }

  lemma FreeFromStep(v: Volume, mode: bv16, ws: seq<word>, blk: nat)
    requires v.Valid() && blk < |ws|
    ensures FreeFrom(v, mode, ws, blk) == FreeTree(FreeFrom(v, mode, ws, blk + 1), ws[blk], Depth(mode, blk))
  {
  }

  // Addresses up to end that lead to trees of one depth.
  lemma {:induction false} FreeFromTrees(v: Volume, mode: bv16, ws: seq<word>, blk: nat, end: nat, d: nat)
    requires v.Valid() && blk <= end <= |ws|
    requires forall k: nat | blk <= k < end :: Depth(mode, k) == d
    ensures FreeFrom(v, mode, ws, blk) == FreeTrees(FreeFrom(v, mode, ws, end), ws[blk..end], d)
    decreases end - blk
  {
    hide Depth, FreeTree;
    if blk < end {
      FreeFromTrees(v, mode, ws, blk + 1, end, d);
      assert ws[blk..end][1..] == ws[blk + 1..end];
    }
  }

  lemma TruncateIs(v: Volume, ino: Inode)
    requires v.Valid() && ino.Valid() && !Special(ino.mode)
    ensures Truncate(v, ino) == (FreeFrom(v, ino.mode, ino.addr, 0), Inode(ClearLarge(ino.mode), 0, seq(8, _ => 0)))
  {
    var ws := ino.addr;
    FreeFromNone(v, ino.mode, ws);
    assert ws[0..8] == ws && ws[0..7] == ws[..7];
    if Large(ino.mode) {
      FreeFromStep(v, ino.mode, ws, 7);
      FreeFromTrees(v, ino.mode, ws, 0, 7, 1);
    } else {
      FreeFromTrees(v, ino.mode, ws, 0, 8, 0);
    }
  }
}
