// fsutil/inode.c lsxfs_inode_read and lsxfs_inode_write, and the chunk loops
// of fsutil.c add_file and extract_inode: a file as a sequence of bytes.
module Files {
  import opened Words
  import opened FreeBlocks
  import opened Inodes
  import opened Mapping
  import opened MapTheorem

  // The source passes offset / 512 as an unsigned short.
  function BlockOf(off: nat): word { off / 512 % 0x10000 }

  function Patch(b: Block, at: nat, d: seq<byte>): (r: Block)
    requires at + |d| <= 512
    ensures forall k | 0 <= k < 512 :: r[k] == if at <= k < at + |d| then d[k - at] else b[k]
  {
    b[..at] + d + b[at + |d|..]
  }

  function Chunk(off: nat, bytes: nat): (n: nat)
    ensures n <= bytes && off % 512 + n <= 512 && (bytes > 0 ==> n > 0)
  {
    if 512 - off % 512 > bytes then bytes else 512 - off % 512
  }

  // The body of the loop of lsxfs_inode_write; bno 0 is the failure return.
  function WriteChunk(v: Volume, ino: Inode, off: nat, data: seq<byte>): (r: Mapped)
    requires v.Valid() && ino.Valid() && off % 512 + |data| <= 512
    ensures r.vol.Valid() && r.ino.Valid()
  {
    var m := MapWrite(v, ino, BlockOf(off));
    var size := if m.ino.size < off + |data| then off + |data| else m.ino.size;
    if m.bno == 0 then m
    else if !m.vol.InArea(m.bno) then Mapped(m.vol, Inode(m.ino.mode, size, m.ino.addr), 0)
    else Mapped(Write(m.vol, m.bno, Patch(m.vol.disk[m.bno], off % 512, data)),
                Inode(m.ino.mode, size, m.ino.addr), m.bno)
  }

  // lsxfs_inode_write: as in the source every piece is taken from the start of
  // the caller's buffer.
  function InodeWrite(v: Volume, ino: Inode, off: nat, data: seq<byte>, bytes: nat): (r: (Volume, Inode, bool))
    requires v.Valid() && ino.Valid() && bytes <= |data|
    ensures r.0.Valid() && r.1.Valid()
    decreases bytes
  {
    if bytes == 0 then (v, ino, true)
    else
      var n := Chunk(off, bytes);
      var m := WriteChunk(v, ino, off, data[..n]);
      if m.bno == 0 then (m.vol, m.ino, false)
      else InodeWrite(m.vol, m.ino, off + n, data, bytes - n)
  }

  // The loop of lsxfs_inode_read, with the buffer it fills.
  function ReadLoop(v: Volume, ino: Inode, off: nat, data: seq<byte>, bytes: nat): (r: (seq<byte>, bool))
    requires v.Valid() && ino.Valid() && bytes <= |data|
    ensures |r.0| == |data|
    decreases bytes
  {
    if bytes == 0 then (data, true)
    else
      var n := Chunk(off, bytes);
      var bn := MapBlock(v, ino, BlockOf(off));
      if bn == 0 || !v.InArea(bn) then (data, false)
      else ReadLoop(v, ino, off + n, v.disk[bn][off % 512..off % 512 + n] + data[n..], bytes - n)
  }

  function InodeRead(v: Volume, ino: Inode, off: nat, data: seq<byte>, bytes: nat): (r: (seq<byte>, bool))
    requires v.Valid() && ino.Valid() && bytes <= |data|
    ensures |r.0| == |data|
  {
    if bytes + off > ino.size then (data, false) else ReadLoop(v, ino, off, data, bytes)
  }

  // The byte of the file at position p, or -1 where no block is mapped.
  function ByteAt(v: Volume, ino: Inode, p: nat): int
    requires v.Valid() && ino.Valid()
  {
    var b := MapBlock(v, ino, BlockOf(p));
    if b == 0 || !v.InArea(b) then -1 else v.disk[b][p % 512]
  }

  // ---- one-block requests ----

  lemma MappedOwned(v: Volume, s: seq<word>, ino: Inode, l: word)
    requires v.Valid() && ino.Valid() && !Special(ino.mode)
    requires Apart(v, s, Blocks(v, ino)) && MapBlock(v, ino, l) != 0
    ensures MapBlock(v, ino, l) in Blocks(v, ino) && v.InArea(MapBlock(v, ino, l))
    ensures MapBlock(v, ino, l) !in s
  {
    var b := MapBlock(v, ino, l);
    var all: seq<word> := Blocks(v, ino);
    if Large(ino.mode) {
      MappedIsBelow(v, s, ino, l);
      BelowApart(v, s, ino, SlotOf(l));
    } else {
      OwnWithin(v, ino.addr, 0, l);
      assert b in multiset(Own(v, b, 0));
      assert b in multiset(all);
    }
    assert all + [] == all;
    ApartSplit(v, s, all, []);
  }

  // Two logical blocks are never the same physical block.
  lemma MapInjective(v: Volume, s: seq<word>, ino: Inode, l: word, k: word)
    requires v.Valid() && ino.Valid() && !Special(ino.mode)
    requires Apart(v, s, Blocks(v, ino)) && l < SINGLE && k != l
    requires MapBlock(v, ino, l) != 0 && MapBlock(v, ino, k) != 0
    ensures MapBlock(v, ino, l) != MapBlock(v, ino, k)
  {
    if !Large(ino.mode) {
      PairDiffers(v, ino.addr, if l < k then l else k, if l < k then k else l, multiset(s));
    } else {
      MappedIsBelow(v, s, ino, l);
      MappedIsBelow(v, s, ino, k);
      var i, j := SlotOf(l), SlotOf(k);
      if i != j {
        BelowDisjoint(v, s, ino, i, j);
      } else {
        var nb := ino.addr[i];
        var ws := WordsOf(v.disk[nb]);
        BelowApart(v, s, ino, i);
        ApartSplit(v, s, [nb], OwnAll(v, ws, 0));
        PairDiffers(v, ws, if l < k then l % 256 else k % 256, if l < k then k % 256 else l % 256, multiset(s));
      }
    }
  }

  lemma PairDiffers(v: Volume, ws: seq<word>, i: nat, j: nat, s: multiset<word>)
    requires v.Valid() && i < j < |ws| && ws[i] != 0 && ws[j] != 0
    requires Once(s + multiset(OwnAll(v, ws, 0)))
    ensures ws[i] != ws[j]
  {
    OwnPair(v, ws, 0, i, j);
    var m: multiset<word> := multiset(OwnAll(v, ws, 0));
    assert (s + m)[ws[i]] <= 1;
    assert Own(v, ws[i], 0) == [ws[i]] && Own(v, ws[j], 0) == [ws[j]];
    assert multiset{ws[i]} + multiset{ws[j]} <= m;
  }

  // v with a file of which the blocks bs are free of aliases, as it is
  // between the operations on it.
  ghost predicate Held(v: Volume, s: seq<word>, ino: Inode) {
    v.Valid() && ino.Valid() && !Special(ino.mode) && Apart(v, s, Blocks(v, ino))
  }

  lemma TakesHeld(v: Volume, s: seq<word>, ino: Inode, m: Mapped, k: nat)
    requires Held(v, s, ino) && Takes(v, s, ino, m, k)
    ensures Held(m.vol, s[..|s| - k], m.ino)
  {
    var t, taken := s[..|s| - k], s[|s| - k..];
    assert s == t + taken;
    assert multiset(t) + multiset(Blocks(m.vol, m.ino)) == multiset(s) + multiset(Blocks(v, ino));
    forall x | x in Blocks(m.vol, m.ino) ensures m.vol.InArea(x) {
      assert x in multiset(Blocks(m.vol, m.ino));
      if x in multiset(taken) {
        assert x in taken && x in s;
      } else {
        assert x in multiset(Blocks(v, ino));
        assert x in Blocks(v, ino);
      }
    }
  }

  // A byte position that lsxfs_inode_t and the block number types can hold.
  const LIMIT := 0x200_0000

  // Position p after the piece `data` was written at off.  Only the rest of a
  // block that was not mapped before is left open.
  ghost predicate ByteWritten(v: Volume, ino: Inode, u: Volume, ino': Inode, off: nat, data: seq<byte>, p: nat)
    requires v.Valid() && ino.Valid() && u.Valid() && ino'.Valid()
  {
    if off <= p < off + |data| then ByteAt(u, ino', p) == data[p - off]
    else ByteAt(v, ino, p) >= 0 || BlockOf(p) != BlockOf(off) ==> ByteAt(u, ino', p) == ByteAt(v, ino, p)
  }

  ghost predicate BytesWritten(v: Volume, ino: Inode, u: Volume, ino': Inode, off: nat, data: seq<byte>)
    requires v.Valid() && ino.Valid() && u.Valid() && ino'.Valid()
  {
    && ino'.size == (if ino.size < off + |data| then off + |data| else ino.size)
    && forall p: nat | p < LIMIT :: ByteWritten(v, ino, u, ino', off, data, p)
  }

  lemma KeptBytes(v: Volume, s: seq<word>, ino: Inode, m: Mapped, off: nat, n: nat, p: nat)
    requires Held(v, s, ino) && m.vol.Valid() && m.ino.Valid() && p < LIMIT && off / 512 < SINGLE
    requires Agrees(v, s, ino, BlockOf(off), m, n) && n <= |s|
    requires ByteAt(v, ino, p) >= 0 || BlockOf(p) != BlockOf(off)
    ensures ByteAt(m.vol, m.ino, p) == ByteAt(v, ino, p)
  {
    var l := BlockOf(p);
    assert Kept(v, ino, m.vol, m.ino, l);
    if MapBlock(v, ino, l) != 0 {
      MappedOwned(v, s, ino, l);
    }
  }

  // The block write at the end of one piece.
  lemma PatchBytes(v: Volume, s: seq<word>, ino: Inode, u: Volume, ino': Inode, off: nat, data: seq<byte>, p: nat)
    requires Held(v, s, ino) && p < LIMIT && off / 512 < SINGLE && off % 512 + |data| <= 512
    requires MapBlock(v, ino, BlockOf(off)) != 0 && v.InArea(MapBlock(v, ino, BlockOf(off)))
    requires u == Write(v, MapBlock(v, ino, BlockOf(off)),
      Patch(v.disk[MapBlock(v, ino, BlockOf(off))], off % 512, data))
    requires ino'.Valid() && ino'.addr == ino.addr && ino'.mode == ino.mode
    requires MapBlock(u, ino', BlockOf(p)) == MapBlock(v, ino, BlockOf(p))
    ensures ByteAt(u, ino', p) == if off <= p < off + |data| then data[p - off] else ByteAt(v, ino, p)
  {
    var b, c := MapBlock(v, ino, BlockOf(off)), MapBlock(v, ino, BlockOf(p));
    TwoBlocks(v, s, ino, off, p);
    InData(v, b);
    assert v.Valid() && ino.Valid();
    hide MapBlock, Held, Patch, BlockOf, Write, Volume.InArea;
    PatchedByte(v, b, c, off, data, p);
  }

  lemma InData(v: Volume, b: word)
    requires v.Valid() && v.InArea(b)
    ensures 0 < b < |v.disk|
  {
  }

  // Bytes of one logical block are in one block, and of two in two.
  lemma TwoBlocks(v: Volume, s: seq<word>, ino: Inode, off: nat, p: nat)
    requires Held(v, s, ino) && p < LIMIT && off / 512 < SINGLE && MapBlock(v, ino, BlockOf(off)) != 0
    ensures
      var b, c := MapBlock(v, ino, BlockOf(off)), MapBlock(v, ino, BlockOf(p));
      if off / 512 == p / 512 then c == b else c != b
  {
    hide MapBlock;
    var l, k := BlockOf(off), BlockOf(p);
    if k != l && MapBlock(v, ino, k) != 0 { MapInjective(v, s, ino, l, k); }
  }

  // The byte at p, whose block is c, when the block b of off is patched.
  lemma PatchedByte(v: Volume, b: word, c: word, off: nat, data: seq<byte>, p: nat)
    requires v.Valid() && v.InArea(b) && off % 512 + |data| <= 512 && b != 0
    requires if off / 512 == p / 512 then c == b else c != b
    ensures
      var u := Write(v, b, Patch(v.disk[b], off % 512, data));
      (if c == 0 || !u.InArea(c) then -1 else u.disk[c][p % 512] as int) ==
        if off <= p < off + |data| then data[p - off] as int
        else if c == 0 || !v.InArea(c) then -1 else v.disk[c][p % 512] as int
  {
    if off / 512 == p / 512 {
      assert off <= p < off + |data| <==> off % 512 <= p % 512 < off % 512 + |data|;
    } else {
      assert !(off <= p < off + |data|);
    }
  }

  // Writing a data block does not disturb the mapping.
  lemma DataWriteMaps(v: Volume, s: seq<word>, ino: Inode, u: Volume, ino': Inode, l: word, block: Block, k: word)
    requires Held(v, s, ino) && l < SINGLE && MapBlock(v, ino, l) != 0 && v.InArea(MapBlock(v, ino, l))
    requires u == Write(v, MapBlock(v, ino, l), block)
    requires ino'.Valid() && ino'.addr == ino.addr && ino'.mode == ino.mode
    ensures MapBlock(u, ino', k) == MapBlock(v, ino, k)
    ensures Blocks(u, ino') == Blocks(v, ino)
  {
    if Large(ino.mode) {
      DataWriteLarge(v, s, ino, u, ino', l, block, k);
    } else {
      OwnAllSame(v, u, ino.addr);
    }
  }

  lemma DataWriteLarge(v: Volume, s: seq<word>, ino: Inode, u: Volume, ino': Inode, l: word, block: Block, k: word)
    requires Held(v, s, ino) && l < SINGLE && MapBlock(v, ino, l) != 0 && v.InArea(MapBlock(v, ino, l))
    requires u == Write(v, MapBlock(v, ino, l), block) && Large(ino.mode)
    requires ino'.Valid() && ino'.addr == ino.addr && ino'.mode == ino.mode
    ensures MapBlock(u, ino', k) == MapBlock(v, ino, k)
    ensures Blocks(u, ino') == Blocks(v, ino)
  {
    var i, at: multiset<word> := l / 256, multiset{MapBlock(v, ino, l)};
    MappedIsBelow(v, s, ino, l);
    SlotsSame(v, s, ino, u, ino', l, at);
    hide Own, OwnAll, Blocks, Below, MapBlock;
    LargeBlocksSame(v, ino, u, ino');
    if SlotOf(k) != i {
      BelowDisjoint(v, s, ino, i, SlotOf(k));
      MapFrame(v, u, ino, ino', k, at);
    } else {
      SameEntries(v, u, ino, ino', l, k);
    }
  }

  // Writing the block of l changes no tree.
  lemma SlotsSame(v: Volume, s: seq<word>, ino: Inode, u: Volume, ino': Inode, l: word, at: multiset<word>)
    requires Held(v, s, ino) && l < SINGLE && MapBlock(v, ino, l) != 0 && u.Valid() && Large(ino.mode)
    requires at == multiset{MapBlock(v, ino, l)} && SameBut(v, u, at)
    requires ino'.Valid() && ino'.addr == ino.addr && ino'.mode == ino.mode
    ensures forall j | 0 <= j < 8 :: Below(u, ino', j) == Below(v, ino, j)
  {
    var i, nb := l / 256, ino.addr[l / 256];
    MappedIsBelow(v, s, ino, l);
    var ws := WordsOf(v.disk[nb]);
    assert Below(v, ino, i) == [nb] + OwnAll(v, ws, 0) && Below(u, ino', i) == [nb] + OwnAll(u, ws, 0);
    OwnAllSame(v, u, ws);
    hide Own, OwnAll, Blocks, MapBlock;
    forall j | 0 <= j < 8 && j != i ensures Below(u, ino', j) == Below(v, ino, j) {
      BelowDisjoint(v, s, ino, i, j);
      OwnFrame(v, u, ino.addr[j], DepthOf(j), at);
    }
  }

  lemma SameEntries(v: Volume, u: Volume, ino: Inode, ino': Inode, l: word, k: word)
    requires v.Valid() && u.Valid() && ino.Valid() && ino'.Valid() && ino'.addr == ino.addr && ino'.mode == ino.mode
    requires Large(ino.mode) && l < SINGLE && SlotOf(k) == l / 256 && MapBlock(v, ino, l) != ino.addr[l / 256]
    requires SameBut(v, u, multiset{MapBlock(v, ino, l)})
    ensures MapBlock(u, ino', k) == MapBlock(v, ino, k)
  {
  }

  lemma LargeBlocksSame(v: Volume, ino: Inode, u: Volume, ino': Inode)
    requires v.Valid() && u.Valid() && ino.Valid() && ino'.Valid()
    requires Large(ino.mode) && !Special(ino.mode) && ino'.mode == ino.mode && ino'.addr == ino.addr
    requires forall j | 0 <= j < 8 :: Below(u, ino', j) == Below(v, ino, j)
    ensures Blocks(u, ino') == Blocks(v, ino)
  {
    forall j | 0 <= j < 7 ensures Own(u, ino'.addr[..7][j], 1) == Own(v, ino.addr[..7][j], 1) {
      assert Below(u, ino', j) == Below(v, ino, j);
    }
    OwnSame(v, ino.addr[..7], u, ino'.addr[..7], 1);
    assert Below(u, ino', 7) == Below(v, ino, 7);
  }

  // u and ino' are v and ino after taking the top k free blocks of s.
  ghost predicate Grew(v: Volume, s: seq<word>, ino: Inode, u: Volume, ino': Inode, k: nat)
    requires v.Valid() && ino.Valid()
  {
    && k <= |s| && Held(u, s[..|s| - k], ino')
    && multiset(Blocks(u, ino')) == multiset(Blocks(v, ino)) + multiset(s[|s| - k..])
    && SameBut(v, u, multiset(Blocks(v, ino)) + multiset(s[|s| - k..]))
  }

  lemma GrewByWrite(v: Volume, s: seq<word>, ino: Inode, m: Mapped, k: nat, u: Volume, ino': Inode, l: word,
                    block: Block)
    requires Held(v, s, ino) && Takes(v, s, ino, m, k) && l < SINGLE
    requires MapBlock(m.vol, m.ino, l) == m.bno != 0 && m.vol.InArea(m.bno)
    requires u == Write(m.vol, m.bno, block)
    requires ino'.Valid() && ino'.addr == m.ino.addr && ino'.mode == m.ino.mode
    ensures Grew(v, s, ino, u, ino', k)
  {
    var t := s[..|s| - k];
    TakesHeld(v, s, ino, m, k);
    MappedOwned(m.vol, t, m.ino, l);
    DataWriteMaps(m.vol, t, m.ino, u, ino', l, block, l);
    WriteKeepsStack(m.vol, t, m.bno, block);
    assert m.bno in multiset(Blocks(m.vol, m.ino));
    SameButMore(m.vol, u, multiset{m.bno}, multiset(Blocks(v, ino)) + multiset(s[|s| - k..]));
    SameButBoth(v, m.vol, u, multiset(Blocks(v, ino)) + multiset(s[|s| - k..]));
  }

  // A request within one block is one turn of the loop.
  lemma OneTurn(v: Volume, ino: Inode, off: nat, data: seq<byte>)
    requires v.Valid() && ino.Valid() && off % 512 + |data| <= 512 && data != []
    ensures var c := WriteChunk(v, ino, off, data);
      InodeWrite(v, ino, off, data, |data|) == (c.vol, c.ino, c.bno != 0)
  {
    assert data[..|data|] == data;
  }

  lemma WrittenChunk(v: Volume, s: seq<word>, ino: Inode, off: nat, data: seq<byte>, m: Mapped, n: nat)
    requires Held(v, s, ino) && off / 512 < SINGLE && off % 512 + |data| <= 512 && data != []
    requires n <= |s| && m == MapWrite(v, ino, BlockOf(off)) && Agrees(v, s, ino, BlockOf(off), m, n)
    ensures var c := WriteChunk(v, ino, off, data);
      && c.bno == m.bno != 0 && Held(m.vol, s[..|s| - n], m.ino) && m.vol.InArea(m.bno)
      && c.vol == Write(m.vol, m.bno, Patch(m.vol.disk[m.bno], off % 512, data))
      && c.ino.addr == m.ino.addr && c.ino.mode == m.ino.mode
      && c.ino.size == (if ino.size < off + |data| then off + |data| else ino.size)
  {
    TakesHeld(v, s, ino, m, n);
    MappedOwned(m.vol, s[..|s| - n], m.ino, BlockOf(off));
    SizeKept(v, ino, BlockOf(off));
  }

  lemma SizeKept(v: Volume, ino: Inode, l: word)
    requires v.Valid() && ino.Valid()
    ensures MapWrite(v, ino, l).ino.size == ino.size
  {
  }

  // u and ino' are what WriteChunk makes of m.
  ghost predicate Stored(v: Volume, s: seq<word>, ino: Inode, off: nat, data: seq<byte>, m: Mapped, n: nat,
                         u: Volume, ino': Inode)
    requires v.Valid() && ino.Valid()
  {
    && off / 512 < SINGLE && off % 512 + |data| <= 512 && n <= |s|
    && m.vol.Valid() && m.ino.Valid() && Held(m.vol, s[..|s| - n], m.ino)
    && m.bno != 0 && m.vol.InArea(m.bno) && MapBlock(m.vol, m.ino, BlockOf(off)) == m.bno
    && u == Write(m.vol, m.bno, Patch(m.vol.disk[m.bno], off % 512, data))
    && ino'.Valid() && ino'.addr == m.ino.addr && ino'.mode == m.ino.mode
    && ino'.size == (if ino.size < off + |data| then off + |data| else ino.size)
  }

  lemma ByteStored(v: Volume, s: seq<word>, ino: Inode, off: nat, data: seq<byte>, m: Mapped, n: nat, u: Volume,
                   ino': Inode, p: nat)
    requires Held(v, s, ino) && Stored(v, s, ino, off, data, m, n, u, ino') && p < LIMIT
    ensures ByteAt(u, ino', p) == if off <= p < off + |data| then data[p - off] else ByteAt(m.vol, m.ino, p)
  {
    var t := s[..|s| - n];
    DataWriteMaps(m.vol, t, m.ino, u, ino', BlockOf(off), Patch(m.vol.disk[m.bno], off % 512, data), BlockOf(p));
    PatchBytes(m.vol, t, m.ino, u, ino', off, data, p);
  }

  lemma BytesStored(v: Volume, s: seq<word>, ino: Inode, off: nat, data: seq<byte>, m: Mapped, n: nat, u: Volume,
                    ino': Inode)
    requires Held(v, s, ino) && Stored(v, s, ino, off, data, m, n, u, ino')
    requires Agrees(v, s, ino, BlockOf(off), m, n)
    ensures BytesWritten(v, ino, u, ino', off, data)
  {
    forall p: nat | p < LIMIT ensures ByteWritten(v, ino, u, ino', off, data, p) {
      ByteStored(v, s, ino, off, data, m, n, u, ino', p);
      if ByteAt(v, ino, p) >= 0 || BlockOf(p) != BlockOf(off) {
        KeptBytes(v, s, ino, m, off, n, p);
      }
    }
  }

  // A request within one block succeeds iff the free list holds the blocks it
  // needs; it then replaces exactly the bytes at its offset.
  lemma WriteOneBlock(v: Volume, s: seq<word>, ino: Inode, off: nat, data: seq<byte>)
    requires Held(v, s, ino) && off / 512 < SINGLE && off % 512 + |data| <= 512 && data != []
    ensures var (u, ino', ok) := InodeWrite(v, ino, off, data, |data|);
      && (ok <==> Need(v, ino, BlockOf(off)) <= |s|)
      && (ok ==> Grew(v, s, ino, u, ino', Need(v, ino, BlockOf(off))) && BytesWritten(v, ino, u, ino', off, data))
  {
    var l := BlockOf(off);
    var n := Need(v, ino, l);
    MapWriteAgrees(v, s, ino, l);
    OneTurn(v, ino, off, data);
    if n <= |s| {
      ChunkStored(v, s, ino, off, data, MapWrite(v, ino, l), n, WriteChunk(v, ino, off, data));
    }
  }

  lemma ChunkStored(v: Volume, s: seq<word>, ino: Inode, off: nat, data: seq<byte>, m: Mapped, n: nat, c: Mapped)
    requires Held(v, s, ino) && off / 512 < SINGLE && off % 512 + |data| <= 512 && data != []
    requires n <= |s| && m == MapWrite(v, ino, BlockOf(off)) && Agrees(v, s, ino, BlockOf(off), m, n)
    requires c == WriteChunk(v, ino, off, data)
    ensures c.bno != 0
    ensures Grew(v, s, ino, c.vol, c.ino, n) && BytesWritten(v, ino, c.vol, c.ino, off, data)
  {
    WrittenChunk(v, s, ino, off, data, m, n);
    assert Stored(v, s, ino, off, data, m, n, c.vol, c.ino);
    StoredAll(v, s, ino, off, data, m, n, c.vol, c.ino);
  }

  lemma StoredAll(v: Volume, s: seq<word>, ino: Inode, off: nat, data: seq<byte>, m: Mapped, n: nat, u: Volume,
                  ino': Inode)
    requires Held(v, s, ino) && Stored(v, s, ino, off, data, m, n, u, ino')
    requires Agrees(v, s, ino, BlockOf(off), m, n)
    ensures Grew(v, s, ino, u, ino', n) && BytesWritten(v, ino, u, ino', off, data)
  {
    hide Own, OwnAll, Blocks, MapBlock, Apart, FreeStack, Chain, Takes, Kept, BytesWritten, Grew;
    GrewByWrite(v, s, ino, m, n, u, ino', BlockOf(off), Patch(m.vol.disk[m.bno], off % 512, data));
    BytesStored(v, s, ino, off, data, m, n, u, ino');
  }
}
