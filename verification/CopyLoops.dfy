// fsutil/fsutil.c: the 512-byte chunk loops of add_file and extract_inode.
module CopyLoops {
  import opened Words
  import opened FreeBlocks
  import opened Inodes
  import opened Mapping
  import opened MapTheorem
  import opened Files

  // The loop of add_file from offset `off` of the file.
  function AddChunks(v: Volume, ino: Inode, off: nat, content: seq<byte>): (r: (Volume, Inode, bool))
    requires v.Valid() && ino.Valid()
    ensures r.0.Valid() && r.1.Valid()
    decreases |content|
  {
    if content == [] then (v, ino, true)
    else
      var len := if |content| < 512 then |content| else 512;
      var (u, ino1, ok) := InodeWrite(v, ino, off, content[..len], len);
      if !ok then (u, ino1, false) else AddChunks(u, ino1, off + len, content[len..])
  }

  // The loop of extract_inode, with its buffer: the bytes written out.
  function Extract(v: Volume, ino: Inode, off: nat, buf: Block): (out: seq<byte>)
    requires v.Valid() && ino.Valid()
    decreases ino.size - off
  {
    if off >= ino.size then []
    else
      var n := if ino.size - off > 512 then 512 else ino.size - off;
      var (buf', ok) := InodeRead(v, ino, off, buf, n);
      if !ok then [] else buf'[..n] + Extract(v, ino, off + 512, buf')
  }

  // The file holds `content`.
  ghost predicate Holds(v: Volume, ino: Inode, content: seq<byte>)
    requires v.Valid() && ino.Valid()
  {
    ino.size == |content| && forall p: nat | p < |content| :: ByteAt(v, ino, p) == content[p]
  }

  // Exactly the first nb logical blocks are mapped, and no indirect block
  // beyond those they need exists.
  ghost predicate Dense(v: Volume, ino: Inode, nb: nat)
    requires v.Valid() && ino.Valid()
  {
    && (forall l: word | l < SINGLE :: MapBlock(v, ino, l) != 0 <==> l < nb)
    && Shape(ino, nb)
  }

  ghost predicate Shape(ino: Inode, nb: nat)
    requires ino.Valid()
  {
    && (Large(ino.mode) <==> nb > 8)
    && (Large(ino.mode) ==> forall i | 0 <= i < 8 && i * 256 >= nb :: ino.addr[i] == 0)
  }

  // The blocks, data and indirect, that a file of nb data blocks takes.
  function Cost(nb: nat): nat { if nb > 8 then nb + (nb + 255) / 256 else nb }

  lemma NeedNext(v: Volume, ino: Inode, nb: nat)
    requires v.Valid() && ino.Valid() && Dense(v, ino, nb) && nb < SINGLE
    ensures Need(v, ino, nb) == Cost(nb + 1) - Cost(nb)
  {
    assert MapBlock(v, ino, nb) == 0;
    if nb > 8 {
      if nb % 256 == 0 {
        assert ino.addr[nb / 256] == 0;
        assert (nb + 256) / 256 == nb / 256 + 1 && (nb + 255) / 256 == nb / 256;
      } else {
        assert MapBlock(v, ino, nb - 1) != 0;
        assert (nb - 1) / 256 == nb / 256;
        assert (nb + 256) / 256 == (nb + 255) / 256;
      }
    } else if nb == 8 {
      assert Cost(9) == 10;
    }
  }

  lemma ShapeNext(v: Volume, ino: Inode, nb: nat)
    requires v.Valid() && ino.Valid() && Shape(ino, nb) && nb < SINGLE
    requires MapWrite(v, ino, nb).bno != 0
    ensures Shape(MapWrite(v, ino, nb).ino, nb + 1)
  {
  }

  // r is the state after one round of the loop of add_file.
  ghost predicate AddedOne(v: Volume, s: seq<word>, ino: Inode, nb: nat, r: (Volume, Inode, bool), all: seq<byte>)
    requires v.Valid() && ino.Valid()
  {
    && r.0.Valid() && r.1.Valid() && Cost(nb) <= Cost(nb + 1)
    && (r.2 <==> Cost(nb + 1) - Cost(nb) <= |s|)
    && (r.2 ==> Grew(v, s, ino, r.0, r.1, Cost(nb + 1) - Cost(nb)) && Holds(r.0, r.1, all) && Dense(r.0, r.1, nb + 1))
  }

  // One round of the loop of add_file: chunk number nb.
  lemma AddChunk(v: Volume, s: seq<word>, ino: Inode, nb: nat, before: seq<byte>, data: seq<byte>)
    requires Held(v, s, ino) && Dense(v, ino, nb) && Holds(v, ino, before)
    requires |before| == 512 * nb && nb < SINGLE && 0 < |data| <= 512
    ensures AddedOne(v, s, ino, nb, InodeWrite(v, ino, |before|, data, |data|), before + data)
  {
    hide *;
    var off := |before|;
    CostGrows(nb, nb + 1);
    HeldIn(v, s, ino);
    ChunkAt(nb, off);
    NeedNext(v, ino, nb);
    WriteOneBlock(v, s, ino, off, data);
    var r := InodeWrite(v, ino, off, data, |data|);
    if r.2 { ChunkAdded(v, s, ino, nb, before, data, r); }
    MakeAdded(v, s, ino, nb, r, before + data);
  }

  lemma HeldIn(v: Volume, s: seq<word>, ino: Inode)
    requires Held(v, s, ino)
    ensures v.Valid() && ino.Valid()
  {
  }

  lemma ChunkAt(nb: nat, off: nat)
    requires off == 512 * nb && nb < SINGLE
    ensures BlockOf(off) == nb && off / 512 < SINGLE && off % 512 == 0
  {
  }

  lemma MakeAdded(v: Volume, s: seq<word>, ino: Inode, nb: nat, r: (Volume, Inode, bool), all: seq<byte>)
    requires v.Valid() && ino.Valid() && r.0.Valid() && r.1.Valid() && Cost(nb) <= Cost(nb + 1)
    requires r.2 <==> Cost(nb + 1) - Cost(nb) <= |s|
    requires r.2 ==> Grew(v, s, ino, r.0, r.1, Cost(nb + 1) - Cost(nb))
    requires r.2 ==> Holds(r.0, r.1, all) && Dense(r.0, r.1, nb + 1)
    ensures AddedOne(v, s, ino, nb, r, all)
  {
    hide Grew, Holds, Dense, Cost;
  }

  // The round has written its chunk.
  lemma ChunkAdded(v: Volume, s: seq<word>, ino: Inode, nb: nat, before: seq<byte>, data: seq<byte>,
                   r: (Volume, Inode, bool))
    requires Held(v, s, ino) && Dense(v, ino, nb) && Holds(v, ino, before)
    requires |before| == 512 * nb && nb < SINGLE && 0 < |data| <= 512
    requires r == InodeWrite(v, ino, |before|, data, |data|) && r.2 && Cost(nb) <= Cost(nb + 1)
    requires Grew(v, s, ino, r.0, r.1, Cost(nb + 1) - Cost(nb)) && BytesWritten(v, ino, r.0, r.1, |before|, data)
    ensures Holds(r.0, r.1, before + data) && Dense(r.0, r.1, nb + 1)
  {
    hide *;
    HeldIn(v, s, ino);
    ShapeAfter(v, ino, nb, |before|, data);
    ChunkLimit(nb, |before|, |data|);
    AddedBytes(v, ino, r.0, r.1, before, data);
    AddedDense(v, s, ino, r.0, r.1, nb, Cost(nb + 1) - Cost(nb), data);
  }

  lemma ChunkLimit(nb: nat, off: nat, n: nat)
    requires off == 512 * nb && nb < SINGLE && n <= 512
    ensures off + n <= LIMIT
  {
  }

  // The write has mapped one block more.
  lemma ShapeAfter(v: Volume, ino: Inode, nb: nat, off: nat, data: seq<byte>)
    requires v.Valid() && ino.Valid() && Dense(v, ino, nb) && nb < SINGLE && off == 512 * nb && 0 < |data| <= 512
    requires InodeWrite(v, ino, off, data, |data|).2
    ensures Shape(InodeWrite(v, ino, off, data, |data|).1, nb + 1)
  {
    BlockAt(nb);
    hide InodeWrite, MapWrite, Shape, BlockOf, MapBlock;
    OneTurn(v, ino, off, data);
    ChunkKeepsShape(v, ino, off, data, nb);
    ShapeNext(v, ino, nb);
    SameShape(MapWrite(v, ino, nb).ino, WriteChunk(v, ino, off, data).ino, nb + 1);
  }

  lemma BlockAt(nb: nat)
    requires nb < SINGLE
    ensures BlockOf(512 * nb) == nb && 512 * nb % 512 == 0
  {
  }

  lemma ChunkKeepsShape(v: Volume, ino: Inode, off: nat, data: seq<byte>, nb: word)
    requires v.Valid() && ino.Valid() && off % 512 + |data| <= 512 && BlockOf(off) == nb
    requires WriteChunk(v, ino, off, data).bno != 0
    ensures
      var m, ino' := MapWrite(v, ino, nb), WriteChunk(v, ino, off, data).ino;
      m.bno != 0 && ino'.addr == m.ino.addr && ino'.mode == m.ino.mode
  {
    hide MapWrite;
  }

  lemma SameShape(ino: Inode, ino': Inode, nb: nat)
    requires ino.Valid() && ino'.Valid() && Shape(ino, nb) && ino'.addr == ino.addr && ino'.mode == ino.mode
    ensures Shape(ino', nb)
  {
  }

  lemma AddedBytes(v: Volume, ino: Inode, u: Volume, ino': Inode, before: seq<byte>, data: seq<byte>)
    requires v.Valid() && u.Valid() && ino.Valid() && ino'.Valid()
    requires Holds(v, ino, before) && BytesWritten(v, ino, u, ino', |before|, data)
    requires |before| + |data| <= LIMIT
    ensures Holds(u, ino', before + data)
  {
    forall p: nat | p < |before + data| ensures ByteAt(u, ino', p) == (before + data)[p] {
      assert ByteWritten(v, ino, u, ino', |before|, data, p);
      if p < |before| {
        assert ByteAt(v, ino, p) == before[p];
      }
    }
  }

  lemma AddedDense(v: Volume, s: seq<word>, ino: Inode, u: Volume, ino': Inode, nb: nat, k: nat, data: seq<byte>)
    requires Held(v, s, ino) && Dense(v, ino, nb) && nb < SINGLE && 0 < |data| <= 512
    requires Grew(v, s, ino, u, ino', k) && Shape(ino', nb + 1)
    requires BytesWritten(v, ino, u, ino', 512 * nb, data)
    ensures Dense(u, ino', nb + 1)
  {
    forall l: word | l < SINGLE ensures MapBlock(u, ino', l) != 0 <==> l < nb + 1 {
      assert BlockOf(512 * l) == l;
      assert ByteWritten(v, ino, u, ino', 512 * nb, data, 512 * l);
      if MapBlock(v, ino, l) != 0 { MappedOwned(v, s, ino, l); }
      if MapBlock(u, ino', l) != 0 { MappedOwned(u, s[..|s| - k], ino', l); }
    }
  }

  lemma GrewTwice(v: Volume, s: seq<word>, ino: Inode, u: Volume, ino1: Inode, k: nat, t: Volume, ino2: Inode, j: nat)
    requires v.Valid() && ino.Valid() && u.Valid() && ino1.Valid()
    requires Grew(v, s, ino, u, ino1, k) && Grew(u, s[..|s| - k], ino1, t, ino2, j)
    ensures Grew(v, s, ino, t, ino2, k + j)
  {
    var r := s[..|s| - k];
    var at := |s| - (k + j);
    assert |r| - j == at && r[..at] == s[..at];
    assert s[at..] == r[at..] + s[|s| - k..];
    var both := multiset(Blocks(v, ino)) + multiset(s[|s| - (k + j)..]);
    assert multiset(Blocks(u, ino1)) + multiset(r[|r| - j..]) == both;
    SameButMore(v, u, multiset(Blocks(v, ino)) + multiset(s[|s| - k..]), both);
    SameButBoth(v, u, t, both);
  }

  lemma GrewNothing(v: Volume, s: seq<word>, ino: Inode)
    requires Held(v, s, ino)
    ensures Grew(v, s, ino, v, ino, 0)
  {
    assert s[..|s| - 0] == s && s[|s|..] == [];
  }

  function BlocksFor(len: nat): nat { (len + 511) / 512 }

  // What adding `content` to a file of nb full blocks has to do.
  ghost predicate Added(v: Volume, s: seq<word>, ino: Inode, r: (Volume, Inode, bool), k: int, all: seq<byte>)
    requires v.Valid() && ino.Valid() && r.0.Valid() && r.1.Valid()
  {
    && (r.2 <==> k <= |s|)
    && (r.2 ==> k >= 0 && Grew(v, s, ino, r.0, r.1, k) && Holds(r.0, r.1, all))
  }

  // add_file succeeds iff the free list holds the file's blocks and indirect
  // blocks; it takes exactly those, and the file is the content.
  lemma {:induction false} AddFile(v: Volume, s: seq<word>, ino: Inode, nb: nat, before: seq<byte>, content: seq<byte>)
    requires v.Valid() && ino.Valid() && Held(v, s, ino) && Dense(v, ino, nb) && Holds(v, ino, before)
    requires |before| == 512 * nb && |before| + |content| <= 512 * SINGLE
    ensures Added(v, s, ino, AddChunks(v, ino, |before|, content),
                  Cost(nb + BlocksFor(|content|)) - Cost(nb), before + content)
    decreases |content|, 0
  {
    hide *;
    if content == [] {
      AddNothing(v, s, ino, nb, before, content);
    } else {
      var len := if |content| < 512 then |content| else 512;
      var data, rest := content[..len], content[len..];
      BlocksForChunk(content, data, rest);
      var r := FirstChunk(v, s, ino, nb, before, content, data, rest);
      assert before + data + rest == before + content;
      AddTurn(v, s, ino, nb, before + data, rest, r);
    }
  }

  lemma {:induction false} AddTurn(v: Volume, s: seq<word>, ino: Inode, nb: nat, so: seq<byte>, rest: seq<byte>,
                                   r: (Volume, Inode, bool))
    requires v.Valid() && ino.Valid() && r.0.Valid() && r.1.Valid()
    requires AddedOne(v, s, ino, nb, r, so) && |so| + |rest| <= 512 * SINGLE
    requires rest != [] ==> |so| == 512 * (nb + 1)
    ensures Added(v, s, ino, if !r.2 then (r.0, r.1, false) else AddChunks(r.0, r.1, |so|, rest),
                  Cost(nb + 1 + BlocksFor(|rest|)) - Cost(nb), so + rest)
    decreases |rest|, 3
  {
    hide *;
    NoBlocks();
    if !r.2 {
      AddFails(v, s, ino, nb, so, rest, r, so + rest);
    } else if rest == [] {
      assert so + rest == so;
      AddLast(v, s, ino, nb, r, so);
    } else {
      AddRest(v, s, ino, nb, so, rest, r);
    }
  }

  lemma NoBlocks()
    ensures BlocksFor(0) == 0
  {
  }

  lemma AddNothing(v: Volume, s: seq<word>, ino: Inode, nb: nat, before: seq<byte>, content: seq<byte>)
    requires v.Valid() && ino.Valid() && Held(v, s, ino) && Holds(v, ino, before) && content == []
    ensures Added(v, s, ino, AddChunks(v, ino, |before|, content),
                  Cost(nb + BlocksFor(|content|)) - Cost(nb), before + content)
  {
    GrewNothing(v, s, ino);
    assert before + content == before;
  }

  lemma AddFails(v: Volume, s: seq<word>, ino: Inode, nb: nat, so: seq<byte>, rest: seq<byte>,
                 r: (Volume, Inode, bool), all: seq<byte>)
    requires v.Valid() && ino.Valid() && r.0.Valid() && r.1.Valid()
    requires AddedOne(v, s, ino, nb, r, so) && !r.2
    ensures Added(v, s, ino, (r.0, r.1, false), Cost(nb + 1 + BlocksFor(|rest|)) - Cost(nb), all)
  {
    CostGrows(nb + 1, nb + 1 + BlocksFor(|rest|));
  }

  lemma AfterOne(v: Volume, s: seq<word>, ino: Inode, nb: nat, r: (Volume, Inode, bool), so: seq<byte>)
    requires v.Valid() && ino.Valid() && AddedOne(v, s, ino, nb, r, so) && r.2
    ensures r.0.Valid() && r.1.Valid() && 0 <= Cost(nb + 1) - Cost(nb) <= |s|
    ensures Grew(v, s, ino, r.0, r.1, Cost(nb + 1) - Cost(nb))
    ensures Held(r.0, s[..|s| - (Cost(nb + 1) - Cost(nb))], r.1)
    ensures Holds(r.0, r.1, so) && Dense(r.0, r.1, nb + 1)
    ensures AddChunks(r.0, r.1, |so|, []) == (r.0, r.1, true)
  {
  }

  lemma AddLast(v: Volume, s: seq<word>, ino: Inode, nb: nat, r: (Volume, Inode, bool), so: seq<byte>)
    requires v.Valid() && ino.Valid() && AddedOne(v, s, ino, nb, r, so) && r.2
    ensures r.0.Valid() && r.1.Valid()
    ensures Added(v, s, ino, AddChunks(r.0, r.1, |so|, []), Cost(nb + 1) - Cost(nb), so)
  {
    AfterOne(v, s, ino, nb, r, so);
  }

  lemma {:induction false} AddRest(v: Volume, s: seq<word>, ino: Inode, nb: nat, so: seq<byte>, rest: seq<byte>,
                                   r: (Volume, Inode, bool))
    requires v.Valid() && ino.Valid() && r.0.Valid() && r.1.Valid()
    requires AddedOne(v, s, ino, nb, r, so) && r.2
    requires |so| == 512 * (nb + 1) && |so| + |rest| <= 512 * SINGLE
    ensures Added(v, s, ino, AddChunks(r.0, r.1, |so|, rest),
                  Cost(nb + 1 + BlocksFor(|rest|)) - Cost(nb), so + rest)
    decreases |rest|, 2
  {
    hide *;
    CostGrows(nb + 1, nb + 1 + BlocksFor(|rest|));
    AddMore(v, s, ino, nb, so, rest, r);
    AddedBoth(v, s, ino, r.0, r.1, Cost(nb + 1) - Cost(nb), AddChunks(r.0, r.1, |so|, rest),
              Cost(nb + 1 + BlocksFor(|rest|)) - Cost(nb + 1), so + rest);
  }

  lemma {:induction false} AddMore(v: Volume, s: seq<word>, ino: Inode, nb: nat, so: seq<byte>, rest: seq<byte>,
                                   r: (Volume, Inode, bool))
    requires v.Valid() && ino.Valid() && r.0.Valid() && r.1.Valid()
    requires AddedOne(v, s, ino, nb, r, so) && r.2
    requires |so| == 512 * (nb + 1) && |so| + |rest| <= 512 * SINGLE
    ensures 0 <= Cost(nb + 1) - Cost(nb) <= |s| && Grew(v, s, ino, r.0, r.1, Cost(nb + 1) - Cost(nb))
    ensures Added(r.0, s[..|s| - (Cost(nb + 1) - Cost(nb))], r.1, AddChunks(r.0, r.1, |so|, rest),
                  Cost(nb + 1 + BlocksFor(|rest|)) - Cost(nb + 1), so + rest)
    decreases |rest|, 1
  {
    hide *;
    AfterOne(v, s, ino, nb, r, so);
    AddFile(r.0, s[..|s| - (Cost(nb + 1) - Cost(nb))], r.1, nb + 1, so, rest);
  }

  lemma FirstChunk(v: Volume, s: seq<word>, ino: Inode, nb: nat, before: seq<byte>, content: seq<byte>,
                   data: seq<byte>, rest: seq<byte>)
    returns (r: (Volume, Inode, bool))
    requires v.Valid() && ino.Valid() && Held(v, s, ino) && Dense(v, ino, nb) && Holds(v, ino, before)
    requires |before| == 512 * nb && nb < SINGLE && content != []
    requires |data| == (if |content| < 512 then |content| else 512) && content == data + rest
    ensures r.0.Valid() && r.1.Valid() && AddedOne(v, s, ino, nb, r, before + data)
    ensures AddChunks(v, ino, |before|, content) ==
      if !r.2 then (r.0, r.1, false) else AddChunks(r.0, r.1, |before| + |data|, rest)
  {
    hide InodeWrite, Held, Grew, Holds, Dense;
    AddChunk(v, s, ino, nb, before, data);
    AddChunksTurn(v, ino, |before|, content, data, rest);
    r := InodeWrite(v, ino, |before|, data, |data|);
  }

  lemma AddChunksTurn(v: Volume, ino: Inode, off: nat, content: seq<byte>, data: seq<byte>, rest: seq<byte>)
    requires v.Valid() && ino.Valid() && content != []
    requires |data| == (if |content| < 512 then |content| else 512) && content == data + rest
    ensures var r := InodeWrite(v, ino, off, data, |data|);
      AddChunks(v, ino, off, content) ==
        if !r.2 then (r.0, r.1, false) else AddChunks(r.0, r.1, off + |data|, rest)
  {
    assert content[..|data|] == data && content[|data|..] == rest;
  }

  lemma BlocksForChunk(content: seq<byte>, data: seq<byte>, rest: seq<byte>)
    requires content != [] && content == data + rest
    requires |data| == (if |content| < 512 then |content| else 512)
    ensures BlocksFor(|content|) == 1 + BlocksFor(|rest|)
  {
  }

  lemma AddedBoth(v: Volume, s: seq<word>, ino: Inode, u: Volume, ino1: Inode, k: nat, r: (Volume, Inode, bool),
                  j: nat, all: seq<byte>)
    requires v.Valid() && ino.Valid() && u.Valid() && ino1.Valid() && r.0.Valid() && r.1.Valid()
    requires Grew(v, s, ino, u, ino1, k)
    requires Added(u, s[..|s| - k], ino1, r, j, all)
    ensures Added(v, s, ino, r, k + j, all)
  {
    if r.2 {
      GrewTwice(v, s, ino, u, ino1, k, r.0, r.1, j);
    }
  }

  lemma {:induction false} CostGrows(a: nat, b: nat)
    requires a <= b
    ensures Cost(a) <= Cost(b)
    decreases b - a
  {
    if a < b {
      assert (a + 255) / 256 <= (a + 256) / 256;
      CostGrows(a + 1, b);
    }
  }

  // ---- reading back ----

  // A read within one block succeeds iff it lies within the size and the
  // block is mapped; it returns the bytes of the file.
  lemma ReadOneBlock(v: Volume, ino: Inode, off: nat, data: seq<byte>, n: nat)
    requires v.Valid() && ino.Valid() && off % 512 + n <= 512 && 0 < n <= |data|
    ensures var (r, ok) := InodeRead(v, ino, off, data, n);
      && (ok <==> off + n <= ino.size && ByteAt(v, ino, off) >= 0)
      && (ok ==> |r| == |data| && forall k | 0 <= k < n :: r[k] == ByteAt(v, ino, off + k))
  {
    var (r, ok) := InodeRead(v, ino, off, data, n);
    var bn := MapBlock(v, ino, BlockOf(off));
    assert Chunk(off, n) == n;
    if bn != 0 && v.InArea(bn) {
      assert v.disk[bn][off % 512] >= 0;
      var got := v.disk[bn][off % 512..off % 512 + n] + data[n..];
      assert ReadLoop(v, ino, off + n, got, 0) == (got, true);
      assert ReadLoop(v, ino, off, data, n) == (got, true);
    }
    if ok {
      forall k | 0 <= k < n ensures r[k] == ByteAt(v, ino, off + k) {
        SameBlock(off, k);
      }
    }
  }

  lemma SameBlock(off: nat, k: nat)
    requires off % 512 + k < 512
    ensures BlockOf(off + k) == BlockOf(off) && (off + k) % 512 == off % 512 + k
  {
    assert (off + k) / 512 == off / 512;
  }

  // One chunk of the content, as it is read into the buffer.
  lemma HeldChunk(v: Volume, ino: Inode, off: nat, buf: Block, content: seq<byte>)
    requires v.Valid() && ino.Valid() && Holds(v, ino, content) && off % 512 == 0 && off < |content|
    ensures
      var n := if ino.size - off > 512 then 512 else ino.size - off;
      var (r, ok) := InodeRead(v, ino, off, buf, n);
      ok && |r| == 512 && r[..n] == content[off..off + n]
  {
    var n := if ino.size - off > 512 then 512 else ino.size - off;
    assert ByteAt(v, ino, off) == content[off];
    ReadOneBlock(v, ino, off, buf, n);
    var r := InodeRead(v, ino, off, buf, n).0;
    hide InodeRead, MapBlock;
    assert forall k | 0 <= k < n :: r[k] == ByteAt(v, ino, off + k) == content[off + k];
  }

  lemma {:induction false} ExtractHeld(v: Volume, ino: Inode, off: nat, buf: Block, content: seq<byte>)
    requires v.Valid() && ino.Valid() && Holds(v, ino, content)
    requires off % 512 == 0
    ensures Extract(v, ino, off, buf) == if off >= |content| then [] else content[off..]
    decreases |content| - off
  {
    if off < |content| {
      HeldChunk(v, ino, off, buf, content);
      var n := if ino.size - off > 512 then 512 else ino.size - off;
      var buf' := InodeRead(v, ino, off, buf, n).0;
      hide InodeRead;
      ExtractHeld(v, ino, off + 512, buf', content);
      if off + 512 < |content| {
        assert content[off..] == content[off..off + 512] + content[off + 512..];
      } else {
        assert content[off..] == content[off..off + n];
      }
    }
  }

  // Copying a file in by 512-byte chunks and extracting it by 512-byte chunks
  // returns the file, for every length below the double indirect range.
  lemma CopyRoundTrip(v: Volume, s: seq<word>, ino: Inode, content: seq<byte>, buf: Block)
    requires Held(v, s, ino) && ino.size == 0 && !Large(ino.mode)
    requires ino.addr == [0, 0, 0, 0, 0, 0, 0, 0] && |content| <= 512 * SINGLE
    ensures var (u, ino', ok) := AddChunks(v, ino, 0, content);
      && (ok <==> Cost(BlocksFor(|content|)) <= |s|)
      && (ok ==> Extract(u, ino', 0, buf) == content)
  {
    AddFile(v, s, ino, 0, [], content);
    assert [] + content == content;
    var (u, ino', ok) := AddChunks(v, ino, 0, content);
    if ok {
      ExtractHeld(u, ino', 0, buf, content);
    }
  }
}
