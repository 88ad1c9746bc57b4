// What map_block_write promises below the double indirect range: it agrees
// with map_block, allocates exactly the blocks that were missing, and leaves
// every other logical block of the file where and as it was.
module MapTheorem {
  import opened Words
  import opened FreeBlocks
  import opened Inodes
  import opened Mapping

  // The slot of the inode that leads to logical block l of a large file, and
  // the depth of the tree below it.
  function SlotOf(l: word): nat { if l / 256 > 7 then 7 else l / 256 }
  function DepthOf(i: nat): nat { if i < 7 then 1 else 2 }

  // The blocks below slot i of a large inode.
  ghost function Below(v: Volume, ino: Inode, i: nat): seq<word>
    requires v.Valid() && ino.Valid() && i < 8
  {
    Own(v, ino.addr[i], DepthOf(i))
  }

  lemma BelowDisjoint(v: Volume, s: seq<word>, ino: Inode, i: nat, j: nat)
    requires v.Valid() && ino.Valid() && Large(ino.mode) && !Special(ino.mode)
    requires Apart(v, s, Blocks(v, ino)) && i < 8 && j < 8 && i != j
    ensures forall b | b in Below(v, ino, i) :: b !in Below(v, ino, j)
  {
    var a := OwnAll(v, ino.addr[..7], 1);
    var all: seq<word> := Blocks(v, ino);
    var bi: multiset<word>, bj: multiset<word> := multiset(Below(v, ino, i)), multiset(Below(v, ino, j));
    assert multiset(all) == multiset(a) + multiset(Below(v, ino, 7));
    assert bi + bj <= multiset(all) by {
      if i < 7 && j < 7 {
        OwnPair(v, ino.addr[..7], 1, if i < j then i else j, if i < j then j else i);
      } else {
        OwnWithin(v, ino.addr[..7], 1, if i < 7 then i else j);
      }
    }
    forall b | b in Below(v, ino, i) ensures b !in Below(v, ino, j) {
      assert bi[b] >= 1 && (multiset(s) + multiset(all))[b] <= 1;
    }
  }

  lemma BelowApart(v: Volume, s: seq<word>, ino: Inode, i: nat)
    requires v.Valid() && ino.Valid() && Large(ino.mode) && !Special(ino.mode)
    requires Apart(v, s, Blocks(v, ino)) && i < 8
    ensures Apart(v, s, Below(v, ino, i))
    ensures forall b | b in Below(v, ino, i) :: b in Blocks(v, ino)
  {
    var a := OwnAll(v, ino.addr[..7], 1);
    var all: seq<word> := Blocks(v, ino);
    var bi: multiset<word> := multiset(Below(v, ino, i));
    assert multiset(all) == multiset(a) + multiset(Below(v, ino, 7));
    assert bi <= multiset(all) by {
      if i < 7 { OwnWithin(v, ino.addr[..7], 1, i); }
    }
    forall b | b in Below(v, ino, i) ensures b in all {
      assert bi[b] >= 1;
      assert multiset(all)[b] >= 1;
    }
    forall b: word ensures (multiset(s) + bi)[b] <= 1 {
      assert (multiset(s) + multiset(all))[b] <= 1;
    }
  }

  lemma HeadOfOwn(v: Volume, w: word, d: nat)
    requires v.Valid() && w != 0
    ensures Own(v, w, d) != [] && Own(v, w, d)[0] == w
  {
  }

  // A mapped block of a large file lies below its slot and is not the
  // indirect block itself.
  lemma MappedIsBelow(v: Volume, s: seq<word>, ino: Inode, l: word)
    requires v.Valid() && ino.Valid() && Large(ino.mode) && !Special(ino.mode)
    requires Apart(v, s, Blocks(v, ino)) && MapBlock(v, ino, l) != 0
    ensures MapBlock(v, ino, l) in Below(v, ino, SlotOf(l))
    ensures MapBlock(v, ino, l) != ino.addr[SlotOf(l)]
  {
    var i := SlotOf(l);
    var nb := ino.addr[i];
    var ws := WordsOf(v.disk[nb]);
    var b := MapBlock(v, ino, l);
    BelowApart(v, s, ino, i);
    ApartSplit(v, s, [nb], OwnAll(v, ws, DepthOf(i) - 1));
    if i < 7 {
      OwnWithin(v, ws, 0, l % 256);
      assert b in multiset(Own(v, b, 0));
      assert b in multiset(OwnAll(v, ws, 0));
    } else {
      var ib := ws[l / 256 - 7];
      var us := WordsOf(v.disk[ib]);
      OwnWithin(v, us, 0, l % 256);
      assert b in multiset(Own(v, b, 0));
      assert b in multiset(OwnAll(v, us, 0));
      assert Own(v, ib, 1) == [ib] + OwnAll(v, us, 0);
      assert b in multiset(Own(v, ib, 1));
      OwnWithin(v, ws, 1, l / 256 - 7);
      assert b in multiset(OwnAll(v, ws, 1));
    }
    assert nb in [nb];
  }

  // Mapping below a slot that did not change.
  lemma MapFrame(v: Volume, u: Volume, ino: Inode, ino': Inode, l: word, at: multiset<word>)
    requires v.Valid() && u.Valid() && ino.Valid() && ino'.Valid()
    requires Large(ino.mode) && Large(ino'.mode) && ino'.addr[SlotOf(l)] == ino.addr[SlotOf(l)]
    requires SameBut(v, u, at) && forall b | b in Below(v, ino, SlotOf(l)) :: b !in at
    ensures MapBlock(u, ino', l) == MapBlock(v, ino, l)
  {
    var i := SlotOf(l);
    var nb := ino.addr[i];
    if l <= 0x7FFF && nb != 0 && v.InArea(nb) {
      HeadOfOwn(v, nb, DepthOf(i));
      assert nb in Below(v, ino, i);
      if i == 7 {
        var ib := WordAt(v.disk[nb], l / 256 - 7);
        if ib != 0 && v.InArea(ib) { SecondBelow(v, ino, l); }
      }
    }
    hide Own, OwnAll, Below;
    SameMaps(v, u, ino, ino', l);
  }

  lemma SecondBelow(v: Volume, ino: Inode, l: word)
    requires v.Valid() && ino.Valid() && SINGLE <= l <= 0x7FFF && ino.addr[7] != 0 && v.InArea(ino.addr[7])
    requires
      var ib := WordAt(v.disk[ino.addr[7]], l / 256 - 7);
      ib != 0 && v.InArea(ib)
    ensures WordAt(v.disk[ino.addr[7]], l / 256 - 7) in Below(v, ino, 7)
  {
    var nb := ino.addr[7];
    var ws := WordsOf(v.disk[nb]);
    var ib := ws[l / 256 - 7];
    HeadOfOwn(v, ib, 1);
    assert ib in multiset(Own(v, ib, 1));
    assert Below(v, ino, 7) == [nb] + OwnAll(v, ws, 1);
    hide Own, OwnAll;
    OwnWithin(v, ws, 1, l / 256 - 7);
    assert ib in multiset(OwnAll(v, ws, 1));
  }

  // Mapping reads at most two blocks.
  lemma SameMaps(v: Volume, u: Volume, ino: Inode, ino': Inode, l: word)
    requires v.Valid() && u.Valid() && ino.Valid() && ino'.Valid()
    requires Large(ino.mode) && Large(ino'.mode) && ino'.addr[SlotOf(l)] == ino.addr[SlotOf(l)]
    requires v.isize == u.isize && v.fsize == u.fsize
    requires
      var nb := ino.addr[SlotOf(l)];
      l <= 0x7FFF && nb != 0 && v.InArea(nb) ==>
        && u.disk[nb] == v.disk[nb]
        && (SlotOf(l) == 7 ==>
             var ib := WordAt(v.disk[nb], l / 256 - 7);
             ib != 0 && v.InArea(ib) ==> u.disk[ib] == v.disk[ib])
    ensures MapBlock(u, ino', l) == MapBlock(v, ino, l)
  {
  }

  // `at` misses everything below the slots other than i.
  lemma OtherSlots(v: Volume, s: seq<word>, ino: Inode, i: nat, j: nat, at: multiset<word>)
    requires v.Valid() && ino.Valid() && Large(ino.mode) && !Special(ino.mode)
    requires Apart(v, s, Blocks(v, ino)) && i < 8 && j < 8 && i != j
    requires forall b | b in at :: b in s || b == ino.addr[i] != 0
    ensures forall b | b in Below(v, ino, j) :: b !in at
  {
    BelowDisjoint(v, s, ino, j, i);
    BelowApart(v, s, ino, j);
    assert Below(v, ino, j) + [] == Below(v, ino, j);
    ApartSplit(v, s, Below(v, ino, j), []);
    if ino.addr[i] != 0 {
      HeadOfOwn(v, ino.addr[i], DepthOf(i));
      assert ino.addr[i] in Below(v, ino, i);
    }
  }

  // One slot of a large inode gains `extra`, everything else stays.
  lemma LargeGrows(v: Volume, s: seq<word>, ino: Inode, u: Volume, ino': Inode, i: nat, at: multiset<word>,
                   extra: multiset<word>)
    requires v.Valid() && u.Valid() && ino.Valid() && ino'.Valid()
    requires Large(ino.mode) && !Special(ino.mode) && ino'.mode == ino.mode
    requires Apart(v, s, Blocks(v, ino)) && SameBut(v, u, at) && i < 7
    requires forall j | 0 <= j < 8 && j != i :: ino'.addr[j] == ino.addr[j]
    requires forall b | b in at :: b in s || b == ino.addr[i] != 0
    requires multiset(Below(u, ino', i)) == multiset(Below(v, ino, i)) + extra
    ensures multiset(Blocks(u, ino')) == multiset(Blocks(v, ino)) + extra
  {
    forall j | 0 <= j < 8 && j != i
      ensures Below(u, ino', j) == Below(v, ino, j)
    {
      OtherSlots(v, s, ino, i, j, at);
      OwnFrame(v, u, ino.addr[j], DepthOf(j), at);
    }
    SlotsGrow(v, ino, u, ino', i, extra);
  }

  lemma SlotsGrow(v: Volume, ino: Inode, u: Volume, ino': Inode, i: nat, extra: multiset<word>)
    requires v.Valid() && u.Valid() && ino.Valid() && ino'.Valid()
    requires Large(ino.mode) && !Special(ino.mode) && ino'.mode == ino.mode && i < 7
    requires forall j | 0 <= j < 8 && j != i :: Below(u, ino', j) == Below(v, ino, j)
    requires multiset(Below(u, ino', i)) == multiset(Below(v, ino, i)) + extra
    ensures multiset(Blocks(u, ino')) == multiset(Blocks(v, ino)) + extra
  {
    forall j | 0 <= j < 7 && j != i
      ensures Own(u, ino'.addr[..7][j], 1) == Own(v, ino.addr[..7][j], 1)
    {
      assert Below(u, ino', j) == Below(v, ino, j);
    }
    OwnGrows(v, ino.addr[..7], u, ino'.addr[..7], 1, i, extra);
    assert Below(u, ino', 7) == Below(v, ino, 7);
  }

  lemma LargeMapsAsBefore(v: Volume, s: seq<word>, ino: Inode, u: Volume, ino': Inode, i: nat, at: multiset<word>,
                          l: word)
    requires v.Valid() && u.Valid() && ino.Valid() && ino'.Valid()
    requires Large(ino.mode) && !Special(ino.mode) && ino'.mode == ino.mode
    requires Apart(v, s, Blocks(v, ino)) && SameBut(v, u, at) && i < 7
    requires forall j | 0 <= j < 8 && j != i :: ino'.addr[j] == ino.addr[j]
    requires forall b | b in at :: b in s || b == ino.addr[i] != 0
    requires SlotOf(l) != i
    ensures MapBlock(u, ino', l) == MapBlock(v, ino, l)
  {
    OtherSlots(v, s, ino, i, SlotOf(l), at);
    MapFrame(v, u, ino, ino', l, at);
  }

  // ---- what one call does ----

  // m is the result of a call that took the top k free blocks into the file.
  ghost predicate Takes(v: Volume, s: seq<word>, ino: Inode, m: Mapped, k: nat)
    requires v.Valid() && ino.Valid()
  {
    && k <= |s| && m.bno != 0 && m.vol.Valid() && m.ino.Valid()
    && FreeStack(m.vol, s[..|s| - k])
    && Special(m.ino.mode) == Special(ino.mode)
    && multiset(Blocks(m.vol, m.ino)) == multiset(Blocks(v, ino)) + multiset(s[|s| - k..])
    && SameBut(v, m.vol, multiset(Blocks(v, ino)) + multiset(s[|s| - k..]))
  }

  // Logical block l is where it was and holds what it held.
  ghost predicate Kept(v: Volume, ino: Inode, u: Volume, ino': Inode, l: word)
    requires v.Valid() && ino.Valid() && u.Valid() && ino'.Valid() && |u.disk| == |v.disk|
  {
    && MapBlock(u, ino', l) == MapBlock(v, ino, l)
    && (0 < MapBlock(v, ino, l) < |v.disk| ==> u.disk[MapBlock(v, ino, l)] == v.disk[MapBlock(v, ino, l)])
  }

  lemma TopBlock(s: seq<word>)
    requires s != []
    ensures s[|s| - 1..] == [s[|s| - 1]]
    ensures multiset(s[|s| - 1..]) == multiset{s[|s| - 1]}
  {
  }

  // The entry for l in an indirect block that exists is filled in.
  lemma FillEntry(v: Volume, s: seq<word>, ino: Inode, l: word)
    requires v.Valid() && ino.Valid() && Large(ino.mode) && !Special(ino.mode)
    requires Apart(v, s, Blocks(v, ino)) && l < SINGLE && s != []
    requires ino.addr[l / 256] != 0 && MapBlock(v, ino, l) == 0
    ensures var m := LargeWrite(v, ino, l);
      && Takes(v, s, ino, m, 1)
      && MapBlock(m.vol, m.ino, l) == m.bno == s[|s| - 1]
      && forall k: word | k != l :: Kept(v, ino, m.vol, m.ino, k)
  {
    var i := l / 256;
    var ib := ino.addr[i];
    HeadOfOwn(v, ib, 1);
    BelowApart(v, s, ino, i);
    InApart(v, s, Below(v, ino, i), ib);
    AllocPops(v, s);
    var m := LargeWrite(v, ino, l);
    var v1 := Alloc(v).0;
    assert ib in Below(v, ino, i);
    assert ib !in s[..|s| - 1];
    WriteKeepsStack(v1, s[..|s| - 1], ib, SetWord(v.disk[ib], l % 256, m.bno));
    assert m.vol == Write(v1, ib, SetWord(v.disk[ib], l % 256, m.bno));
    EntryFilled(v, s, ino, l, m.vol);
  }

  // The same, for the volume u that results.
  lemma EntryFilled(v: Volume, s: seq<word>, ino: Inode, l: word, u: Volume)
    requires v.Valid() && u.Valid() && ino.Valid() && Large(ino.mode) && !Special(ino.mode)
    requires Apart(v, s, Blocks(v, ino)) && l < SINGLE && s != []
    requires ino.addr[l / 256] != 0 && MapBlock(v, ino, l) == 0 && s[|s| - 1] != 0
    requires v.InArea(ino.addr[l / 256]) && ino.addr[l / 256] in Blocks(v, ino)
    requires FreeStack(u, s[..|s| - 1]) && SameBut(v, u, multiset{ino.addr[l / 256]})
    requires u.disk[ino.addr[l / 256]] == SetWord(v.disk[ino.addr[l / 256]], l % 256, s[|s| - 1])
    ensures Takes(v, s, ino, Mapped(u, ino, s[|s| - 1]), 1)
    ensures MapBlock(u, ino, l) == s[|s| - 1]
    ensures forall k: word | k != l :: Kept(v, ino, u, ino, k)
  {
    hide Own, OwnAll, Blocks, MapWrite, FreeStack, Chain, Takes, Kept, Apart;
    EntryOwned(v, s, ino, l, u);
    EntryKept(v, s, ino, l, u);
  }

  lemma EntryOwned(v: Volume, s: seq<word>, ino: Inode, l: word, u: Volume)
    requires v.Valid() && u.Valid() && ino.Valid() && Large(ino.mode) && !Special(ino.mode)
    requires Apart(v, s, Blocks(v, ino)) && l < SINGLE && s != []
    requires ino.addr[l / 256] != 0 && s[|s| - 1] != 0 && MapBlock(v, ino, l) == 0
    requires v.InArea(ino.addr[l / 256]) && ino.addr[l / 256] in Blocks(v, ino)
    requires FreeStack(u, s[..|s| - 1]) && SameBut(v, u, multiset{ino.addr[l / 256]})
    requires u.disk[ino.addr[l / 256]] == SetWord(v.disk[ino.addr[l / 256]], l % 256, s[|s| - 1])
    ensures Takes(v, s, ino, Mapped(u, ino, s[|s| - 1]), 1)
  {
    var i := l / 256;
    var ib := ino.addr[i];
    var nb := s[|s| - 1];
    assert u.InArea(ib);
    hide Own, OwnAll, Blocks, FreeStack, Chain, Apart, SameBut;
    GainsEntry(v, u, ib, l % 256, nb);
    LargeGrows(v, s, ino, u, ino, i, multiset{ib}, multiset{nb});
    TopBlock(s);
    SameButMore(v, u, multiset{ib}, multiset(Blocks(v, ino)) + multiset(s[|s| - 1..]));
  }

  lemma EntryKept(v: Volume, s: seq<word>, ino: Inode, l: word, u: Volume)
    requires v.Valid() && u.Valid() && ino.Valid() && Large(ino.mode) && !Special(ino.mode)
    requires Apart(v, s, Blocks(v, ino)) && l < SINGLE
    requires ino.addr[l / 256] != 0
    requires v.InArea(ino.addr[l / 256]) && SameBut(v, u, multiset{ino.addr[l / 256]})
    requires exists nb :: u.disk[ino.addr[l / 256]] == SetWord(v.disk[ino.addr[l / 256]], l % 256, nb)
    ensures forall k: word | k != l :: Kept(v, ino, u, ino, k)
  {
    var i := l / 256;
    forall k: word | k != l ensures Kept(v, ino, u, ino, k) {
      KeptByEntry(v, s, ino, u, ino, i, l, multiset{ino.addr[i]}, k);
    }
  }

  lemma SameButMore(v: Volume, u: Volume, at: multiset<word>, more: multiset<word>)
    requires SameBut(v, u, at) && forall b | b in at :: b in more
    ensures SameBut(v, u, more)
  {
  }

  lemma ZeroSlotFilled(v: Volume, u: Volume, ws: seq<word>, k: nat, nb: word)
    requires v.Valid() && u.Valid() && k < |ws| && ws[k] == 0 && nb != 0
    ensures multiset(OwnAll(u, ws[k := nb], 0)) == multiset(OwnAll(v, ws, 0)) + multiset{nb}
  {
    forall j | 0 <= j < |ws| && j != k ensures Own(u, ws[k := nb][j], 0) == Own(v, ws[j], 0) {
    }
    OwnGrows(v, ws, u, ws[k := nb], 0, k, multiset{nb});
  }

  lemma GainsEntry(v: Volume, u: Volume, ib: word, k: nat, nb: word)
    requires v.Valid() && u.Valid() && v.InArea(ib) && u.InArea(ib) && ib != 0 && nb != 0 && k < 256
    requires WordAt(v.disk[ib], k) == 0 && u.disk[ib] == SetWord(v.disk[ib], k, nb)
    ensures multiset(Own(u, ib, 1)) == multiset(Own(v, ib, 1)) + multiset{nb}
  {
    var ws := WordsOf(v.disk[ib]);
    WordsOfSetWord(v.disk[ib], k, nb);
    ZeroSlotFilled(v, u, ws, k, nb);
    assert Own(v, ib, 1) == [ib] + OwnAll(v, ws, 0);
    assert Own(u, ib, 1) == [ib] + OwnAll(u, ws[k := nb], 0);
  }

  // Blocks mapped elsewhere are kept when only entry l below slot i changed.
  lemma KeptByEntry(v: Volume, s: seq<word>, ino: Inode, u: Volume, ino': Inode, i: nat, l: word,
                    at: multiset<word>, k: word)
    requires v.Valid() && u.Valid() && ino.Valid() && ino'.Valid()
    requires Large(ino.mode) && !Special(ino.mode) && ino'.mode == ino.mode
    requires Apart(v, s, Blocks(v, ino)) && SameBut(v, u, at)
    requires l < SINGLE && i == l / 256 && k != l
    requires forall j | 0 <= j < 8 && j != i :: ino'.addr[j] == ino.addr[j]
    requires forall b | b in at :: b in s || b == ino.addr[i] != 0
    requires u.InArea(ino'.addr[i]) && ino'.addr[i] != 0
    requires forall j: nat | j < 256 && j != l % 256 ::
      WordAt(u.disk[ino'.addr[i]], j) ==
        if ino.addr[i] == 0 || !v.InArea(ino.addr[i]) then 0 else WordAt(v.disk[ino.addr[i]], j)
    ensures Kept(v, ino, u, ino', k)
  {
    if SlotOf(k) != i {
      LargeMapsAsBefore(v, s, ino, u, ino', i, at, k);
    }
    var b := MapBlock(v, ino, k);
    if b != 0 {
      MappedIsBelow(v, s, ino, k);
      BelowApart(v, s, ino, SlotOf(k));
      if SlotOf(k) != i {
        OtherSlots(v, s, ino, i, SlotOf(k), at);
      } else {
        var own := Below(v, ino, i);
        assert own + [] == own;
        ApartSplit(v, s, own, []);
      }
      assert b !in at;
    }
  }

  lemma TopTwo(s: seq<word>)
    requires |s| >= 2
    ensures s[..|s| - 1][..|s| - 2] == s[..|s| - 2]
    ensures multiset(s[|s| - 2..]) == multiset{s[|s| - 1], s[|s| - 2]}
  {
    assert s[|s| - 2..] == [s[|s| - 2], s[|s| - 1]];
  }

  // The tree of an indirect block that holds the one entry nb.
  lemma OneEntry(u: Volume, ib: word, k: nat, nb: word)
    requires u.Valid() && u.InArea(ib) && ib != 0 && nb != 0 && k < 256
    requires u.disk[ib] == SetWord(Zeros(), k, nb)
    ensures multiset(Own(u, ib, 1)) == multiset{ib, nb}
  {
    var zs := WordsOf(Zeros());
    WordsOfSetWord(Zeros(), k, nb);
    assert zs == seq(256, _ => 0);
    ZerosOwnNothing(u, 256);
    ZeroSlotFilled(u, u, zs, k, nb);
    assert Own(u, ib, 1) == [ib] + OwnAll(u, zs[k := nb], 0);
  }

  // The two blocks taken for a new indirect block and the entry k in it.
  lemma TwoTaken(v: Volume, s: seq<word>, k: nat)
    requires FreeStack(v, s) && |s| >= 2 && k < 256
    ensures
      var (v1, ib) := Alloc(v);
      var (v2, nb) := Alloc(v1);
      && ib == s[|s| - 1] != 0 && nb == s[|s| - 2] != 0 && v1.InArea(ib) && v2.InArea(ib)
      && SameBut(v, v2, multiset{})
      && FreeStack(Write(v2, ib, SetWord(Zeros(), k, nb)), s[..|s| - 2])
  {
    var t := s[..|s| - 1];
    InStack(v, s, |s| - 1);
    hide FreeStack, Alloc, SetWord;
    AllocPops(v, s);
    var (v1, ib) := Alloc(v);
    AllocPops(v1, t);
    var (v2, nb) := Alloc(v1);
    TopTwo(s);
    WriteKeepsStack(v2, s[..|s| - 2], ib, SetWord(Zeros(), k, nb));
  }

  lemma InStack(v: Volume, s: seq<word>, k: nat)
    requires FreeStack(v, s) && 0 < k < |s|
    ensures v.InArea(s[k]) && s[k] !in s[..k] && s[k] !in s[..k - 1]
  {
    assert s[k] in s[k..];
    PrefixOnce(s, k);
  }

  // What a large file with no block at the slot of l becomes.
  lemma NewIndirectIs(v: Volume, s: seq<word>, ino: Inode, l: word)
    requires ino.Valid() && Large(ino.mode) && FreeStack(v, s) && l < SINGLE && |s| >= 2 && ino.addr[l / 256] == 0
    ensures
      var m := LargeWrite(v, ino, l);
      var ib := s[|s| - 1];
      && m.bno == s[|s| - 2] != 0 && m.ino == ino.(addr := ino.addr[l / 256 := ib])
      && m.vol.InArea(ib) && ib != 0 && m.vol.disk[ib] == SetWord(Zeros(), l % 256, m.bno)
      && SameBut(v, m.vol, multiset{ib}) && FreeStack(m.vol, s[..|s| - 2])
  {
    TwoTaken(v, s, l % 256);
    hide FreeStack, Alloc, SetWord;
    ZeroWord(l % 256);
  }

  lemma ZeroWord(k: nat)
    requires k < 256
    ensures WordAt(Zeros(), k) == 0
  {
  }

  // A large file gets a new indirect block and, in it, the entry for l.
  lemma NewIndirect(v: Volume, s: seq<word>, ino: Inode, l: word)
    requires v.Valid() && ino.Valid() && Large(ino.mode) && !Special(ino.mode)
    requires Apart(v, s, Blocks(v, ino)) && l < SINGLE && |s| >= 2
    requires ino.addr[l / 256] == 0
    ensures var m := LargeWrite(v, ino, l);
      && Takes(v, s, ino, m, 2)
      && MapBlock(m.vol, m.ino, l) == m.bno == s[|s| - 2]
      && forall k: word | k != l :: Kept(v, ino, m.vol, m.ino, k)
  {
    NewIndirectIs(v, s, ino, l);
    var m := LargeWrite(v, ino, l);
    assert Below(v, ino, l / 256) == [];
    NewEntryMapped(m.vol, m.ino, l, m.bno);
    hide Own, OwnAll, Blocks, FreeStack, Chain, Apart, LargeWrite, Kept, MapBlock, Takes, Below;
    NewIndirectOwned(v, s, ino, l, m);
    forall k: word | k != l ensures Kept(v, ino, m.vol, m.ino, k) {
      KeptByEntry(v, s, ino, m.vol, m.ino, l / 256, l, multiset{s[|s| - 1]}, k);
    }
  }

  lemma NewEntryMapped(u: Volume, ino: Inode, l: word, nb: word)
    requires u.Valid() && ino.Valid() && Large(ino.mode) && l < SINGLE
    requires u.InArea(ino.addr[l / 256]) && ino.addr[l / 256] != 0
    requires u.disk[ino.addr[l / 256]] == SetWord(Zeros(), l % 256, nb)
    ensures MapBlock(u, ino, l) == nb
    ensures forall j: nat | j < 256 && j != l % 256 :: WordAt(u.disk[ino.addr[l / 256]], j) == 0
  {
  }

  lemma NewIndirectOwned(v: Volume, s: seq<word>, ino: Inode, l: word, m: Mapped)
    requires v.Valid() && ino.Valid() && Large(ino.mode) && !Special(ino.mode) && m.vol.Valid()
    requires Apart(v, s, Blocks(v, ino)) && l < SINGLE && |s| >= 2 && m.bno == s[|s| - 2] != 0
    requires Below(v, ino, l / 256) == [] && m.ino == ino.(addr := ino.addr[l / 256 := s[|s| - 1]])
    requires m.vol.InArea(s[|s| - 1]) && m.vol.disk[s[|s| - 1]] == SetWord(Zeros(), l % 256, m.bno) && s[|s| - 1] != 0
    requires SameBut(v, m.vol, multiset{s[|s| - 1]}) && FreeStack(m.vol, s[..|s| - 2])
    ensures Takes(v, s, ino, m, 2)
  {
    hide Own, OwnAll, Blocks, FreeStack, Chain, Apart, SameBut;
    var i, ib := l / 256, s[|s| - 1];
    OneEntry(m.vol, ib, l % 256, m.bno);
    TopTwo(s);
    LargeGrows(v, s, ino, m.vol, m.ino, i, multiset{ib}, multiset{ib, m.bno});
    SameButMore(v, m.vol, multiset{ib}, multiset(Blocks(v, ino)) + multiset(s[|s| - 2..]));
  }

  // A direct slot of a small file is filled in.
  lemma FillDirect(v: Volume, s: seq<word>, ino: Inode, l: word)
    requires v.Valid() && ino.Valid() && !Large(ino.mode) && !Special(ino.mode)
    requires Apart(v, s, Blocks(v, ino)) && l < 8 && s != [] && ino.addr[l] == 0
    ensures var m := MapWrite(v, ino, l);
      && Takes(v, s, ino, m, 1)
      && MapBlock(m.vol, m.ino, l) == m.bno == s[|s| - 1]
      && forall k: word | k != l :: Kept(v, ino, m.vol, m.ino, k)
  {
    AllocPops(v, s);
    TopBlock(s);
    var m := MapWrite(v, ino, l);
    DirectOwned(v, m.vol, ino, m.ino, l, m.bno);
    hide Own, OwnAll, Blocks, FreeStack, Alloc;
    SameButMore(v, m.vol, multiset{}, multiset(Blocks(v, ino)) + multiset(s[|s| - 1..]));
  }

  lemma DirectOwned(v: Volume, u: Volume, ino: Inode, ino': Inode, l: word, nb: word)
    requires v.Valid() && u.Valid() && ino.Valid() && !Large(ino.mode) && !Special(ino.mode)
    requires l < 8 && ino.addr[l] == 0 && nb != 0 && ino' == ino.(addr := ino.addr[l := nb])
    ensures ino'.Valid() && multiset(Blocks(u, ino')) == multiset(Blocks(v, ino)) + multiset{nb}
  {
    hide OwnAll, Own;
    ZeroSlotFilled(v, u, ino.addr, l, nb);
  }

  // The state in the middle of map_block_write, after "convert small to large".
  function Converted(v: Volume, ino: Inode): (r: (Volume, Inode))
    requires v.Valid() && ino.Valid() && v.InArea(Alloc(v).1)
    ensures r.0.Valid() && r.1.Valid()
  {
    var (v1, nb) := Alloc(v);
    (Write(v1, nb, SetWords(Zeros(), 0, ino.addr)),
     Inode(SetLarge(ino.mode), ino.size, [nb, 0, 0, 0, 0, 0, 0, 0]))
  }

  lemma {:induction false} OwnAllConcat(v: Volume, a: seq<word>, b: seq<word>, d: nat)
    requires v.Valid()
    ensures OwnAll(v, a + b, d) == OwnAll(v, a, d) + OwnAll(v, b, d)
    decreases |a|
  {
    if a == [] {
      assert a + b == b;
    } else {
      assert (a + b)[1..] == a[1..] + b;
      OwnAllConcat(v, a[1..], b, d);
    }
  }

  lemma {:induction false} OwnAllSame(v: Volume, u: Volume, ws: seq<word>)
    requires v.Valid() && u.Valid()
    ensures OwnAll(u, ws, 0) == OwnAll(v, ws, 0)
  {
    if ws != [] {
      OwnAllSame(v, u, ws[1..]);
    }
  }

  // The conversion from 8 direct addresses to an indirect block takes one
  // block, owns the old blocks through it, and maps every logical block as
  // before.
  lemma ConvertKeeps(v: Volume, s: seq<word>, ino: Inode)
    requires v.Valid() && ino.Valid() && !Large(ino.mode) && !Special(ino.mode)
    requires Apart(v, s, Blocks(v, ino)) && s != []
    ensures v.InArea(Alloc(v).1)
    ensures var (u, ino') := Converted(v, ino);
      && Takes(v, s, ino, Mapped(u, ino', s[|s| - 1]), 1)
      && Apart(u, s[..|s| - 1], Blocks(u, ino'))
      && forall l: word :: Kept(v, ino, u, ino', l)
  {
    ConvertedIs(v, s, ino);
    TopBlock(s);
    var nb := s[|s| - 1];
    var (u, ino') := Converted(v, ino);
    assert nb in s;
    hide Own, OwnAll, Blocks, MapBlock, Apart, FreeStack, Chain, Kept, Converted, SameBut, SetWords;
    ConvertedBlocks(v, ino, u, ino', nb);
    SameButMore(v, u, multiset{nb}, multiset(Blocks(v, ino)) + multiset(s[|s| - 1..]));
    forall l: word ensures Kept(v, ino, u, ino', l) {
      ConvertedMaps(v, s, ino, u, ino', nb, l);
    }
    ApartMoved(v, s, Blocks(v, ino), u, Blocks(u, ino'));
  }

  lemma ConvertedIs(v: Volume, s: seq<word>, ino: Inode)
    requires ino.Valid() && !Special(ino.mode) && FreeStack(v, s) && s != []
    ensures v.InArea(Alloc(v).1)
    ensures
      var (u, ino') := Converted(v, ino);
      var nb := s[|s| - 1];
      && nb != 0 && u.InArea(nb) && u.disk[nb] == SetWords(Zeros(), 0, ino.addr)
      && ino'.addr == [nb, 0, 0, 0, 0, 0, 0, 0] && Large(ino'.mode) && !Special(ino'.mode)
      && u.isize == v.isize && u.fsize == v.fsize
      && SameBut(v, u, multiset{nb}) && FreeStack(u, s[..|s| - 1])
  {
    assert s[|s| - 1] in s && s[|s| - 1] in s[|s| - 1..];
    PrefixOnce(s, |s| - 1);
    AllocPops(v, s);
    hide Chain, Alloc, SetWords;
    WriteKeepsStack(Alloc(v).0, s[..|s| - 1], s[|s| - 1], SetWords(Zeros(), 0, ino.addr));
  }

  lemma ConvertedMaps(v: Volume, s: seq<word>, ino: Inode, u: Volume, ino': Inode, nb: word, l: word)
    requires v.Valid() && u.Valid() && ino.Valid() && ino'.Valid()
    requires !Special(ino.mode) && !Large(ino.mode) && Large(ino'.mode)
    requires Apart(v, s, Blocks(v, ino)) && nb in s && u.InArea(nb) && nb != 0
    requires ino'.addr == [nb, 0, 0, 0, 0, 0, 0, 0] && SameBut(v, u, multiset{nb})
    requires u.disk[nb] == SetWords(Zeros(), 0, ino.addr)
    ensures Kept(v, ino, u, ino', l)
  {
    var b := MapBlock(v, ino, l);
    if b != 0 {
      var all: seq<word> := Blocks(v, ino);
      assert all + [] == all;
      ApartSplit(v, s, all, []);
      OwnWithin(v, ino.addr, 0, l);
      assert b in multiset(Own(v, b, 0));
      assert b in multiset(all);
      assert b in all;
    }
  }

  lemma ConvertedBlocks(v: Volume, ino: Inode, u: Volume, ino': Inode, nb: word)
    requires v.Valid() && u.Valid() && ino.Valid() && ino'.Valid()
    requires !Special(ino.mode) && !Large(ino.mode) && !Special(ino'.mode) && Large(ino'.mode)
    requires nb != 0 && u.InArea(nb) && ino'.addr == [nb, 0, 0, 0, 0, 0, 0, 0]
    requires u.disk[nb] == SetWords(Zeros(), 0, ino.addr)
    ensures Blocks(u, ino') == [nb] + Blocks(v, ino)
  {
    var ws := WordsOf(u.disk[nb]);
    assert ws == ino.addr + seq(248, _ => 0);
    OwnAllConcat(u, ino.addr, seq(248, _ => 0), 0);
    ZerosOwnNothing(u, 248);
    OwnAllSame(v, u, ino.addr);
    assert Own(u, nb, 1) == [nb] + OwnAll(v, ino.addr, 0);
    var rest := ino'.addr[1..7];
    assert ino'.addr[..7] == [nb] + rest;
    assert rest == seq(6, _ => 0);
    ZeroTrees(u, 6, 1);
    assert OwnAll(u, ino'.addr[..7], 1) == Own(u, nb, 1) + OwnAll(u, rest, 1);
  }

  lemma {:induction false} ZeroTrees(v: Volume, n: nat, d: nat)
    requires v.Valid()
    ensures OwnAll(v, seq(n, _ => 0), d) == []
  {
    if n > 0 {
      ZeroTrees(v, n - 1, d);
      assert seq<word>(n, _ => 0)[1..] == seq<word>(n - 1, _ => 0);
    }
  }

  // Moving the top of the stack to the blocks of a file keeps them apart.
  lemma ApartMoved(v: Volume, s: seq<word>, bs: seq<word>, u: Volume, cs: seq<word>)
    requires Apart(v, s, bs) && s != [] && FreeStack(u, s[..|s| - 1])
    requires u.isize == v.isize && u.fsize == v.fsize
    requires multiset(cs) == multiset(bs) + multiset{s[|s| - 1]}
    ensures Apart(u, s[..|s| - 1], cs)
  {
    var t := s[..|s| - 1];
    assert s == t + [s[|s| - 1]];
    assert multiset(t) + multiset(cs) == multiset(s) + multiset(bs);
    forall x | x in cs ensures u.InArea(x) {
      assert x in multiset(cs);
      assert s[|s| - 1] in s;
      if x != s[|s| - 1] {
        assert x in multiset(bs);
        assert x in bs;
      }
    }
  }

  lemma TakesTwice(v: Volume, s: seq<word>, ino: Inode, u: Volume, ino1: Inode, m: Mapped, k: nat)
    requires v.Valid() && ino.Valid() && s != []
    requires Takes(v, s, ino, Mapped(u, ino1, s[|s| - 1]), 1)
    requires Takes(u, s[..|s| - 1], ino1, m, k)
    ensures Takes(v, s, ino, m, k + 1)
  {
    var t := s[..|s| - 1];
    Suffixes(s, k);
    var both := multiset(Blocks(v, ino)) + multiset(s[|s| - (k + 1)..]);
    assert multiset(Blocks(u, ino1)) + multiset(t[|t| - k..]) == both;
    SameButMore(v, u, multiset(Blocks(v, ino)) + multiset(s[|s| - 1..]), both);
    SameButBoth(v, u, m.vol, both);
  }

  lemma Suffixes(s: seq<word>, k: nat)
    requires k + 1 <= |s|
    ensures
      var t := s[..|s| - 1];
      t[..|t| - k] == s[..|s| - (k + 1)] && s[|s| - (k + 1)..] == t[|t| - k..] + s[|s| - 1..]
  {
  }

  lemma SameButBoth(v: Volume, u: Volume, t: Volume, at: multiset<word>)
    requires SameBut(v, u, at) && SameBut(u, t, at)
    ensures SameBut(v, t, at)
  {
  }

  // How many blocks map_block_write(l) has to allocate.
  function Need(v: Volume, ino: Inode, l: word): nat
    requires v.Valid() && ino.Valid() && l < SINGLE
  {
    if MapBlock(v, ino, l) != 0 then 0
    else if !Large(ino.mode) then if l < 8 then 1 else if l < 256 then 2 else 3
    else if ino.addr[l / 256] != 0 then 1 else 2
  }

  // What a call of map_block_write(l) that could allocate n blocks has to do.
  ghost predicate Agrees(v: Volume, s: seq<word>, ino: Inode, l: word, m: Mapped, n: nat)
    requires v.Valid() && ino.Valid() && m.vol.Valid() && m.ino.Valid()
  {
    if |s| < n then m.bno == 0
    else
      && Takes(v, s, ino, m, n)
      && MapBlock(m.vol, m.ino, l) == m.bno
      && forall k: word | k != l || MapBlock(v, ino, l) != 0 :: Kept(v, ino, m.vol, m.ino, k)
  }

  lemma LargeAgrees(v: Volume, s: seq<word>, ino: Inode, l: word)
    requires v.Valid() && ino.Valid() && Large(ino.mode) && !Special(ino.mode)
    requires Apart(v, s, Blocks(v, ino)) && l < SINGLE
    ensures Agrees(v, s, ino, l, LargeWrite(v, ino, l), Need(v, ino, l))
  {
    var i := l / 256;
    AllocPops(v, s);
    if MapBlock(v, ino, l) != 0 {
      assert LargeWrite(v, ino, l) == Mapped(v, ino, MapBlock(v, ino, l));
      assert s[..|s| - 0] == s && s[|s|..] == [];
    } else if ino.addr[i] != 0 {
      HeadOfOwn(v, ino.addr[i], 1);
      BelowApart(v, s, ino, i);
      InApart(v, s, Below(v, ino, i), ino.addr[i]);
      if s != [] {
        FillEntry(v, s, ino, l);
      }
    } else if |s| >= 2 {
      NewIndirect(v, s, ino, l);
    } else if |s| == 1 {
      AllocPops(Alloc(v).0, s[..0]);
    }
  }

  lemma ConvertThenLarge(v: Volume, ino: Inode, l: word)
    requires v.Valid() && ino.Valid() && !Large(ino.mode) && 8 <= l < SINGLE
    requires v.InArea(Alloc(v).1)
    ensures MapWrite(v, ino, l) == LargeWrite(Converted(v, ino).0, Converted(v, ino).1, l)
    ensures MapBlock(Converted(v, ino).0, Converted(v, ino).1, l) == 0 ==>
      Need(v, ino, l) == Need(Converted(v, ino).0, Converted(v, ino).1, l) + 1
  {
  }

  lemma ConvertAgrees(v: Volume, s: seq<word>, ino: Inode, l: word)
    requires v.Valid() && ino.Valid() && !Special(ino.mode) && !Large(ino.mode)
    requires Apart(v, s, Blocks(v, ino)) && 8 <= l < SINGLE && s != []
    ensures Agrees(v, s, ino, l, MapWrite(v, ino, l), Need(v, ino, l))
  {
    ConvertKeeps(v, s, ino);
    ConvertThenLarge(v, ino, l);
    var (u, ino1) := Converted(v, ino);
    var t := s[..|s| - 1];
    assert Kept(v, ino, u, ino1, l);
    LargeAgrees(u, t, ino1, l);
    AgreesThrough(v, s, ino, u, ino1, l, MapWrite(v, ino, l), Need(u, ino1, l));
  }

  lemma AgreesThrough(v: Volume, s: seq<word>, ino: Inode, u: Volume, ino1: Inode, l: word, m: Mapped, n: nat)
    requires v.Valid() && ino.Valid() && u.Valid() && ino1.Valid() && s != []
    requires m.vol.Valid() && m.ino.Valid() && MapBlock(v, ino, l) == 0
    requires Takes(v, s, ino, Mapped(u, ino1, s[|s| - 1]), 1)
    requires forall k: word :: Kept(v, ino, u, ino1, k)
    requires Agrees(u, s[..|s| - 1], ino1, l, m, n)
    ensures Agrees(v, s, ino, l, m, n + 1)
  {
    if |s| >= n + 1 {
      TakesTwice(v, s, ino, u, ino1, m, n);
      forall k: word | k != l ensures Kept(v, ino, m.vol, m.ino, k) {
        assert Kept(v, ino, u, ino1, k);
        assert Kept(u, ino1, m.vol, m.ino, k);
      }
    }
  }

  // Below the double indirect range, map_block_write(l) returns a block iff
  // the free list holds the blocks it needs.  It then takes exactly those,
  // map_block(l) is the block it returned, and every other logical block, and
  // block l itself if it was mapped, is where and what it was.
  lemma MapWriteAgrees(v: Volume, s: seq<word>, ino: Inode, l: word)
    requires v.Valid() && ino.Valid() && !Special(ino.mode)
    requires Apart(v, s, Blocks(v, ino)) && l < SINGLE
    ensures Agrees(v, s, ino, l, MapWrite(v, ino, l), Need(v, ino, l))
  {
    AllocPops(v, s);
    if Large(ino.mode) {
      LargeAgrees(v, s, ino, l);
    } else if l < 8 {
      if ino.addr[l] != 0 {
        assert s[..|s| - 0] == s && s[|s|..] == [];
      } else if s != [] {
        FillDirect(v, s, ino, l);
      }
    } else if s != [] {
      ConvertAgrees(v, s, ino, l);
    }
  }
}
