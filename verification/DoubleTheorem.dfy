// What map_block_write does in the double indirect range, where it does not
// always agree with map_block.
module DoubleTheorem {
  import opened Words
  import opened FreeBlocks
  import opened Inodes
  import opened Mapping
  import opened MapTheorem

  // The second-level indirect block for l, 0 if there is none yet.
  function Second(v: Volume, ino: Inode, l: word): word
    requires v.Valid() && ino.Valid() && SINGLE <= l <= 0x7FFF
  {
    if !Large(ino.mode) || ino.addr[7] == 0 || !v.InArea(ino.addr[7]) then 0
    else WordAt(v.disk[ino.addr[7]], l / 256 - 7)
  }

  // The block that a new second-level block is made of.
  function NewSecond(ino: Inode, s: seq<word>): nat
    requires ino.Valid()
  {
    var n := if !Large(ino.mode) then 3 else if ino.addr[7] == 0 then 2 else 1;
    if |s| < n then 0 else s[|s| - n]
  }

  // The block exists, or its place in the first-level block is 0 when doubled
  // too; for the very first block of the range what the new second-level
  // block happens to hold decides.
  predicate Lucky(v: Volume, ino: Inode, s: seq<word>, l: word)
    requires v.Valid() && ino.Valid() && SINGLE <= l <= 0x7FFF
  {
    || Second(v, ino, l) != 0
    || (SINGLE < l < SINGLE + 256)
    || (l == SINGLE && 0 < NewSecond(ino, s) < |v.disk| && WordAt(v.disk[NewSecond(ino, s)], 0) == NewSecond(ino, s))
  }

  // A second-level block that exists is in the data area and not the first.
  lemma SecondApart(v: Volume, s: seq<word>, ino: Inode, l: word)
    requires v.Valid() && ino.Valid() && Large(ino.mode) && !Special(ino.mode)
    requires Apart(v, s, Blocks(v, ino)) && SINGLE <= l <= 0x7FFF && Second(v, ino, l) != 0
    ensures var b := Second(v, ino, l); v.InArea(b) && b != ino.addr[7] && b !in s
  {
    var ib, b := ino.addr[7], Second(v, ino, l);
    var ws := WordsOf(v.disk[ib]);
    BelowApart(v, s, ino, 7);
    assert Below(v, ino, 7) == [ib] + OwnAll(v, ws, 1);
    ApartSplit(v, s, [ib], OwnAll(v, ws, 1));
    HeadOfOwn(v, b, 1);
    OwnWithin(v, ws, 1, l / 256 - 7);
    assert Own(v, b, 1)[0] in Own(v, b, 1);
    assert b in multiset(Own(v, b, 1));
    assert b in multiset(OwnAll(v, ws, 1));
    assert ib in [ib];
  }

  // The second-level block exists: an entry is found or filled in.
  lemma OldSecond(v: Volume, s: seq<word>, ino: Inode, l: word)
    requires v.Valid() && ino.Valid() && Large(ino.mode) && FreeStack(v, s)
    requires SINGLE <= l <= 0x7FFF && Second(v, ino, l) != 0
    requires v.InArea(Second(v, ino, l)) && Second(v, ino, l) != ino.addr[7]
    ensures var m := LargeWrite(v, ino, l); m.bno != 0 ==> MapBlock(m.vol, m.ino, l) == m.bno
  {
    AllocPops(v, s);
  }

  // The block ib gets a new second-level block, at a doubled index.
  lemma FreshSecond(v: Volume, s: seq<word>, ino: Inode, ib: word, block: Block, l: word)
    requires v.Valid() && ino.Valid() && Large(ino.mode) && FreeStack(v, s) && SINGLE <= l <= 0x7FFF
    requires ino.addr[7] == ib != 0 && v.InArea(ib) && ib !in s && WordAt(block, l / 256 - 7) == 0
    ensures
      var m := DoubleWrite(v, ino, ib, block, l);
      && (m.bno != 0 ==> s != [] && s[|s| - 1] < |v.disk|)
      && (m.bno != 0 ==>
           (MapBlock(m.vol, m.ino, l) == m.bno <==>
             l / 256 == 7 && (l % 256 != 0 || WordAt(v.disk[s[|s| - 1]], 0) == s[|s| - 1])))
  {
    AllocPops(v, s);
    if s != [] {
      var (v1, second) := Alloc(v);
      assert second in s;
      PrefixOnce(s, |s| - 1);
      var i, t := l / 256 - 7, s[..|s| - 1];
      var b1 := SetWord(Zeros(), 2 * i, second);
      WriteKeepsStack(v1, t, ib, b1);
      var v2 := Write(v1, ib, b1);
      AllocPops(v2, t);
      EntryAfter(v2, t, ino, ib, second, l);
    }
  }

  lemma EntryAfter(v: Volume, s: seq<word>, ino: Inode, ib: word, second: word, l: word)
    requires v.Valid() && ino.Valid() && Large(ino.mode) && FreeStack(v, s) && SINGLE <= l <= 0x7FFF
    requires ino.addr[7] == ib != 0 && v.InArea(ib) && v.InArea(second) && ib != second && second != 0
    requires v.disk[ib] == SetWord(Zeros(), 2 * (l / 256 - 7), second)
    ensures
      var m := EntryWrite(v, ino, second, v.disk[ib], l % 256);
      m.bno != 0 ==>
        (MapBlock(m.vol, m.ino, l) == m.bno <==>
           l / 256 == 7 && (l % 256 != 0 || WordAt(v.disk[second], 0) == second))
  {
    AllocPops(v, s);
  }

  // There is a first-level block, and the second-level block is new.
  lemma UnderTop(v: Volume, s: seq<word>, ino: Inode, l: word)
    requires v.Valid() && ino.Valid() && Large(ino.mode) && FreeStack(v, s) && SINGLE <= l <= 0x7FFF
    requires ino.addr[7] != 0 && v.InArea(ino.addr[7]) && ino.addr[7] !in s && Second(v, ino, l) == 0
    ensures var m := LargeWrite(v, ino, l);
      m.bno != 0 ==> (MapBlock(m.vol, m.ino, l) == m.bno <==> Lucky(v, ino, s, l))
  {
    var ib := ino.addr[7];
    TopIn(v, s);
    FreshSecond(v, s, ino, ib, v.disk[ib], l);
    hide MapBlock, DoubleWrite, FreeStack, WordAt;
    assert s != [] ==> s[|s| - 1] in s;
  }

  lemma LargeCase(v: Volume, s: seq<word>, ino: Inode, l: word)
    requires v.Valid() && ino.Valid() && Large(ino.mode) && !Special(ino.mode)
    requires Apart(v, s, Blocks(v, ino)) && SINGLE <= l <= 0x7FFF
    ensures var m := MapWrite(v, ino, l);
      m.bno != 0 ==> (MapBlock(m.vol, m.ino, l) == m.bno <==> Lucky(v, ino, s, l))
  {
    var ib := ino.addr[7];
    if ib != 0 {
      HeadOfOwn(v, ib, 2);
      BelowApart(v, s, ino, 7);
      InApart(v, s, Below(v, ino, 7), ib);
    }
    assert FreeStack(v, s);
    hide Own, OwnAll, Blocks, Below, Apart, FreeStack, Chain, Alloc, MapBlock, DoubleWrite;
    if Second(v, ino, l) != 0 {
      SecondApart(v, s, ino, l);
      OldSecond(v, s, ino, l);
    } else if ib != 0 {
      UnderTop(v, s, ino, l);
    } else {
      FromNothing(v, s, ino, l);
    }
  }

  // The change to a large file comes first and makes no difference.
  lemma SmallCase(v: Volume, s: seq<word>, ino: Inode, l: word)
    requires v.Valid() && ino.Valid() && !Large(ino.mode) && !Special(ino.mode)
    requires Apart(v, s, Blocks(v, ino)) && SINGLE <= l <= 0x7FFF && s != []
    ensures var m := MapWrite(v, ino, l);
      m.bno != 0 ==> (MapBlock(m.vol, m.ino, l) == m.bno <==> Lucky(v, ino, s, l))
  {
    hide *;
    ConvertKeeps(v, s, ino);
    ApartStack(v, s, Blocks(v, ino));
    ConvertedIs(v, ino, l);
    ConvertedRest(v, s, ino);
    var (u, ino1) := Converted(v, ino);
    LargeCase(u, s[..|s| - 1], ino1, l);
    MiddleSame(v, u, s, ino, ino1, l);
  }

  lemma ApartStack(v: Volume, s: seq<word>, bs: seq<word>)
    requires Apart(v, s, bs)
    ensures FreeStack(v, s)
  {
  }

  lemma ConvertedIs(v: Volume, ino: Inode, l: word)
    requires v.Valid() && ino.Valid() && !Large(ino.mode) && !Special(ino.mode)
    requires SINGLE <= l <= 0x7FFF && v.InArea(Alloc(v).1)
    ensures
      var (u, ino1) := Converted(v, ino);
      && MapWrite(v, ino, l) == LargeWrite(u, ino1, l) == MapWrite(u, ino1, l)
      && u.Valid() && ino1.Valid() && Large(ino1.mode) && !Special(ino1.mode) && ino1.addr[7] == 0
  {
    hide Alloc, LargeWrite;
  }

  ghost predicate SameAt(v: Volume, u: Volume, s: seq<word>) {
    |u.disk| == |v.disk| && forall b: word | b in s :: b < |v.disk| && u.disk[b] == v.disk[b]
  }

  lemma ConvertedRest(v: Volume, s: seq<word>, ino: Inode)
    requires v.Valid() && ino.Valid() && FreeStack(v, s) && s != [] && v.InArea(Alloc(v).1)
    ensures
      SameAt(v, Converted(v, ino).0, s[..|s| - 1])
  {
    AllocPops(v, s);
    PrefixOnce(s, |s| - 1);
    TopIn(v, s);
    assert s[|s| - 1] in s[|s| - 1..];
    hide Chain, Alloc, FreeStack;
  }

  lemma MiddleSame(v: Volume, u: Volume, s: seq<word>, ino: Inode, ino1: Inode, l: word)
    requires v.Valid() && u.Valid() && ino.Valid() && ino1.Valid() && !Large(ino.mode) && Large(ino1.mode)
    requires ino1.addr[7] == 0 && s != [] && SINGLE <= l <= 0x7FFF
    requires SameAt(v, u, s[..|s| - 1])
    ensures Lucky(u, ino1, s[..|s| - 1], l) == Lucky(v, ino, s, l)
  {
    var t := s[..|s| - 1];
    if |s| >= 3 { assert t[|t| - 2] == s[|s| - 3] && t[|t| - 2] in t; }
  }

  // In the double indirect range map_block finds the block that
  // map_block_write returns if and only if the call is lucky.
  lemma DoubleAgrees(v: Volume, s: seq<word>, ino: Inode, l: word)
    requires v.Valid() && ino.Valid() && !Special(ino.mode)
    requires Apart(v, s, Blocks(v, ino)) && SINGLE <= l <= 0x7FFF
    ensures var m := MapWrite(v, ino, l);
      m.bno != 0 ==> (MapBlock(m.vol, m.ino, l) == m.bno <==> Lucky(v, ino, s, l))
  {
    if Large(ino.mode) {
      LargeCase(v, s, ino, l);
    } else if s != [] {
      SmallCase(v, s, ino, l);
    } else {
      AllocPops(v, s);
    }
  }

  lemma TopIn(v: Volume, s: seq<word>)
    requires FreeStack(v, s)
    ensures forall b | b in s :: v.InArea(b) && 0 < b < |v.disk|
  {
  }

  lemma FromNothing(v: Volume, s: seq<word>, ino: Inode, l: word)
    requires v.Valid() && ino.Valid() && Large(ino.mode) && FreeStack(v, s) && SINGLE <= l <= 0x7FFF && ino.addr[7] == 0
    ensures var m := LargeWrite(v, ino, l);
      m.bno != 0 ==> (MapBlock(m.vol, m.ino, l) == m.bno <==> Lucky(v, ino, s, l))
  {
    hide MapBlock, DoubleWrite, WordAt;
    AllocPops(v, s);
    if s != [] {
      FirstIn(v, s);
      var v1, ib, t := Alloc(v).0, s[|s| - 1], s[..|s| - 1];
      hide Chain, Alloc, FreeStack;
      FreshSecond(v1, t, Inode(ino.mode, ino.size, ino.addr[7 := ib]), ib, Zeros(), l);
      SecondOf(s);
      NoWords(l / 256 - 7);
    }
  }

  lemma FirstIn(v: Volume, s: seq<word>)
    requires FreeStack(v, s) && s != []
    ensures v.InArea(s[|s| - 1]) && s[|s| - 1] !in s[..|s| - 1] && s[|s| - 1] != 0
    ensures forall b | b in s :: b != 0 && b < |v.disk|
  {
    assert s[|s| - 1] in s && s[|s| - 1] in s[|s| - 1..];
    PrefixOnce(s, |s| - 1);
  }

  lemma SecondOf(s: seq<word>)
    requires s != []
    ensures var t := s[..|s| - 1]; t != [] ==> t[|t| - 1] == s[|s| - 2] && s[|s| - 2] in s
  {
  }

  lemma NoWords(i: nat)
    requires i < 256
    ensures WordAt(Zeros(), i) == 0
  {
  }

  // Block 2048 of a large file without double indirection: what is returned
  // is not found again.
  lemma DoubleWrong(v: Volume, s: seq<word>, ino: Inode)
    requires v.Valid() && ino.Valid() && Large(ino.mode) && !Special(ino.mode) && ino.addr[7] == 0
    requires Apart(v, s, Blocks(v, ino)) && |s| >= 3
    ensures var m := MapWrite(v, ino, 2048);
      m.bno != 0 && MapBlock(m.vol, m.ino, 2048) != m.bno
  {
    DoubleAgrees(v, s, ino, 2048);
    DoubleSucceeds(v, s, ino);
  }

  lemma DoubleSucceeds(v: Volume, s: seq<word>, ino: Inode)
    requires v.Valid() && ino.Valid() && Large(ino.mode) && ino.addr[7] == 0 && FreeStack(v, s) && |s| >= 3
    ensures MapWrite(v, ino, 2048).bno != 0
  {
    AllocPops(v, s);
    var (v1, ib) := Alloc(v);
    assert ib in s;
    PrefixOnce(s, |s| - 1);
    hide FreeStack, Chain, Alloc;
    SecondSucceeds(v1, s[..|s| - 1], Inode(ino.mode, ino.size, ino.addr[7 := ib]), ib);
  }

  lemma SecondSucceeds(v: Volume, s: seq<word>, ino: Inode, ib: word)
    requires v.Valid() && ino.Valid() && FreeStack(v, s) && |s| >= 2 && ib != 0 && v.InArea(ib) && ib !in s
    ensures DoubleWrite(v, ino, ib, Zeros(), 2048).bno != 0
  {
    AllocPops(v, s);
    var (v1, second) := Alloc(v);
    assert second in s;
    PrefixOnce(s, |s| - 1);
    hide Chain, Alloc;
    var b, t := SetWord(Zeros(), 2, second), s[..|s| - 1];
    WriteKeepsStack(v1, t, ib, b);
    AllocPops(Write(v1, ib, b), t);
    hide FreeStack;
  }
}
