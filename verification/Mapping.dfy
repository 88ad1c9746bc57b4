// fsutil/inode.c: map_block and map_block_write.
module Mapping {
  import opened Words
  import opened FreeBlocks
  import opened Inodes

  // Logical blocks below this one need no double indirection.
  const SINGLE := 1792

  // map_block; 0 is the failure return.
  function MapBlock(v: Volume, ino: Inode, lbn: word): word
    requires v.Valid() && ino.Valid()
  {
    if lbn > 0x7FFF then 0
    else if !Large(ino.mode) then
      if lbn > 7 then 0 else ino.addr[lbn]
    else
      var i := if lbn / 256 > 7 then 7 else lbn / 256;
      var nb := ino.addr[i];
      if nb == 0 || !v.InArea(nb) then 0
      else if i < 7 then WordAt(v.disk[nb], lbn % 256)
      else
        var ib := WordAt(v.disk[nb], lbn / 256 - 7);
        if ib == 0 || !v.InArea(ib) then 0
        else WordAt(v.disk[ib], lbn % 256)
  }

  datatype Mapped = Mapped(vol: Volume, ino: Inode, bno: word)

  // map_block_write; bno 0 is the failure return.
  function MapWrite(v: Volume, ino: Inode, lbn: word): (r: Mapped)
    requires v.Valid() && ino.Valid()
    ensures r.vol.Valid() && r.ino.Valid()
  {
    if lbn > 0x7FFF then Mapped(v, ino, 0)
    else if Large(ino.mode) then LargeWrite(v, ino, lbn)
    else if lbn > 7 then
      var (v1, nb) := Alloc(v);
      if nb == 0 then Mapped(v1, ino, 0)
      else
        if !v1.InArea(nb) then Mapped(v1, Inode(ino.mode, ino.size, [nb, 0, 0, 0, 0, 0, 0, 0]), 0)
        else LargeWrite(Write(v1, nb, SetWords(Zeros(), 0, ino.addr)),
                        Inode(SetLarge(ino.mode), ino.size, [nb, 0, 0, 0, 0, 0, 0, 0]), lbn)
    else if ino.addr[lbn] != 0 then Mapped(v, ino, ino.addr[lbn])
    else
      var (v1, nb) := Alloc(v);
      if nb == 0 then Mapped(v1, ino, 0)
      else Mapped(v1, Inode(ino.mode, ino.size, ino.addr[lbn := nb]), nb)
  }

  // The large file algorithm of map_block_write.
  function LargeWrite(v: Volume, ino: Inode, lbn: word): (r: Mapped)
    requires v.Valid() && ino.Valid() && lbn <= 0x7FFF
    ensures r.vol.Valid() && r.ino.Valid()
  {
    var i := if lbn / 256 > 7 then 7 else lbn / 256;
    var ib := ino.addr[i];
    if ib != 0 then
      if !v.InArea(ib) then Mapped(v, ino, 0)
      else if i < 7 then EntryWrite(v, ino, ib, v.disk[ib], lbn % 256)
      else DoubleWrite(v, ino, ib, v.disk[ib], lbn)
    else
      var (v1, nb) := Alloc(v);
      if nb == 0 then Mapped(v1, ino, 0)
      else
        var ino1 := Inode(ino.mode, ino.size, ino.addr[i := nb]);
        if i < 7 then EntryWrite(v1, ino1, nb, Zeros(), lbn % 256)
        else DoubleWrite(v1, ino1, nb, Zeros(), lbn)
  }

  // The "huge" arm.  As in the source, an absent second-level block is entered
  // at a doubled index in a cleared copy of the first-level block.
  function DoubleWrite(v: Volume, ino: Inode, ib: word, block: Block, lbn: word): (r: Mapped)
    requires v.Valid() && ino.Valid() && SINGLE <= lbn <= 0x7FFF
    ensures r.vol.Valid() && r.ino.Valid()
  {
    var i := lbn / 256 - 7;
    var nb := WordAt(block, i);
    if nb != 0 then
      if !v.InArea(nb) then Mapped(v, ino, 0)
      else EntryWrite(v, ino, nb, v.disk[nb], lbn % 256)
    else
      var (v1, second) := Alloc(v);
      if second == 0 then Mapped(v1, ino, 0)
      else
        if !v1.InArea(ib) then Mapped(v1, ino, 0)
        else EntryWrite(Write(v1, ib, SetWord(Zeros(), 2 * i, second)), ino, second,
                        SetWord(Zeros(), 2 * i, second), lbn % 256)
  }

  // The "normal indirect fetch": entry k of the indirect block ib, whose
  // contents were read (or cleared) into `block`.
  function EntryWrite(v: Volume, ino: Inode, ib: word, block: Block, k: nat): (r: Mapped)
    requires v.Valid() && ino.Valid() && k < 256
    ensures r.vol.Valid() && r.ino.Valid()
  {
    var had := WordAt(block, k);
    if had != 0 then Mapped(v, ino, had)
    else
      var (v1, nb) := Alloc(v);
      if nb == 0 then Mapped(v1, ino, 0)
      else if !v1.InArea(ib) then Mapped(v1, ino, 0)
      else Mapped(Write(v1, ib, SetWord(block, k, nb)), ino, nb)
  }

  // ---- where the blocks of an address list are ----

  lemma {:induction false} OwnWithin(v: Volume, ws: seq<word>, d: nat, i: nat)
    requires v.Valid() && i < |ws|
    ensures multiset(Own(v, ws[i], d)) <= multiset(OwnAll(v, ws, d))
  {
    if i > 0 {
      OwnWithin(v, ws[1..], d, i - 1);
    }
  }

  lemma OwnAllSplit(v: Volume, ws: seq<word>, d: nat)
    requires v.Valid() && ws != []
    ensures multiset(OwnAll(v, ws, d)) == multiset(Own(v, ws[0], d)) + multiset(OwnAll(v, ws[1..], d))
  {
  }

  lemma SumWithin(a: multiset<word>, c: multiset<word>, h: multiset<word>, r: multiset<word>)
    requires (a == h && c <= r) || a + c <= r
    ensures a + c <= h + r
  {
  }

  lemma {:induction false} OwnPair(v: Volume, ws: seq<word>, d: nat, i: nat, j: nat)
    requires v.Valid() && i < j < |ws|
    ensures multiset(Own(v, ws[i], d)) + multiset(Own(v, ws[j], d)) <= multiset(OwnAll(v, ws, d))
  {
    hide Own, OwnAll;
    OwnAllSplit(v, ws, d);
    var rest := ws[1..];
    assert rest[j - 1] == ws[j];
    if i == 0 {
      OwnWithin(v, rest, d, j - 1);
    } else {
      assert rest[i - 1] == ws[i];
      OwnPair(v, rest, d, i - 1, j - 1);
    }
    SumWithin(multiset(Own(v, ws[i], d)), multiset(Own(v, ws[j], d)), multiset(Own(v, ws[0], d)),
      multiset(OwnAll(v, rest, d)));
  }

  // Two address lists that agree except in slot i, which gained `extra`.
  lemma {:induction false} OwnGrows(v: Volume, ws: seq<word>, u: Volume, us: seq<word>, d: nat, i: nat,
                                    extra: multiset<word>)
    requires v.Valid() && u.Valid() && i < |ws| == |us|
    requires forall j | 0 <= j < |ws| && j != i :: Own(u, us[j], d) == Own(v, ws[j], d)
    requires multiset(Own(u, us[i], d)) == multiset(Own(v, ws[i], d)) + extra
    ensures multiset(OwnAll(u, us, d)) == multiset(OwnAll(v, ws, d)) + extra
    decreases |ws|
  {
    if i == 0 {
      OwnSame(v, ws[1..], u, us[1..], d);
    } else {
      assert Own(u, us[0], d) == Own(v, ws[0], d);
      assert forall j | 0 <= j < |ws| - 1 && j != i - 1 :: us[1..][j] == us[j + 1] && ws[1..][j] == ws[j + 1];
      OwnGrows(v, ws[1..], u, us[1..], d, i - 1, extra);
    }
  }

  lemma {:induction false} OwnSame(v: Volume, ws: seq<word>, u: Volume, us: seq<word>, d: nat)
    requires v.Valid() && u.Valid() && |ws| == |us|
    requires forall j | 0 <= j < |ws| :: Own(u, us[j], d) == Own(v, ws[j], d)
    ensures OwnAll(u, us, d) == OwnAll(v, ws, d)
    decreases |ws|
  {
    if ws != [] {
      assert Own(u, us[0], d) == Own(v, ws[0], d);
      OwnSame(v, ws[1..], u, us[1..], d);
    }
  }
}
