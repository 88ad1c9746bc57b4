// The statements of fsutil/check.c over its global bitmaps, tables and
// counters, proved against the functions of FsckBlocks and FsckFree.
module FsckImpl {
  import opened Words
  import opened FreeBlocks
  import opened Inodes
  import opened FsImpl
  import opened FsckBlocks
  import opened FsckFree

  // 1 << k
  function Mask(k: nat): bv8
    requires k < 8
  {
    if k == 0 then 0x01 else if k == 1 then 0x02 else if k == 2 then 0x04 else if k == 3 then 0x08
    else if k == 4 then 0x10 else if k == 5 then 0x20 else if k == 6 then 0x40 else 0x80
  }

  predicate Bit(x: bv8, k: nat)
    requires k < 8
  {
    x & Mask(k) != 0
  }

  lemma BitSet(x: bv8, k: nat, j: nat)
    requires k < 8 && j < 8
    ensures Bit(x | Mask(k), j) <==> j == k || Bit(x, j)
  {
  }

  lemma BitCleared(x: bv8, k: nat, j: nat)
    requires k < 8 && j < 8
    ensures Bit(x & !Mask(k), j) <==> j != k && Bit(x, j)
  {
  }

  // block_map and free_map: one bit for each of `size` blocks.
  class Bitmap {
    const size: nat
    const bytes: array<bv8>

    constructor (size: nat)
      ensures Valid() && this.size == size && fresh(bytes)
      ensures Bits() == seq(size, _ => false)
    {
      this.size := size;
      bytes := new bv8[(size + 7) / 8](_ => 0);
    }

    ghost predicate Valid() reads this { bytes.Length == (size + 7) / 8 }

    ghost function Bits(): (b: seq<bool>)
      requires Valid()
      reads this, bytes
      ensures |b| == size
    {
      seq(size, i requires 0 <= i < size reads this, bytes => Bit(bytes[i / 8], i % 8))
    }

    method IsSet(i: nat) returns (b: bool)
      requires Valid() && i < size
      ensures b == Bits()[i]
    {
      b := bytes[i / 8] & Mask(i % 8) != 0;
    }

    method Set(i: nat)
      requires Valid() && i < size
      modifies bytes
      ensures Bits() == old(Bits())[i := true]
    {
      ghost var x := bytes[i / 8];
      bytes[i / 8] := bytes[i / 8] | Mask(i % 8);
      forall j | 0 <= j < size ensures Bits()[j] == old(Bits())[i := true][j] {
        if j / 8 == i / 8 { BitSet(x, i % 8, j % 8); }
      }
    }

    method Reset(i: nat)
      requires Valid() && i < size
      modifies bytes
      ensures Bits() == old(Bits())[i := false]
    {
      ghost var x := bytes[i / 8];
      bytes[i / 8] := bytes[i / 8] & !Mask(i % 8);
      forall j | 0 <= j < size ensures Bits()[j] == old(Bits())[i := false][j] {
        if j / 8 == i / 8 { BitCleared(x, i % 8, j % 8); }
      }
    }
  }

  // The globals of check.c that the block scans use.
  class Checker {
    const fs: Fs
    const busy: Bitmap
    const dupList: array<word>
    var dupEnd: nat
    var dupMulti: nat
    var bad: nat
    var dup: nat
    var used: nat
    var clear: bool

    constructor (fs: Fs)
      requires fs.Valid()
      ensures Valid() && this.fs == fs && fresh(busy) && fresh(busy.bytes) && fresh(dupList)
      ensures T() == NoTables(fs.State())
    {
      this.fs := fs;
      busy := new Bitmap(fs.fsize);
      dupList := new word[DUP_LIST_SIZE](_ => 0);
      dupEnd, dupMulti, bad, dup, used, clear := 0, 0, 0, 0, 0, false;
    }

    ghost predicate Valid()
      reads this, fs, busy
    {
      && fs.Valid() && busy.Valid() && busy.size == fs.fsize
      && dupList as object != busy.bytes && dupList != fs.free && fs.disk as object != dupList
      && busy.bytes as object != fs.free && fs.disk as object != busy.bytes
      && dupList.Length == DUP_LIST_SIZE && dupMulti <= dupEnd <= DUP_LIST_SIZE
    }

    ghost function T(): (t: Tables)
      requires Valid()
      reads this, fs, busy, busy.bytes, dupList
      ensures |t.busy| == fs.fsize && t.multi <= |t.dups|
    {
      Tables(busy.Bits(), dupList[..dupEnd], dupMulti, bad, dup, used, clear)
    }

    // outrange
    predicate OutOfRange(blk: word)
      reads fs
    {
      blk < fs.isize + 2 || blk >= fs.fsize
    }

    // The search loops of pass1, pass1b and pass4.
    method Search(n: nat, blk: word) returns (dlp: nat)
      requires Valid() && n <= dupEnd
      ensures dlp == Find(T().dups[..n], blk)
    {
      dlp := 0;
      while dlp < n && dupList[dlp] != blk
        invariant dlp <= n && blk !in dupList[..dlp]
      {
        dlp := dlp + 1;
      }
      ghost var s := T().dups[..n];
      assert s[..dlp] == dupList[..dlp];
      FoundFirst(s, blk, dlp);
    }

    // A new duplicate enters the table.
    method AddDup(blk: word)
      requires Valid() && dupEnd < DUP_LIST_SIZE
      modifies this`dupEnd, this`dupMulti, dupList
      ensures Valid()
      ensures var t := old(T());
        T() ==
          if blk in t.dups[..t.multi] then t.(dups := t.dups + [blk])
          else t.(dups := if t.multi == |t.dups| then t.dups + [blk] else t.dups[t.multi := blk] + [t.dups[t.multi]],
                  multi := t.multi + 1)
    {
      ghost var t := T();
      var dlp := Search(dupMulti, blk);
      if dlp < dupMulti {
        dupList[dupEnd] := blk;
        dupEnd := dupEnd + 1;
        assert T().dups == t.dups + [blk];
      } else {
        dupList[dupEnd] := dupList[dupMulti];
        dupEnd := dupEnd + 1;
        dupList[dupMulti] := blk;
        dupMulti := dupMulti + 1;
        assert T().dups == if t.multi == |t.dups| then t.dups + [blk] else t.dups[t.multi := blk] + [t.dups[t.multi]];
      }
    }

    // One occurrence of blk leaves the table, if there is one.
    method DropDup(blk: word) returns (found: bool)
      requires Valid()
      modifies this`dupEnd, this`dupMulti, dupList
      ensures Valid() && (found <==> Find(old(T()).dups, blk) < |old(T()).dups|)
      ensures var t := old(T());
        T() ==
          if !found then t
          else
            var last := |t.dups| - 1;
            t.(dups := t.dups[Find(t.dups, blk) := t.dups[last]][..last],
              multi := if t.multi <= last then t.multi else last)
    {
      ghost var t := T();
      assert t.dups[..dupEnd] == t.dups && |t.dups| == dupEnd;
      var dlp := Search(dupEnd, blk);
      if dlp < dupEnd {
        TakeOut(dlp);
        return true;
      }
      found := false;
    }

    // The last element takes the place of element dlp
    method TakeOut(dlp: nat)
      requires Valid() && dlp < dupEnd
      modifies this`dupEnd, this`dupMulti, dupList
      ensures Valid()
      ensures var t, last := old(T()), old(dupEnd) - 1;
        T() == t.(dups := t.dups[dlp := t.dups[last]][..last], multi := if t.multi <= last then t.multi else last)
    {
      ghost var dups, n := dupList[..dupEnd], dupEnd;
      dupEnd := dupEnd - 1;
      dupList[dlp] := dupList[dupEnd];
      if dupMulti > dupEnd { dupMulti := dupEnd; }
      assert dupList[..dupEnd] == dups[dlp := dups[n - 1]][..n - 1];
    }

    method VisitOne(blk: word) returns (ret: Ret)
      requires Valid()
      modifies this, busy.bytes, dupList
      ensures Valid() && (T(), ret) == Pass1(fs.State(), old(T()), blk)
    {
      ghost var t := T();
      if OutOfRange(blk) {
        clear := true;
        bad := bad + 1;
        return if bad >= MAXBAD then Stop else Skip;
      }
      var b := busy.IsSet(blk);
      if b {
        clear := true;
        dup := dup + 1;
        if dup >= MAXDUP { return Stop; }
        if dupEnd >= DUP_LIST_SIZE { return Stop; }
        AddDup(blk);
      } else {
        used := used + 1;
        busy.Set(blk);
      }
      ret := KeepOn;
    }

    method VisitOneB(blk: word) returns (ret: Ret)
      requires Valid()
      modifies this, dupList
      ensures Valid() && (T(), ret) == Pass1b(fs.State(), old(T()), blk)
    {
      ghost var t := T();
      if OutOfRange(blk) { return Skip; }
      var dlp := Search(dupMulti, blk);
      if dlp < dupMulti {
        clear := true;
        dupMulti := dupMulti - 1;
        dupList[dlp] := dupList[dupMulti];
        dupList[dupMulti] := blk;
        assert T().dups == t.dups[dlp := t.dups[dupMulti]][dupMulti := blk];
        return if dupMulti == 0 then Stop else KeepOn;
      }
      ret := KeepOn;
    }

    method VisitFour(blk: word) returns (ret: Ret)
      requires Valid()
      modifies this, busy.bytes, dupList
      ensures Valid() && (T(), ret) == Pass4(fs.State(), old(T()), blk)
    {
      ghost var t := T();
      if OutOfRange(blk) { return Skip; }
      var b := busy.IsSet(blk);
      if b {
        var found := DropDup(blk);
        if found { return KeepOn; }
        busy.Reset(blk);
      }
      ret := KeepOn;
    }

    method VisitBlock(p: Pass, blk: word) returns (ret: Ret)
      requires Valid()
      modifies this, busy.bytes, dupList
      ensures Valid() && (T(), ret) == Visit(fs.State(), p, old(T()), blk)
    {
      match p
      case One => ret := VisitOne(blk);
      case OneB => ret := VisitOneB(blk);
      case Four => ret := VisitFour(blk);
    }

    // scan_indirect_block with flag ADDR; d is 1, or 2 for a double indirect block
    method ScanIndirect(p: Pass, blk: word, d: nat) returns (ret: Ret)
      requires Valid() && blk != 0 && 1 <= d <= 2
      modifies this, busy.bytes, dupList
      ensures Valid()
      ensures (T(), ret != Stop) == Scan(fs.State(), p, old(T()), Own(fs.State(), blk, d))
      decreases d, 0
    {
      ScanTree(fs.State(), p, T(), blk, d);
      hide Own, OwnAll, Visit, Scan;
      ret := VisitBlock(p, blk);
      if ret != KeepOn { return; }
      ret := ScanBelow(p, blk, d);
    }

    // What scan_indirect_block does below the block itself
    method ScanBelow(p: Pass, blk: word, d: nat) returns (ret: Ret)
      requires Valid() && blk != 0 && 1 <= d <= 2
      modifies this, busy.bytes, dupList
      ensures Valid()
      ensures
        (T(), ret != Stop) ==
          if !fs.State().InArea(blk) then (old(T()), true)
          else Scan(fs.State(), p, old(T()), OwnAll(fs.State(), WordsOf(fs.State().disk[blk]), d - 1))
      decreases d - 1, 2
    {
      hide Own, OwnAll, Visit, Scan;
      if OutOfRange(blk) { return Skip; }
      var ok, data := fs.ReadBlock(blk);
      if !ok { return Skip; }
      ok := ScanEntries(p, data, d - 1);
      ret := if ok then KeepOn else Stop;
    }

    // The loop of scan_indirect_block over the entries.
    method ScanEntries(p: Pass, data: Block, d: nat) returns (ok: bool)
      requires Valid() && d <= 1
      modifies this, busy.bytes, dupList
      ensures Valid()
      ensures (T(), ok) == Scan(fs.State(), p, old(T()), OwnAll(fs.State(), WordsOf(data), d))
      decreases d, 1
    {
      ghost var v, t, ws := fs.State(), T(), WordsOf(data);
      var i := 0;
      while i < 256
        invariant 0 <= i <= 256 && Valid() && fs.State() == v
        invariant Scan(v, p, t, OwnAll(v, ws, d)) == Scan(v, p, T(), OwnAll(v, ws[i..], d))
      {
        var nb := WordAt(data, i);
        assert ws[i] == nb && ws[i..][1..] == ws[i + 1..];
        ScanConcat(v, p, T(), Own(v, nb, d), OwnAll(v, ws[i + 1..], d));
        if nb != 0 {
          ghost var t2 := T();
          var ret;
          if d == 1 { ret := ScanIndirect(p, nb, 1); } else { ret := VisitBlock(p, nb); VisitAlone(v, p, t2, nb); }
          if ret == Stop { return false; }
        }
        i := i + 1;
      }
      ok := true;
    }

    // scan_inode with flag ADDR; false when a scanner said STOP
    method ScanInode(p: Pass, ino: InodeRec) returns (ok: bool)
      requires Valid() && ino.Valid() && ino.fs == fs && ino.addr != dupList && ino.addr as object != busy.bytes
      modifies this, busy.bytes, dupList
      ensures Valid() && (T(), ok) == Scan(fs.State(), p, old(T()), Blocks(fs.State(), ino.Value()))
    {
      if Special(ino.mode) { return true; }
      ghost var v, t, addr := fs.State(), T(), ino.addr[..];
      if !Large(ino.mode) {
        ok := ScanAddresses(p, ino, 8, 0);
        assert addr[..8] == addr;
        return;
      }
      ScanConcat(v, p, t, OwnAll(v, addr[..7], 1), Own(v, addr[7], 2));
      ok := ScanAddresses(p, ino, 7, 1);
      if !ok { return; }
      if ino.addr[7] != 0 {
        var ret := ScanIndirect(p, ino.addr[7], 2);
        return ret != Stop;
      }
      ok := true;
    }

    // The loops of scan_inode over the first n addresses.
    method ScanAddresses(p: Pass, ino: InodeRec, n: nat, d: nat) returns (ok: bool)
      requires Valid() && ino.Valid() && ino.fs == fs && ino.addr != dupList && ino.addr as object != busy.bytes &&
        n <= 8 && d <= 1
      modifies this, busy.bytes, dupList
      ensures Valid()
      ensures (T(), ok) == Scan(fs.State(), p, old(T()), OwnAll(fs.State(), ino.addr[..n], d))
    {
      ghost var v, t, ws := fs.State(), T(), ino.addr[..n];
      var i := 0;
      while i < n
        invariant 0 <= i <= n && Valid() && fs.State() == v && ino.addr[..n] == ws
        invariant Scan(v, p, t, OwnAll(v, ws, d)) == Scan(v, p, T(), OwnAll(v, ws[i..], d))
      {
        var nb := ino.addr[i];
        assert ws[i] == nb && ws[i..][1..] == ws[i + 1..];
        ScanConcat(v, p, T(), Own(v, nb, d), OwnAll(v, ws[i + 1..], d));
        if nb != 0 {
          ghost var t2 := T();
          var ret;
          if d == 1 { ret := ScanIndirect(p, nb, 1); } else { ret := VisitBlock(p, nb); VisitAlone(v, p, t2, nb); }
          if ret == Stop { return false; }
        }
        i := i + 1;
      }
      ok := true;
    }
  }

  // The globals of check.c that check_free_list uses.
  class FreeChecker {
    const fs: Fs
    const seen: Bitmap
    var bad: nat
    var dup: nat
    var corrupted: bool
    var count: nat

    // free_map is taken over from block_map.
    constructor (fs: Fs, busy: Bitmap)
      requires fs.Valid() && busy.Valid() && busy.size == fs.fsize
      requires busy.bytes as object != fs.free && fs.disk as object != busy.bytes
      ensures Valid() && this.fs == fs && seen == busy
      ensures F() == FreeScan(busy.Bits(), 0, 0, false, 0)
    {
      this.fs := fs;
      seen := busy;
      bad, dup, corrupted, count := 0, 0, false, 0;
    }

    ghost predicate Valid()
      reads this, fs, seen
    {
      && fs.Valid() && seen.Valid() && seen.size == fs.fsize
      && seen.bytes as object != fs.free && fs.disk as object != seen.bytes
    }

    ghost function F(): (f: FreeScan)
      requires Valid()
      reads this, fs, seen, seen.bytes
      ensures |f.seen| == fs.fsize
    {
      FreeScan(seen.Bits(), bad, dup, corrupted, count)
    }

    // pass5
    method Visit5(blk: word) returns (ret: Ret)
      requires Valid()
      modifies this, seen.bytes
      ensures Valid() && (F(), ret) == Pass5(fs.State(), old(F()), blk)
    {
      if blk < fs.isize + 2 || blk >= fs.fsize {
        corrupted := true;
        bad := bad + 1;
        return if bad >= MAXBAD then Stop else Skip;
      }
      var b := seen.IsSet(blk);
      if b {
        corrupted := true;
        dup := dup + 1;
        if dup >= DUP_LIST_SIZE { return Stop; }
      } else {
        count := count + 1;
        seen.Set(blk);
      }
      ret := KeepOn;
    }

    // The inner loop of check_free_list.
    method VisitSlots(slots: seq<word>, n: nat) returns (stopped: bool)
      requires Valid() && n < |slots|
      modifies this, seen.bytes
      ensures Valid() && (F(), stopped) == ScanSlots(fs.State(), old(F()), slots, n)
    {
      ghost var v, f := fs.State(), F();
      var k: nat := n;
      while k > 0
        invariant Valid() && k <= n && fs.State() == v
        invariant ScanSlots(v, f, slots, n) == ScanSlots(v, F(), slots, k)
      {
        var ret := Visit5(slots[k]);
        if ret == Stop { return true; }
        k := k - 1;
      }
      stopped := false;
    }

    // The body of check_free_list's outer loop: what to look at next, or
    // nothing more.
    method OneTurn(n: nat, slots: seq<word>) returns (more: bool, n1: nat, slots1: seq<word>)
      requires Valid() && |slots| == SLOTS
      modifies this, seen.bytes
      ensures Valid() && |slots1| == SLOTS
      ensures more ==> Left(F()) < Left(old(F()))
      ensures CheckChain(fs.State(), old(F()), n, slots) ==
              if more then CheckChain(fs.State(), F(), n1, slots1) else F()
    {
      hide CheckChain, ScanSlots, Pass5, SlotsOf, WordAt, Left;
      ChainTurn(fs.State(), F(), n, slots);
      more, n1, slots1 := false, n, slots;
      if n <= 0 || n > 100 {
        corrupted := true;
        return;
      }
      var stopped := VisitSlots(slots, n - 1);
      if stopped || slots[0] == 0 { return; }
      var ret := Visit5(slots[0]);
      if ret != KeepOn { return; }
      // The block passed pass5, so it is in the data area and can be read.
      var ok, data := fs.ReadBlock(slots[0]);
      more, n1, slots1 := true, WordAt(data, 0), SlotsOf(data);
    }

    // check_free_list
    method Check()
      requires Valid() && F() == FreeScan(seen.Bits(), 0, 0, false, 0)
      modifies this, seen.bytes
      ensures Valid() && F() == CheckFreeList(fs.State(), old(seen.Bits()))
    {
      hide CheckChain, Left;
      if fs.nfree == 0 { return; }
      ghost var v, f := fs.State(), F();
      var more: bool, n: nat, slots: seq<word> := true, fs.nfree, fs.free[..];
      while more
        invariant Valid() && fs.State() == v && |slots| == SLOTS
        invariant CheckChain(v, f, v.nfree, v.free) == if more then CheckChain(v, F(), n, slots) else F()
        decreases more, Left(F())
      {
        more, n, slots := OneTurn(n, slots);
      }
    }
  }

  // One turn of check_free_list's outer loop.
  lemma ChainTurn(v: Volume, f: FreeScan, n: nat, slots: seq<word>)
    requires v.Valid() && |f.seen| == v.fsize && |slots| == SLOTS
    ensures n == 0 || n > SLOTS ==> CheckChain(v, f, n, slots) == f.(corrupted := true)
    ensures 0 < n <= SLOTS ==>
      var (f1, stopped) := ScanSlots(v, f, slots, n - 1);
      if stopped || slots[0] == 0 then CheckChain(v, f, n, slots) == f1
      else
        var (f2, ret) := Pass5(v, f1, slots[0]);
        if ret != KeepOn then CheckChain(v, f, n, slots) == f2
        else
          && v.InArea(slots[0]) && Left(f2) < Left(f)
          && CheckChain(v, f, n, slots) == CheckChain(v, f2, WordAt(v.disk[slots[0]], 0), SlotsOf(v.disk[slots[0]]))
  {
  }

  lemma VisitAlone(v: Volume, p: Pass, t: Tables, blk: word)
    requires t.Valid(v)
    ensures Scan(v, p, t, [blk]) == (Visit(v, p, t, blk).0, Visit(v, p, t, blk).1 != Stop)
  {
  }

  // The scan of the tree of an indirect block.
  lemma ScanTree(v: Volume, p: Pass, t: Tables, blk: word, d: nat)
    requires v.Valid() && t.Valid(v) && blk != 0 && 1 <= d <= 2
    ensures
      var (u, ret) := Visit(v, p, t, blk);
      && Scan(v, p, t, Own(v, blk, d)) ==
         (if ret == Stop then (u, false)
          else if ret == Skip || !v.InArea(blk) then (u, true)
          else Scan(v, p, u, OwnAll(v, WordsOf(v.disk[blk]), d - 1)))
  {
    var rest := if v.InArea(blk) then OwnAll(v, WordsOf(v.disk[blk]), d - 1) else [];
    assert Own(v, blk, d) == [blk] + rest;
    hide Own, OwnAll, Visit;
    VisitStops(v, p, t, blk, rest);
  }

  lemma VisitStops(v: Volume, p: Pass, t: Tables, blk: word, rest: seq<word>)
    requires t.Valid(v)
    ensures Visit(v, p, t, blk).1 == Stop ==> Scan(v, p, t, [blk] + rest) == (Visit(v, p, t, blk).0, false)
    ensures Visit(v, p, t, blk).1 != Stop ==> Scan(v, p, t, [blk] + rest) == Scan(v, p, Visit(v, p, t, blk).0, rest)
    ensures Visit(v, p, t, blk).1 == Skip ==> !v.InArea(blk)
    ensures v.InArea(blk) ==> Visit(v, p, t, blk).1 != Skip
  {
  }

  lemma {:induction false} FoundFirst(s: seq<word>, b: word, i: nat)
    requires i <= |s| && (i < |s| ==> s[i] == b) && b !in s[..i]
    ensures Find(s, b) == i
  {
    if i > 0 {
      assert s[0] in s[..i];
      assert s[..i][1..] == s[1..][..i - 1];
      FoundFirst(s[1..], b, i - 1);
    }
  }
}
