// fsutil/superblock.c: the image of an RX01 disk, whose sectors are
// interleaved and whose tracks begin with track 1.
module Skew {
  import opened Words

  const DISK := 256256          // 77 tracks of 26 sectors

  function Deskew(address: nat): nat {
    var sector := address / 128 * 3 % 26;
    var track := address / 128 / 26 + 1;
    ((if track == 77 then 0 else track) * 26 + sector) * 128 + address % 128
  }

  // The address that is kept at place b of the image: 9 * 3 is 1 modulo 26.
  function Reskew(b: nat): nat {
    var track, sector := b / 128 / 26, b / 128 % 26;
    ((if track == 0 then 76 else track - 1) * 26 + sector * 9 % 26) * 128 + b % 128
  }

  lemma Parts(n: nat, o: nat)
    requires o < 128
    ensures (n * 128 + o) / 128 == n && (n * 128 + o) % 128 == o
  {
  }

  lemma Tracks(t: nat, s: nat)
    requires s < 26
    ensures (t * 26 + s) / 26 == t && (t * 26 + s) % 26 == s
  {
  }

  lemma Mod26(k: int, x: int)
    ensures (26 * k + x) % 26 == x % 26
  {
  }

  // 3 and 9 undo each other modulo 26.
  lemma Interleave(s: nat)
    ensures s * 3 % 26 * 9 % 26 == s % 26 && s * 9 % 26 * 3 % 26 == s % 26
  {
    Mod26(-9 * (s * 3 / 26) + s, s);
    Mod26(-9 * (s * 3 / 26), s * 27);
    Mod26(s, s);
    Mod26(-3 * (s * 9 / 26), s * 27);
  }

  // What deskew does to the number of a sector.
  function Sector(n: nat): nat {
    var track := n / 26 + 1;
    (if track == 77 then 0 else track) * 26 + n * 3 % 26
  }

  function Unsector(n: nat): nat {
    var track := n / 26;
    (if track == 0 then 76 else track - 1) * 26 + n % 26 * 9 % 26
  }

  lemma SectorBack(n: nat)
    ensures Unsector(Sector(n)) == n
  {
    var t := if n / 26 + 1 == 77 then 0 else n / 26 + 1;
    Tracks(t, n * 3 % 26);
    Interleave(n);
  }

  lemma SectorThere(n: nat)
    requires n < 77 * 26
    ensures Sector(Unsector(n)) == n && Unsector(n) < 77 * 26
  {
    var t := if n / 26 == 0 then 76 else n / 26 - 1;
    Tracks(t, n % 26 * 9 % 26);
    Interleave(n % 26);
    var r := n % 26 * 9 % 26;
    assert Unsector(n) == t * 26 + r;
    Mod26(t * 3, r * 3);
    hide Unsector;
    assert Unsector(n) * 3 == 26 * (t * 3) + r * 3;
  }

  lemma DeskewIs(a: nat)
    ensures Deskew(a) == Sector(a / 128) * 128 + a % 128
    ensures Reskew(a) == Unsector(a / 128) * 128 + a % 128
  {
  }

  // No two addresses share a place, and on the disk every place has one.
  lemma DeskewInverse(a: nat)
    ensures Reskew(Deskew(a)) == a
    ensures a < DISK ==> Deskew(a) < DISK && Reskew(a) < DISK && Deskew(Reskew(a)) == a
  {
    DeskewIs(a);
    DeskewIs(Deskew(a));
    Parts(Sector(a / 128), a % 128);
    SectorBack(a / 128);
    if a < DISK {
      DeskewIs(Reskew(a));
      Parts(Unsector(a / 128), a % 128);
      SectorThere(a / 128);
    }
  }

  lemma DeskewInjective(a: nat, b: nat)
    requires Deskew(a) == Deskew(b)
    ensures a == b
  {
    DeskewInverse(a);
    DeskewInverse(b);
  }

  // Inside a sector addresses and places run in parallel.
  lemma DeskewRuns(a: nat, j: nat)
    requires a % 128 + j < 128
    ensures Deskew(a + j) == Deskew(a) + j
  {
    DeskewIs(a);
    DeskewIs(a + j);
    Parts(a / 128, a % 128 + j);
    assert a + j == a / 128 * 128 + (a % 128 + j);
  }

  // The disk as the rest of the program sees it.
  function Flat(file: seq<byte>): (f: seq<byte>)
    requires |file| == DISK
    ensures |f| == DISK
  {
    seq(DISK, a requires 0 <= a < DISK => DeskewInverse(a); file[Deskew(a)])
  }

  function Put(s: seq<byte>, at: nat, d: seq<byte>): (r: seq<byte>)
    requires at + |d| <= |s|
    ensures |r| == |s|
  {
    s[..at] + d + s[at + |d|..]
  }

  // A write inside one sector is the same write on the flat disk.
  lemma PutFlat(file: seq<byte>, a: nat, d: seq<byte>)
    requires |file| == DISK && a % 128 + |d| <= 128 && a + |d| <= DISK && d != []
    ensures Deskew(a) + |d| <= DISK
    ensures Flat(Put(file, Deskew(a), d)) == Put(Flat(file), a, d)
  {
    hide Deskew, Reskew;
    var n := |d|;
    DeskewRuns(a, n - 1);
    DeskewInverse(a + n - 1);
    var l, r := Flat(Put(file, Deskew(a), d)), Put(Flat(file), a, d);
    forall x | 0 <= x < DISK ensures l[x] == r[x] { PutOne(file, a, d, x); }
  }

  lemma PutOne(file: seq<byte>, a: nat, d: seq<byte>, x: nat)
    requires |file| == DISK && a % 128 + |d| <= 128 && a + |d| <= DISK && d != [] && x < DISK
    requires Deskew(a) + |d| <= DISK
    ensures Deskew(x) < DISK
    ensures Put(file, Deskew(a), d)[Deskew(x)] == if a <= x < a + |d| then d[x - a] else file[Deskew(x)]
  {
    hide Deskew, Reskew;
    DeskewInverse(x);
    if a <= x < a + |d| {
      DeskewRuns(a, x - a);
    } else if Deskew(a) <= Deskew(x) < Deskew(a) + |d| {
      var j := Deskew(x) - Deskew(a);
      DeskewRuns(a, j);
      DeskewInjective(x, a + j);
    }
  }

  lemma GetFlat(file: seq<byte>, a: nat, n: nat)
    requires |file| == DISK && a % 128 + n <= 128 && a + n <= DISK && n > 0
    ensures Deskew(a) + n <= DISK
    ensures file[Deskew(a)..Deskew(a) + n] == Flat(file)[a..a + n]
  {
    hide Deskew, Reskew;
    DeskewRuns(a, n - 1);
    DeskewInverse(a + n - 1);
    var l, r := file[Deskew(a)..Deskew(a) + n], Flat(file)[a..a + n];
    forall j | 0 <= j < n ensures l[j] == r[j] { DeskewRuns(a, j); }
  }

  // A sector at an address off the disk lies behind the end of the image.
  lemma OffDisk(a: nat)
    requires a >= DISK && a % 128 == 0
    ensures Deskew(a) >= DISK
  {
    if Deskew(a) < DISK {
      DeskewInverse(a);
      DeskewInverse(Deskew(a));
    }
  }

  class Image {
    var file: seq<byte>
    var pos: nat            // the position of the file descriptor
    var seek: nat
    const isize: nat
    const writable: bool
    var modified: bool

    constructor (file: seq<byte>, isize: nat, writable: bool)
      requires |file| == DISK
      ensures |this.file| == DISK && this.file == file && this.isize == isize && this.writable == writable
      ensures InSync() && seek == 512 && !modified
    {
      this.file, this.isize, this.writable, modified := file, isize, writable, false;
      pos, seek := Deskew(512), 512;
    }

    // The file stands where the byte at address seek is kept.
    ghost predicate InSync()
      reads this
    {
      |file| == DISK && pos == Deskew(seek)
    }

    method Seek(offset: nat)
      modifies this`pos, this`seek
      ensures pos == Deskew(offset) && seek == offset
    {
      pos := Deskew(offset);
      seek := offset;
    }

    // update_seek, after a piece of n bytes inside a sector has moved pos.
    method UpdateSeek(n: nat)
      requires |file| == DISK && pos == Deskew(seek) + n && n > 0 && seek % 128 + n <= 128
      modifies this`pos, this`seek
      ensures InSync() && seek == old(seek) + n
    {
      if seek % 128 + n >= 128 {
        Seek(seek + n);
      } else {
        DeskewRuns(seek, n);
        seek := seek + n;
      }
    }

    // read(2) of n bytes, which fails when fewer are left, and update_seek.
    method ReadPiece(n: nat) returns (ok: bool, data: seq<byte>)
      requires InSync() && n > 0 && seek % 128 + n <= 128
      modifies this`pos, this`seek
      ensures ok <==> Deskew(old(seek)) + n <= DISK
      ensures ok ==> InSync() && seek == old(seek) + n && data == file[old(pos)..old(pos) + n]
    {
      data := [];
      if pos + n > |file| { return false, data; }
      data := file[pos..pos + n];
      pos := pos + n;
      UpdateSeek(n);
      ok := true;
    }

    // A sector of lsxfs_read_block.
    method ReadSector() returns (ok: bool, data: seq<byte>)
      requires InSync() && seek % 128 == 0
      modifies this`pos, this`seek
      ensures ok <==> old(seek) + 128 <= DISK
      ensures ok ==> InSync() && seek == old(seek) + 128 && data == Flat(file)[old(seek)..seek]
    {
      hide Deskew, Flat;
      if seek + 128 <= DISK { GetFlat(file, seek, 128); } else { OffDisk(seek); }
      ok, data := ReadPiece(128);
    }

    // lsxfs_read_block
    method ReadBlock(bnum: word) returns (ok: bool, data: seq<byte>)
      requires InSync()
      modifies this`pos, this`seek
      ensures ok <==> bnum > isize + 1 && bnum * 512 + 512 <= DISK
      ensures ok ==> InSync() && data == Flat(file)[bnum * 512..bnum * 512 + 512]
    {
      hide Deskew, Flat;
      data := [];
      if bnum <= isize + 1 { return false, data; }
      Seek(bnum * 512);
      ghost var flat, start := Flat(file), bnum * 512;
      var i := 0;
      while i < 4
        invariant 0 <= i <= 4 && InSync() && seek == start + 128 * i && Flat(file) == flat
        invariant i > 0 ==> seek <= DISK
        invariant i == 0 ==> data == []
        invariant i > 0 ==> data == flat[start..seek]
      {
        var more, piece := ReadSector();
        if !more { return false, data; }
        Adjoin(flat, start, seek - 128, seek);
        data := data + piece;
        i := i + 1;
      }
      ok := true;
    }

    // lsxfs_write, from the beginning of a sector
    method Write(data: seq<byte>) returns (ok: bool)
      requires InSync() && seek % 128 == 0 && seek + |data| <= DISK
      modifies this`file, this`pos, this`seek
      ensures ok == writable
      ensures ok ==> InSync() && seek == old(seek) + |data| && Flat(file) == Put(Flat(old(file)), old(seek), data)
      ensures !ok ==> file == old(file)
    {
      if !writable { return false; }
      hide Deskew, Flat, Put;
      ghost var flat, start := Flat(file), seek;
      var bytes := data;
      PutNothing(flat, start);
      assert data[..0] == [];
      while bytes != []
        invariant InSync() && |bytes| <= |data| && seek == start + |data| - |bytes|
        invariant bytes == data[|data| - |bytes|..] && (bytes != [] ==> seek % 128 == 0)
        invariant Flat(file) == Put(flat, start, data[..|data| - |bytes|])
        decreases |bytes|
      {
        var len := if |bytes| > 128 then 128 else |bytes|;
        ghost var done := |data| - |bytes|;
        PutTwice(flat, start, data[..done], bytes[..len]);
        assert data[..done] + bytes[..len] == data[..done + len];
        WritePiece(bytes[..len]);
        bytes := bytes[len..];
      }
      assert data[..|data|] == data;
      ok := true;
    }

    // write(2) of a piece inside a sector, and update_seek
    method WritePiece(piece: seq<byte>)
      requires InSync() && piece != [] && seek % 128 + |piece| <= 128 && seek + |piece| <= DISK
      modifies this`file, this`pos, this`seek
      ensures InSync() && seek == old(seek) + |piece| && Flat(file) == Put(Flat(old(file)), old(seek), piece)
    {
      hide Deskew, Flat;
      PutFlat(file, seek, piece);
      file := Put(file, pos, piece);
      pos := pos + |piece|;
      UpdateSeek(|piece|);
    }

    // lsxfs_write_block
    method WriteBlock(bnum: word, data: seq<byte>) returns (ok: bool)
      requires InSync() && |data| == 512 && bnum * 512 + 512 <= DISK
      modifies this
      ensures ok <==> writable && bnum > isize + 1
      ensures ok ==> InSync() && modified && Flat(file) == Put(Flat(old(file)), bnum * 512, data)
      ensures !ok ==> file == old(file)
    {
      if !writable || bnum <= isize + 1 { return false; }
      Seek(bnum * 512);
      var done := Write(data);
      modified := true;
      ok := true;
    }
  }

  lemma Adjoin(s: seq<byte>, i: nat, j: nat, k: nat)
    requires i <= j <= k <= |s|
    ensures s[i..j] + s[j..k] == s[i..k]
  {
  }

  lemma PutNothing(s: seq<byte>, at: nat)
    requires at <= |s|
    ensures Put(s, at, []) == s
  {
  }

  lemma PutTwice(s: seq<byte>, at: nat, d: seq<byte>, e: seq<byte>)
    requires at + |d| + |e| <= |s|
    ensures Put(Put(s, at, d), at + |d|, e) == Put(s, at, d + e)
  {
  }
}
