// Whole runs of the file system: a fresh volume as lsxfs_create makes it, and
// any sequence of allocations, frees, writes, truncations, creations and
// deletions on it, up to the first operation that fails.
module Runs {
  import opened Words
  import opened FreeBlocks
  import opened Inodes
  import opened Mapping
  import opened MapTheorem
  import opened Files

  datatype Option<T> = None | Some(value: T)

  // `held` are blocks allocated directly and not entered in any inode, as
  // lsxfs_install_boot_lsx does for the secondary boot program.
  datatype World = World(vol: Volume, inos: seq<Inode>, held: multiset<word>)

  ghost predicate Sound(w: World) {
    w.vol.Valid() && forall i | 0 <= i < |w.inos| :: w.inos[i].Valid()
  }

  ghost function AllBlocks(v: Volume, inos: seq<Inode>): multiset<word>
    requires v.Valid() && forall i | 0 <= i < |inos| :: inos[i].Valid()
  {
    if inos == [] then multiset{} else multiset(Blocks(v, inos[0])) + AllBlocks(v, inos[1..])
  }

  // The data area is partitioned: every block of it is once on the free list
  // s, or once in one inode, or held.
  ghost predicate Partition(w: World, s: seq<word>) {
    && Sound(w) && FreeStack(w.vol, s)
    && multiset(s) + AllBlocks(w.vol, w.inos) + w.held == w.vol.Area()
    && forall i | 0 <= i < |w.inos| && w.inos[i].mode == 0 :: Blocks(w.vol, w.inos[i]) == []
  }

  datatype Op =
    | AllocOp
    | FreeOp(b: word)
    | WriteOp(i: nat, off: nat, data: seq<byte>)
    | TruncateOp(i: nat)
    | CreateOp(i: nat, mode: bv16)
    | DeleteOp(i: nat)

  // What the callers in fsutil keep to: a request lies within one block and
  // below the double indirect range, a block is freed by whoever holds it,
  // and a new inode is taken from the unused ones.
  predicate Legal(w: World, op: Op) {
    match op
    case AllocOp => true
    case FreeOp(b) => b in w.held
    case WriteOp(i, off, data) =>
      && i < |w.inos| && w.inos[i].mode != 0 && !Special(w.inos[i].mode)
      && off / 512 < SINGLE && off % 512 + |data| <= 512 && data != []
    case TruncateOp(i) => i < |w.inos|
    case CreateOp(i, mode) => i < |w.inos| && w.inos[i].mode == 0 && !Large(mode)
    case DeleteOp(i) => i < |w.inos|
  }

  const CLEARED := Inode(0, 0, [0, 0, 0, 0, 0, 0, 0, 0])

  // One operation; None when it fails.
  function Step(w: World, op: Op): Option<World>
    requires w.vol.Valid() && (forall i | 0 <= i < |w.inos| :: w.inos[i].Valid()) && Legal(w, op)
  {
    match op
    case AllocOp =>
      var (v, b) := Alloc(w.vol);
      if b == 0 then None else Some(World(v, w.inos, w.held + multiset{b}))
    case FreeOp(b) =>
      var (v, ok) := Free(w.vol, b);
      if !ok then None else Some(World(v, w.inos, w.held - multiset{b}))
    case WriteOp(i, off, data) =>
      var r := InodeWrite(w.vol, w.inos[i], off, data, |data|);
      if !r.2 then None else Some(World(r.0, w.inos[i := r.1], w.held))
    case TruncateOp(i) =>
      var (v, ino) := Truncate(w.vol, w.inos[i]);
      Some(World(v, w.inos[i := ino], w.held))
    case CreateOp(i, mode) =>
      Some(World(w.vol, w.inos[i := CLEARED.(mode := mode)], w.held))
    case DeleteOp(i) =>
      Some(World(Truncate(w.vol, w.inos[i]).0, w.inos[i := CLEARED], w.held))
  }

  // The run of ops from w, up to the first failure; the operations must be
  // legal when their turn comes.
  function Run(w: World, ops: seq<Op>): Option<World>
    requires w.vol.Valid() && forall i | 0 <= i < |w.inos| :: w.inos[i].Valid()
    decreases |ops|
  {
    if ops == [] then Some(w)
    else if !Legal(w, ops[0]) then None
    else
      match Step(w, ops[0])
      case None => None
      case Some(w1) => Run(w1, ops[1..])
  }

  // ---- bags of blocks over the inode table ----

  lemma AllBlocksSplit(v: Volume, inos: seq<Inode>)
    requires v.Valid() && (forall k | 0 <= k < |inos| :: inos[k].Valid()) && inos != []
    ensures AllBlocks(v, inos) == multiset(Blocks(v, inos[0])) + AllBlocks(v, inos[1..])
  {
  }

  lemma {:induction false} OneOfAll(v: Volume, inos: seq<Inode>, i: nat)
    requires v.Valid() && (forall k | 0 <= k < |inos| :: inos[k].Valid()) && i < |inos|
    ensures multiset(Blocks(v, inos[i])) <= AllBlocks(v, inos)
  {
    AllBlocksSplit(v, inos);
    var rest := inos[1..];
    if i > 0 {
      assert rest[i - 1] == inos[i];
      OneOfAll(v, rest, i - 1);
      SumWithin(multiset{}, multiset(Blocks(v, inos[i])), multiset(Blocks(v, inos[0])), AllBlocks(v, rest));
    }
  }

  lemma {:induction false} TwoOfAll(v: Volume, inos: seq<Inode>, i: nat, j: nat)
    requires v.Valid() && (forall k | 0 <= k < |inos| :: inos[k].Valid()) && i < j < |inos|
    ensures multiset(Blocks(v, inos[i])) + multiset(Blocks(v, inos[j])) <= AllBlocks(v, inos)
  {
    hide Blocks, AllBlocks;
    AllBlocksSplit(v, inos);
    var rest := inos[1..];
    assert rest[j - 1] == inos[j];
    if i == 0 {
      OneOfAll(v, rest, j - 1);
    } else {
      assert rest[i - 1] == inos[i];
      TwoOfAll(v, rest, i - 1, j - 1);
    }
    SumWithin(multiset(Blocks(v, inos[i])), multiset(Blocks(v, inos[j])), multiset(Blocks(v, inos[0])),
      AllBlocks(v, rest));
  }

  // Only inode i changed: it lost `minus` and gained `plus`.
  lemma {:induction false} OneChanges(v: Volume, inos: seq<Inode>, u: Volume, i: nat, ino: Inode,
                                      minus: multiset<word>, plus: multiset<word>)
    requires v.Valid() && u.Valid() && (forall k | 0 <= k < |inos| :: inos[k].Valid()) && i < |inos| && ino.Valid()
    requires forall k | 0 <= k < |inos| && k != i :: Blocks(u, inos[k]) == Blocks(v, inos[k])
    requires multiset(Blocks(u, ino)) + minus == multiset(Blocks(v, inos[i])) + plus
    ensures AllBlocks(u, inos[i := ino]) + minus == AllBlocks(v, inos) + plus
  {
    var rest := inos[1..];
    var inos' := inos[i := ino];
    AllBlocksSplit(v, inos);
    AllBlocksSplit(u, inos');
    hide Blocks, AllBlocks;
    assert forall k | 0 <= k < |rest| :: rest[k] == inos[k + 1];
    if i == 0 {
      NoneChange(v, rest, u);
      assert inos'[1..] == rest;
      BagStep(multiset(Blocks(v, inos[0])), AllBlocks(v, rest), multiset(Blocks(u, ino)), AllBlocks(u, rest), minus,
        plus);
    } else {
      OneChanges(v, rest, u, i - 1, ino, minus, plus);
      assert inos'[1..] == rest[i - 1 := ino];
      BagStep(AllBlocks(v, rest), multiset(Blocks(v, inos[0])), AllBlocks(u, inos'[1..]),
        multiset(Blocks(u, inos[0])), minus, plus);
    }
  }

  lemma BagStep(a: multiset<word>, b: multiset<word>, a': multiset<word>, b': multiset<word>, minus: multiset<word>,
                plus: multiset<word>)
    requires b' == b && a' + minus == a + plus
    ensures (a' + b') + minus == (a + b) + plus && (b' + a') + minus == (b + a) + plus
  {
    assert (a' + b') + minus == (a' + minus) + b;
    assert (a + b) + plus == (a + plus) + b;
    assert b' + a' == a' + b' && b + a == a + b;
  }

  lemma {:induction false} NoneChange(v: Volume, inos: seq<Inode>, u: Volume)
    requires v.Valid() && u.Valid() && forall k | 0 <= k < |inos| :: inos[k].Valid()
    requires forall k | 0 <= k < |inos| :: Blocks(u, inos[k]) == Blocks(v, inos[k])
    ensures AllBlocks(u, inos) == AllBlocks(v, inos)
  {
    if inos != [] {
      assert Blocks(u, inos[0]) == Blocks(v, inos[0]);
      assert forall k | 0 <= k < |inos| - 1 :: inos[1..][k] == inos[k + 1];
      NoneChange(v, inos[1..], u);
    }
  }

  lemma AreaBag(v: Volume)
    ensures forall b: word :: v.Area()[b] == if v.InArea(b) then 1 else 0
  {
  }

  // In a partition an inode is apart from the free list.
  lemma ApartFromFree(w: World, s: seq<word>, i: nat)
    requires Partition(w, s) && i < |w.inos|
    ensures Apart(w.vol, s, Blocks(w.vol, w.inos[i]))
  {
    var bs: seq<word> := Blocks(w.vol, w.inos[i]);
    OneOfAll(w.vol, w.inos, i);
    AreaBag(w.vol);
    var sum: multiset<word> := multiset(s) + AllBlocks(w.vol, w.inos) + w.held;
    forall x: word ensures (multiset(s) + multiset(bs))[x] <= w.vol.Area()[x] {
      assert sum[x] == w.vol.Area()[x];
    }
    forall x | x in bs ensures w.vol.InArea(x) {
      assert x in multiset(bs);
      assert (multiset(s) + multiset(bs))[x] >= 1;
    }
  }

  // Blocks of another inode, and held blocks, are neither free nor in inode i.
  lemma OthersApart(w: World, s: seq<word>, i: nat, j: nat)
    requires Partition(w, s) && i < |w.inos| && j < |w.inos| && i != j
    ensures forall b | b in Blocks(w.vol, w.inos[j]) :: b !in s && b !in Blocks(w.vol, w.inos[i])
  {
    var bi: seq<word>, bj: seq<word> := Blocks(w.vol, w.inos[i]), Blocks(w.vol, w.inos[j]);
    TwoOfAll(w.vol, w.inos, if i < j then i else j, if i < j then j else i);
    AreaBag(w.vol);
    var sum: multiset<word> := multiset(s) + AllBlocks(w.vol, w.inos) + w.held;
    forall b | b in bj ensures b !in s && b !in bi {
      assert multiset(bj)[b] >= 1;
      assert sum[b] == w.vol.Area()[b] <= 1;
      assert multiset(s)[b] == 0 && multiset(bi)[b] == 0;
    }
  }

  lemma HeldApart(w: World, s: seq<word>, b: word)
    requires Partition(w, s) && b in w.held
    ensures b !in s && w.vol.InArea(b)
    ensures forall i | 0 <= i < |w.inos| :: b !in Blocks(w.vol, w.inos[i])
  {
    AreaBag(w.vol);
    var sum: multiset<word> := multiset(s) + AllBlocks(w.vol, w.inos) + w.held;
    assert sum[b] == w.vol.Area()[b];
    assert multiset(s)[b] == 0;
    forall i | 0 <= i < |w.inos| ensures b !in Blocks(w.vol, w.inos[i]) {
      OneOfAll(w.vol, w.inos, i);
      assert multiset(Blocks(w.vol, w.inos[i]))[b] == 0;
    }
  }

  // ---- one step ----

  // Inode j is left alone: same blocks, same contents, same file bytes.
  ghost predicate Untouched(w: World, w': World, j: nat)
    requires Sound(w) && Sound(w') && j < |w.inos| == |w'.inos| && |w'.vol.disk| == |w.vol.disk|
  {
    && w'.inos[j] == w.inos[j]
    && Blocks(w'.vol, w.inos[j]) == Blocks(w.vol, w.inos[j])
    && (forall b: word | b in Blocks(w.vol, w.inos[j]) && b < |w.vol.disk| :: w'.vol.disk[b] == w.vol.disk[b])
    && (!Special(w.inos[j].mode) ==> forall p: nat :: ByteAt(w'.vol, w.inos[j], p) == ByteAt(w.vol, w.inos[j], p))
  }

  // What an operation on inode `on` (or on none) may do to the others.
  ghost predicate OthersUntouched(w: World, w': World, on: int)
    requires Sound(w) && Sound(w')
  {
    && |w'.inos| == |w.inos| && |w'.vol.disk| == |w.vol.disk|
    && (forall j | 0 <= j < |w.inos| && j != on :: Untouched(w, w', j))
    && (forall b: word | b in w.held && b in w'.held && b < |w.vol.disk| :: w'.vol.disk[b] == w.vol.disk[b])
  }

  lemma BytesSame(v: Volume, s: seq<word>, ino: Inode, u: Volume, at: multiset<word>, p: nat)
    requires Held(v, s, ino) && u.Valid() && SameBut(v, u, at)
    requires forall b | b in Blocks(v, ino) :: b !in at
    ensures ByteAt(u, ino, p) == ByteAt(v, ino, p)
  {
    var l := BlockOf(p);
    if Large(ino.mode) {
      BelowApart(v, s, ino, SlotOf(l));
      MapFrame(v, u, ino, ino, l, at);
    }
    if MapBlock(v, ino, l) != 0 {
      MappedOwned(v, s, ino, l);
    }
  }

  lemma LeftAlone(w: World, s: seq<word>, j: nat, w': World, at: multiset<word>)
    requires Partition(w, s) && Sound(w') && j < |w.inos| == |w'.inos| && w'.inos[j] == w.inos[j]
    requires SameBut(w.vol, w'.vol, at) && forall b | b in Blocks(w.vol, w.inos[j]) :: b !in at
    ensures Untouched(w, w', j)
  {
    BlocksFrame(w.vol, w'.vol, w.inos[j], at);
    if !Special(w.inos[j].mode) {
      ApartFromFree(w, s, j);
      forall p: nat ensures ByteAt(w'.vol, w.inos[j], p) == ByteAt(w.vol, w.inos[j], p) {
        BytesSame(w.vol, s, w.inos[j], w'.vol, at, p);
      }
    }
  }

  // u differs from the volume of w only in `at`, which is free or in inode i.
  lemma AllLeftAlone(w: World, s: seq<word>, i: int, w': World, at: multiset<word>)
    requires Partition(w, s) && Sound(w') && |w'.inos| == |w.inos|
    requires forall j | 0 <= j < |w.inos| && j != i :: w'.inos[j] == w.inos[j]
    requires SameBut(w.vol, w'.vol, at)
    requires forall b | b in at ::
      b in s || b in w.held - w'.held || (0 <= i < |w.inos| && b in Blocks(w.vol, w.inos[i]))
    ensures OthersUntouched(w, w', i)
    ensures forall j | 0 <= j < |w.inos| && j != i :: Blocks(w'.vol, w.inos[j]) == Blocks(w.vol, w.inos[j])
  {
    forall j | 0 <= j < |w.inos| && j != i ensures Untouched(w, w', j)
    {
      NotIn(w, s, i, j, w'.held, at);
      LeftAlone(w, s, j, w', at);
    }
    forall b: word | b in w.held && b in w'.held && b < |w.vol.disk| ensures w'.vol.disk[b] == w.vol.disk[b] {
      HeldOnce(w, s, b);
      HeldApart(w, s, b);
    }
    forall j | 0 <= j < |w.inos| && j != i ensures Blocks(w'.vol, w.inos[j]) == Blocks(w.vol, w.inos[j]) {
      assert Untouched(w, w', j);
    }
  }

  lemma NotIn(w: World, s: seq<word>, i: int, j: nat, held: multiset<word>, at: multiset<word>)
    requires Partition(w, s) && j < |w.inos| && j != i
    requires forall b | b in at :: b in s || b in w.held - held || (0 <= i < |w.inos| && b in Blocks(w.vol, w.inos[i]))
    ensures forall b | b in Blocks(w.vol, w.inos[j]) :: b !in at
  {
    ApartFromFree(w, s, j);
    var bj: seq<word> := Blocks(w.vol, w.inos[j]);
    assert bj + [] == bj;
    ApartSplit(w.vol, s, bj, []);
    if 0 <= i < |w.inos| { OthersApart(w, s, i, j); }
    forall b | b in bj ensures b !in at {
      if b in w.held { HeldApart(w, s, b); }
    }
  }

  lemma HeldOnce(w: World, s: seq<word>, b: word)
    requires Partition(w, s) && b in w.held
    ensures w.held[b] == 1
  {
    AreaBag(w.vol);
    var sum: multiset<word> := multiset(s) + AllBlocks(w.vol, w.inos) + w.held;
    assert sum[b] == w.vol.Area()[b];
  }

  // Inode i exchanged `minus` for `plus` with the free list, writing only in `at`.
  lemma InodeStep(w: World, s: seq<word>, i: nat, u: Volume, ino: Inode, t: seq<word>, at: multiset<word>,
                  minus: multiset<word>, plus: multiset<word>)
    requires Partition(w, s) && i < |w.inos| && u.Valid() && ino.Valid()
    requires FreeStack(u, t) && SameBut(w.vol, u, at)
    requires forall b | b in at :: b in s || b in Blocks(w.vol, w.inos[i])
    requires multiset(Blocks(u, ino)) + minus == multiset(Blocks(w.vol, w.inos[i])) + plus
    requires multiset(t) + plus == multiset(s) + minus
    requires ino.mode == 0 ==> Blocks(u, ino) == []
    ensures Partition(World(u, w.inos[i := ino], w.held), t)
    ensures OthersUntouched(w, World(u, w.inos[i := ino], w.held), i)
  {
    var w' := World(u, w.inos[i := ino], w.held);
    AllLeftAlone(w, s, i, w', at);
    OneChanges(w.vol, w.inos, u, i, ino, minus, plus);
    BagsBalance(multiset(s), AllBlocks(w.vol, w.inos), w.held, multiset(t), AllBlocks(u, w'.inos), minus, plus);
    SameArea(w.vol, u);
    Repartitioned(w, s, i, w', t);
  }

  lemma Repartitioned(w: World, s: seq<word>, i: nat, w': World, t: seq<word>)
    requires Partition(w, s) && i < |w.inos| && Sound(w') && FreeStack(w'.vol, t)
    requires |w'.inos| == |w.inos| && forall j | 0 <= j < |w.inos| && j != i :: w'.inos[j] == w.inos[j]
    requires forall j | 0 <= j < |w.inos| && j != i :: Blocks(w'.vol, w.inos[j]) == Blocks(w.vol, w.inos[j])
    requires w'.inos[i].mode == 0 ==> Blocks(w'.vol, w'.inos[i]) == []
    requires w'.vol.Area() == w.vol.Area()
    requires multiset(t) + AllBlocks(w'.vol, w'.inos) + w'.held == multiset(s) + AllBlocks(w.vol, w.inos) + w.held
    ensures Partition(w', t)
  {
    forall j | 0 <= j < |w'.inos| && w'.inos[j].mode == 0 ensures Blocks(w'.vol, w'.inos[j]) == [] {
      if j != i {
        assert Blocks(w.vol, w.inos[j]) == [];
      }
    }
  }

  // A step that changes no inode.
  lemma ListStep(w: World, s: seq<word>, w': World, t: seq<word>, at: multiset<word>)
    requires Partition(w, s) && Sound(w') && w'.inos == w.inos && FreeStack(w'.vol, t)
    requires SameBut(w.vol, w'.vol, at) && forall b | b in at :: b in s || b in w.held - w'.held
    requires multiset(t) + w'.held == multiset(s) + w.held
    ensures Partition(w', t) && OthersUntouched(w, w', -1)
  {
    AllLeftAlone(w, s, -1, w', at);
    NoneChange(w.vol, w.inos, w'.vol);
    SameArea(w.vol, w'.vol);
    var a := AllBlocks(w.vol, w.inos);
    assert multiset(t) + a + w'.held == (multiset(t) + w'.held) + a;
    assert multiset(s) + a + w.held == (multiset(s) + w.held) + a;
  }

  lemma SameArea(v: Volume, u: Volume)
    requires u.isize == v.isize && u.fsize == v.fsize
    ensures u.Area() == v.Area()
  {
    assert forall b: word :: u.InArea(b) == v.InArea(b);
  }

  lemma BagsBalance(s: multiset<word>, a: multiset<word>, h: multiset<word>, t: multiset<word>, a': multiset<word>,
                    minus: multiset<word>, plus: multiset<word>)
    requires a' + minus == a + plus && t + plus == s + minus
    ensures t + a' + h == s + a + h
  {
    forall x: word ensures t[x] + a'[x] == s[x] + a[x] {
      assert (a' + minus)[x] == (a + plus)[x] && (t + plus)[x] == (s + minus)[x];
    }
  }

  // What one legal operation that succeeds keeps, with t the new free list.
  ghost predicate StepKeeps(w: World, op: Op, w': World, t: seq<word>)
    requires Sound(w)
  {
    && Partition(w', t)
    && OthersUntouched(w, w', match op case AllocOp => -1 case FreeOp(_) => -1
                              case WriteOp(i, _, _) => i case TruncateOp(i) => i
                              case CreateOp(i, _) => i case DeleteOp(i) => i)
  }

  lemma AllocStep(w: World, s: seq<word>) returns (t: seq<word>)
    requires Partition(w, s) && Step(w, AllocOp).Some?
    ensures StepKeeps(w, AllocOp, Step(w, AllocOp).value, t)
  {
    hide Blocks, AllBlocks, Chain;
    var w' := Step(w, AllocOp).value;
    AllocPops(w.vol, s);
    t := s[..|s| - 1];
    assert s == t + [s[|s| - 1]];
    ListStep(w, s, w', t, multiset{});
  }

  lemma FreeStep(w: World, s: seq<word>, b: word) returns (t: seq<word>)
    requires Partition(w, s) && Legal(w, FreeOp(b))
    ensures Step(w, FreeOp(b)).Some? && StepKeeps(w, FreeOp(b), Step(w, FreeOp(b)).value, t)
  {
    HeldApart(w, s, b);
    HeldOnce(w, s, b);
    FreePushes(w.vol, s, b);
    t := s + [b];
    assert multiset(t) == multiset(s) + multiset{b};
    ListStep(w, s, Step(w, FreeOp(b)).value, t, multiset{b});
  }

  lemma WriteStep(w: World, s: seq<word>, i: nat, off: nat, data: seq<byte>, w': World) returns (t: seq<word>)
    requires Partition(w, s) && Legal(w, WriteOp(i, off, data)) && Step(w, WriteOp(i, off, data)) == Some(w')
    ensures StepKeeps(w, WriteOp(i, off, data), w', t)
  {
    StepIsWrite(w, i, off, data, w');
    t := WriteStepOn(w, s, i, off, data, w');
  }

  lemma StepIsWrite(w: World, i: nat, off: nat, data: seq<byte>, w': World)
    requires Sound(w) && Legal(w, WriteOp(i, off, data)) && Step(w, WriteOp(i, off, data)) == Some(w')
    ensures var r := InodeWrite(w.vol, w.inos[i], off, data, |data|);
      r.2 && w' == World(r.0, w.inos[i := r.1], w.held)
  {
    hide InodeWrite;
  }

  lemma WriteStepOn(w: World, s: seq<word>, i: nat, off: nat, data: seq<byte>, w': World) returns (t: seq<word>)
    requires Partition(w, s) && Legal(w, WriteOp(i, off, data))
    requires InodeWrite(w.vol, w.inos[i], off, data, |data|).2
    requires w' == World(InodeWrite(w.vol, w.inos[i], off, data, |data|).0,
                         w.inos[i := InodeWrite(w.vol, w.inos[i], off, data, |data|).1], w.held)
    ensures StepKeeps(w, WriteOp(i, off, data), w', t)
  {
    hide InodeWrite, Need, Grew;
    ApartFromFree(w, s, i);
    var r := WrittenFile(w.vol, s, w.inos[i], off, data, BlockOf(off));
    t := s[..|s| - Need(w.vol, w.inos[i], BlockOf(off))];
    WriteExchange(w, s, i, r.0, r.1, Need(w.vol, w.inos[i], BlockOf(off)));
  }

  lemma WrittenFile(v: Volume, s: seq<word>, ino: Inode, off: nat, data: seq<byte>, l: word)
    returns (r: (Volume, Inode, bool))
    requires v.Valid() && ino.Valid()
    requires Held(v, s, ino) && off / 512 < SINGLE && off % 512 + |data| <= 512 && data != [] && ino.mode != 0
    requires l == BlockOf(off) && l < SINGLE && InodeWrite(v, ino, off, data, |data|).2
    ensures r == InodeWrite(v, ino, off, data, |data|) && r.1.mode != 0 && r.0.Valid() && r.1.Valid()
    ensures Need(v, ino, l) <= |s| && Grew(v, s, ino, r.0, r.1, Need(v, ino, l))
  {
    WriteOneBlock(v, s, ino, off, data);
    WriteKeepsMode(v, ino, off, data);
    hide InodeWrite;
    r := InodeWrite(v, ino, off, data, |data|);
  }

  lemma WriteExchange(w: World, s: seq<word>, i: nat, u: Volume, ino: Inode, n: nat)
    requires Partition(w, s) && i < |w.inos| && ino.mode != 0
    requires Grew(w.vol, s, w.inos[i], u, ino, n)
    ensures Partition(World(u, w.inos[i := ino], w.held), s[..|s| - n])
    ensures OthersUntouched(w, World(u, w.inos[i := ino], w.held), i)
  {
    var t, taken := s[..|s| - n], s[|s| - n..];
    var at: multiset<word> := multiset(Blocks(w.vol, w.inos[i])) + multiset(taken);
    forall b | b in at ensures b in s || b in Blocks(w.vol, w.inos[i]) {
      if b in multiset(taken) { assert b in taken; }
    }
    assert s == t + taken;
    InodeStep(w, s, i, u, ino, t, at, multiset{}, multiset(taken));
  }

  lemma WriteKeepsMode(v: Volume, ino: Inode, off: nat, data: seq<byte>)
    requires v.Valid() && ino.Valid() && off % 512 + |data| <= 512 && data != [] && ino.mode != 0
    ensures InodeWrite(v, ino, off, data, |data|).1.mode != 0
  {
    OneTurn(v, ino, off, data);
    MapKeepsMode(v, ino, BlockOf(off));
  }

  lemma MapKeepsMode(v: Volume, ino: Inode, l: word)
    requires v.Valid() && ino.Valid() && ino.mode != 0
    ensures MapWrite(v, ino, l).ino.mode != 0
  {
  }

  lemma TruncateExchange(w: World, s: seq<word>, i: nat, ino: Inode) returns (t: seq<word>)
    requires Partition(w, s) && i < |w.inos| && ino.Valid()
    requires Blocks(Truncate(w.vol, w.inos[i]).0, ino) == []
    ensures Partition(World(Truncate(w.vol, w.inos[i]).0, w.inos[i := ino], w.held), t)
    ensures OthersUntouched(w, World(Truncate(w.vol, w.inos[i]).0, w.inos[i := ino], w.held), i)
    ensures t == s + Reverse(Blocks(w.vol, w.inos[i]))
  {
    ApartFromFree(w, s, i);
    TruncatePushes(w.vol, s, w.inos[i]);
    var bs: seq<word> := Blocks(w.vol, w.inos[i]);
    t := s + Reverse(bs);
    InodeStep(w, s, i, Truncate(w.vol, w.inos[i]).0, ino, t, multiset(bs), multiset(bs), multiset{});
  }

  lemma ClearedOwnsNothing(v: Volume, mode: bv16)
    requires v.Valid() && !Large(mode)
    ensures Blocks(v, CLEARED.(mode := mode)) == []
  {
    assert CLEARED.addr == seq(8, _ => 0);
    ZerosOwnNothing(v, 8);
  }

  // Every legal operation that succeeds keeps the partition of the data area,
  // and leaves the blocks, contents and bytes of every other inode alone.
  lemma StepPartition(w: World, s: seq<word>, op: Op) returns (t: seq<word>)
    requires Partition(w, s) && Legal(w, op) && Step(w, op).Some?
    ensures StepKeeps(w, op, Step(w, op).value, t)
  {
    match op
    case AllocOp => t := AllocStep(w, s);
    case FreeOp(b) => t := FreeStep(w, s, b);
    case WriteOp(i, off, data) => t := WriteStep(w, s, i, off, data, Step(w, op).value);
    case TruncateOp(i) =>
      ApartFromFree(w, s, i);
      TruncatePushes(w.vol, s, w.inos[i]);
      t := TruncateExchange(w, s, i, Truncate(w.vol, w.inos[i]).1);
    case CreateOp(i, mode) =>
      t := s;
      ClearedOwnsNothing(w.vol, mode);
      InodeStep(w, s, i, w.vol, CLEARED.(mode := mode), s, multiset{}, multiset{}, multiset{});
    case DeleteOp(i) =>
      ClearedOwnsNothing(Truncate(w.vol, w.inos[i]).0, 0);
      assert CLEARED.(mode := 0) == CLEARED;
      t := TruncateExchange(w, s, i, CLEARED);
  }

  // The data area stays partitioned in every run.
  lemma {:induction false} RunPartition(w: World, s: seq<word>, ops: seq<Op>) returns (t: seq<word>)
    requires Partition(w, s) && Run(w, ops).Some?
    ensures Partition(Run(w, ops).value, t)
    decreases |ops|
  {
    if ops == [] {
      t := s;
    } else {
      t := StepPartition(w, s, ops[0]);
      t := RunPartition(Step(w, ops[0]).value, t, ops[1..]);
    }
  }
}
