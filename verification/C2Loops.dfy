// A loop whose test stands at its top, with a jump back to it, gets the jump
// at the top and the test at its bottom.
module C2Loops {
  import opened C2Run
  import opened C2Moves
  import opened C2Blocks

  // The loop begins with labels from s to l; at t a conditional jump leaves
  // it for the label behind the jump at k, which goes back to the label at l.
  // Behind the conditional jump stands a label.
  ghost predicate Loop(p: Prog, s: nat, l: nat, t: nat, k: nat)
    requires Valid(p)
  {
    && 0 < s <= l < t < k - 1 && k + 1 < |p.order|
    && Labels(p, s, l + 1) && p.node[p.order[k]] == Br(p.order[l])
    && p.node[p.order[t]].Cbr? && p.node[p.order[t]].c < 12 && p.node[p.order[t]].ref == p.order[k + 1]
    && p.node[p.order[t + 1]].Label?
  }

  // The jump at k comes to the front of the loop, the test from s to t to its
  // end, with the condition reversed.
  function Turned(o: seq<Id>, s: nat, t: nat, k: nat): seq<Id>
    requires s <= t < k < |o|
  {
    o[..s] + [o[k]] + o[t + 1..k] + o[s..t + 1] + o[k + 1..]
  }

  function Inverted(p: Prog, s: nat, t: nat, k: nat): Prog
    requires s <= t < k < |p.order| && p.order[t] in p.node && p.node[p.order[t]].Cbr?
  {
    Prog(Turned(p.order, s, t, k), p.node[p.order[t] := Cbr(Revbr(p.node[p.order[t]].c), p.order[t + 1])])
  }

  // ---- another name for a jump ----

  ghost predicate Renamed(p: Prog, q: Prog, k: nat, z: Id)
    requires Valid(p)
  {
    && k < |p.order| && p.node[p.order[k]].Br? && z !in p.order && z != NIL
    && q.order == p.order[k := z] && z in q.node && q.node[z] == p.node[p.order[k]]
    && forall x | x in p.order && x != p.order[k] :: x in q.node && q.node[x] == p.node[x]
  }

  lemma Rename(p: Prog, q: Prog, m: Machine, k: nat, z: Id)
    requires Valid(p) && Renamed(p, q, k, z)
    ensures Valid(q) && Equivalent(p, q, m)
  {
    var bad := {p.order[k], z};
    RenamedValid(p, q, k, z);
    forall c: Config | c.At? && Shared(p, q, bad, c) ensures exists a: nat, b: nat :: Meets(p, q, m, bad, c, a, b) {
      var a := TakeRenamed(p, q, m, k, z, c);
    }
    forall c: Config | c.At? && Shared(q, p, bad, c) ensures exists a: nat, b: nat :: Meets(q, p, m, bad, c, a, b) {
      var a := TakeRenamed(p, q, m, k, z, c);
    }
    FollowsEquivalent(p, q, m, bad);
  }

  lemma RenamedValid(p: Prog, q: Prog, k: nat, z: Id)
    requires Valid(p) && Renamed(p, q, k, z)
    ensures Valid(q) && SameEntries(p, q, {p.order[k], z})
    ensures forall x :: x in q.order <==> x == z || (x in p.order && x != p.order[k])
  {
    forall x | x in p.order && x != p.order[k] ensures x in q.order { assert q.order[Pos(p.order, x)] == x; }
    assert q.order[k] == z;
    forall x | x in q.order && HasRef(q.node[x]) ensures q.node[x].ref in q.order && q.node[q.node[x].ref].Label? {
      var y := if x == z then p.order[k] else x;
      assert p.node[y].ref in p.order && p.node[p.node[y].ref].Label?;
    }
  }

  lemma RenamedNext(p: Prog, q: Prog, k: nat, z: Id, x: Id)
    requires Valid(p) && Renamed(p, q, k, z) && x != p.order[k] && x != z
    ensures Next(q.order, x) == if Next(p.order, x) == p.order[k] then z else Next(p.order, x)
  {
    RenamedValid(p, q, k, z);
    if x in p.order {
      NextAt(p.order, Pos(p.order, x));
      NextAt(q.order, Pos(p.order, x));
    }
  }

  lemma TakeRenamed(p: Prog, q: Prog, m: Machine, k: nat, z: Id, c: Config) returns (a: nat)
    requires Valid(p) && Renamed(p, q, k, z) && c.At? && Shared(p, q, {p.order[k], z}, c)
    ensures Meets(p, q, m, {p.order[k], z}, c, a, a) && Meets(q, p, m, {p.order[k], z}, c, a, a)
  {
    var bad := {p.order[k], z};
    RenamedValid(p, q, k, z);
    RenamedNext(p, q, k, z, c.pc);
    StepShared(p, m, c);
    StepShared(q, m, c);
    hide Distinct;
    var s := Step(p, m, c);
    if s.At? && s.pc == p.order[k] {
      a := 2;
      TwoSteps(p, m, c);
      TwoSteps(q, m, c);
      var e := Steps(p, m, c, 2);
      assert p.node[p.order[k]].ref in p.order && p.node[p.node[p.order[k]].ref].Label?;
      TwoWays(p, q, m, bad, c, a, a);
      TwoWays(q, p, m, bad, c, a, a);
    } else {
      a := 1;
      OneStep(p, q, m, bad, c);
      OneStep(q, p, m, bad, c);
    }
  }

  // ---- a jump to the label that follows ----

  // q is p with the jump n, to the label that stands at j in q, put in at k.
  ghost predicate Jumped(p: Prog, q: Prog, k: nat, j: nat, n: Id) {
    && k < j <= |p.order| && n !in p.order && n != NIL && q.order == Insert(p.order, k, n)
    && n in q.node && q.node[n] == Br(q.order[j]) && Labels(q, k + 1, j + 1)
    && forall x | x in p.order && x in p.node :: x in q.node && q.node[x] == p.node[x]
  }

  lemma InsertJump(p: Prog, q: Prog, m: Machine, k: nat, j: nat, n: Id)
    requires Valid(p) && Jumped(p, q, k, j, n)
    ensures Valid(q) && Equivalent(p, q, m)
  {
    InsertRemove(p.order, k, n);
    JumpedSilent(p, q, k, j, n);
    var r := Without(q, k);
    RemoveSilent(q, m, k, j);
    SameLists(p, r, m);
    EquivalentSwap(q, r, m);
    EquivalentThrough(p, r, q, m);
  }

  lemma SameLists(p: Prog, r: Prog, m: Machine)
    requires Valid(p) && p.order == r.order
    requires forall x | x in p.order && x in p.node :: x in r.node && r.node[x] == p.node[x]
    ensures Valid(r) && Equivalent(p, r, m)
  {
    Reorder(p, r, m);
  }

  lemma JumpedSilent(p: Prog, q: Prog, k: nat, j: nat, n: Id)
    requires Valid(p) && Jumped(p, q, k, j, n)
    ensures Valid(q) && Silent(q, k, j) && Without(q, k).order == p.order
  {
    InsertRemove(p.order, k, n);
    assert q.order[k] == n && j < |q.order|;
    assert q.order[j] == p.order[j - 1];
    hide Distinct, Insert;
    forall x | x in q.order && HasRef(q.node[x])
      ensures q.node[x].ref in q.order && q.node[q.node[x].ref].Label? && q.node[x].ref != n
    {
      if x != n { assert p.node[x].ref in p.order && p.node[p.node[x].ref].Label?; }
      else { assert q.order[j] in q.order && q.node[q.order[j]].Label?; }
    }
  }

  // ---- the whole ----

  // The pieces of the list: what is before the loop, its test with the labels
  // before it, its body, and what is behind the jump.
  datatype Parts = Parts(a: seq<Id>, b: seq<Id>, r: seq<Id>, d: seq<Id>)

  function Cut(o: seq<Id>, s: nat, t: nat, k: nat): (c: Parts)
    requires s <= t < k < |o|
    ensures o == c.a + c.b + c.r + [o[k]] + c.d
  {
    Parts(o[..s], o[s..t + 1], o[t + 1..k], o[k + 1..])
  }

  // What the nodes are: labels up to the i-th of b, at the end of b the test,
  // with condition c; labels at the beginning of r and d.  A jump to the loop
  // is a jump to that label.
  ghost predicate Looped(w: Parts, node: map<Id, Node>, i: nat, c: nat) {
    && i + 1 < |w.b| && w.r != [] && w.d != [] && c < 12
    && (forall j | 0 <= j <= i :: w.b[j] in node && node[w.b[j]].Label?)
    && Last(w.b) in node && node[Last(w.b)] == Cbr(c, w.d[0])
    && w.r[0] in node && node[w.r[0]].Label? && w.d[0] in node && node[w.d[0]].Label?
  }

  function Last(b: seq<Id>): Id
    requires b != []
  {
    b[|b| - 1]
  }

  function Is(node: map<Id, Node>, x: Id): Node
  {
    if x in node then node[x] else Head
  }

  lemma StageOne(w: Parts, node: map<Id, Node>, m: Machine, i: nat, c: nat, x: Id, z: Id)
    requires Looped(w, node, i, c) && Valid(Prog(w.a + w.b + w.r + [z] + w.d, node))
    requires Is(node, x) == Br(w.b[i]) && x != NIL && x !in w.a + w.b + w.r + [z] + w.d
    ensures
      var p, q := Prog(w.a + w.b + w.r + [z] + w.d, node), Prog(w.a + [x] + w.b + w.r + [z] + w.d, node);
      Valid(q) && Equivalent(p, q, m)
  {
    var p, q := Prog(w.a + w.b + w.r + [z] + w.d, node), Prog(w.a + [x] + w.b + w.r + [z] + w.d, node);
    assert q.order == Insert(p.order, |w.a|, x);
    hide Valid, Equivalent, Insert;
    forall j | |w.a| + 1 <= j < |w.a| + 2 + i ensures q.order[j] == w.b[j - |w.a| - 1] {}
    InsertJump(p, q, m, |w.a|, |w.a| + 1 + i, x);
  }

  lemma StageTwo(w: Parts, node: map<Id, Node>, m: Machine, i: nat, c: nat, x: Id, y: Id, z: Id)
    requires Looped(w, node, i, c) && Valid(Prog(w.a + [x] + w.b + w.r + [z] + w.d, node))
    requires Is(node, y) == Br(w.r[0]) && y != NIL && y !in w.a + [x] + w.b + w.r + [z] + w.d
    ensures
      var p, q := Prog(w.a + [x] + w.b + w.r + [z] + w.d, node), Prog(w.a + [x] + w.b + [y] + w.r + [z] + w.d, node);
      Valid(q) && Equivalent(p, q, m)
  {
    var p, q := Prog(w.a + [x] + w.b + w.r + [z] + w.d, node), Prog(w.a + [x] + w.b + [y] + w.r + [z] + w.d, node);
    var n := |w.a| + 1 + |w.b|;
    assert q.order == Insert(p.order, n, y);
    hide Valid, Equivalent, Insert;
    assert q.order[n + 1] == w.r[0];
    InsertJump(p, q, m, n, n + 1, y);
  }

  function Flipped(w: Parts, node: map<Id, Node>, c: nat, y: Id): map<Id, Node>
    requires w.b != [] && w.r != [] && w.d != []
  {
    node[Last(w.b) := Cbr(Revbr(c), w.r[0])][y := Br(w.d[0])]
  }

  lemma StageThree(w: Parts, node: map<Id, Node>, m: Machine, i: nat, c: nat, x: Id, y: Id, z: Id)
    requires Looped(w, node, i, c) && Valid(Prog(w.a + [x] + w.b + [y] + w.r + [z] + w.d, node))
    requires Is(node, y) == Br(w.r[0])
    ensures
      var o := w.a + [x] + w.b + [y] + w.r + [z] + w.d;
      Valid(Prog(o, Flipped(w, node, c, y))) && Equivalent(Prog(o, node), Prog(o, Flipped(w, node, c, y)), m)
  {
    var o := w.a + [x] + w.b + [y] + w.r + [z] + w.d;
    var n := |w.a| + |w.b|;
    assert o[n] == Last(w.b) && o[n + 1] == y;
    SwapJumps(Prog(o, node), m, n);
  }

  lemma StageFour(w: Parts, node: map<Id, Node>, m: Machine, x: Id, y: Id, z: Id)
    requires Valid(Prog(w.a + [x] + w.b + [y] + w.r + [z] + w.d, node))
    requires NoFall(Is(node, x)) && NoFall(Is(node, y)) && NoFall(Is(node, z))
    ensures
      var o, o1 := w.a + [x] + w.b + [y] + w.r + [z] + w.d, w.a + [x] + w.r + [z] + w.b + [y] + w.d;
      Valid(Prog(o1, node)) && Equivalent(Prog(o, node), Prog(o1, node), m)
  {
    var o, o1 := w.a + [x] + w.b + [y] + w.r + [z] + w.d, w.a + [x] + w.r + [z] + w.b + [y] + w.d;
    var a, b, e := w.a + [x], w.b + [y], w.r + [z];
    assert o == a + b + e + w.d && o1 == a + e + b + w.d;
    hide NoFall;
    BlockSwap(a, b, e, w.d);
    assert LastOf(a) == x && LastOf(b) == y && LastOf(e) == z;
    hide LastOf, Distinct, Next, Valid;
    Rearrange(Prog(o, node), m, a, b, e, w.d);
  }

  lemma StageFive(w: Parts, node: map<Id, Node>, m: Machine, i: nat, x: Id, y: Id, z: Id)
    requires Valid(Prog(w.a + [x] + w.r + [z] + w.b + [y] + w.d, node))
    requires i < |w.b| && (forall j | 0 <= j <= i :: Is(node, w.b[j]).Label?) && Is(node, z) == Br(w.b[i])
    ensures
      var p, q := Prog(w.a + [x] + w.r + [z] + w.b + [y] + w.d, node), Prog(w.a + [x] + w.r + w.b + [y] + w.d, node);
      Valid(q) && Equivalent(p, q, m)
  {
    var p, q := Prog(w.a + [x] + w.r + [z] + w.b + [y] + w.d, node), Prog(w.a + [x] + w.r + w.b + [y] + w.d, node);
    var n := |w.a| + 1 + |w.r|;
    assert q.order == Remove(p.order, n);
    forall j | n + 1 <= j < n + 2 + i ensures p.order[j] == w.b[j - n - 1] {}
    assert p.order[n] == z && p.order[n + 1 + i] == w.b[i];
    NotLabelNamed(p, n);
    RemoveSilent(p, m, n, n + 1 + i);
  }

  lemma StageSix(w: Parts, node: map<Id, Node>, m: Machine, x: Id, y: Id)
    requires Valid(Prog(w.a + [x] + w.r + w.b + [y] + w.d, node))
    requires w.d != [] && Is(node, y) == Br(w.d[0])
    ensures
      var p, q := Prog(w.a + [x] + w.r + w.b + [y] + w.d, node), Prog(w.a + [x] + w.r + w.b + w.d, node);
      Valid(q) && Equivalent(p, q, m)
  {
    var p, q := Prog(w.a + [x] + w.r + w.b + [y] + w.d, node), Prog(w.a + [x] + w.r + w.b + w.d, node);
    var n := |w.a| + 1 + |w.r| + |w.b|;
    assert q.order == Remove(p.order, n);
    assert p.order[n] == y && p.order[n + 1] == w.d[0];
    NotLabelNamed(p, n);
    RemoveSilent(p, m, n, n + 1);
  }

  lemma NotLabelNamed(p: Prog, k: nat)
    requires Valid(p) && k < |p.order| && !p.node[p.order[k]].Label?
    ensures forall x | x in p.order && HasRef(p.node[x]) :: p.node[x].ref != p.order[k]
  {
    forall x | x in p.order && HasRef(p.node[x]) ensures p.node[x].ref != p.order[k] {
      assert p.node[p.node[x].ref].Label?;
    }
  }

  // The nodes with two more jumps: z to the loop, y to its body.
  function More(p: Prog, w: Parts, i: nat, y: Id, z: Id): map<Id, Node>
    requires i < |w.b| && w.r != []
  {
    p.node[z := Br(w.b[i])][y := Br(w.r[0])]
  }

  ghost predicate Fresh(p: Prog, y: Id, z: Id) {
    y !in p.order && z !in p.order && y != z && y != NIL && z != NIL
  }

  lemma LoopParts(p: Prog, s: nat, l: nat, t: nat, k: nat)
    requires Valid(p) && Loop(p, s, l, t, k)
    ensures 0 < s <= l < t < k < |p.order| && p.order[k] in p.node && p.order[t] in p.node && p.node[p.order[t]].Cbr?
    ensures
      var w, c := Cut(p.order, s, t, k), p.node[p.order[t]].c;
      && Looped(w, p.node, l - s, c) && p.node[p.order[k]] == Br(w.b[l - s])
      && Last(w.b) == p.order[t] && w.r[0] == p.order[t + 1]
  {
    hide *;
    LoopIndexes(p, s, l, t, k);
    EndNodes(p, s, l, t, k);
    CutAt(p.order, s, l, t, k);
    forall j | s <= j <= l ensures p.order[j] in p.node && p.node[p.order[j]].Label? { TopLabel(p, s, l, t, k, j); }
    MakeLooped(Cut(p.order, s, t, k), p.node, p.order, s, l, t, k);
  }

  lemma EndNodes(p: Prog, s: nat, l: nat, t: nat, k: nat)
    requires Valid(p) && Loop(p, s, l, t, k)
    ensures t + 1 < |p.order| && k + 1 < |p.order|
    ensures p.order[k] in p.node && p.order[l] in p.node && p.node[p.order[k]] == Br(p.order[l])
    ensures p.order[t] in p.node && p.node[p.order[t]].Cbr? && p.node[p.order[t]].c < 12 &&
      p.node[p.order[t]].ref == p.order[k + 1]
    ensures p.order[t + 1] in p.node && p.node[p.order[t + 1]].Label?
    ensures p.order[k + 1] in p.node && p.node[p.order[k + 1]].Label?
  {
    InOrder(p, k);
    InOrder(p, t);
    InOrder(p, t + 1);
    hide Distinct, Labels;
  }

  lemma TopLabel(p: Prog, s: nat, l: nat, t: nat, k: nat, i: nat)
    requires Valid(p) && Loop(p, s, l, t, k) && s <= i <= l
    ensures i < |p.order| && p.order[i] in p.node && p.node[p.order[i]].Label?
  {
    hide Distinct, Valid;
  }

  lemma CutAt(o: seq<Id>, s: nat, l: nat, t: nat, k: nat)
    requires s <= l < t < k - 1 && k + 1 < |o|
    ensures
      var w := Cut(o, s, t, k);
      && w.b != [] && w.r != [] && w.d != [] && |w.b| == t + 1 - s
      && Last(w.b) == o[t] && w.r[0] == o[t + 1] && w.d[0] == o[k + 1]
      && forall j | s <= j <= l :: w.b[j - s] == o[j]
  {
  }

  lemma MakeLooped(w: Parts, node: map<Id, Node>, o: seq<Id>, s: nat, l: nat, t: nat, k: nat)
    requires s <= l < t < k - 1 && k + 1 < |o|
    requires w.b != [] && w.r != [] && w.d != [] && |w.b| == t + 1 - s
    requires Last(w.b) == o[t] && w.r[0] == o[t + 1] && w.d[0] == o[k + 1] && forall j | s <= j <= l ::
      w.b[j - s] == o[j]
    requires o[t] in node && node[o[t]].Cbr? && node[o[t]].c < 12 && node[o[t]].ref == o[k + 1]
    requires o[t + 1] in node && node[o[t + 1]].Label? && o[k + 1] in node && node[o[k + 1]].Label?
    requires forall j | s <= j <= l :: o[j] in node && node[o[j]].Label?
    ensures Looped(w, node, l - s, node[o[t]].c)
  {
    forall j | 0 <= j <= l - s ensures w.b[j] in node && node[w.b[j]].Label? { assert w.b[(s + j) - s] == o[s + j]; }
  }

  lemma LoopIndexes(p: Prog, s: nat, l: nat, t: nat, k: nat)
    requires Valid(p) && Loop(p, s, l, t, k)
    ensures 0 < s <= l < t < k - 1 && k + 1 < |p.order|
  {
  }

  lemma MoreLooped(p: Prog, w: Parts, i: nat, c: nat, x: Id, y: Id, z: Id)
    requires Valid(p) && Looped(w, p.node, i, c) && Fresh(p, y, z) && p.order == w.a + w.b + w.r + [x] + w.d
    requires x in p.node && p.node[x] == Br(w.b[i])
    ensures
      var node := More(p, w, i, y, z);
      && Looped(w, node, i, c) && Is(node, x) == Br(w.b[i]) && Is(node, z) == Br(w.b[i]) && Is(node, y) == Br(w.r[0])
      && (forall v | v in p.order :: v in node && node[v] == p.node[v])
  {
    forall j | 0 <= j <= i ensures w.b[j] in p.order { assert p.order[|w.a| + j] == w.b[j]; }
    assert Last(w.b) in p.order && w.r[0] in p.order && w.d[0] in p.order && x in p.order;
    hide Distinct, Valid;
  }

  lemma StageZero(p: Prog, m: Machine, w: Parts, node: map<Id, Node>, k: nat, x: Id, y: Id, z: Id)
    requires Valid(p) && k < |p.order| && p.order == w.a + w.b + w.r + [x] + w.d && p.order[k] == x
    requires Fresh(p, y, z) && (forall v | v in p.order :: v in node && node[v] == p.node[v])
    requires p.node[x].Br? && Is(node, z) == p.node[x]
    ensures
      var o := w.a + w.b + w.r + [z] + w.d;
      && Valid(Prog(o, node)) && Equivalent(p, Prog(o, node), m)
      && x != NIL && x !in o && x != y && y != NIL && y !in w.a + [x] + w.b + w.r + [z] + w.d
  {
    var o := w.a + w.b + w.r + [z] + w.d;
    assert |w.a + w.b + w.r| == k by { NextAt(p.order, k); NextAt(p.order, |w.a + w.b + w.r|); }
    assert o == p.order[k := z];
    assert x in p.order;
    Rename(p, Prog(o, node), m, k, z);
    RenamedValid(p, Prog(o, node), k, z);
  }

  // The stages that come after the renaming.
  lemma Stages(w: Parts, node: map<Id, Node>, m: Machine, i: nat, c: nat, x: Id, y: Id, z: Id)
    requires Looped(w, node, i, c) && Valid(Prog(w.a + w.b + w.r + [z] + w.d, node))
    requires Is(node, x) == Br(w.b[i]) && Is(node, z) == Br(w.b[i]) && Is(node, y) == Br(w.r[0])
    requires x != NIL && x !in w.a + w.b + w.r + [z] + w.d && y != NIL && y !in w.a + [x] + w.b + w.r + [z] + w.d
    ensures
      var p, q := Prog(w.a + w.b + w.r + [z] + w.d, node), Prog(w.a + [x] + w.r + w.b + w.d, Flipped(w, node, c, y));
      Valid(q) && Equivalent(p, q, m)
  {
    hide *;
    LoopedEnds(w, node, i, c);
    var node1 := Flipped(w, node, c, y);
    FlippedNodes(w, node, i, c, x, y, z);
    StageOne(w, node, m, i, c, x, z);
    StageTwo(w, node, m, i, c, x, y, z);
    StageThree(w, node, m, i, c, x, y, z);
    StageFour(w, node1, m, x, y, z);
    StageFive(w, node1, m, i, x, y, z);
    StageSix(w, node1, m, x, y);
    var p0, p1 := Prog(w.a + w.b + w.r + [z] + w.d, node), Prog(w.a + [x] + w.b + w.r + [z] + w.d, node);
    var o := w.a + [x] + w.b + [y] + w.r + [z] + w.d;
    var p4, p5 := Prog(w.a + [x] + w.r + [z] + w.b + [y] + w.d, node1), Prog(w.a + [x] + w.r + w.b + [y] + w.d, node1);
    var p6 := Prog(w.a + [x] + w.r + w.b + w.d, node1);
    EquivalentThrough(p0, p1, Prog(o, node), m);
    EquivalentThrough(p0, Prog(o, node), Prog(o, node1), m);
    EquivalentThrough(p0, Prog(o, node1), p4, m);
    EquivalentThrough(p0, p4, p5, m);
    EquivalentThrough(p0, p5, p6, m);
  }

  lemma LoopedEnds(w: Parts, node: map<Id, Node>, i: nat, c: nat)
    requires Looped(w, node, i, c)
    ensures i < |w.b| && w.r != [] && w.d != []
  {
  }

  lemma FlippedNodes(w: Parts, node: map<Id, Node>, i: nat, c: nat, x: Id, y: Id, z: Id)
    requires Looped(w, node, i, c) && Is(node, x) == Br(w.b[i]) && Is(node, z) == Br(w.b[i]) &&
      Is(node, y) == Br(w.r[0])
    requires x != y && y != z
    ensures
      var node1 := Flipped(w, node, c, y);
      && NoFall(Is(node1, x)) && NoFall(Is(node1, y)) && NoFall(Is(node1, z))
      && (forall j | 0 <= j <= i :: Is(node1, w.b[j]).Label?) && Is(node1, z) == Br(w.b[i]) &&
        Is(node1, y) == Br(w.d[0])
  {
  }

  // y and z are two more jumps, to the body and to the test.
  lemma InvertLoop(p: Prog, m: Machine, s: nat, l: nat, t: nat, k: nat, y: Id, z: Id)
    requires Valid(p) && Loop(p, s, l, t, k) && Fresh(p, y, z)
    ensures s <= t < k < |p.order| && p.order[t] in p.node && p.node[p.order[t]].Cbr?
    ensures Valid(Inverted(p, s, t, k)) && Equivalent(p, Inverted(p, s, t, k), m)
  {
    hide *;
    LoopParts(p, s, l, t, k);
    var w, c, x, i := Cut(p.order, s, t, k), p.node[p.order[t]].c, p.order[k], l - s;
    LoopedEnds(w, p.node, i, c);
    MoreLooped(p, w, i, c, x, y, z);
    var node := More(p, w, i, y, z);
    StageZero(p, m, w, node, k, x, y, z);
    Stages(w, node, m, i, c, x, y, z);
    var p0, p6 := Prog(w.a + w.b + w.r + [z] + w.d, node), Prog(w.a + [x] + w.r + w.b + w.d, Flipped(w, node, c, y));
    EquivalentThrough(p, p0, p6, m);
    LoopIndexes(p, s, l, t, k);
    InvertedIs(p, w, s, l, t, k, y, z);
    SameLists(p6, Inverted(p, s, t, k), m);
    EquivalentThrough(p, p6, Inverted(p, s, t, k), m);
  }

  lemma InvertedIs(p: Prog, w: Parts, s: nat, l: nat, t: nat, k: nat, y: Id, z: Id)
    requires Fresh(p, y, z)
    requires s <= l < t < k - 1 && k + 1 < |p.order| && p.order[t] in p.node && p.node[p.order[t]].Cbr?
    requires w == Cut(p.order, s, t, k) && l - s < |w.b| && w.r != [] && w.d != []
    ensures
      var q, c := Inverted(p, s, t, k), p.node[p.order[t]].c;
      var node := Flipped(w, More(p, w, l - s, y, z), c, y);
      && q.order == w.a + [p.order[k]] + w.r + w.b + w.d
      && forall v | v in q.order && v in node :: v in q.node && q.node[v] == node[v]
  {
    CutEnds(p.order, s, t, k);
    forall v ensures v in Turned(p.order, s, t, k) <==> v in p.order { TurnedSame(p.order, s, t, k, v); }
    hide Cut;
  }

  lemma CutEnds(o: seq<Id>, s: nat, t: nat, k: nat)
    requires s <= t < k - 1 && k < |o|
    ensures
      var w := Cut(o, s, t, k);
      w.b != [] && w.r != [] && Last(w.b) == o[t] && w.r[0] == o[t + 1] &&
        Turned(o, s, t, k) == w.a + [o[k]] + w.r + w.b + w.d
  {
  }

  lemma TurnedSame(o: seq<Id>, s: nat, t: nat, k: nat, v: Id)
    requires s <= t < k < |o|
    ensures v in Turned(o, s, t, k) <==> v in o
  {
    assert o == o[..s] + o[s..t + 1] + o[t + 1..k] + [o[k]] + o[k + 1..];
  }
}
