// c2/c20.c and c21.c: the improver at work on its list.  The machine m that
// the methods take is any machine: each promises that the program runs on it
// as before.
module C2Impl {
  import opened C2Run
  import opened C2Moves
  import opened C2Blocks
  import opened C2Refs
  import opened C2Loops

  predicate IsOp(n: Node) { n.Op? }
  predicate IsJump(n: Node) { HasRef(n) || n.Jmp? }

  function Ops(p: Prog): nat { Tally(p.node, p.order, IsOp) }
  function Jumps(p: Prog): nat { Tally(p.node, p.order, IsJump) }

  // The nodes from x to the end of the list.
  function After(p: Prog, x: Id): nat
    requires x in p.order
  {
    |p.order| - Pos(p.order, x)
  }

  // Where the removal of code behind a jump stops.  The source would also
  // take away an entry of a jump table there.
  predicate StopsDead(n: Node) {
    n.Label? || n.Head? || n.Jsw? || (n.Op? && n.op in [0, 5, 6, 7, 31, 32, 49])
  }

  // What a rewrite step keeps: the program stays well formed and runs alike,
  // node x is still there, and there is no more to do than before.
  ghost predicate Kept(p: Prog, q: Prog, m: Machine, x: Id) {
    && Formed(q) && Equivalent(p, q, m)
    && x in p.order && x in q.order
    && (Ops(q) < Ops(p) ||
        (Ops(q) == Ops(p) && (Jumps(q) < Jumps(p) || (Jumps(q) == Jumps(p) && After(q, x) <= After(p, x)))))
  }

  lemma KeptSame(p: Prog, m: Machine, x: Id)
    requires Formed(p) && x in p.order
    ensures Kept(p, p, m, x)
  {
    EquivalentSame(p, m);
  }

  lemma KeptThrough(p: Prog, q: Prog, r: Prog, m: Machine, x: Id)
    requires Kept(p, q, m, x) && Kept(q, r, m, x)
    ensures Kept(p, r, m, x)
  {
    hide Equivalent, Formed, Ops, Jumps, After;
    EquivalentThrough(p, q, r, m);
  }

  // A node other than the first, the last and x is dropped.
  lemma Dropped(p: Prog, m: Machine, k: nat, x: Id)
    requires Formed(p) && 0 < k < |p.order| - 1 && x in p.order && x != p.order[k]
    requires Valid(Without(p, k)) && Equivalent(p, Without(p, k), m)
    ensures Kept(p, Without(p, k), m, x)
    ensures Ops(Without(p, k)) == Ops(p) - One(p.node, p.order[k], IsOp)
    ensures Jumps(Without(p, k)) == Jumps(p) - One(p.node, p.order[k], IsJump)
  {
    FormedWithout(p, k);
    TallyRemove(p.node, p.order, k, IsOp);
    TallyRemove(p.node, p.order, k, IsJump);
    AfterRemove(p.order, k, x);
  }

  lemma FormedWithout(p: Prog, k: nat)
    requires Formed(p) && 0 < k < |p.order| - 1 && Valid(Without(p, k))
    ensures Formed(Without(p, k))
  {
    RemoveDistinct(p.order, k);
    FormedLike(p, Without(p, k));
  }

  // Another list with the same ends.
  lemma FormedLike(p: Prog, q: Prog)
    requires Formed(p) && Valid(q) && q.order != []
    requires q.order[0] == p.order[0] && q.order[|q.order| - 1] == p.order[|p.order| - 1]
    requires q.node[q.order[0]] == p.node[q.order[0]]
    requires q.node[q.order[|q.order| - 1]] == p.node[q.order[|q.order| - 1]]
    requires forall x | x in q.order && q.node[x].Cbr? :: q.node[x].c < 12
    requires forall x | x in q.order && q.node[x].Head? :: x in p.order && x in p.node && p.node[x].Head?
    ensures Formed(q)
  {
    hide Valid, Distinct;
  }

  lemma AfterRemove(s: seq<Id>, k: nat, x: Id)
    requires Distinct(s) && k < |s| && x in s && x != s[k]
    ensures x in Remove(s, k) && |Remove(s, k)| - Pos(Remove(s, k), x) <= |s| - Pos(s, x)
  {
    RemoveDistinct(s, k);
    var i := Pos(s, x);
    NextAt(Remove(s, k), if i < k then i else i - 1);
  }

  // Counts are exact and the numbers from isn on are free.
  ghost predicate Sound(p: Prog, refc: Counts, isn: nat) {
    Formed(p) && Exact(p, refc) && isn > 0 && forall x | x in p.order :: x < isn
  }

  // The count of label l is one too high.
  ghost predicate SoundBut(p: Prog, refc: Counts, isn: nat, l: Id) {
    && Formed(p) && ExactBut(p, refc, l, 1) && isn > 0 && (forall x | x in p.order :: x < isn)
    && l in p.order && p.node[l].Label?
  }

  // The counts of labels l and e are one too high.
  ghost predicate SoundTwo(p: Prog, refc: Counts, isn: nat, l: Id, e: Id) {
    && e in refc && e != l && e in p.order && e in p.node && p.node[e].Label?
    && SoundBut(p, refc[e := refc[e] - 1], isn, l)
  }

  // Jumps and labels of all kinds are as they were.
  ghost predicate Untouched(p: Prog, q: Prog) {
    forall z | z in p.order && z in p.node && !IsInstr(p.node[z]) ::
      z in q.order && z in q.node && q.node[z] == p.node[z]
  }

  class Optimizer {
    var order: seq<Id>
    var node: map<Id, Node>
    var refc: Counts
    var isn: nat          // numbers from here on are free

    function P(): Prog
      reads this
    {
      Prog(order, node)
    }

    // The state between two rewrites.
    ghost predicate Ok()
      reads this
    {
      Sound(P(), refc, isn)
    }

    // The same with the count of one label still to be taken down.
    ghost predicate Owing(l: Id)
      reads this
    {
      SoundBut(P(), refc, isn, l)
    }

    // And the same with a second label's count to be taken down.
    ghost predicate OwingTwo(l: Id, e: Id)
      reads this
    {
      SoundTwo(P(), refc, isn, l, e)
    }

    lemma Fields()
      ensures P() == Prog(order, node)
      ensures Ok() <==> Sound(P(), refc, isn)
      ensures forall l :: Owing(l) <==> SoundBut(P(), refc, isn, l)
      ensures forall l, e :: OwingTwo(l, e) <==> SoundTwo(P(), refc, isn, l, e)
    {
    }

    lemma Opened()
      requires Ok()
      ensures Formed(P()) && Valid(P()) && forall x | x in order :: x in node
    {
    }

    // nonlab
    method NonLab(i: nat) returns (j: nat)
      requires Formed(P()) && i < |order|
      ensures i <= j < |order| && Labels(P(), i, j) && !node[order[j]].Label?
    {
      j := i;
      while node[order[j]].Label?
        invariant i <= j < |order| && Labels(P(), i, j)
        decreases |order| - j
      {
        j := j + 1;
      }
    }

    // The loops that step back over labels.
    method BackNonLab(i: nat) returns (a: nat)
      requires Formed(P()) && 0 < i < |order|
      ensures a < i && Labels(P(), a + 1, i) && !node[order[a]].Label?
    {
      a := i - 1;
      while node[order[a]].Label?
        invariant a < i && Labels(P(), a + 1, i)
        decreases a
      {
        a := a - 1;
      }
    }

    // decref
    method Decref(l: Id, x: Id, ghost m: Machine)
      requires Owing(l) && x in order && x != l
      modifies this`refc, this`order
      ensures Ok() && Kept(old(P()), P(), m, x)
      ensures Ops(P()) == old(Ops(P())) && Jumps(P()) == old(Jumps(P()))
      ensures |order| <= old(|order|) && forall y | y in old(order) && y != l :: y in order
      ensures order == old(order) || order == Remove(old(order), Pos(old(order), l))
    {
      ghost var p := P();
      refc := refc[l := refc[l] - 1];
      if refc[l] <= 0 {
        var k := Pos(order, l);
        LabelDropped(p, refc, m, k, x);
        RemoveDistinct(order, k);
        order := Remove(order, k);
      } else {
        KeptSame(p, m, x);
      }
    }

    // refcount: every jump is made to name the last of the labels that stand
    // together, the counts are taken, and labels that no jump names go, unless
    // what they stand before is an entry of a jump table or unknown.
    method RefCount(ghost m: Machine)
      requires Raw()
      modifies this`node, this`refc, this`order
      ensures Ok() && Equivalent(old(P()), P(), m)
      ensures LastNamed(P()) && Trimmed(P())
    {
      ghost var p := P();
      CountJumps(m);
      hide *;
      Fields();
      ghost var q := P();
      var i: nat := 0;
      EquivalentSame(q, m);
      NoneTrimmed(q, refc);
      while i < |order|
        invariant Ok() && Equivalent(q, P(), m) && LastNamed(P()) && i <= |order| && TrimmedTo(P(), refc, i)
        decreases |order| - i
      {
        ghost var r := P();
        i := TrimAt(i, m);
        EquivalentThrough(q, r, P(), m);
      }
      EquivalentThrough(p, q, P(), m);
      Fields();
      AllTrimmed(P(), refc, isn);
    }

    method CountJumps(ghost m: Machine)
      requires Raw()
      modifies this`node, this`refc
      ensures Ok() && Equivalent(old(P()), P(), m) && LastNamed(P())
    {
      ghost var p := P();
      ZeroCounts();
      ghost var was := order;
      var i := 0;
      EquivalentSame(p, m);
      while i < |order|
        invariant 0 <= i <= |order| && order == was && Formed(P()) && Equivalent(p, P(), m)
        invariant CountedTo(P(), refc, i) && LastTo(P(), i)
      {
        hide Formed, Equivalent, CountedTo, LastTo;
        ghost var q := P();
        CountJump(i, m);
        EquivalentThrough(p, q, P(), m);
        i := i + 1;
      }
      hide Equivalent, Formed, Labels;
      AllCounted(P(), refc, isn);
    }

    method ZeroCounts()
      requires Formed(P())
      modifies this`refc
      ensures CountedTo(P(), refc, 0) && LastTo(P(), 0)
    {
      var i := 0;
      while i < |order|
        invariant 0 <= i <= |order|
        invariant forall k | 0 <= k < i && node[order[k]].Label? :: order[k] in refc && refc[order[k]] == 0
      {
        if node[order[i]].Label? { refc := refc[order[i] := 0]; }
        i := i + 1;
      }
    }

    method CountJump(i: nat, ghost m: Machine)
      requires Formed(P()) && i < |order| && CountedTo(P(), refc, i) && LastTo(P(), i)
      modifies this`node, this`refc
      ensures order == old(order) && Formed(P()) && Equivalent(old(P()), P(), m)
      ensures CountedTo(P(), refc, i + 1) && LastTo(P(), i + 1)
    {
      ghost var p := P();
      var x := order[i];
      InOrder(p, i);
      if node[x].Br? || node[x].Cbr? || node[x].Jsw? {
        CountRef(i, m);
      } else {
        EquivalentSame(p, m);
        hide CountedTo, LastTo, Formed, Equivalent;
        CountNone(p, refc, i);
      }
    }

    // The label that it names is the last of its group from now on.
    method CountRef(i: nat, ghost m: Machine)
      requires Formed(P()) && i < |order| && CountedTo(P(), refc, i) && LastTo(P(), i)
      requires order[i] in node && HasRef(node[order[i]])
      modifies this`node, this`refc
      ensures order == old(order) && Formed(P()) && Equivalent(old(P()), P(), m)
      ensures CountedTo(P(), refc, i + 1) && LastTo(P(), i + 1)
    {
      ghost var p := P();
      var x := order[i];
      RefLabel(p, x);
      var a := Pos(order, node[x].ref);
      var e := NonLab(a);
      NonLabKnown(p, e);
      hide *;
      CountOne(p, refc, m, i, a, e);
      var lp := order[e - 1];
      if lp != node[x].ref { node := node[x := SetRef(node[x], lp)]; }
      refc := refc[lp := refc[lp] + 1];
      RetargetedIs(p, P(), x, lp);
    }

    // The label at i, if it is of no use, goes.  The result is where to go on.
    method TrimAt(i: nat, ghost m: Machine) returns (i1: nat)
      requires Ok() && LastNamed(P()) && i < |order| && TrimmedTo(P(), refc, i)
      modifies this`refc, this`order
      ensures Ok() && LastNamed(P()) && i1 <= |order| && TrimmedTo(P(), refc, i1) && Equivalent(old(P()), P(), m)
      ensures |order| - i1 < old(|order|) - i
    {
      ghost var p := P();
      EquivalentSame(p, m);
      SoundIn(p, refc, isn);
      i1 := i + 1;
      if node[order[i]].Label? && refc[order[i]] == 0 {
        var j := NonLab(i);
        if !Kinds(node[order[j]]) {
          Trim(i, m);
          return i;
        }
        hide Equivalent, Formed, Exact, LastNamed;
        TrimKept(p, refc, i, j);
      } else {
        TrimPlain(p, refc, i);
      }
    }

    method Trim(i: nat, ghost m: Machine)
      requires Ok() && LastNamed(P()) && i < |order| && TrimmedTo(P(), refc, i)
      requires order[i] in node && node[order[i]].Label? && order[i] in refc && refc[order[i]] == 0
      modifies this`refc, this`order
      ensures Ok() && LastNamed(P()) && i <= |order| && TrimmedTo(P(), refc, i) && Equivalent(old(P()), P(), m)
      ensures |order| < old(|order|)
    {
      hide *;
      Fields();
      ghost var p := P();
      TrimOne(p, refc, isn, m, i);
      var l := order[i];
      refc := refc[l := refc[l] - 1];
      order := Remove(order, i);
      Fields();
    }

    // What counts are to be taken of.
    ghost predicate Raw()
      reads this
    {
      Formed(P()) && isn > 0 && forall x | x in order :: x < isn
    }

    // The main loop, but for its passes over registers: how often iterate is
    // called in each turn, and whether jumpsw is called at its end.
    method Improve(turns: seq<(nat, bool)>, ghost m: Machine)
      requires Raw()
      modifies this
      ensures Raw() && Equivalent(old(P()), P(), m)
    {
      ghost var p := P();
      EquivalentSame(p, m);
      for i := 0 to |turns|
        invariant Raw() && Equivalent(p, P(), m)
      {
        hide Raw, Equivalent;
        ghost var q := P();
        ImproveOnce(turns[i].0, turns[i].1, m);
        EquivalentThrough(p, q, P(), m);
      }
    }

    method ImproveOnce(n: nat, swap: bool, ghost m: Machine)
      requires Raw()
      modifies this
      ensures Raw() && Equivalent(old(P()), P(), m)
    {
      ghost var p := P();
      RefCount(m);
      for i := 0 to n
        invariant Ok() && Equivalent(p, P(), m)
      {
        hide Ok, Equivalent;
        ghost var q := P();
        Iterate(m);
        EquivalentThrough(p, q, P(), m);
      }
      ghost var q := P();
      ImproveEnd(swap, m);
      hide *;
      EquivalentThrough(p, q, P(), m);
    }

    method ImproveEnd(swap: bool, ghost m: Machine)
      requires Ok()
      modifies this
      ensures Raw() && Equivalent(old(P()), P(), m)
    {
      hide Equivalent, Formed, Exact, LastNamed, Trimmed;
      ghost var p := P();
      ComJump(m);
      if swap {
        ghost var q := P();
        var nj := JumpSw(m);
        EquivalentThrough(p, q, P(), m);
      }
    }

    // iterate, first rewrite: a jump to a jump.
    method Thread(x: Id, ghost m: Machine)
      requires Ok() && x in order
      modifies this`refc, this`order, this`node
      ensures Ok() && Kept(old(P()), P(), m, x)
      ensures isn == old(isn)
    {
      KeptSame(P(), m, x);
      if HasRef(node[x]) {
        var l := node[x].ref;
        var i := Pos(order, l);
        var j := NonLab(i);
        if node[order[j]].Br? && node[order[j]].ref != l {
          Rethread(x, i, j, m);
        }
      }
    }

    method Rethread(x: Id, i: nat, j: nat, ghost m: Machine)
      requires Ok() && Threadable(P(), x, i, j)
      modifies this`refc, this`order, this`node
      ensures Ok() && Kept(old(P()), P(), m, x)
    {
      hide *;
      Fields();
      Opened();
      ghost var p := P();
      ThreadableParts(p, x, i, j);
      var l, r := node[x].ref, node[order[j]].ref;
      ThreadOne(p, refc, isn, m, x, i, j);
      refc := refc[r := refc[r] + 1];
      node := node[x := SetRef(node[x], r)];
      Fields();
      ghost var q := P();
      Decref(l, x, m);
      KeptThrough(p, q, P(), m, x);
    }

    // iterate, second rewrite: a conditional jump over a jump.
    method ReverseSkip(x: Id, ghost m: Machine)
      requires Ok() && x in order
      modifies this`refc, this`order, this`node
      ensures Ok() && Kept(old(P()), P(), m, x)
      ensures isn == old(isn)
    {
      KeptSame(P(), m, x);
      var k := Pos(order, x);
      if node[x].Cbr? && node[order[k + 1]].Br? {
        var j := Pos(order, node[x].ref);
        var a := BackNonLab(j);
        if a == k + 1 { Reverse(k, j, m); }
      }
    }

    method Reverse(k: nat, j: nat, ghost m: Machine)
      requires Ok() && Skippable(P(), k, j)
      modifies this`refc, this`order, this`node
      ensures k < old(|order|) && Ok() && Kept(old(P()), P(), m, old(order[k]))
    {
      hide *;
      Fields();
      Opened();
      ghost var p := P();
      SkippableParts(p, k, j);
      var x, l := order[k], order[j];
      SkipOne(p, refc, isn, m, k, j);
      node := node[x := Cbr(Revbr(node[x].c), node[order[k + 1]].ref)];
      order := Remove(order, k + 1);
      Fields();
      ghost var q := P();
      KeptIn(p, q, m, x);
      Decref(l, x, m);
      KeptThrough(p, q, P(), m, x);
    }

    // iterate, third rewrite: code behind an unconditional jump.
    method RemoveDead(x: Id, ghost m: Machine)
      requires Ok() && x in order && (node[x].Br? || node[x].Jmp?)
      modifies this`refc, this`order
      ensures Ok() && Kept(old(P()), P(), m, x)
    {
      ghost var p := P();
      KeptSame(p, m, x);
      var more := true;
      while more
        invariant Ok() && Kept(p, P(), m, x)
        decreases more, |order|
      {
        hide Formed, Exact, Equivalent, Kept;
        ghost var p1 := P();
        more := DropNext(x, m);
        KeptThrough(p, p1, P(), m, x);
      }
    }

    method DropNext(x: Id, ghost m: Machine) returns (dropped: bool)
      requires Ok() && x in order && (node[x].Br? || node[x].Jmp?)
      modifies this`refc, this`order
      ensures Ok() && Kept(old(P()), P(), m, x)
      ensures |order| <= old(|order|) && (dropped ==> |order| < old(|order|))
    {
      KeptSame(P(), m, x);
      var k := Pos(order, x);
      dropped := !StopsDead(node[order[k + 1]]);
      if dropped { DropAt(k + 1, x, m); }
    }

    method DropAt(k: nat, x: Id, ghost m: Machine)
      requires Ok() && DeadAt(P(), k, x)
      modifies this`refc, this`order
      ensures Ok() && Kept(old(P()), P(), m, x)
      ensures |order| < old(|order|)
    {
      hide *;
      Fields();
      ghost var p := P();
      DeadSound(p, refc, isn, m, k, x);
      var n := node[order[k]];
      order := Remove(order, k);
      Fields();
      ghost var q := P();
      if n.Br? || n.Cbr? || n.Jsw? {
        KeptIn(p, q, m, x);
        Decref(n.ref, x, m);
        KeptThrough(p, q, P(), m, x);
      }
      RemoveLength(p.order, k);
    }

    // iterate, fourth rewrite: a jump to a label just behind it.  The result
    // is the node where iterate goes on.
    method RemoveJump(x: Id, ghost m: Machine) returns (y: Id)
      requires Ok() && x in order && (node[x].Br? || node[x].Jmp?)
      modifies this`refc, this`order
      ensures Ok() && y in order && Equivalent(old(P()), P(), m)
      ensures if y == x then Kept(old(P()), P(), m, x)
              else Ops(P()) <= old(Ops(P())) && Jumps(P()) < old(Jumps(P()))
    {
      KeptSame(P(), m, x);
      EquivalentSame(P(), m);
      var k := Pos(order, x);
      var j := k + 1;
      y := x;
      while node[order[j]].Label?
        invariant k < j < |order| && Labels(P(), k + 1, j)
        decreases |order| - j
      {
        if node[x] == Br(order[j]) {
          y := Unlink(k, j, m);
          return;
        }
        j := j + 1;
      }
    }

    method Unlink(k: nat, j: nat, ghost m: Machine) returns (y: Id)
      requires Ok() && k < j < |order| && Labels(P(), k + 1, j) && node[order[j]].Label?
      requires node[order[k]] == Br(order[j])
      modifies this`refc, this`order
      ensures Ok() && y in order && Equivalent(old(P()), P(), m) && y != old(order[k])
      ensures Ops(P()) <= old(Ops(P())) && Jumps(P()) < old(Jumps(P()))
    {
      hide *;
      Fields();
      Opened();
      ghost var p := P();
      NextOne(p, refc, isn, m, k, j);
      WithoutIs(p, k);
      y := order[k - 1];
      var l := order[j];
      order := Remove(order, k);
      Fields();
      ghost var q := P();
      Decref(l, y, m);
      KeptIn(q, P(), m, y);
      EquivalentThrough(p, q, P(), m);
    }

    // insertl: a label in front of node x, new or already there, with one
    // more jump to it.
    method InsertL(x: Id, ghost m: Machine) returns (lab: Id)
      requires Ok() && x in order && !node[x].Label? && !node[x].Head?
      modifies this
      ensures Owing(lab) && isn >= old(isn)
      ensures Fronted(old(P()), P(), x, lab) && Equivalent(old(P()), P(), m)
      ensures Ops(P()) == old(Ops(P())) && Jumps(P()) == old(Jumps(P()))
    {
      ghost var p := P();
      var k := Pos(order, x);
      HasBefore(p, k);
      if node[order[k - 1]].Label? {
        lab := order[k - 1];
        EquivalentSame(p, m);
        LabelReused(p, refc, lab);
        hide Formed, Equivalent, Exact, ExactBut, Ops, Jumps;
        refc := refc[lab := refc[lab] + 1];
        return;
      }
      lab := NewLabel(x, k, m);
    }

    // The label that insertl makes
    method NewLabel(x: Id, k: nat, ghost m: Machine) returns (lab: Id)
      requires Ok() && x in order && k == Pos(order, x) && k > 0
      modifies this
      ensures Owing(lab) && isn >= old(isn)
      ensures Fronted(old(P()), P(), x, lab) && Equivalent(old(P()), P(), m)
      ensures Ops(P()) == old(Ops(P())) && Jumps(P()) == old(Jumps(P()))
    {
      ghost var p := P();
      lab := isn;
      isn := isn + 1;
      assert Sound(p, refc, lab);
      hide Formed, Equivalent, Exact, ExactBut, Ops, Jumps, Fronted, SoundBut, Sound, Insert, WithLabel, Pos;
      AddedSound(p, refc, m, x, k, lab);
      order := Insert(order, k, lab);
      node := node[lab := Label];
      refc := refc[lab := 1];
      WithLabelIs(p, k, lab);
    }

    // xjump, one turn of its loop: the instruction before the jump x, if it
    // is the one before the jump's label, becomes a jump to the latter.
    method CrossJump(x: Id, ghost m: Machine) returns (merged: bool, y: Id)
      requires Ok() && x in order && (node[x].Br? || node[x].Jmp?)
      modifies this
      ensures Ok() && y in order && Equivalent(old(P()), P(), m)
      ensures merged ==> Ops(P()) < old(Ops(P())) && node[y].Br?
      ensures Untouched(old(P()), P())
      ensures !merged ==> P() == old(P()) && y == x
    {
      EquivalentSame(P(), m);
      merged, y := false, x;
      if node[x].Jmp? { return; }
      var found, a, k, c, d := FindTail(x);
      if found {
        merged := true;
        y := Merge(a, k, c, d, m);
      }
    }

    method FindTail(x: Id) returns (found: bool, a: nat, k: nat, c: nat, d: nat)
      requires Formed(P()) && x in order && node[x].Br?
      ensures found ==> Mergeable(P(), a, k, c, d)
    {
      k, d := Pos(order, x), Pos(order, node[x].ref);
      a := BackNonLab(k);
      c := BackNonLab(d);
      found := IsInstr(node[order[a]]) && node[order[a]] == node[order[c]] && a != c;
    }

    method Merge(a: nat, k: nat, c: nat, d: nat, ghost m: Machine) returns (x: Id)
      requires Ok() && Mergeable(P(), a, k, c, d)
      modifies this
      ensures Ok() && x in order && x in node && node[x].Br? && Equivalent(old(P()), P(), m)
      ensures Ops(P()) < old(Ops(P()))
      ensures Untouched(old(P()), P())
    {
      hide *;
      Fields();
      Opened();
      ghost var p := P();
      MergeableAt(p, a, k, c, d);
      x := order[a];
      var lab := InsertL(order[c], m);
      Fields();
      MergeOne(p, P(), refc, isn, m, a, k, c, d, lab);
      node := node[x := Br(lab)];
      Fields();
    }

    // xjump
    method XJump(x: Id, ghost m: Machine)
      requires Ok() && x in order && (node[x].Br? || node[x].Jmp?)
      modifies this
      ensures Ok() && Equivalent(old(P()), P(), m)
      ensures x in order && x in node && node[x] == old(node[x])
      ensures P() == old(P()) || Ops(P()) < old(Ops(P()))
    {
      hide Sound, Equivalent, Ops;
      SoundIn(P(), refc, isn);
      ghost var p, nx := P(), node[x];
      EquivalentSame(p, m);
      var y, merged := x, true;
      while merged
        invariant Ok() && Equivalent(p, P(), m)
        invariant y in order && y in node && (node[y].Br? || node[y].Jmp?)
        invariant x in order && x in node && node[x] == nx
        invariant P() == p || Ops(P()) < Ops(p)
        decreases Ops(P()), merged
      {
        ghost var q := P();
        merged, y := CrossJump(y, m);
        SoundIn(P(), refc, isn);
        EquivalentThrough(p, q, P(), m);
      }
    }

    // comjump: every two jumps to one label are given to backjmp.
    method ComJump(ghost m: Machine)
      requires Ok()
      modifies this
      ensures Ok() && Equivalent(old(P()), P(), m)
    {
      ghost var p := P();
      EquivalentSame(p, m);
      var x := Next(order, order[0]);
      while x != NIL
        invariant Ok() && Equivalent(p, P(), m) && (x == NIL || x in order)
        decreases Ops(P()), if x in order then After(P(), x) else 0
      {
        hide Sound, Equivalent, Ops, After, Next;
        ghost var q := P();
        SoundIn(q, refc, isn);
        EquivalentSame(q, m);
        if node[x].Br? { Common(x, m); }
        EquivalentThrough(p, q, P(), m);
        SoundNext(P(), refc, isn, x);
        x := Next(order, x);
      }
    }

    method Common(x1: Id, ghost m: Machine)
      requires Ok() && x1 in order && x1 in node && node[x1].Br?
      modifies this
      ensures Ok() && Equivalent(old(P()), P(), m) && x1 in order
      ensures P() == old(P()) || Ops(P()) < old(Ops(P()))
    {
      ghost var p := P();
      EquivalentSame(p, m);
      var l := node[x1].ref;
      if refc[l] <= 1 { return; }
      hide *;
      Fields();
      FirstAfter(p, refc, isn, x1);
      var x3 := Next(order, x1);
      while x3 != NIL
        invariant Ok() && Equivalent(p, P(), m) && x1 in order && x1 in node && node[x1] == Br(l)
        invariant x3 == NIL || (Before(order, x1, x3) && x3 in order && x3 in node)
        invariant P() == p || Ops(P()) < Ops(p)
        decreases Ops(P()), if x3 in order then After(P(), x3) else 0
      {
        ghost var q := P();
        EquivalentSame(q, m);
        if node[x3].Br? && node[x3].ref == l { BackJmp(x1, x3, m); }
        Fields();
        EquivalentThrough(p, q, P(), m);
        BeforeNext(P(), refc, isn, x1, x3);
        x3 := Next(order, x3);
      }
    }

    // backjmp: the jumps x1 and, further on, x3 go to one label; as long as
    // the same instruction stands before both, it is executed before x1 only.
    method BackJmp(x1: Id, x3: Id, ghost m: Machine)
      requires Ok() && Before(order, x1, x3) && x1 in node && x3 in node && node[x1].Br? && node[x3] == node[x1]
      modifies this
      ensures Ok() && Equivalent(old(P()), P(), m)
      ensures Before(order, x1, x3) && x1 in order && x3 in order && x1 in node && x3 in node &&
        node[x1] == old(node[x1])
      ensures P() == old(P()) || Ops(P()) < old(Ops(P()))
    {
      hide Sound, Equivalent, Ops, Before;
      ghost var p := P();
      EquivalentSame(p, m);
      SameJumps(p, x3);
      var u, more := x1, true;
      while more
        invariant Ok() && Equivalent(p, P(), m) && JumpsBefore(p, P(), x3)
        invariant Before(order, u, x3) && Ahead(P(), u, x3)
        invariant P() == p || Ops(P()) < Ops(p)
        decreases Ops(P()), more
      {
        hide JumpsBefore;
        ghost var q := P();
        more, u := Join(u, x3, m);
        EquivalentThrough(p, q, P(), m);
        JumpsThrough(p, q, P(), x3);
      }
      BeforeIn(order, x1, x3);
    }

    // One turn: u is the jump x1, or the label of x3 before an instruction
    // that has been joined already.
    method Join(u: Id, x3: Id, ghost m: Machine) returns (joined: bool, lab: Id)
      requires Ok() && Before(order, u, x3) && Ahead(P(), u, x3)
      modifies this
      ensures Ok() && Equivalent(old(P()), P(), m) && JumpsBefore(old(P()), P(), x3)
      ensures Before(order, lab, x3) && Ahead(P(), lab, x3)
      ensures if joined then Ops(P()) < old(Ops(P())) else P() == old(P())
    {
      EquivalentSame(P(), m);
      SameJumps(P(), x3);
      joined, lab := false, u;
      var b, k := Pos(order, u), Pos(order, x3);
      var a := BackNonLab(b);
      if IsInstr(node[order[a]]) && node[order[a]] == node[order[k - 1]] {
        joined := true;
        HeadFound(P(), u, x3, a, b, k);
        hide JumpsBefore;
        lab := JoinAt(a, b, k, m);
      }
    }

    method JoinAt(a: nat, b: nat, k: nat, ghost m: Machine) returns (lab: Id)
      requires Ok() && Joinable(P(), a, b, k)
      modifies this
      ensures Ok() && Equivalent(old(P()), P(), m) && Ops(P()) < old(Ops(P()))
      ensures k < old(|order|) && JumpsBefore(old(P()), P(), old(order[k]))
      ensures Before(order, lab, old(order[k])) && Ahead(P(), lab, old(order[k]))
    {
      hide *;
      Fields();
      Opened();
      JoinableAt(P(), a, b, k);
      ghost var p := P();
      var x3, x2 := order[k], order[k - 1];
      var t := node[x3].ref;
      lab := InsertL(order[a], m);
      Fields();
      ghost var q := P();
      SoundButParts(q, refc, isn, lab);
      FormedValid(q);
      JoinTarget(p, x3);
      JoinOne(p, P(), refc, isn, m, a, b, k, lab);
      Reroute(x2, x3, lab);
      Fields();
      ghost var r := P();
      JoinedOneParts(p, r, m, k, lab, t);
      Decref(t, x3, m);
      Fields();
      JoinDone(p, r, P(), refc, isn, m, k, t, lab);
      JoinLists(p, q, r, m, k, lab, t);
      JoinJumps(p, q, r, P(), a, b, k, lab, t);
    }

    // The instruction x2 goes, and the jump x3 behind it goes to lab.
    method Reroute(x2: Id, x3: Id, lab: Id)
      requires x2 in order
      modifies this`order, this`node
      ensures P() == Prog(Remove(old(order), Pos(old(order), x2)), old(node)[x3 := Br(lab)])
    {
      order := Remove(order, Pos(order, x2));
      node := node[x3 := Br(lab)];
    }

    // codemove: the block that begins at the label of the jump x takes the
    // place of the jump, or the test at the top of a loop comes to its end.
    // The second result is the node after the one that the source returns.
    method CodeMove(x: Id, ghost m: Machine) returns (moved: bool, n: Id)
      requires Ok() && x in order && (node[x].Br? || node[x].Jmp?)
      modifies this
      ensures Ok() && Equivalent(old(P()), P(), m)
      ensures if moved then (n == NIL || n in order) && Less(old(P()), x, P(), n) else P() == old(P())
    {
      EquivalentSame(P(), m);
      moved, n := false, NIL;
      if node[x].Jmp? { return; }
      var found, k, s, l, t := FindBlock(x);
      if found {
        moved := true;
        n := Move(x, k, s, l, t, m);
        return;
      }
      found, s, l, t := FindLoop(x);
      if found {
        moved := true;
        n := Invert(x, s, l, t, m);
      }
    }

    // The test of a loop to which x jumps back.
    method FindLoop(x: Id) returns (found: bool, s: nat, l: nat, t: nat)
      requires Formed(P()) && x in order && node[x].Br?
      ensures found ==> LoopAt(P(), s, l, t, Pos(order, x))
    {
      found, l := false, Pos(order, node[x].ref);
      var k := Pos(order, x);
      var c := BackNonLab(l);
      s, t := c + 1, c + 1;
      if node[order[c]].Br? || node[order[c]].Jmp? || !node[order[k + 1]].Label? { return; }
      var n := 16;
      while true
        invariant s <= t < |order| && 0 < n
        decreases n
      {
        t, n := t + 1, n - 1;
        if t == |order| || t == k || n == 0 { return; }
        if node[order[t]].Cbr? && node[order[t]].ref == order[k + 1] { break; }
      }
      found := t < k;
    }

    // The label tl holds the place in front of the jump.
    method Invert(x: Id, s: nat, l: nat, t: nat, ghost m: Machine) returns (n: Id)
      requires Ok() && x in order && LoopAt(P(), s, l, t, Pos(order, x))
      modifies this
      ensures Ok() && Equivalent(old(P()), P(), m) && (n == NIL || n in order)
      ensures Less(old(P()), x, P(), n)
    {
      hide *;
      Fields();
      Opened();
      ghost var p := P();
      LoopNodes(p, x, s, l, t);
      var tl := InsertL(x, m);
      Fields();
      ghost var p1 := P();
      Pinned(p, p1, m, refc, isn, x, s, l, t, tl);
      FrontLabel(x, s, l, t, tl, m);
      ghost var p2 := P();
      LoopBounds(p2, x, s, l, t, tl);
      Fields();
      var test := order[t];
      var out := Turn(x, s, l, t, tl, m);
      ghost var p3 := P();
      Settle(tl, out, test, m);
      LevelThrough(p, x, p1, x, p2, x, m);
      LevelThrough(p, x, p2, x, p3, test, m);
      LevelThrough(p, x, p3, test, P(), test, m);
      Fields();
      Opened();
      n := Next(order, test);
      LevelLess(p, x, P(), test, m);
    }

    // A label behind the test.
    method FrontLabel(x: Id, s: nat, l: nat, t: nat, tl: Id, ghost m: Machine)
      requires Owing(tl) && Pinning(P(), x, s, l, t, tl)
      modifies this
      ensures Owing(tl) && Pinning(P(), x, s, l, t, tl) && Labelled(P(), t) && Level(old(P()), x, P(), x, m)
    {
      hide *;
      Fields();
      ghost var p := P();
      PinningNodes(p, refc, isn, x, s, l, t, tl);
      if node[order[t + 1]].Label? {
        LevelSame(p, x, m);
        MakeLabelled(p, t);
      } else {
        var lab := isn;
        FrontNew(p, refc, isn, m, x, s, l, t, tl);
        isn := isn + 1;
        order := Insert(order, t + 1, lab);
        node := node[lab := Label];
        refc := refc[lab := 0];
        Fields();
        WithLabelIs(p, t + 1, lab);
      }
    }

    // The jump and the test change places.
    method Turn(x: Id, s: nat, l: nat, t: nat, tl: Id, ghost m: Machine) returns (out: Id)
      requires Owing(tl) && Pinning(P(), x, s, l, t, tl) && Labelled(P(), t)
      modifies this`refc, this`order, this`node
      ensures t < old(|order|) && OwingTwo(tl, out) && Level(old(P()), x, P(), old(order[t]), m)
      ensures old(order[t]) in order && old(order[t]) != tl && old(order[t]) != out
    {
      hide *;
      Fields();
      ghost var p := P();
      LoopBounds(p, x, s, l, t, tl);
      var k := Pos(order, x);
      TurnOne(p, refc, isn, m, x, s, l, t, tl);
      var test, lab := order[t], order[t + 1];
      out := order[k + 1];
      refc := refc[lab := refc[lab] + 1];
      order := Turned(order, s, t, k);
      node := node[test := Cbr(Revbr(node[test].c), lab)];
      Fields();
      InvertedAs(p, s, t, k);
    }

    // Both labels lose a jump.
    method Settle(l: Id, e: Id, x: Id, ghost m: Machine)
      requires OwingTwo(l, e) && x in order && x != l && x != e
      modifies this`refc, this`order
      ensures Ok() && Level(old(P()), x, P(), x, m)
    {
      hide *;
      Fields();
      ghost var p := P();
      TwoParts(p, refc, isn, l, e);
      refc := refc[e := refc[e] - 1];
      if refc[e] <= 0 {
        var k := Pos(order, e);
        DropSecond(p, refc, isn, m, k, x, l);
        order := Remove(order, k);
      } else {
        LevelSame(p, x, m);
      }
      Fields();
      ghost var q := P();
      LevelIn(p, x, q, x, m);
      Decref(l, x, m);
      KeptLevel(q, P(), x, m);
      LevelThrough(p, x, q, x, P(), x, m);
    }

    method FindBlock(x: Id) returns (found: bool, k: nat, s: nat, l: nat, t: nat)
      requires Formed(P()) && x in order && node[x].Br?
      ensures found ==> Movable(P(), k, s, l, t) && t < |order| - 1 && order[k] == x
    {
      found, k, l := false, Pos(order, x), Pos(order, node[x].ref);
      var c := BackNonLab(l);
      s, t := c + 1, l;
      if !node[order[c]].Br? && !node[order[c]].Jmp? { return; }
      if c == k { return; }
      while !node[order[t]].Br? && !node[order[t]].Jmp?
        invariant l <= t < |order| && forall i | l <= i < t :: !node[order[i]].Br?
        decreases |order| - t
      {
        if t == |order| - 1 { return; }
        t := t + 1;
      }
      if k == t || k + 1 == t || k == t + 1 { return; }
      found := true;
    }

    method Move(x: Id, k: nat, s: nat, l: nat, t: nat, ghost m: Machine) returns (n: Id)
      requires Ok() && Movable(P(), k, s, l, t) && t < |order| - 1
      modifies this`refc, this`order
      ensures Ok() && Equivalent(old(P()), P(), m) && (n == NIL || n in order)
      ensures Less(old(P()), x, P(), n)
    {
      hide *;
      Fields();
      Opened();
      ghost var p := P();
      MoveOne(p, refc, isn, m, k, s, l, t);
      var first, second, lab := order[s], order[s + 1], order[l];
      order := Spliced(order, k, s, t);
      Fields();
      ghost var q := P();
      Decref(lab, if lab == first then second else first, m);
      KeptIn(q, P(), m, if lab == first then second else first);
      EquivalentThrough(p, q, P(), m);
      Fields();
      if first in order { n := Next(order, first); } else { n := second; }
      NextIn(order, first);
      FewerJumps(p, q, P(), m, x, if lab == first then second else first, n);
    }

    // jumpsw: refc becomes the place of each node, and a pair of jumps is
    // swapped where that makes the conditional one the shorter.
    method JumpSw(ghost m: Machine) returns (nj: nat)
      requires Formed(P())
      modifies this`node, this`refc
      ensures Formed(P()) && Equivalent(old(P()), P(), m)
      ensures forall i | 0 <= i < |order| :: order[i] in refc && refc[order[i]] == i + 1
    {
      ghost var p := P();
      EquivalentSame(p, m);
      NumberNodes();
      ghost var places := refc;
      nj := 0;
      var k := 0;
      while k + 1 < |order|
        invariant 0 <= k && Formed(P()) && Equivalent(p, P(), m)
        invariant refc == places && forall x | x in order :: x in refc
      {
        hide Formed, Equivalent, Labels;
        FormedAt(P(), k);
        var x, y := order[k], order[k + 1];
        if node[x].Cbr? && node[y].Br? && node[x].ref != node[y].ref
          && Abs(refc[x] - refc[node[x].ref]) > Abs(refc[y] - refc[node[y].ref])
        {
          ghost var q := P();
          SwapOne(q, m, k);
          node := node[x := Cbr(Revbr(node[x].c), node[y].ref)][y := Br(node[x].ref)];
          EquivalentThrough(p, q, P(), m);
          nj := nj + 1;
        }
        k := k + 1;
      }
    }

    method NumberNodes()
      requires Formed(P())
      modifies this`refc
      ensures forall i | 0 <= i < |order| :: order[i] in refc && refc[order[i]] == i + 1
    {
      var t := 0;
      while t < |order|
        invariant 0 <= t <= |order|
        invariant forall i | 0 <= i < t :: order[i] in refc && refc[order[i]] == i + 1
      {
        refc := refc[order[t] := t + 1];
        t := t + 1;
      }
    }

    // One turn of iterate at node x; the node where it goes on.
    method Visit(x: Id, ghost m: Machine) returns (n: Id)
      requires Ok() && x in order
      modifies this
      ensures Ok() && Equivalent(old(P()), P(), m) && (n == NIL || n in order)
      ensures Less(old(P()), x, P(), n)
    {
      hide Sound, Equivalent, Ops, Jumps, After, Less, Kept, Next;
      ghost var p := P();
      Thread(x, m);
      ghost var p1 := P();
      ReverseSkip(x, m);
      KeptThrough(p, p1, P(), m, x);
      KeptIn(p, P(), m, x);
      if node[x].Br? || node[x].Jmp? {
        n := VisitJump(p, x, m);
      } else {
        n := Next(order, x);
        NextLess(p, P(), m, x);
      }
    }

    method VisitJump(ghost p: Prog, x: Id, ghost m: Machine) returns (n: Id)
      requires Ok() && x in order && (node[x].Br? || node[x].Jmp?) && Kept(p, P(), m, x)
      modifies this
      ensures Ok() && Equivalent(p, P(), m) && (n == NIL || n in order)
      ensures Less(p, x, P(), n)
    {
      hide Sound, Equivalent, Ops, Jumps, After, Less, Kept, Next;
      ghost var p1 := P();
      RemoveDead(x, m);
      KeptThrough(p, p1, P(), m, x);
      ghost var p2 := P();
      KeptIn(p, p2, m, x);
      var y := RemoveJump(x, m);
      ghost var p3 := P();
      var moved := false;
      n := Next(order, y);
      NextIn(order, y);
      SoundIn(P(), refc, isn);
      EquivalentSame(p3, m);
      ghost var p4 := P();
      if node[y].Br? || node[y].Jmp? {
        XJump(y, m);
        n := Next(order, y);
        NextIn(order, y);
        p4 := P();
        EquivalentSame(p4, m);
        var n1;
        moved, n1 := CodeMove(y, m);
        if moved { n := n1; }
      }
      VisitLess(p, p2, p3, p4, P(), m, x, y, n, moved);
    }

    // iterate
    method Iterate(ghost m: Machine)
      requires Ok()
      modifies this
      ensures Ok() && Equivalent(old(P()), P(), m)
    {
      ghost var p := P();
      EquivalentSame(p, m);
      var x := Next(order, order[0]);
      while x != NIL
        invariant Ok() && Equivalent(p, P(), m) && (x == NIL || x in order)
        decreases Ops(P()), Jumps(P()), if x in order then After(P(), x) else 0
      {
        hide Sound, Equivalent;
        ghost var q := P();
        x := Visit(x, m);
        EquivalentThrough(p, q, P(), m);
      }
    }
  }

  lemma LabelDropped(p: Prog, refc: Counts, m: Machine, k: nat, x: Id)
    requires Formed(p) && k < |p.order| && p.node[p.order[k]].Label? && x in p.order && x != p.order[k]
    requires Exact(p, refc) && p.order[k] in refc && refc[p.order[k]] <= 0
    ensures Formed(Without(p, k)) && Exact(Without(p, k), refc) && Kept(p, Without(p, k), m, x)
    ensures Ops(Without(p, k)) == Ops(p) && Jumps(Without(p, k)) == Jumps(p)
  {
    assert k > 0 && k < |p.order| - 1;
    InOrder(p, k);
    TallyZero(p.node, p.order, Naming(p.order[k]));
    assert Silent(p, k, k + 1);
    RemoveSilent(p, m, k, k + 1);
    ExactDrop(p, refc, k);
    Dropped(p, m, k, x);
  }

  // The jump x goes to the label at i, and that, after labels, to the jump
  // at j with another label.
  ghost predicate Threadable(p: Prog, x: Id, i: nat, j: nat)
    requires Valid(p)
  {
    && x in p.order && HasRef(p.node[x])
    && i <= j < |p.order| && p.order[i] == p.node[x].ref && Labels(p, i, j)
    && p.node[p.order[j]].Br? && p.node[p.order[j]].ref != p.node[x].ref
  }

  lemma ThreadableParts(p: Prog, x: Id, i: nat, j: nat)
    requires Valid(p) && Threadable(p, x, i, j)
    ensures x in p.order && x in p.node && HasRef(p.node[x]) && j < |p.order| && p.order[j] in p.node &&
      p.node[p.order[j]].Br?
  {
    InOrder(p, j);
  }

  lemma ThreadOne(p: Prog, refc: Counts, isn: nat, m: Machine, x: Id, i: nat, j: nat)
    requires Sound(p, refc, isn) && Threadable(p, x, i, j)
    ensures x in p.node && HasRef(p.node[x]) && j < |p.order| && p.order[j] in p.node && p.node[p.order[j]].Br?
    ensures
      var l, r := p.node[x].ref, p.node[p.order[j]].ref;
      var q := p.(node := p.node[x := SetRef(p.node[x], r)]);
      r in refc && SoundBut(q, refc[r := refc[r] + 1], isn, l) && x != l && Kept(p, q, m, x)
  {
    var l, r := p.node[x].ref, p.node[p.order[j]].ref;
    var n := SetRef(p.node[x], r);
    InOrder(p, j);
    assert p.node[l].Label? && p.node[r].Label?;
    assert x != p.order[|p.order| - 1];
    hide Labels, Distinct;
    Retarget(p, m, x, i, j);
    ThreadTwo(p, refc, m, x, n);
  }

  lemma ThreadTwo(p: Prog, refc: Counts, m: Machine, x: Id, n: Node)
    requires Formed(p) && Exact(p, refc) && x in p.order && HasRef(p.node[x]) && x != p.order[|p.order| - 1]
    requires HasRef(n) && n.ref in p.order && p.node[n.ref].Label? && n.ref in refc && n.ref != p.node[x].ref
    requires n.Cbr? ==> n.c < 12
    requires var q := p.(node := p.node[x := n]); Valid(q) && Equivalent(p, q, m)
    ensures
      var q := p.(node := p.node[x := n]);
      && Formed(q) && ExactBut(q, refc[n.ref := refc[n.ref] + 1], p.node[x].ref, 1) && Kept(p, q, m, x)
  {
    hide Equivalent, Distinct;
    ExactRetarget(p, refc, x, n);
    hide ExactBut, Valid;
    TallyUpdate(p.node, p.order, x, n, IsOp);
    TallyUpdate(p.node, p.order, x, n, IsJump);
    FormedUpdate(p, x, n);
  }

  lemma FormedUpdate(p: Prog, x: Id, n: Node)
    requires Formed(p) && x in p.order && !p.node[x].Head? && x != p.order[|p.order| - 1] && !n.Head?
    requires n.Cbr? ==> n.c < 12
    requires Valid(p.(node := p.node[x := n]))
    ensures Formed(p.(node := p.node[x := n]))
  {
    FormedLike(p, p.(node := p.node[x := n]));
  }

  // The state after the skip at k over the jump at k + 1 is reversed.
  function Reversed(p: Prog, k: nat): Prog
    requires k + 1 < |p.order| && p.order[k] in p.node && p.order[k + 1] in p.node
    requires p.node[p.order[k]].Cbr? && p.node[p.order[k + 1]].Br?
  {
    var x, y := p.order[k], p.order[k + 1];
    Prog(Remove(p.order, k + 1), p.node[x := Cbr(Revbr(p.node[x].c), p.node[y].ref)])
  }

  // A conditional jump at k to the label at j, behind the jump at k + 1.
  ghost predicate Skippable(p: Prog, k: nat, j: nat)
    requires Valid(p)
  {
    JumpPair(p, k) && k + 1 < j < |p.order| && Labels(p, k + 2, j) && p.order[j] == p.node[p.order[k]].ref
  }

  lemma SkippableParts(p: Prog, k: nat, j: nat)
    requires Valid(p) && Skippable(p, k, j)
    ensures k + 1 < j < |p.order| && p.order[k] in p.node && p.order[k + 1] in p.node
    ensures p.node[p.order[k]].Cbr? && p.node[p.order[k + 1]].Br?
  {
    InOrder(p, k);
    InOrder(p, k + 1);
  }

  lemma SkipOne(p: Prog, refc: Counts, isn: nat, m: Machine, k: nat, j: nat)
    requires Sound(p, refc, isn) && Skippable(p, k, j)
    ensures k + 1 < j < |p.order| && p.order[k] in p.node && p.order[k + 1] in p.node
    ensures p.node[p.order[k]].Cbr? && p.node[p.order[k + 1]].Br?
    ensures
      var l, x := p.order[j], p.order[k];
      var q := Prog(Remove(p.order, k + 1), p.node[x := Cbr(Revbr(p.node[x].c), p.node[p.order[k + 1]].ref)]);
      SoundBut(q, refc, isn, l) && x != l && Kept(p, q, m, x)
  {
    InOrder(p, j);
    InOrder(p, k);
    SkippableParts(p, k, j);
    assert p.node[p.order[j]].Label?;
    var q := Reversed(p, k);
    hide Labels, Distinct, Exact, ExactBut;
    ReversedAlike(p, m, k, j);
    ReversedExact(p, refc, k);
    ReversedShape(p, k);
    ReversedMeasure(p, k);
    ReversedLabel(p, k, p.order[j]);
    hide Formed, Equivalent, Ops, Jumps;
    assert SoundBut(q, refc, isn, p.order[j]);
  }

  lemma ReversedAlike(p: Prog, m: Machine, k: nat, j: nat)
    requires Valid(p) && JumpPair(p, k)
    requires k + 1 < j < |p.order| && Labels(p, k + 2, j) && p.order[j] == p.node[p.order[k]].ref
    ensures Valid(Reversed(p, k)) && Equivalent(p, Reversed(p, k), m)
  {
    InOrder(p, k);
    InOrder(p, k + 1);
    SkipReversal(p, m, k, j);
    var q, r := Without(Swapped(p, k), k + 1), Reversed(p, k);
    RemoveDistinct(p.order, k + 1);
    assert q.order == r.order;
    assert forall x | x in q.order :: q.node[x] == r.node[x];
    hide Distinct, JumpPair, Labels;
    Reorder(q, r, m);
    EquivalentThrough(p, q, r, m);
  }

  lemma ReversedExact(p: Prog, refc: Counts, k: nat)
    requires Valid(p) && Exact(p, refc) && JumpPair(p, k)
    ensures Reversed(p, k).node.Keys == p.node.Keys
    ensures ExactBut(Reversed(p, k), refc, p.node[p.order[k]].ref, 1)
  {
    var x, q := p.order[k], Reversed(p, k);
    InOrder(p, k);
    RemoveDistinct(p.order, k + 1);
    forall l ensures Named(q, l) + One(p.node, x, Naming(l)) == Named(p, l) {
      ReversedNamed(p, k, l);
    }
    hide Distinct, Remove, Tally, Valid;
    forall l | l in q.order && l in q.node && q.node[l].Label?
      ensures l in refc && refc[l] == Named(q, l) + if l == p.node[x].ref then 1 else 0
    {
      assert l != x && p.node[l].Label?;
      assert Named(q, l) + One(p.node, x, Naming(l)) == Named(p, l);
    }
  }

  lemma ReversedNamed(p: Prog, k: nat, l: Id)
    requires Valid(p) && JumpPair(p, k)
    ensures Named(Reversed(p, k), l) + One(p.node, p.order[k], Naming(l)) == Named(p, l)
  {
    var x, q := p.order[k], Reversed(p, k);
    InOrder(p, k);
    InOrder(p, k + 1);
    RemoveDistinct(p.order, k + 1);
    assert x != p.order[k + 1];
    hide Distinct, Remove, Tally, Valid;
    TallyRemove(p.node, p.order, k + 1, Naming(l));
    TallyUpdate(p.node, q.order, x, q.node[x], Naming(l));
  }

  lemma ReversedShape(p: Prog, k: nat)
    requires Formed(p) && JumpPair(p, k) && Valid(Reversed(p, k))
    ensures Formed(Reversed(p, k))
    ensures p.order[k] in Reversed(p, k).order
    ensures forall y | y in Reversed(p, k).order :: y in p.order
  {
    var q, x := Reversed(p, k), p.order[k];
    RemoveDistinct(p.order, k + 1);
    assert k + 1 < |p.order| - 1 && k > 0;
    InOrder(p, k);
    NextAt(p.order, k);
    assert x != p.order[k + 1];
    assert x != p.order[0] && x != p.order[|p.order| - 1];
    assert q.order[|q.order| - 1] == p.order[|p.order| - 1] && q.order[0] == p.order[0];
    assert q.node[x].Cbr? && q.node[x].c < 12;
    UpdatedForm(p, q, x, q.node[x]);
  }

  lemma UpdatedForm(p: Prog, q: Prog, x: Id, n: Node)
    requires Formed(p) && Valid(q) && q.order != [] && q.node == p.node[x := n] && !n.Head? && (n.Cbr? ==> n.c < 12)
    requires q.order[0] == p.order[0] != x && q.order[|q.order| - 1] == p.order[|p.order| - 1] != x
    requires forall y | y in q.order :: y in p.order
    ensures Formed(q)
  {
    hide Distinct;
    FormedLike(p, q);
  }

  lemma ReversedLabel(p: Prog, k: nat, l: Id)
    requires Valid(p) && JumpPair(p, k) && l in p.order && p.node[l].Label?
    ensures l in Reversed(p, k).order && l in Reversed(p, k).node && Reversed(p, k).node[l].Label?
  {
    RemoveDistinct(p.order, k + 1);
  }

  lemma ReversedMeasure(p: Prog, k: nat)
    requires Valid(p) && JumpPair(p, k)
    ensures Ops(Reversed(p, k)) == Ops(p) && Jumps(Reversed(p, k)) < Jumps(p)
  {
    var x, q := p.order[k], Reversed(p, k);
    InOrder(p, k);
    InOrder(p, k + 1);
    RemoveDistinct(p.order, k + 1);
    assert x != p.order[k + 1];
    TallyRemove(p.node, p.order, k + 1, IsOp);
    TallyUpdate(p.node, q.order, x, q.node[x], IsOp);
    TallyRemove(p.node, p.order, k + 1, IsJump);
    TallyUpdate(p.node, q.order, x, q.node[x], IsJump);
  }

  lemma DeadOne(p: Prog, refc: Counts, m: Machine, k: nat, x: Id)
    requires Formed(p) && Exact(p, refc) && 0 < k < |p.order| - 1 && x == p.order[k - 1]
    requires (p.node[x].Br? || p.node[x].Jmp?) && !StopsDead(p.node[p.order[k]])
    ensures
      var n, q := p.node[p.order[k]], Without(p, k);
      && Formed(q) && Kept(p, q, m, x) && (forall y | y in q.order :: y in p.order)
      && (if HasRef(n) then ExactBut(q, refc, n.ref, 1) && n.ref in q.order && q.node[n.ref].Label? && n.ref != x
          else Exact(q, refc))
  {
    InOrder(p, k);
    InOrder(p, k - 1);
    RemoveUnreached(p, m, k);
    ExactRemove(p, refc, k);
    RemoveDistinct(p.order, k);
    NextAt(p.order, k);
    NextAt(p.order, k - 1);
    Dropped(p, m, k, x);
  }

  // The node at k comes behind the jump x and may go.
  ghost predicate DeadAt(p: Prog, k: nat, x: Id) {
    && 0 < k < |p.order| - 1 && x == p.order[k - 1] && x in p.node && p.order[k] in p.node
    && (p.node[x].Br? || p.node[x].Jmp?) && !StopsDead(p.node[p.order[k]])
  }

  lemma DeadSound(p: Prog, refc: Counts, isn: nat, m: Machine, k: nat, x: Id)
    requires Sound(p, refc, isn) && DeadAt(p, k, x)
    ensures k < |p.order| && p.order[k] in p.node
    ensures
      var n, q := p.node[p.order[k]], Prog(Remove(p.order, k), p.node);
      && Kept(p, q, m, x)
      && if n.Br? || n.Cbr? || n.Jsw? then SoundBut(q, refc, isn, n.ref) && x != n.ref else Sound(q, refc, isn)
  {
    DeadOne(p, refc, m, k, x);
    hide Formed, Exact, ExactBut, Kept, Remove;
    WithoutIs(p, k);
  }

  lemma RemoveLength(s: seq<Id>, k: nat)
    requires k < |s|
    ensures |Remove(s, k)| < |s|
  {
  }

  // A jump to a label behind it goes.
  lemma NextOne(p: Prog, refc: Counts, isn: nat, m: Machine, k: nat, j: nat)
    requires Sound(p, refc, isn) && k < j < |p.order| && Labels(p, k + 1, j) && p.node[p.order[j]].Label?
    requires p.node[p.order[k]] == Br(p.order[j])
    ensures k > 0
    ensures
      var q, l, y := Without(p, k), p.order[j], p.order[k - 1];
      && SoundBut(q, refc, isn, l) && Equivalent(p, q, m)
      && y in q.order && y != l && y != p.order[k]
      && Ops(q) == Ops(p) && Jumps(q) < Jumps(p)
  {
    InOrder(p, k);
    InOrder(p, k - 1);
    NextAt(p.order, k);
    NextAt(p.order, j);
    NextAt(p.order, k - 1);
    RemoveDistinct(p.order, k);
    NotNamedJump(p, k);
    RemoveSilent(p, m, k, j);
    ExactRemove(p, refc, k);
    Dropped(p, m, k, p.order[j]);
  }

  lemma WithoutIs(p: Prog, k: nat)
    requires k < |p.order|
    ensures Without(p, k) == Prog(Remove(p.order, k), p.node)
  {
  }

  lemma NotNamedJump(p: Prog, k: nat)
    requires Valid(p) && k < |p.order| && !p.node[p.order[k]].Label?
    ensures forall x | x in p.order && HasRef(p.node[x]) :: p.node[x].ref != p.order[k]
  {
    forall x | x in p.order && HasRef(p.node[x]) ensures p.node[x].ref != p.order[k] {
      assert p.node[p.node[x].ref].Label?;
    }
  }

  // q is p with the label lab in front of node x, where it may have been.
  ghost predicate Fronted(p: Prog, q: Prog, x: Id, lab: Id) {
    && x in p.order
    && (var k := Pos(p.order, x);
        || (q == p && k > 0 && p.order[k - 1] == lab)
        || (q == WithLabel(p, k, lab) && lab !in p.order && lab != NIL))
  }

  // The head comes first, so only it has nothing before it.
  lemma HasBefore(p: Prog, k: nat)
    requires Formed(p) && k < |p.order| && p.order[k] in p.node && !p.node[p.order[k]].Head?
    ensures k > 0 && p.order[k - 1] in p.node && p.order[k - 1] in p.order && NIL !in p.order
  {
  }

  lemma LabelReused(p: Prog, refc: Counts, lab: Id)
    requires Exact(p, refc) && lab in p.order && lab in p.node && p.node[lab].Label? && NIL !in p.order
    ensures lab in refc && ExactBut(p, refc[lab := refc[lab] + 1], lab, 1)
  {
  }

  lemma AddedSound(p: Prog, refc: Counts, m: Machine, x: Id, k: nat, lab: Id)
    requires Sound(p, refc, lab) && x in p.order && k == Pos(p.order, x) && k > 0
    ensures
      var q := WithLabel(p, k, lab);
      && SoundBut(q, refc[lab := 1], lab + 1, lab) && Fronted(p, q, x, lab) && Equivalent(p, q, m)
      && Ops(q) == Ops(p) && Jumps(q) == Jumps(p)
  {
    assert lab !in p.order;
    hide Formed, Equivalent, Exact, ExactBut, Ops, Jumps;
    LabelAdded(p, refc, m, k, lab);
  }

  lemma LabelAdded(p: Prog, refc: Counts, m: Machine, k: nat, lab: Id)
    requires Formed(p) && Exact(p, refc) && 0 < k < |p.order| && lab !in p.order && lab != NIL
    ensures
      var q := WithLabel(p, k, lab);
      && Formed(q) && ExactBut(q, refc[lab := 1], lab, 1) && Equivalent(p, q, m)
      && (forall y :: y in q.order <==> y in p.order || y == lab)
      && Ops(q) == Ops(p) && Jumps(q) == Jumps(p)
  {
    hide *;
    FormedValid(p);
    ValidDistinct(p);
    InsertRemove(p.order, k, lab);
    InsertLabel(p, m, k, lab);
    ExactInsert(p, refc, k, lab);
    WithLabelIs(p, k, lab);
    NoLabel();
    AddedTally(p, k, lab, IsOp);
    AddedTally(p, k, lab, IsJump);
    var q := WithLabel(p, k, lab);
    OpsIs(p);
    OpsIs(q);
    JumpsIs(p);
    JumpsIs(q);
    AddedFormed(p, k, lab);
  }

  lemma NoLabel()
    ensures !IsOp(Label) && !IsJump(Label)
  {
  }

  lemma AddedTally(p: Prog, k: nat, lab: Id, f: Node -> bool)
    requires k <= |p.order| && lab !in p.order && !f(Label)
    ensures var q := WithLabel(p, k, lab); Tally(q.node, q.order, f) == Tally(p.node, p.order, f)
  {
    hide Tally;
    TallyInsert(p.node[lab := Label], p.order, k, lab, f);
    TallyElsewhere(p.node, p.order, lab, Label, f);
  }

  lemma AddedFormed(p: Prog, k: nat, lab: Id)
    requires Formed(p) && 0 < k < |p.order| && lab !in p.order && Valid(WithLabel(p, k, lab))
    ensures Formed(WithLabel(p, k, lab))
  {
    InOrder(p, 0);
    InOrder(p, |p.order| - 1);
    hide Distinct, Valid;
    FormedLike(p, WithLabel(p, k, lab));
  }

  // Where the nodes stand after a label is put in front of place c.
  function Shifted(p: Prog, q: Prog, c: nat, i: nat): nat {
    if q == p || i < c then i else i + 1
  }

  lemma ShiftedAt(p: Prog, q: Prog, c: nat, lab: Id, i: nat)
    requires Valid(p) && c < |p.order| && Fronted(p, q, p.order[c], lab) && i < |p.order|
    ensures
      var j := Shifted(p, q, c, i);
      && j < |q.order| && q.order[j] == p.order[i] && q.order[j] in q.node && q.node[q.order[j]] == p.node[p.order[i]]
    ensures Shifted(p, q, c, c) > 0 && q.order[Shifted(p, q, c, c) - 1] == lab
  {
    NextAt(p.order, c);
    InOrder(p, i);
  }

  // A run of labels not at c keeps together.
  lemma ShiftedLabels(p: Prog, q: Prog, c: nat, lab: Id, i: nat, j: nat)
    requires Valid(p) && c < |p.order| && Fronted(p, q, p.order[c], lab)
    requires i < j < |p.order| && Labels(p, i + 1, j) && !p.node[p.order[c]].Label? && c != j
    ensures
      var i1, j1 := Shifted(p, q, c, i), Shifted(p, q, c, j);
      i1 < j1 < |q.order| && Labels(q, i1 + 1, j1)
  {
    var i1, j1 := Shifted(p, q, c, i), Shifted(p, q, c, j);
    assert c <= i || c > j;
    ShiftedAt(p, q, c, lab, j);
    forall n | i1 + 1 <= n < j1 ensures q.order[n] in q.node && q.node[q.order[n]].Label? {
      var n0 := if q == p || n < c then n else n - 1;
      ShiftedAt(p, q, c, lab, n0);
      assert Shifted(p, q, c, n0) == n;
    }
  }

  // Place k is the jump, d its label, a and c the equal instructions before.
  ghost predicate Mergeable(p: Prog, a: nat, k: nat, c: nat, d: nat)
    requires Valid(p)
  {
    && a < k < |p.order| && Labels(p, a + 1, k) && c < d < |p.order| && Labels(p, c + 1, d)
    && p.node[p.order[k]] == Br(p.order[d]) && p.node[p.order[d]].Label?
    && a != c && IsInstr(p.node[p.order[a]]) && p.node[p.order[a]] == p.node[p.order[c]]
  }

  lemma MergeableAt(p: Prog, a: nat, k: nat, c: nat, d: nat)
    requires Valid(p) && Mergeable(p, a, k, c, d)
    ensures a < |p.order| && c < |p.order|
    ensures p.order[a] in p.order && p.order[a] in p.node && IsInstr(p.node[p.order[a]])
    ensures p.order[c] in p.order && p.order[c] in p.node && IsInstr(p.node[p.order[c]])
    ensures forall z | z in p.order :: z in p.node
  {
    InOrder(p, a);
    InOrder(p, c);
  }

  lemma MergeOne(p: Prog, q: Prog, refc: Counts, isn: nat, m: Machine, a: nat, k: nat, c: nat, d: nat, lab: Id)
    requires Formed(p) && Mergeable(p, a, k, c, d)
    requires Fronted(p, q, p.order[c], lab) && Equivalent(p, q, m) && SoundBut(q, refc, isn, lab)
    ensures
      var x := p.order[a];
      var r := q.(node := q.node[x := Br(lab)]);
      Sound(r, refc, isn) && Equivalent(p, r, m) && x in q.order && Ops(r) < Ops(q) && Untouched(p, r)
  {
    hide *;
    SoundButParts(q, refc, isn, lab);
    FormedValid(p);
    MergeableAt(p, a, k, c, d);
    MergeTwo(p, q, refc, m, a, k, c, d, lab);
    MergeSound(p, q, q.(node := q.node[p.order[a] := Br(lab)]), refc, isn, lab, p.order[a]);
  }

  lemma MergeSound(p: Prog, q: Prog, r: Prog, refc: Counts, isn: nat, lab: Id, x: Id)
    requires SoundBut(q, refc, isn, lab) && Formed(r) && Exact(r, refc) && r == q.(node := q.node[x := Br(lab)])
    requires x in p.node && IsInstr(p.node[x])
    requires forall z | z in p.order :: z in q.order && z in q.node && z in p.node && q.node[z] == p.node[z]
    ensures Sound(r, refc, isn) && Untouched(p, r)
  {
    hide Formed, Exact, ExactBut;
  }

  lemma SoundButParts(q: Prog, refc: Counts, isn: nat, lab: Id)
    requires SoundBut(q, refc, isn, lab)
    ensures Formed(q) && ExactBut(q, refc, lab, 1) && lab in q.order && lab in q.node && q.node[lab].Label?
  {
  }

  lemma MergeTwo(p: Prog, q: Prog, refc: Counts, m: Machine, a: nat, k: nat, c: nat, d: nat, lab: Id)
    requires Formed(p) && Mergeable(p, a, k, c, d)
    requires Fronted(p, q, p.order[c], lab) && Equivalent(p, q, m)
    requires Formed(q) && ExactBut(q, refc, lab, 1) && lab in q.order && q.node[lab].Label?
    ensures
      var x := p.order[a];
      var r := q.(node := q.node[x := Br(lab)]);
      && Formed(r) && Exact(r, refc) && Equivalent(p, r, m)
      && x in q.order && x in q.node && IsInstr(p.node[x]) && Ops(r) < Ops(q)
      && (forall z | z in p.order :: z in q.order && z in q.node && q.node[z] == p.node[z])
  {
    hide *;
    MergeReady(p, q, a, k, c, d, lab);
    var x := p.order[a];
    var r := q.(node := q.node[x := Br(lab)]);
    var a1, c1 := Shifted(p, q, c, a), Shifted(p, q, c, c);
    FormedValid(p);
    FrontedSame(p, q, p.order[c], lab);
    MergedIs(q, a1, c1, x, lab);
    MergeTail(q, m, a1, Shifted(p, q, c, k), c1, Shifted(p, q, c, d));
    EquivalentThrough(p, q, r, m);
    ExactBecome(q, refc, x, lab);
    MergeMeasure(q, x, lab);
    FormedUpdate(q, x, Br(lab));
  }

  lemma FormedValid(p: Prog)
    requires Formed(p)
    ensures Valid(p)
  {
  }

  lemma MergedIs(q: Prog, a: nat, c: nat, x: Id, lab: Id)
    requires a < |q.order| && 0 < c < |q.order| && q.order[a] == x && q.order[c - 1] == lab
    ensures Merged(q, a, c) == q.(node := q.node[x := Br(lab)])
  {
  }

  lemma MergeReady(p: Prog, q: Prog, a: nat, k: nat, c: nat, d: nat, lab: Id)
    requires Formed(p) && Mergeable(p, a, k, c, d) && Formed(q)
    requires Fronted(p, q, p.order[c], lab) && lab in q.order && q.node[lab].Label?
    ensures a < |p.order| && c < |p.order| && Valid(q)
    ensures
      var a1, k1, c1, d1 := Shifted(p, q, c, a), Shifted(p, q, c, k), Shifted(p, q, c, c), Shifted(p, q, c, d);
      && SameTail(q, a1, k1, c1, d1) && a1 < |q.order| && q.order[a1] == p.order[a]
      && 0 < c1 < |q.order| && q.order[c1 - 1] == lab
    ensures
      var x := p.order[a];
      && x in q.order && x in q.node && x in p.order && x in p.node && q.node[x] == p.node[x] &&
        x != q.order[|q.order| - 1]
      && q.node[x].Op? && !HasRef(q.node[x]) && !q.node[x].Label? && !q.node[x].Head? && IsInstr(p.node[x])
  {
    hide *;
    FormedValid(p);
    FormedValid(q);
    MergeableParts(p, a, k, c, d);
    ShiftedAt(p, q, c, lab, a);
    ShiftedAt(p, q, c, lab, c);
    ShiftedAt(p, q, c, lab, k);
    ShiftedAt(p, q, c, lab, d);
    ShiftedLabels(p, q, c, lab, a, k);
    ShiftedLabels(p, q, c, lab, c, d);
    ShiftedApart(p, q, c, a);
    MakeTail(q, Shifted(p, q, c, a), Shifted(p, q, c, k), Shifted(p, q, c, c), Shifted(p, q, c, d));
    InstrInside(q, Shifted(p, q, c, a), Shifted(p, q, c, k));
  }

  lemma ShiftedApart(p: Prog, q: Prog, c: nat, a: nat)
    requires a != c
    ensures Shifted(p, q, c, a) != Shifted(p, q, c, c)
  {
  }

  lemma MergeableParts(p: Prog, a: nat, k: nat, c: nat, d: nat)
    requires Valid(p) && Mergeable(p, a, k, c, d)
    ensures a < k < |p.order| && Labels(p, a + 1, k) && c < d < |p.order| && Labels(p, c + 1, d) && a != c
    ensures p.order[a] in p.order && p.order[a] in p.node && IsInstr(p.node[p.order[a]])
    ensures p.order[c] in p.node && p.node[p.order[c]] == p.node[p.order[a]] && !p.node[p.order[c]].Label?
    ensures p.order[k] in p.node && p.node[p.order[k]] == Br(p.order[d])
    ensures p.order[d] in p.node && p.node[p.order[d]].Label? && c != k
  {
    InOrder(p, a);
    InOrder(p, c);
    InOrder(p, d);
    InOrder(p, k);
    hide Labels, Distinct;
  }

  lemma MakeTail(q: Prog, a: nat, k: nat, c: nat, d: nat)
    requires Valid(q) && a < k < |q.order| && Labels(q, a + 1, k) && 0 < c < d < |q.order| && Labels(q, c + 1, d) &&
      a != c
    requires q.order[a] in q.node && IsInstr(q.node[q.order[a]])
    requires q.order[c] in q.node && q.node[q.order[c]] == q.node[q.order[a]]
    requires q.order[k] in q.node && q.node[q.order[k]] == Br(q.order[d])
    requires q.order[d] in q.node && q.node[q.order[d]].Label?
    requires q.order[c - 1] in q.node && q.node[q.order[c - 1]].Label?
    ensures SameTail(q, a, k, c, d)
  {
    hide Labels, Distinct, Valid;
  }

  lemma InstrInside(q: Prog, a: nat, k: nat)
    requires Formed(q) && a < k < |q.order| && q.order[a] in q.node && IsInstr(q.node[q.order[a]])
    ensures var x := q.order[a];
      x in q.order && x != q.order[|q.order| - 1] && q.node[x].Op? && !HasRef(q.node[x]) && !q.node[x].Label? &&
        !q.node[x].Head?
  {
    FormedValid(q);
    ValidDistinct(q);
    Apart(q.order, a, |q.order| - 1);
    hide Valid, Distinct;
  }

  lemma FrontedSame(p: Prog, q: Prog, x: Id, lab: Id)
    requires Valid(p) && Fronted(p, q, x, lab)
    ensures forall z | z in p.order :: z in q.order && z in q.node && q.node[z] == p.node[z]
  {
    if q != p { InsertRemove(p.order, Pos(p.order, x), lab); }
  }

  lemma MergeMeasure(q: Prog, x: Id, lab: Id)
    requires Valid(q) && x in q.order && q.node[x].Op?
    ensures Ops(q.(node := q.node[x := Br(lab)])) < Ops(q)
  {
    TallyUpdate(q.node, q.order, x, Br(lab), IsOp);
    TallyPositive(q.node, q.order, x, IsOp);
  }

  // Less is left to do from n on in q than from x on in p.
  ghost predicate Less(p: Prog, x: Id, q: Prog, n: Id) {
    && (n == NIL || n in q.order)
    && (Ops(q) < Ops(p) || (Ops(q) == Ops(p) && (Jumps(q) < Jumps(p) ||
         (Jumps(q) == Jumps(p) &&
           (if n in q.order then After(q, n) else 0) < if x in p.order then After(p, x) else 0))))
  }

  lemma KeptIn(p: Prog, q: Prog, m: Machine, x: Id)
    requires Kept(p, q, m, x)
    ensures x in q.order && x in q.node && Equivalent(p, q, m)
  {
  }

  lemma NextLess(p: Prog, q: Prog, m: Machine, x: Id)
    requires Kept(p, q, m, x)
    ensures Less(p, x, q, Next(q.order, x)) && (Next(q.order, x) == NIL || Next(q.order, x) in q.order)
  {
    var n := Next(q.order, x);
    var k := Pos(q.order, x);
    assert q.order[k] == x;
    NextAt(q.order, k);
    if n in q.order && n != NIL { NextAt(q.order, k + 1); }
  }

  // The pieces of a visit: p to p2 with x kept, p2 to p3 by the removal of x
  // or with x kept, p3 to p4 by cross-jumping, p4 to q by a move.
  lemma VisitLess(p: Prog, p2: Prog, p3: Prog, p4: Prog, q: Prog, m: Machine, x: Id, y: Id, n: Id, moved: bool)
    requires Kept(p, p2, m, x) && Equivalent(p2, p3, m) && Equivalent(p3, p4, m) && Equivalent(p4, q, m)
    requires if y == x then Kept(p2, p3, m, x) else Ops(p3) <= Ops(p2) && Jumps(p3) < Jumps(p2)
    requires p4 == p3 || Ops(p4) < Ops(p3)
    requires n == NIL || n in q.order
    requires if moved then Less(p4, y, q, n) else q == p4 && n == Next(q.order, y)
    ensures Equivalent(p, q, m) && Less(p, x, q, n)
  {
    hide Equivalent, Formed, Ops, Jumps;
    EquivalentThrough(p3, p4, q, m);
    EquivalentThrough(p2, p3, q, m);
    EquivalentThrough(p, p2, q, m);
    if y == x {
      KeptThrough(p, p2, p3, m, x);
      if q == p3 { NextLess(p, p3, m, x); }
    }
  }

  lemma SoundIn(p: Prog, refc: Counts, isn: nat)
    requires Sound(p, refc, isn)
    ensures forall x | x in p.order :: x in p.node
  {
  }

  lemma NextIn(s: seq<Id>, x: Id)
    ensures Next(s, x) == NIL || Next(s, x) in s
  {
  }

  // The block from s to t in place of the node at k.
  function Spliced(o: seq<Id>, k: nat, s: nat, t: nat): seq<Id>
    requires k < |o| && 0 < s < t < |o| && (k < s - 1 || k > t)
  {
    if k < s then o[..k] + o[s..t + 1] + o[k + 1..s] + o[t + 1..]
    else o[..s] + o[t + 1..k] + o[s..t + 1] + o[k + 1..]
  }

  lemma MoveOne(p: Prog, refc: Counts, isn: nat, m: Machine, k: nat, s: nat, l: nat, t: nat)
    requires Sound(p, refc, isn) && Movable(p, k, s, l, t) && t < |p.order| - 1
    ensures k < |p.order| && 0 < s <= l < t < |p.order| && (k < s - 1 || k > t)
    ensures
      var o, r := p.order, Spliced(p.order, k, s, t);
      var q := p.(order := r);
      && SoundBut(q, refc, isn, o[l]) && Equivalent(p, q, m) && Ops(q) <= Ops(p) && Jumps(q) < Jumps(p)
      && o[s] in r && o[s + 1] in r && o[s] != o[s + 1]
  {
    Indexes(p, k, s, l, t);
    MoveBlock(p, m, k, s, l, t);
    MovedIs(p, k, s, t);
    MovedCounts(p, refc, k, s, l, t);
    MovedMeasure(p, k, s, l, t);
    MovedFormed(p, k, s, l, t);
    MovedNodes(p, k, s, l, t);
    var q := p.(order := Spliced(p.order, k, s, t));
    hide Formed, ExactBut, Spliced, Equivalent, Ops, Jumps, Movable;
    assert SoundBut(q, refc, isn, p.order[l]);
  }

  lemma MovedIs(p: Prog, k: nat, s: nat, t: nat)
    requires k < |p.order| && 0 < s < t < |p.order| && (k < s - 1 || k > t)
    ensures CodeMoved(p, k, s, t) == p.(order := Spliced(p.order, k, s, t))
  {
    var o := p.order;
    if k < s {
      assert o[..k + 1] == o[..k] + [o[k]];
      DropFirst(o[..k], o[k], o[s..t + 1], o[k + 1..s], o[t + 1..]);
    } else {
      assert o[t + 1..k + 1] == o[t + 1..k] + [o[k]];
      DropSecondLast(o[..s], o[t + 1..k], o[k], o[s..t + 1], o[k + 1..]);
    }
  }

  lemma DropFirst(a: seq<Id>, x: Id, b: seq<Id>, c: seq<Id>, d: seq<Id>)
    ensures Remove((a + [x]) + b + c + d, |a|) == a + b + c + d
  {
    assert (a + [x]) + b + c + d == a + [x] + (b + c + d) && a + b + c + d == a + (b + c + d);
    DropMiddle(a, x, b + c + d);
  }

  lemma DropSecondLast(a: seq<Id>, c: seq<Id>, x: Id, b: seq<Id>, d: seq<Id>)
    ensures Remove(a + (c + [x]) + b + d, |a| + |c|) == a + c + b + d
  {
    assert a + (c + [x]) + b + d == a + c + [x] + (b + d) && a + c + b + d == a + c + (b + d);
    DropMiddle(a + c, x, b + d);
  }

  lemma DropMiddle(a: seq<Id>, x: Id, b: seq<Id>)
    ensures Remove(a + [x] + b, |a|) == a + b
  {
  }

  lemma MovedCounts(p: Prog, refc: Counts, k: nat, s: nat, l: nat, t: nat)
    requires Valid(p) && Exact(p, refc) && Movable(p, k, s, l, t)
    ensures k < |p.order| && 0 < s <= l < t < |p.order| && (k < s - 1 || k > t)
    ensures ExactBut(CodeMoved(p, k, s, t), refc, p.order[l], 1)
  {
    var (a, b, c, d) := Pieces(p.order, k, s, t);
    var q, k1 := p.(order := Behind(p.order, k, s, t)), JumpAt(k, s, t);
    SwapDistinct(a, b, c, d);
    ExactSwap(p, refc, a, b, c, d);
    BehindAt(p.order, k, s, t);
    RearrangedValid(p, q);
    ExactRemove(q, refc, k1);
  }

  lemma RearrangedValid(p: Prog, q: Prog)
    requires Valid(p) && q.node == p.node && Distinct(q.order) && forall x :: x in p.order <==> x in q.order
    ensures Valid(q)
  {
  }

  lemma MovedMeasure(p: Prog, k: nat, s: nat, l: nat, t: nat)
    requires Valid(p) && Movable(p, k, s, l, t)
    ensures k < |p.order| && 0 < s <= l < t < |p.order| && (k < s - 1 || k > t)
    ensures Ops(CodeMoved(p, k, s, t)) <= Ops(p) && Jumps(CodeMoved(p, k, s, t)) < Jumps(p)
  {
    var (a, b, c, d) := Pieces(p.order, k, s, t);
    InOrder(p, k);
    BehindAt(p.order, k, s, t);
    var r, k1 := Behind(p.order, k, s, t), JumpAt(k, s, t);
    TallySwap(p.node, a, b, c, d, IsOp);
    TallyRemove(p.node, r, k1, IsOp);
    TallySwap(p.node, a, b, c, d, IsJump);
    TallyRemove(p.node, r, k1, IsJump);
  }

  lemma MovedFormed(p: Prog, k: nat, s: nat, l: nat, t: nat)
    requires Formed(p) && Movable(p, k, s, l, t) && t < |p.order| - 1
    requires k < |p.order| && 0 < s <= l < t < |p.order| && (k < s - 1 || k > t) && Valid(CodeMoved(p, k, s, t))
    ensures Formed(CodeMoved(p, k, s, t))
  {
    hide *;
    Inside(p, k, s, l, t);
    MovedIs(p, k, s, t);
    SplicedEnds(p.order, k, s, t);
    ReorderedForm(p, Spliced(p.order, k, s, t));
  }

  lemma Inside(p: Prog, k: nat, s: nat, l: nat, t: nat)
    requires Formed(p) && Movable(p, k, s, l, t)
    ensures 0 < k < |p.order| - 1
  {
    InOrder(p, k);
    hide Labels, Distinct;
  }

  lemma ReorderedForm(p: Prog, r: seq<Id>)
    requires Formed(p) && Valid(p.(order := r)) && p.order != [] && r != []
    requires r[0] == p.order[0] && r[|r| - 1] == p.order[|p.order| - 1] && forall x | x in r :: x in p.order
    ensures Formed(p.(order := r))
  {
    hide Distinct;
    FormedLike(p, p.(order := r));
  }

  lemma SplicedEnds(o: seq<Id>, k: nat, s: nat, t: nat)
    requires 0 < k < |o| - 1 && 0 < s < t < |o| - 1 && (k < s - 1 || k > t)
    ensures
      var r := Spliced(o, k, s, t);
      && r != [] && r[0] == o[0] && r[|r| - 1] == o[|o| - 1] && (forall x | x in r :: x in o)
      && forall i | s <= i <= t :: o[i] in r
  {
    var r := Spliced(o, k, s, t);
    forall i | s <= i <= t ensures o[i] in r { SplicedBlock(o, k, s, t, i); }
    forall x | x in r ensures x in o { SplicedFrom(o, k, s, t, x); }
  }

  lemma SplicedBlock(o: seq<Id>, k: nat, s: nat, t: nat, i: nat)
    requires k < |o| && 0 < s < t < |o| && (k < s - 1 || k > t) && s <= i <= t
    ensures o[i] in Spliced(o, k, s, t)
  {
    assert Spliced(o, k, s, t)[if k < s then k + i - s else s + k - t - 1 + i - s] == o[i];
  }

  lemma SplicedFrom(o: seq<Id>, k: nat, s: nat, t: nat, x: Id)
    requires k < |o| && 0 < s < t < |o| && (k < s - 1 || k > t) && x in Spliced(o, k, s, t)
    ensures x in o
  {
  }

  lemma MovedNodes(p: Prog, k: nat, s: nat, l: nat, t: nat)
    requires Formed(p) && Movable(p, k, s, l, t) && t < |p.order| - 1
    requires k < |p.order| && 0 < s <= l < t < |p.order| && (k < s - 1 || k > t)
    ensures
      var o, r := p.order, Spliced(p.order, k, s, t);
      && (forall x | x in r :: x in o)
      && o[s] in r && o[s + 1] in r && o[s] != o[s + 1] && o[l] in r && o[l] in p.node && p.node[o[l]].Label?
  {
    Inside(p, k, s, l, t);
    InOrder(p, l);
    assert p.order[s] != p.order[s + 1];
    hide Valid, Distinct;
    SplicedEnds(p.order, k, s, t);
  }

  // ---- backjmp ----

  ghost predicate Before(s: seq<Id>, x: Id, y: Id) {
    x in s && y in s && Pos(s, x) < Pos(s, y)
  }

  // u is a jump like x, or the label that the jump x names.
  ghost predicate Ahead(p: Prog, u: Id, x: Id) {
    && u in p.node && x in p.node && p.node[x].Br?
    && (if p.node[u].Br? then p.node[u] == p.node[x] else p.node[u].Label? && p.node[x].ref == u)
  }

  // SameHead but for the label before a.
  ghost predicate Joinable(p: Prog, a: nat, b: nat, k: nat)
    requires Valid(p)
  {
    && 0 < a < b < k - 1 < k < |p.order| && Labels(p, a + 1, b) && Ahead(p, p.order[b], p.order[k])
    && IsInstr(p.node[p.order[a]]) && p.node[p.order[k - 1]] == p.node[p.order[a]]
  }

  // The jump x now goes to lab, further up, and no longer to t.
  ghost predicate Rerouted(r: Prog, lab: Id, t: Id, x: Id) {
    && Before(r.order, lab, x) && Ahead(r, lab, x) && Distinct(r.order)
    && lab in r.node && r.node[lab].Label? && t in r.order && t != x
  }

  lemma HeadFound(p: Prog, u: Id, x: Id, a: nat, b: nat, k: nat)
    requires Formed(p) && Before(p.order, u, x) && Ahead(p, u, x) && b == Pos(p.order, u) && k == Pos(p.order, x)
    requires a < b && Labels(p, a + 1, b) && IsInstr(p.node[p.order[a]]) && p.node[p.order[a]] == p.node[p.order[k - 1]]
    ensures Joinable(p, a, b, k)
  {
    InOrder(p, b);
    InOrder(p, k - 1);
  }

  lemma JoinableAt(p: Prog, a: nat, b: nat, k: nat)
    requires Valid(p) && Joinable(p, a, b, k)
    ensures 0 < a < b < k - 1 < k < |p.order|
    ensures p.order[a] in p.order && p.order[a] in p.node && IsInstr(p.node[p.order[a]])
    ensures p.order[k] in p.order && p.order[k] in p.node && p.node[p.order[k]].Br?
  {
    InOrder(p, a);
    InOrder(p, k);
  }

  // One instruction of p less in r, whose jump at k has gone from t to lab.
  ghost predicate JoinedOne(p: Prog, r: Prog, m: Machine, k: nat, lab: Id, t: Id) {
    && k < |p.order| && Equivalent(p, r, m) && Ops(r) < Ops(p) && Rerouted(r, lab, t, p.order[k])
  }

  lemma JoinOne(p: Prog, q: Prog, refc: Counts, isn: nat, m: Machine, a: nat, b: nat, k: nat, lab: Id)
    requires Formed(p) && Joinable(p, a, b, k)
    requires Fronted(p, q, p.order[a], lab) && Equivalent(p, q, m) && SoundBut(q, refc, isn, lab) && Ops(q) == Ops(p)
    ensures a < |p.order| && 0 < k < |p.order| && p.order[k - 1] in q.order
    ensures
      var x2, x3 := p.order[k - 1], p.order[k];
      var r := Prog(Remove(q.order, Pos(q.order, x2)), q.node[x3 := Br(lab)]);
      && x3 in p.node && p.node[x3].Br? && SoundBut(r, refc, isn, p.node[x3].ref)
      && JoinedOne(p, r, m, k, lab, p.node[x3].ref)
  {
    hide *;
    SoundButParts(q, refc, isn, lab);
    FormedValid(p);
    FormedValid(q);
    var a1, b1, k1 := JoinReady(p, q, a, b, k, lab);
    JoinFacts(q, a1, b1, k1, lab);
    var r := Joined(q, a1, k1);
    JoinHeads(q, m, a1, b1, k1);
    EquivalentThrough(p, q, r, m);
    JoinCounts(q, refc, a1, b1, k1, lab);
    JoinFormed(q, a1, b1, k1);
    JoinSound(q, r, refc, isn, lab, p.node[p.order[k]].ref);
    JoinRerouted(r, lab, p.node[p.order[k]].ref, p.order[k]);
    JoinedAll(p, r, m, k, lab, p.node[p.order[k]].ref);
  }

  lemma JoinedOneParts(p: Prog, r: Prog, m: Machine, k: nat, lab: Id, t: Id)
    requires JoinedOne(p, r, m, k, lab, t)
    ensures k < |p.order| && Equivalent(p, r, m) && Ops(r) < Ops(p) && Rerouted(r, lab, t, p.order[k])
    ensures p.order[k] in r.order && t in r.order && t != p.order[k]
  {
    hide Equivalent, Ops;
  }

  lemma JoinedAll(p: Prog, r: Prog, m: Machine, k: nat, lab: Id, t: Id)
    requires k < |p.order| && Equivalent(p, r, m) && Ops(r) < Ops(p) && Rerouted(r, lab, t, p.order[k])
    ensures JoinedOne(p, r, m, k, lab, t)
  {
  }

  lemma JoinRerouted(r: Prog, lab: Id, t: Id, x: Id)
    requires Before(r.order, lab, x) && Ahead(r, lab, x) && Distinct(r.order)
    requires lab in r.node && r.node[lab].Label? && t in r.order && t != x
    ensures Rerouted(r, lab, t, x)
  {
  }

  // The same places once the label is in front of a.
  lemma JoinReady(p: Prog, q: Prog, a: nat, b: nat, k: nat, lab: Id) returns (a1: nat, b1: nat, k1: nat)
    requires Valid(p) && Joinable(p, a, b, k) && Valid(q)
    requires Fronted(p, q, p.order[a], lab) && lab in q.node && q.node[lab].Label?
    ensures SameHead(q, a1, b1, k1) && 0 < a1 < b1 < k1 - 1 < k1 < |q.order| && a < |p.order| && 0 < k < |p.order|
    ensures q.order[k1] == p.order[k] && q.order[k1 - 1] == p.order[k - 1] && q.order[a1 - 1] == lab
    ensures p.order[k] in p.node && p.order[k] in q.node && q.node[p.order[k]] == p.node[p.order[k]]
    ensures p.node[p.order[k]].Br?
  {
    hide *;
    JoinableNodes(p, a, b, k);
    a1, b1, k1 := Shifted(p, q, a, a), Shifted(p, q, a, b), Shifted(p, q, a, k);
    ShiftedOrder(p, q, a, b, k);
    ShiftedAt(p, q, a, lab, a);
    ShiftedAt(p, q, a, lab, b);
    ShiftedAt(p, q, a, lab, k - 1);
    ShiftedAt(p, q, a, lab, k);
    ShiftedLabels(p, q, a, lab, a, b);
    MakeHead(q, a1, b1, k1);
  }

  lemma ShiftedOrder(p: Prog, q: Prog, a: nat, b: nat, k: nat)
    requires 0 < a < b < k - 1
    ensures 0 < Shifted(p, q, a, a) < Shifted(p, q, a, b) < Shifted(p, q, a, k) - 1 == Shifted(p, q, a, k - 1)
  {
  }

  lemma JoinableNodes(p: Prog, a: nat, b: nat, k: nat)
    requires Valid(p) && Joinable(p, a, b, k)
    ensures 0 < a < b < k - 1 < k < |p.order| && Labels(p, a + 1, b)
    ensures p.order[a] in p.node && p.order[b] in p.node && p.order[k - 1] in p.node && p.order[k] in p.node
    ensures IsInstr(p.node[p.order[a]]) && !p.node[p.order[a]].Label? && p.node[p.order[k - 1]] == p.node[p.order[a]]
    ensures p.node[p.order[k]].Br?
    ensures if p.node[p.order[b]].Br? then p.node[p.order[b]] == p.node[p.order[k]]
            else p.node[p.order[b]].Label? && p.node[p.order[k]].ref == p.order[b]
  {
    hide Distinct;
  }

  lemma MakeHead(q: Prog, a: nat, b: nat, k: nat)
    requires Valid(q) && 0 < a < b < k - 1 < k < |q.order| && Labels(q, a + 1, b)
    requires q.order[a] in q.node && q.order[b] in q.node && q.order[k - 1] in q.node && q.order[k] in q.node
    requires q.order[a - 1] in q.node && q.node[q.order[a - 1]].Label?
    requires IsInstr(q.node[q.order[a]]) && q.node[q.order[k - 1]] == q.node[q.order[a]] && q.node[q.order[k]].Br?
    requires if q.node[q.order[b]].Br? then q.node[q.order[b]] == q.node[q.order[k]]
             else q.node[q.order[b]].Label? && q.node[q.order[k]].ref == q.order[b]
    ensures SameHead(q, a, b, k)
  {
    hide Valid, Labels, Distinct;
  }

  lemma JoinFacts(q: Prog, a: nat, b: nat, k: nat, lab: Id)
    requires Valid(q) && SameHead(q, a, b, k) && 0 < a < b < k - 1 < k < |q.order| && q.order[a - 1] == lab
    ensures
      var x2, x3, r := q.order[k - 1], q.order[k], Joined(q, a, k);
      && x2 in q.order && Pos(q.order, x2) == k - 1
      && r == Prog(Remove(q.order, k - 1), q.node[x3 := Br(lab)])
      && Before(r.order, lab, x3) && Ahead(r, lab, x3) && Distinct(r.order) && lab in r.node && r.node[lab].Label?
  {
    hide *;
    ValidDistinct(q);
    NextAt(q.order, k - 1);
    RemoveDistinct(q.order, k - 1);
    JoinAhead(q, a, b, k, lab);
    RemoveBefore(q.order, a - 1, k);
    JoinedLists(q, a, k);
    InList(q.order, k - 1);
  }

  lemma JoinedLists(q: Prog, a: nat, k: nat)
    requires 0 < a < |q.order| && 0 < k < |q.order|
    ensures Joined(q, a, k) == Prog(Remove(q.order, k - 1), q.node[q.order[k] := Br(q.order[a - 1])])
  {
  }

  lemma InList(s: seq<Id>, i: nat)
    requires i < |s|
    ensures s[i] in s
  {
  }

  lemma JoinAhead(q: Prog, a: nat, b: nat, k: nat, lab: Id)
    requires Valid(q) && SameHead(q, a, b, k) && 0 < a < b < k - 1 < k < |q.order| && q.order[a - 1] == lab
    ensures Ahead(Joined(q, a, k), lab, q.order[k]) && lab in Joined(q, a, k).node && Joined(q, a, k).node[lab].Label?
  {
    InOrder(q, k);
    InOrder(q, a - 1);
    NotSame(q, a, b, k);
    hide Distinct, Valid, Labels;
  }

  lemma RemoveBefore(s: seq<Id>, i: nat, k: nat)
    requires Distinct(s) && i < k - 1 < k < |s|
    ensures Before(Remove(s, k - 1), s[i], s[k])
  {
    RemoveDistinct(s, k - 1);
    var r := Remove(s, k - 1);
    NextAt(r, i);
    NextAt(r, k - 1);
  }

  lemma JoinCounts(q: Prog, refc: Counts, a: nat, b: nat, k: nat, lab: Id)
    requires Valid(q) && SameHead(q, a, b, k) && 0 < a < b < k - 1 < k < |q.order| && q.order[a - 1] == lab
    requires ExactBut(q, refc, lab, 1)
    ensures q.order[k] in q.node && q.node[q.order[k]].Br?
    ensures ExactBut(Joined(q, a, k), refc, q.node[q.order[k]].ref, 1) && Ops(Joined(q, a, k)) < Ops(q)
  {
    JoinNodes(q, a, b, k);
    hide SameHead, Valid, ExactBut, Joined, Ops;
    forall y
      ensures Named(Joined(q, a, k), y) + One(q.node, q.order[k], Naming(y)) == Named(q, y) + if lab == y then 1 else 0
    {
      JoinTally(q, a, k, Naming(y));
    }
    JoinExact(q, Joined(q, a, k), refc, q.order[k], lab);
    JoinTally(q, a, k, IsOp);
    OpsIs(q);
    OpsIs(Joined(q, a, k));
  }

  lemma OpsIs(p: Prog)
    ensures Ops(p) == Tally(p.node, p.order, IsOp)
  {
  }

  lemma JumpsIs(p: Prog)
    ensures Jumps(p) == Tally(p.node, p.order, IsJump)
  {
  }

  lemma JoinNodes(q: Prog, a: nat, b: nat, k: nat)
    requires Valid(q) && SameHead(q, a, b, k)
    ensures 0 < a < |q.order| && 0 < k < |q.order| && Distinct(q.order)
    ensures q.order[k] in q.node && q.node[q.order[k]].Br?
    ensures q.order[k - 1] in q.node && q.node[q.order[k - 1]].Op?
    ensures var r := Joined(q, a, k);
      r.node == q.node[q.order[k] := Br(q.order[a - 1])] && forall y | y in r.order :: y in q.order
  {
    InOrder(q, k);
    InOrder(q, k - 1);
    RemoveDistinct(q.order, k - 1);
    hide Labels;
  }

  lemma JoinTally(q: Prog, a: nat, k: nat, f: Node -> bool)
    requires 0 < a < |q.order| && 0 < k < |q.order| && Distinct(q.order)
    ensures
      var r := Joined(q, a, k);
      Tally(r.node, r.order, f) + One(q.node, q.order[k], f) + One(q.node, q.order[k - 1], f) ==
        Tally(q.node, q.order, f) + if f(Br(q.order[a - 1])) then 1 else 0
  {
    RemoveDistinct(q.order, k - 1);
    TallyRemove(q.node, q.order, k - 1, f);
    TallyUpdate(q.node, Remove(q.order, k - 1), q.order[k], Br(q.order[a - 1]), f);
  }

  lemma JoinExact(q: Prog, r: Prog, refc: Counts, x: Id, lab: Id)
    requires ExactBut(q, refc, lab, 1) && x in q.node && q.node[x].Br? && r.node == q.node[x := Br(lab)]
    requires forall y | y in r.order :: y in q.order
    requires forall y :: Named(r, y) + One(q.node, x, Naming(y)) == Named(q, y) + if lab == y then 1 else 0
    ensures ExactBut(r, refc, q.node[x].ref, 1)
  {
    hide Tally;
    forall y | y in r.order && y in r.node && r.node[y].Label?
      ensures y in refc && refc[y] == Named(r, y) + if y == q.node[x].ref then 1 else 0
    {
      assert y in q.order && q.node[y].Label?;
      assert Named(r, y) + One(q.node, x, Naming(y)) == Named(q, y) + if lab == y then 1 else 0;
    }
  }

  lemma JoinFormed(q: Prog, a: nat, b: nat, k: nat)
    requires Formed(q) && SameHead(q, a, b, k) && 0 < a < b < k - 1 < k < |q.order| && Valid(Joined(q, a, k))
    ensures Formed(Joined(q, a, k))
    ensures forall x | x in Joined(q, a, k).order :: x in q.order
    ensures
      var t := q.node[q.order[k]].ref;
      t in Joined(q, a, k).order && t in Joined(q, a, k).node && Joined(q, a, k).node[t].Label? && t != q.order[k]
    ensures q.order[k] in Joined(q, a, k).order
  {
    hide *;
    var r, x := Joined(q, a, k), q.order[k];
    FormedValid(q);
    JoinInside(q, a, b, k);
    JoinedParts(q, a, k);
    JoinedEnds(q, a, k);
    Apart(q.order, 0, k);
    Apart(q.order, k, |q.order| - 1);
    UpdatedForm(q, r, x, Br(q.order[a - 1]));
  }

  lemma JoinInside(q: Prog, a: nat, b: nat, k: nat)
    requires Formed(q) && SameHead(q, a, b, k) && 0 < a < b < k - 1 < k < |q.order|
    ensures k < |q.order| - 1 && Distinct(q.order) && q.order[k] in q.order && q.order[k] != q.order[k - 1]
    ensures
      var t := q.node[q.order[k]].ref;
      t in q.order && t in q.node && q.node[t].Label? && t != q.order[k] && t != q.order[k - 1]
  {
    InOrder(q, k);
    InOrder(q, k - 1);
    Apart(q.order, k - 1, k);
    hide Labels, Distinct;
  }

  lemma JoinedEnds(q: Prog, a: nat, k: nat)
    requires 0 < a < |q.order| && 0 < k - 1 < k < |q.order| - 1
    ensures
      var r := Joined(q, a, k);
      r.order != [] && r.order[0] == q.order[0] && r.order[|r.order| - 1] == q.order[|q.order| - 1]
  {
  }

  lemma JoinSound(q: Prog, r: Prog, refc: Counts, isn: nat, lab: Id, t: Id)
    requires SoundBut(q, refc, isn, lab) && Formed(r) && ExactBut(r, refc, t, 1)
    requires (forall x | x in r.order :: x in q.order) && t in r.order && t in r.node && r.node[t].Label?
    ensures SoundBut(r, refc, isn, t)
  {
    hide Formed, ExactBut;
  }

  // The count of the old label is taken down; the new one stays, being named.
  lemma JoinDone(p: Prog, r: Prog, s: Prog, refc: Counts, isn: nat, m: Machine, k: nat, t: Id, lab: Id)
    requires JoinedOne(p, r, m, k, lab, t) && Sound(s, refc, isn) && s.node == r.node && k < |p.order|
    requires Kept(r, s, m, p.order[k]) && Ops(s) == Ops(r) && t in r.order
    requires s.order == r.order || s.order == Remove(r.order, Pos(r.order, t))
    ensures Equivalent(p, s, m) && Ops(s) < Ops(p) && Before(s.order, lab, p.order[k]) && Ahead(s, lab, p.order[k])
  {
    hide *;
    JoinedOneParts(p, r, m, k, lab, t);
    KeptIn(r, s, m, p.order[k]);
    EquivalentThrough(p, r, s, m);
    JoinKept(r, s, refc, isn, t, lab, p.order[k]);
  }

  lemma JoinKept(r: Prog, s: Prog, refc: Counts, isn: nat, t: Id, lab: Id, x: Id)
    requires Rerouted(r, lab, t, x) && Sound(s, refc, isn) && s.node == r.node && t in r.order
    requires s.order == r.order || s.order == Remove(r.order, Pos(r.order, t))
    ensures Before(s.order, lab, x) && Ahead(s, lab, x)
  {
    if s.order != r.order {
      var k := Pos(r.order, t);
      RemoveDistinct(r.order, k);
      assert x in s.order;
      assert lab in s.order;
      hide Formed, Exact, Ahead, Distinct;
      KeepsBefore(r.order, k, lab, x);
    }
  }

  lemma KeepsBefore(s: seq<Id>, k: nat, x: Id, y: Id)
    requires Distinct(s) && k < |s| && Before(s, x, y) && x != s[k] && y != s[k]
    ensures Before(Remove(s, k), x, y)
  {
    RemoveDistinct(s, k);
    var i, j := Pos(s, x), Pos(s, y);
    NextAt(Remove(s, k), if i < k then i else i - 1);
    NextAt(Remove(s, k), if j < k then j else j - 1);
  }

  // The jumps before x have stayed there.
  ghost predicate JumpsBefore(p: Prog, q: Prog, x: Id) {
    forall y | y in p.node && p.node[y].Br? && Before(p.order, y, x) ::
      y in q.node && q.node[y] == p.node[y] && Before(q.order, y, x)
  }

  lemma SameJumps(p: Prog, x: Id)
    ensures JumpsBefore(p, p, x)
  {
  }

  lemma JumpsThrough(p: Prog, q: Prog, r: Prog, x: Id)
    requires JumpsBefore(p, q, x) && JumpsBefore(q, r, x)
    ensures JumpsBefore(p, r, x)
  {
    hide Before;
  }

  lemma BeforeIn(s: seq<Id>, x: Id, y: Id)
    requires Before(s, x, y)
    ensures x in s && y in s
  {
  }

  lemma InsertBefore(s: seq<Id>, k: nat, n: Id, x: Id, y: Id)
    requires Distinct(s) && k <= |s| && n !in s && Before(s, x, y)
    ensures Before(Insert(s, k, n), x, y)
  {
    InsertRemove(s, k, n);
    var i, j, r := Pos(s, x), Pos(s, y), Insert(s, k, n);
    NextAt(r, if i < k then i else i + 1);
    NextAt(r, if j < k then j else j + 1);
  }

  lemma JoinTarget(p: Prog, x: Id)
    requires Valid(p) && x in p.order && x in p.node && p.node[x].Br?
    ensures p.node[x].ref in p.node && p.node[p.node[x].ref].Label?
  {
  }

  lemma JoinLists(p: Prog, q: Prog, r: Prog, m: Machine, k: nat, lab: Id, t: Id)
    requires JoinedOne(p, r, m, k, lab, t)
    ensures k < |p.order| && Distinct(r.order) && t in r.order && t != p.order[k]
  {
    hide Equivalent, Ops;
  }

  lemma JoinJumps(p: Prog, q: Prog, r: Prog, s: Prog, a: nat, b: nat, k: nat, lab: Id, t: Id)
    requires Valid(p) && Valid(q) && Joinable(p, a, b, k) && a < |p.order| && 0 < k < |p.order|
    requires Fronted(p, q, p.order[a], lab) && p.order[k - 1] in q.order
    requires r == Prog(Remove(q.order, Pos(q.order, p.order[k - 1])), q.node[p.order[k] := Br(lab)])
    requires Distinct(r.order) && t in r.order && t in p.node && p.node[t].Label? && t != p.order[k]
    requires s.node == r.node && (s.order == r.order || s.order == Remove(r.order, Pos(r.order, t)))
    ensures JumpsBefore(p, s, p.order[k])
  {
    forall y | y in p.node && p.node[y].Br? && Before(p.order, y, p.order[k])
      ensures y in s.node && s.node[y] == p.node[y] && Before(s.order, y, p.order[k])
    {
      hide *;
      JoinJump(p, q, r, a, b, k, lab, y);
      if s.order != r.order { KeepsBefore(r.order, Pos(r.order, t), y, p.order[k]); }
    }
  }

  lemma JoinJump(p: Prog, q: Prog, r: Prog, a: nat, b: nat, k: nat, lab: Id, y: Id)
    requires Valid(p) && Valid(q) && Joinable(p, a, b, k) && a < |p.order| && 0 < k < |p.order|
    requires Fronted(p, q, p.order[a], lab) && p.order[k - 1] in q.order
    requires r == Prog(Remove(q.order, Pos(q.order, p.order[k - 1])), q.node[p.order[k] := Br(lab)])
    requires y in p.node && p.node[y].Br? && Before(p.order, y, p.order[k])
    ensures y in r.node && r.node[y] == p.node[y] && Before(r.order, y, p.order[k])
  {
    hide *;
    BeforeIn(p.order, y, p.order[k]);
    FrontedSame(p, q, p.order[a], lab);
    ValidDistinct(p);
    ValidDistinct(q);
    NextAt(p.order, k);
    NextAt(p.order, k - 1);
    JoinableInstr(p, a, b, k);
    BeforeApart(p.order, y, p.order[k]);
    FrontedBefore(p, q, p.order[a], lab, y, p.order[k]);
    KeepsBefore(q.order, Pos(q.order, p.order[k - 1]), y, p.order[k]);
  }

  lemma JoinableInstr(p: Prog, a: nat, b: nat, k: nat)
    requires Valid(p) && Joinable(p, a, b, k) && 0 < k < |p.order|
    ensures p.order[k - 1] in p.node && !p.node[p.order[k - 1]].Br? && p.order[k] != p.order[k - 1]
  {
    InOrder(p, k - 1);
    Apart(p.order, k - 1, k);
    hide Labels, Distinct;
  }

  lemma BeforeApart(s: seq<Id>, x: Id, y: Id)
    requires Before(s, x, y)
    ensures x != y
  {
  }

  lemma FrontedBefore(p: Prog, q: Prog, z: Id, lab: Id, x: Id, y: Id)
    requires Valid(p) && Fronted(p, q, z, lab) && Before(p.order, x, y)
    ensures Before(q.order, x, y)
  {
    if q != p { InsertBefore(p.order, Pos(p.order, z), lab, x, y); }
  }

  lemma FirstAfter(p: Prog, refc: Counts, isn: nat, x: Id)
    requires Sound(p, refc, isn) && x in p.order
    ensures var n := Next(p.order, x); n == NIL || (Before(p.order, x, n) && n in p.order && n in p.node)
  {
    NextAt(p.order, Pos(p.order, x));
    if Pos(p.order, x) + 1 < |p.order| { NextAt(p.order, Pos(p.order, x) + 1); }
    hide Exact;
  }

  lemma BeforeNext(p: Prog, refc: Counts, isn: nat, x: Id, y: Id)
    requires Sound(p, refc, isn) && Before(p.order, x, y)
    ensures y in p.order
    ensures
      var n := Next(p.order, y);
      n == NIL || (Before(p.order, x, n) && n in p.order && n in p.node && After(p, n) < After(p, y))
    ensures NIL !in p.order
  {
    SoundNext(p, refc, isn, y);
    FirstAfter(p, refc, isn, y);
    hide Sound, Next;
  }

  lemma SoundNext(p: Prog, refc: Counts, isn: nat, x: Id)
    requires Sound(p, refc, isn) && x in p.order
    ensures var n := Next(p.order, x); n == NIL || (n in p.order && After(p, n) < After(p, x))
    ensures NIL !in p.order && After(p, x) > 0
  {
    hide Exact;
    NextAfter(p.order, x);
  }

  // ---- jumpsw ----

  function Abs(x: int): int { if x < 0 then -x else x }

  lemma FormedAt(p: Prog, k: nat)
    requires Formed(p) && k + 1 < |p.order|
    ensures p.order[k] in p.order && p.order[k] in p.node && p.order[k + 1] in p.order && p.order[k + 1] in p.node
    ensures HasRef(p.node[p.order[k]]) ==> p.node[p.order[k]].ref in p.order
    ensures HasRef(p.node[p.order[k + 1]]) ==> p.node[p.order[k + 1]].ref in p.order
  {
  }

  lemma SwapOne(p: Prog, m: Machine, k: nat)
    requires Formed(p) && k + 1 < |p.order| && p.order[k] in p.node && p.order[k + 1] in p.node
    requires p.node[p.order[k]].Cbr? && p.node[p.order[k + 1]].Br?
    ensures Formed(Swapped(p, k)) && Equivalent(p, Swapped(p, k), m)
  {
    SwapJumps(p, m, k);
    InOrder(p, k);
    InOrder(p, k + 1);
    assert k + 1 < |p.order| - 1;
    assert p.order[k] != p.order[0] && p.order[k + 1] != p.order[0];
    assert p.order[k] != p.order[|p.order| - 1] && p.order[k + 1] != p.order[|p.order| - 1];
    hide Distinct, Valid, Equivalent;
    FormedLike(p, Swapped(p, k));
  }

  // ---- the arm of codemove that inverts loops ----

  // The loop begins with labels from s to l; at t a conditional jump leaves
  // it for the label behind the jump at k, which goes back to the label at l.
  ghost predicate LoopAt(p: Prog, s: nat, l: nat, t: nat, k: nat)
    requires Valid(p)
  {
    && 0 < s <= l < t < k && k + 1 < |p.order|
    && Labels(p, s, l + 1) && p.node[p.order[k]] == Br(p.order[l])
    && p.node[p.order[t]].Cbr? && p.node[p.order[t]].c < 12 && p.node[p.order[t]].ref == p.order[k + 1]
  }

  // The same with the label tl right before the jump x.
  ghost predicate Pinning(p: Prog, x: Id, s: nat, l: nat, t: nat, tl: Id) {
    && Valid(p) && x in p.order && LoopAt(p, s, l, t, Pos(p.order, x))
    && t + 1 < Pos(p.order, x) && p.order[Pos(p.order, x) - 1] == tl
  }

  ghost predicate Labelled(p: Prog, t: nat) {
    t + 1 < |p.order| && p.order[t + 1] in p.node && p.node[p.order[t + 1]].Label?
  }

  // Nothing is more in q, seen from y, than in p, seen from x.
  ghost predicate Level(p: Prog, x: Id, q: Prog, y: Id, m: Machine) {
    && Equivalent(p, q, m) && Ops(q) == Ops(p) && Jumps(q) == Jumps(p)
    && x in p.order && y in q.order && After(q, y) <= After(p, x)
  }

  lemma LevelSame(p: Prog, x: Id, m: Machine)
    requires x in p.order
    ensures Level(p, x, p, x, m)
  {
    EquivalentSame(p, m);
  }

  lemma LevelIn(p: Prog, x: Id, q: Prog, y: Id, m: Machine)
    requires Level(p, x, q, y, m)
    ensures x in p.order && y in q.order && Equivalent(p, q, m)
  {
  }

  lemma LevelThrough(p: Prog, x: Id, q: Prog, y: Id, r: Prog, z: Id, m: Machine)
    requires Level(p, x, q, y, m) && Level(q, y, r, z, m)
    ensures Level(p, x, r, z, m)
  {
    hide Equivalent, Ops, Jumps, After;
    EquivalentThrough(p, q, r, m);
  }

  lemma LevelLess(p: Prog, x: Id, q: Prog, y: Id, m: Machine)
    requires Level(p, x, q, y, m) && Valid(q)
    ensures Equivalent(p, q, m) && Less(p, x, q, Next(q.order, y)) &&
      (Next(q.order, y) == NIL || Next(q.order, y) in q.order)
  {
    hide Equivalent, Ops, Jumps;
    NextAfter(q.order, y);
  }

  lemma NextAfter(s: seq<Id>, y: Id)
    requires y in s && Distinct(s)
    ensures var n := Next(s, y); n == NIL || (n in s && |s| - Pos(s, n) <= |s| - Pos(s, y) - 1)
  {
  }

  lemma KeptLevel(p: Prog, q: Prog, x: Id, m: Machine)
    requires Kept(p, q, m, x) && Ops(q) == Ops(p) && Jumps(q) == Jumps(p)
    ensures Level(p, x, q, x, m)
  {
    hide Equivalent, Ops, Jumps, After;
  }

  lemma LoopNodes(p: Prog, x: Id, s: nat, l: nat, t: nat)
    requires Formed(p) && x in p.order && LoopAt(p, s, l, t, Pos(p.order, x))
    ensures x in p.node && !p.node[x].Label? && !p.node[x].Head?
  {
  }

  lemma LoopBounds(p: Prog, x: Id, s: nat, l: nat, t: nat, tl: Id)
    requires Pinning(p, x, s, l, t, tl)
    ensures x in p.order && 0 < s <= l < t < Pos(p.order, x) - 1 && Pos(p.order, x) + 1 < |p.order|
  {
    hide Valid, Labels;
  }

  lemma PinningNodes(p: Prog, refc: Counts, isn: nat, x: Id, s: nat, l: nat, t: nat, tl: Id)
    requires SoundBut(p, refc, isn, tl) && Pinning(p, x, s, l, t, tl)
    ensures x in p.order && t + 1 < |p.order| && p.order[t + 1] in p.node
  {
    InOrder(p, t + 1);
    hide Valid, Labels;
  }

  lemma MakeLabelled(p: Prog, t: nat)
    requires t + 1 < |p.order| && p.order[t + 1] in p.node && p.node[p.order[t + 1]].Label?
    ensures Labelled(p, t)
  {
  }

  lemma WithLabelIs(p: Prog, k: nat, n: Id)
    requires k <= |p.order|
    ensures WithLabel(p, k, n) == Prog(Insert(p.order, k, n), p.node[n := Label])
  {
  }

  lemma InvertedAs(p: Prog, s: nat, t: nat, k: nat)
    requires s <= t < k - 1 && k < |p.order| && p.order[t] in p.node && p.node[p.order[t]].Cbr?
    ensures Inverted(p, s, t, k) ==
      Prog(Turned(p.order, s, t, k), p.node[p.order[t] := Cbr(Revbr(p.node[p.order[t]].c), p.order[t + 1])])
  {
  }

  lemma Pinned(p: Prog, q: Prog, m: Machine, refc: Counts, isn: nat, x: Id, s: nat, l: nat, t: nat, tl: Id)
    requires Formed(p) && x in p.order && LoopAt(p, s, l, t, Pos(p.order, x)) && Fronted(p, q, x, tl)
    requires SoundBut(q, refc, isn, tl) && Equivalent(p, q, m) && Ops(q) == Ops(p) && Jumps(q) == Jumps(p)
    ensures Pinning(q, x, s, l, t, tl) && Level(p, x, q, x, m)
  {
    hide *;
    var k := Pos(p.order, x);
    var k1 := Shifted(p, q, k, k);
    FormedValid(p);
    SoundButParts(q, refc, isn, tl);
    FormedValid(q);
    LoopIn(p, s, l, t, k);
    LoopShifted(p, q, k, tl, s, l, t, k);
    ShiftedAt(p, q, k, tl, k);
    MakePinning(q, x, s, l, t, tl, k1);
    LevelAs(p, x, q, x, m);
  }

  // The label tl is put at place c, behind the test.
  lemma LoopShifted(p: Prog, q: Prog, c: nat, tl: Id, s: nat, l: nat, t: nat, k: nat)
    requires Valid(p) && Valid(q) && t < c <= k && LoopAt(p, s, l, t, k)
    requires c < |p.order| && Fronted(p, q, p.order[c], tl) && tl in q.node && q.node[tl].Label?
    ensures k < |p.order|
    ensures
      var k1 := Shifted(p, q, c, k);
      && LoopAt(q, s, l, t, k1) && q.order[k1] == p.order[k] && t < k1 - 1 && |q.order| - k1 == |p.order| - k
  {
    hide *;
    LoopIn(p, s, l, t, k);
    ShiftedNode(p, q, c, tl, t);
    ShiftedNode(p, q, c, tl, l);
    ShiftedNode(p, q, c, tl, k);
    ShiftedNode(p, q, c, tl, k + 1);
    forall i | s <= i < l + 1 ensures q.order[i] in q.node && q.node[q.order[i]].Label? {
      LoopLabel(p, s, l, t, k, i);
      ShiftedNode(p, q, c, tl, i);
    }
    LoopGap(p, q, c, tl, t);
    ShiftedNode(p, q, c, tl, c);
    MakeLoop(q, s, l, t, Shifted(p, q, c, k));
  }

  lemma LoopGap(p: Prog, q: Prog, c: nat, tl: Id, t: nat)
    requires Valid(p) && t < c < |p.order| && Fronted(p, q, p.order[c], tl) && tl in q.node && q.node[tl].Label?
    requires !p.node[p.order[t]].Label?
    ensures t < Shifted(p, q, c, c) - 1
  {
    NextAt(p.order, c);
  }

  lemma LoopIn(p: Prog, s: nat, l: nat, t: nat, k: nat)
    requires Valid(p) && LoopAt(p, s, l, t, k)
    ensures 0 < s <= l < t < k && k + 1 < |p.order|
    ensures p.order[t] in p.node && p.order[k] in p.node && p.node[p.order[k]] == Br(p.order[l])
    ensures p.node[p.order[t]].Cbr? && p.node[p.order[t]].c < 12 && p.node[p.order[t]].ref == p.order[k + 1]
  {
    InOrder(p, t);
    InOrder(p, k);
    hide Distinct, Valid, Labels;
  }

  lemma LoopLabel(p: Prog, s: nat, l: nat, t: nat, k: nat, i: nat)
    requires Valid(p) && LoopAt(p, s, l, t, k) && s <= i <= l
    ensures i < |p.order| && p.order[i] in p.node && p.node[p.order[i]].Label?
  {
    hide Distinct, Valid;
  }

  lemma MakeLoop(p: Prog, s: nat, l: nat, t: nat, k: nat)
    requires Valid(p) && 0 < s <= l < t < k && k + 1 < |p.order|
    requires forall i | s <= i < l + 1 :: p.order[i] in p.node && p.node[p.order[i]].Label?
    requires p.order[k] in p.node && p.node[p.order[k]] == Br(p.order[l])
    requires p.order[t] in p.node && p.node[p.order[t]].Cbr? && p.node[p.order[t]].c < 12
    requires p.node[p.order[t]].ref == p.order[k + 1]
    ensures LoopAt(p, s, l, t, k)
  {
  }

  lemma ShiftedNode(p: Prog, q: Prog, c: nat, lab: Id, i: nat)
    requires Valid(p) && c < |p.order| && Fronted(p, q, p.order[c], lab) && i < |p.order|
    ensures
      var j := Shifted(p, q, c, i);
      && (if i < c then j == i else j >= i && |q.order| - j == |p.order| - i)
      && j < |q.order| && q.order[j] == p.order[i] && p.order[i] in p.node
      && q.order[j] in q.node && q.node[q.order[j]] == p.node[p.order[i]]
  {
    ShiftedAt(p, q, c, lab, i);
    InOrder(p, i);
    NextAt(p.order, c);
  }

  lemma FrontNew(p: Prog, refc: Counts, isn: nat, m: Machine, x: Id, s: nat, l: nat, t: nat, tl: Id)
    requires SoundBut(p, refc, isn, tl) && Pinning(p, x, s, l, t, tl)
    ensures t + 1 < |p.order|
    ensures
      var q := WithLabel(p, t + 1, isn);
      && SoundBut(q, refc[isn := 0], isn + 1, tl) && Pinning(q, x, s, l, t, tl) && Labelled(q, t) &&
        Level(p, x, q, x, m)
  {
    hide *;
    LoopBounds(p, x, s, l, t, tl);
    SoundButParts(p, refc, isn, tl);
    NewOwing(p, refc, isn, m, t + 1, tl);
    NewNumber(p, refc, isn, tl);
    SoundButParts(WithLabel(p, t + 1, isn), refc[isn := 0], isn + 1, tl);
    FormedValid(WithLabel(p, t + 1, isn));
    NewPlaces(p, x, s, l, t, tl, isn);
    LevelAs(p, x, WithLabel(p, t + 1, isn), x, m);
  }

  lemma LevelAs(p: Prog, x: Id, q: Prog, y: Id, m: Machine)
    requires Equivalent(p, q, m) && Ops(q) == Ops(p) && Jumps(q) == Jumps(p)
    requires x in p.order && y in q.order && |q.order| - Pos(q.order, y) <= |p.order| - Pos(p.order, x)
    ensures Level(p, x, q, y, m)
  {
  }

  lemma NewNumber(p: Prog, refc: Counts, isn: nat, l: Id)
    requires SoundBut(p, refc, isn, l)
    ensures isn !in p.order && isn + 1 !in p.order && isn != NIL && Valid(p)
  {
    hide Valid;
  }

  lemma NewOwing(p: Prog, refc: Counts, isn: nat, m: Machine, k: nat, l: Id)
    requires SoundBut(p, refc, isn, l) && 0 < k < |p.order|
    ensures
      var q := WithLabel(p, k, isn);
      SoundBut(q, refc[isn := 0], isn + 1, l) && Equivalent(p, q, m) && Ops(q) == Ops(p) && Jumps(q) == Jumps(p)
  {
    var r := refc[l := refc[l] - 1];
    NewNumber(p, refc, isn, l);
    hide Ops, Jumps, Equivalent;
    LabelAdded(p, r, m, k, isn);
    hide Named;
    var q := WithLabel(p, k, isn);
    assert q.node == p.node[isn := Label];
    hide Formed;
    assert r[isn := 1][l] == refc[l] - 1;
  }

  lemma NewPlaces(p: Prog, x: Id, s: nat, l: nat, t: nat, tl: Id, n: Id)
    requires Pinning(p, x, s, l, t, tl) && n !in p.order && n != NIL && t + 1 < |p.order| &&
      Valid(WithLabel(p, t + 1, n))
    ensures
      var q := WithLabel(p, t + 1, n);
      && Pinning(q, x, s, l, t, tl) && Labelled(q, t)
      && x in p.order && x in q.order && |q.order| - Pos(q.order, x) == |p.order| - Pos(p.order, x)
  {
    hide *;
    LoopBounds(p, x, s, l, t, tl);
    PinningParts(p, x, s, l, t, tl);
    var k, q := Pos(p.order, x), WithLabel(p, t + 1, n);
    NewFront(p, t + 1, n);
    LoopShifted(p, q, t + 1, n, s, l, t, k);
    ShiftedNode(p, q, t + 1, n, k - 1);
    ShiftedNode(p, q, t + 1, n, k);
    MakePinning(q, x, s, l, t, tl, Shifted(p, q, t + 1, k));
    MakeLabelled(q, t);
  }

  lemma PinningParts(p: Prog, x: Id, s: nat, l: nat, t: nat, tl: Id)
    requires Pinning(p, x, s, l, t, tl)
    ensures Valid(p) && Distinct(p.order) && x in p.order && LoopAt(p, s, l, t, Pos(p.order, x))
    ensures 0 < Pos(p.order, x) && p.order[Pos(p.order, x) - 1] == tl
  {
  }

  lemma MakePinning(p: Prog, x: Id, s: nat, l: nat, t: nat, tl: Id, k: nat)
    requires Valid(p) && LoopAt(p, s, l, t, k) && 0 < k < |p.order| && p.order[k] == x && p.order[k - 1] == tl &&
      t + 1 < k
    ensures Pinning(p, x, s, l, t, tl) && Pos(p.order, x) == k && x in p.order
  {
    NextAt(p.order, k);
    hide LoopAt;
  }

  lemma NewFront(p: Prog, k: nat, n: Id)
    requires Valid(p) && k < |p.order| && n !in p.order && n != NIL
    ensures
      var q := WithLabel(p, k, n);
      && Fronted(p, q, p.order[k], n) && n in q.node && q.node[n].Label?
      && k < |q.order| && q.order[k] == n
  {
    NextAt(p.order, k);
  }

  lemma TurnOne(p: Prog, refc: Counts, isn: nat, m: Machine, x: Id, s: nat, l: nat, t: nat, tl: Id)
    requires SoundBut(p, refc, isn, tl) && Pinning(p, x, s, l, t, tl) && Labelled(p, t)
    ensures x in p.order
    ensures var k := Pos(p.order, x);
      && s <= t < k - 1 && k + 1 < |p.order| && p.order[t] in p.node && p.node[p.order[t]].Cbr? &&
        p.order[t + 1] in refc
    ensures
      var k := Pos(p.order, x);
      var q, lab, test, out := Inverted(p, s, t, k), p.order[t + 1], p.order[t], p.order[k + 1];
      && SoundTwo(q, refc[lab := refc[lab] + 1], isn, tl, out) && Level(p, x, q, test, m)
      && test in q.order && test != tl && test != out
  {
    hide *;
    LoopBounds(p, x, s, l, t, tl);
    PinningParts(p, x, s, l, t, tl);
    var k := Pos(p.order, x);
    SoundButParts(p, refc, isn, tl);
    LoopReady(p, s, l, t, k);
    NewNumber(p, refc, isn, tl);
    TwoMore(p, isn);
    InvertLoop(p, m, s, l, t, k, isn, isn + 1);
    TurnedNodes(p, s, l, t, k);
    var q, test := Inverted(p, s, t, k), p.order[t];
    TurnedMeasure(p, s, t, k);
    TurnedPlace(p.order, s, t, k);
    InvertedAs(p, s, t, k);
    LevelAs(p, x, q, test, m);
    TurnedFormed(p, s, t, k);
    TurnedCounts(p, refc, s, l, t, k, tl);
    TurnedSound(p, q, refc, isn, tl, p.order[t + 1], p.order[k + 1], k);
    TurnedApart(p, s, l, t, k, tl);
  }

  lemma LoopReady(p: Prog, s: nat, l: nat, t: nat, k: nat)
    requires Valid(p) && LoopAt(p, s, l, t, k) && Labelled(p, t) && t < k - 1
    ensures Loop(p, s, l, t, k)
  {
  }

  lemma TwoMore(p: Prog, n: Id)
    requires n !in p.order && n + 1 !in p.order && n != NIL
    ensures Fresh(p, n, n + 1)
  {
  }

  lemma TurnedNodes(p: Prog, s: nat, l: nat, t: nat, k: nat)
    requires Valid(p) && LoopAt(p, s, l, t, k) && Labelled(p, t) && t < k - 1
    ensures 0 < s <= t < k - 1 && k + 1 < |p.order| && Distinct(p.order)
    ensures p.order[t] in p.node && p.order[t] in p.order && p.node[p.order[t]].Cbr? && p.node[p.order[t]].c < 12
    ensures p.node[p.order[t]].ref == p.order[k + 1]
    ensures p.order[t + 1] in p.order && p.order[t + 1] in p.node && p.node[p.order[t + 1]].Label?
    ensures p.order[k + 1] in p.order && p.order[k + 1] in p.node && p.node[p.order[k + 1]].Label?
  {
    LoopIn(p, s, l, t, k);
    InOrder(p, t);
    InOrder(p, t + 1);
    InOrder(p, k + 1);
  }

  lemma TallyTurned(node: map<Id, Node>, o: seq<Id>, s: nat, t: nat, k: nat, f: Node -> bool)
    requires s <= t < k < |o|
    ensures Tally(node, Turned(o, s, t, k), f) == Tally(node, o, f)
  {
    var a, b, r, x, d := o[..s], o[s..t + 1], o[t + 1..k], [o[k]], o[k + 1..];
    assert o == a + b + (r + x) + d && a + x + r + b + d == a + (x + r) + b + d &&
      a + (r + x) + b + d == a + r + x + (b + d);
    assert a + x + r + b + d == a + x + r + (b + d);
    TallySwap(node, a, b, r + x, d, f);
    TallySwap(node, a, r, x, b + d, f);
  }

  // The turn adds a jump to the label behind the test, and takes one away.
  lemma TurnedTally(p: Prog, s: nat, t: nat, k: nat, f: Node -> bool)
    requires Distinct(p.order) && s <= t < k - 1 && k < |p.order| && p.order[t] in p.node && p.node[p.order[t]].Cbr?
    ensures
      var q, test := Inverted(p, s, t, k), p.order[t];
      Tally(q.node, q.order, f) + One(p.node, test, f) == Tally(p.node, p.order, f)
        + if f(Cbr(Revbr(p.node[test].c), p.order[t + 1])) then 1 else 0
  {
    var q, test := Inverted(p, s, t, k), p.order[t];
    assert test in p.order;
    hide Distinct, Turned;
    TallyUpdate(p.node, p.order, test, q.node[test], f);
    TallyTurned(q.node, p.order, s, t, k, f);
  }

  lemma TurnedMeasure(p: Prog, s: nat, t: nat, k: nat)
    requires Distinct(p.order) && s <= t < k - 1 && k < |p.order| && p.order[t] in p.node && p.node[p.order[t]].Cbr?
    ensures Ops(Inverted(p, s, t, k)) == Ops(p) && Jumps(Inverted(p, s, t, k)) == Jumps(p)
  {
    hide Tally, Turned, Distinct;
    TurnedTally(p, s, t, k, IsOp);
    TurnedTally(p, s, t, k, IsJump);
  }

  lemma TurnedPlace(o: seq<Id>, s: nat, t: nat, k: nat)
    requires Distinct(o) && s <= t < k < |o|
    ensures
      var r := Turned(o, s, t, k);
      && |r| == |o| && o[t] in r && |r| - Pos(r, o[t]) <= |o| - k
      && (forall v :: v in r <==> v in o) && (0 < s ==> r[0] == o[0]) && (k + 1 < |o| ==> r[|r| - 1] == o[|o| - 1])
  {
    var r := Turned(o, s, t, k);
    assert r[k] == o[t];
    forall v ensures v in r <==> v in o { TurnedSame(o, s, t, k, v); }
  }

  lemma TurnedFormed(p: Prog, s: nat, t: nat, k: nat)
    requires Formed(p) && 0 < s <= t < k - 1 && k + 1 < |p.order| && p.order[t] in p.node && p.node[p.order[t]].Cbr?
    requires p.node[p.order[t]].c < 12 && Valid(Inverted(p, s, t, k))
    ensures Formed(Inverted(p, s, t, k)) && forall v :: v in Inverted(p, s, t, k).order <==> v in p.order
  {
    hide *;
    FormedValid(p);
    ValidDistinct(p);
    TurnedPlace(p.order, s, t, k);
    InvertedAs(p, s, t, k);
    Apart(p.order, 0, t);
    Apart(p.order, t, |p.order| - 1);
    UpdatedForm(p, Inverted(p, s, t, k), p.order[t], Cbr(Revbr(p.node[p.order[t]].c), p.order[t + 1]));
  }

  lemma Apart(o: seq<Id>, i: nat, j: nat)
    requires Distinct(o) && i < j < |o|
    ensures o[i] != o[j]
  {
  }

  lemma TurnedCounts(p: Prog, refc: Counts, s: nat, l: nat, t: nat, k: nat, tl: Id)
    requires Valid(p) && LoopAt(p, s, l, t, k) && Labelled(p, t) && t < k - 1 && ExactBut(p, refc, tl, 1)
    ensures 0 < s <= t < k - 1 && k + 1 < |p.order| && p.order[t] in p.node && p.node[p.order[t]].Cbr?
    ensures p.order[t + 1] in refc && p.order[k + 1] in refc && p.order[t + 1] != p.order[k + 1]
    ensures
      var lab, out := p.order[t + 1], p.order[k + 1];
      ExactBut(Inverted(p, s, t, k), refc[lab := refc[lab] + 1][out := refc[out] - 1], tl, 1)
  {
    hide *;
    TurnedNodes(p, s, l, t, k);
    Apart(p.order, t + 1, k + 1);
    CountIn(p, refc, tl, t + 1);
    CountIn(p, refc, tl, k + 1);
    var q, lab, out := Inverted(p, s, t, k), p.order[t + 1], p.order[k + 1];
    TurnedPlace(p.order, s, t, k);
    InvertedAs(p, s, t, k);
    forall y ensures Named(q, y) + (if out == y then 1 else 0) == Named(p, y) + if lab == y then 1 else 0 {
      TurnedNamed(p, s, t, k, y);
    }
    CountsMoved(p, q, refc, tl, lab, out, p.order[t]);
  }

  lemma CountIn(p: Prog, refc: Counts, l: Id, i: nat)
    requires ExactBut(p, refc, l, 1) && i < |p.order| && p.order[i] in p.node && p.node[p.order[i]].Label?
    ensures p.order[i] in refc
  {
    hide Named;
  }

  lemma TurnedNamed(p: Prog, s: nat, t: nat, k: nat, y: Id)
    requires Distinct(p.order) && s <= t < k - 1 && k < |p.order| && p.order[t] in p.node && p.node[p.order[t]].Cbr?
    ensures
      Named(Inverted(p, s, t, k), y) + (if p.node[p.order[t]].ref == y then 1 else 0) ==
        Named(p, y) + if p.order[t + 1] == y then 1 else 0
  {
    hide Tally, Turned, Distinct;
    TurnedTally(p, s, t, k, Naming(y));
  }

  lemma CountsMoved(p: Prog, q: Prog, refc: Counts, l: Id, lab: Id, out: Id, x: Id)
    requires ExactBut(p, refc, l, 1) && lab in refc && out in refc && lab != out
    requires forall y :: y in q.order <==> y in p.order
    requires x in p.node && x in q.node && q.node == p.node[x := q.node[x]] && !q.node[x].Label?
    requires forall y :: Named(q, y) + (if out == y then 1 else 0) == Named(p, y) + if lab == y then 1 else 0
    ensures ExactBut(q, refc[lab := refc[lab] + 1][out := refc[out] - 1], l, 1)
  {
    hide Named;
    var r := refc[lab := refc[lab] + 1][out := refc[out] - 1];
    forall y | y in q.order && y in q.node && q.node[y].Label?
      ensures y in r && r[y] == Named(q, y) + if y == l then 1 else 0
    {
      assert y in p.order && y != x && p.node[y].Label?;
      assert Named(q, y) + (if out == y then 1 else 0) == Named(p, y) + if lab == y then 1 else 0;
    }
  }

  lemma TurnedSound(p: Prog, q: Prog, refc: Counts, isn: nat, tl: Id, lab: Id, out: Id, k: nat)
    requires SoundBut(p, refc, isn, tl) && Formed(q) && (forall v :: v in q.order <==> v in p.order)
    requires lab in refc && out in refc && lab != out && 0 < k && k + 1 < |p.order| && p.order[k - 1] == tl &&
      p.order[k + 1] == out
    requires ExactBut(q, refc[lab := refc[lab] + 1][out := refc[out] - 1], tl, 1)
    requires out in p.node && p.node[out].Label?
    requires forall v | v in p.node && p.node[v].Label? :: v in q.node && q.node[v].Label?
    ensures SoundTwo(q, refc[lab := refc[lab] + 1], isn, tl, out)
  {
    assert out != tl && out in p.order;
    assert refc[lab := refc[lab] + 1][out := refc[out] - 1] ==
      refc[lab := refc[lab] + 1][out := refc[lab := refc[lab] + 1][out] - 1];
    hide Formed, ExactBut;
  }

  lemma TurnedApart(p: Prog, s: nat, l: nat, t: nat, k: nat, tl: Id)
    requires Valid(p) && LoopAt(p, s, l, t, k) && tl in p.node && p.node[tl].Label?
    ensures t < |p.order| && k + 1 < |p.order| && p.order[t] != tl && p.order[t] != p.order[k + 1]
  {
    NextAt(p.order, t);
  }

  lemma TwoParts(p: Prog, refc: Counts, isn: nat, l: Id, e: Id)
    requires SoundTwo(p, refc, isn, l, e)
    ensures e in refc && e != l && e in p.order && e in p.node && p.node[e].Label?
    ensures SoundBut(p, refc[e := refc[e] - 1], isn, l)
  {
  }

  lemma DropSecond(p: Prog, refc: Counts, isn: nat, m: Machine, k: nat, x: Id, l: Id)
    requires SoundBut(p, refc, isn, l) && k < |p.order| && p.order[k] != l && x in p.order && x != p.order[k]
    requires p.order[k] in p.node && p.node[p.order[k]].Label? && p.order[k] in refc && refc[p.order[k]] <= 0
    ensures SoundBut(Prog(Remove(p.order, k), p.node), refc, isn, l) &&
      Level(p, x, Prog(Remove(p.order, k), p.node), x, m)
  {
    var r, q := refc[l := refc[l] - 1], Prog(Remove(p.order, k), p.node);
    assert q == Without(p, k);
    hide Ops, Jumps, Equivalent, Formed;
    LabelDropped(p, r, m, k, x);
    KeptLevel(p, q, x, m);
    hide Named, Kept, Level;
    RemoveDistinct(p.order, k);
  }

  // A move and what decref does after it.
  lemma FewerJumps(p: Prog, q: Prog, r: Prog, m: Machine, x: Id, y: Id, n: Id)
    requires Ops(q) <= Ops(p) && Jumps(q) < Jumps(p) && Kept(q, r, m, y) && (n == NIL || n in r.order)
    ensures Less(p, x, r, n)
  {
  }

  // ---- refcount ----

  // What a label without jumps is kept for.
  predicate Kinds(n: Node) { n.Jsw? || (n.Op? && n.op == 0) }

  // The counts are those of the jumps before place i.
  ghost predicate CountedTo(p: Prog, refc: Counts, i: nat) {
    && i <= |p.order|
    && forall x | x in p.order && x in p.node && p.node[x].Label? ::
         x in refc && refc[x] == Tally(p.node, p.order[..i], Naming(x))
  }

  // No label follows the one that x names.
  ghost predicate NamesLast(p: Prog, x: Id) {
    x in p.node && HasRef(p.node[x]) ==>
      var n := Next(p.order, p.node[x].ref); n in p.node ==> !p.node[n].Label?
  }

  ghost predicate LastTo(p: Prog, i: nat) {
    i <= |p.order| && forall k | 0 <= k < i :: NamesLast(p, p.order[k])
  }

  ghost predicate LastNamed(p: Prog) {
    LastTo(p, |p.order|)
  }

  ghost predicate Wanted(p: Prog, k: nat) {
    exists j :: k < j < |p.order| && Labels(p, k, j) && p.order[j] in p.node && Kinds(p.node[p.order[j]])
  }

  ghost predicate TrimmedTo(p: Prog, refc: Counts, i: nat) {
    && i <= |p.order|
    && forall k | 0 <= k < i && p.order[k] in p.node && p.node[p.order[k]].Label? && p.order[k] in refc &&
      refc[p.order[k]] == 0 ::
         Wanted(p, k)
  }

  // A label that no jump names stands before something it is kept for.
  ghost predicate Trimmed(p: Prog) {
    forall k | 0 <= k < |p.order| && p.order[k] in p.node && p.node[p.order[k]].Label? && Named(p, p.order[k]) == 0 ::
      Wanted(p, k)
  }

  lemma NoneTrimmed(p: Prog, refc: Counts)
    ensures TrimmedTo(p, refc, 0)
  {
  }

  lemma AllTrimmed(p: Prog, refc: Counts, isn: nat)
    requires Sound(p, refc, isn) && TrimmedTo(p, refc, |p.order|)
    ensures Trimmed(p)
  {
    hide Formed, Named, Wanted;
    NilOut(p, refc, isn);
  }

  lemma NilOut(p: Prog, refc: Counts, isn: nat)
    requires Sound(p, refc, isn)
    ensures NIL !in p.order
  {
  }

  lemma AllCounted(p: Prog, refc: Counts, isn: nat)
    requires Formed(p) && CountedTo(p, refc, |p.order|) && LastTo(p, |p.order|) && isn > 0 &&
      forall x | x in p.order :: x < isn
    ensures Sound(p, refc, isn) && LastNamed(p)
  {
    assert p.order[..|p.order|] == p.order;
    hide Tally, LastTo;
  }

  lemma CountNone(p: Prog, refc: Counts, i: nat)
    requires Formed(p) && i < |p.order| && CountedTo(p, refc, i) && LastTo(p, i) && !HasRef(p.node[p.order[i]])
    ensures CountedTo(p, refc, i + 1) && LastTo(p, i + 1)
  {
    hide Labels;
    forall x | x in p.order && x in p.node && p.node[x].Label?
      ensures x in refc && refc[x] == Tally(p.node, p.order[..i + 1], Naming(x))
    {
      TallyNext(p.node, p.order, i, Naming(x));
    }
  }

  lemma TallyNext(node: map<Id, Node>, s: seq<Id>, i: nat, f: Node -> bool)
    requires i < |s|
    ensures Tally(node, s[..i + 1], f) == Tally(node, s[..i], f) + One(node, s[i], f)
  {
    assert s[..i + 1] == s[..i] + [s[i]];
    TallyConcat(node, s[..i], [s[i]], f);
    assert Tally(node, [s[i]], f) == One(node, s[i], f) + Tally(node, [], f);
  }

  lemma NonLabKnown(p: Prog, e: nat)
    requires Formed(p) && e < |p.order|
    ensures p.order[e] in p.node
  {
  }

  lemma RetargetedIs(p: Prog, q: Prog, x: Id, r: Id)
    requires x in p.node && HasRef(p.node[x]) && q.order == p.order
    requires if r != p.node[x].ref then q.node == p.node[x := SetRef(p.node[x], r)] else q.node == p.node
    ensures q == Retargeted(p, x, r)
  {
    assert p.node[x := p.node[x]] == p.node;
  }

  // The jump at i is counted: its label is at a, the first node behind the
  // labels at e.
  lemma CountOne(p: Prog, refc: Counts, m: Machine, i: nat, a: nat, e: nat)
    requires Formed(p) && i < |p.order| && CountedTo(p, refc, i) && LastTo(p, i)
    requires p.order[i] in p.node && HasRef(p.node[p.order[i]])
    requires a < |p.order| && p.order[a] == p.node[p.order[i]].ref
    requires a <= e < |p.order| && Labels(p, a, e) && p.order[e] in p.node && !p.node[p.order[e]].Label?
    ensures 0 < e && p.order[e - 1] in refc
    ensures
      var lp := p.order[e - 1];
      var q := Retargeted(p, p.order[i], lp);
      Formed(q) && Equivalent(p, q, m) && CountedTo(q, refc[lp := refc[lp] + 1], i + 1) && LastTo(q, i + 1)
  {
    hide *;
    FormedValid(p);
    InOrder(p, i);
    RefLabel(p, p.order[i]);
    GroupEnd(p, a, e);
    var x, lp := p.order[i], p.order[e - 1];
    var q := Retargeted(p, x, lp);
    RetargetLabel(p, m, x, a, e - 1);
    CountFormed(p, x, lp);
    CountTally(p, refc, i, lp);
    CountLast(p, i, e);
  }

  lemma RefLabel(p: Prog, x: Id)
    requires Valid(p) && x in p.order && HasRef(p.node[x])
    ensures p.node[x].ref in p.node && p.node[p.node[x].ref].Label?
  {
  }

  lemma GroupEnd(p: Prog, a: nat, e: nat)
    requires Valid(p) && a <= e < |p.order| && Labels(p, a, e) && p.order[e] in p.node && !p.node[p.order[e]].Label?
    requires p.order[a] in p.node && p.node[p.order[a]].Label?
    ensures a < e && p.order[e - 1] in p.order && p.order[e - 1] in p.node && p.node[p.order[e - 1]].Label?
  {
    InOrder(p, a);
    InOrder(p, e - 1);
  }

  lemma CountFormed(p: Prog, x: Id, lp: Id)
    requires Formed(p) && x in p.order && x in p.node && HasRef(p.node[x]) && Valid(Retargeted(p, x, lp))
    ensures Formed(Retargeted(p, x, lp))
  {
    FormedUpdate(p, x, SetRef(p.node[x], lp));
  }

  lemma CountTally(p: Prog, refc: Counts, i: nat, lp: Id)
    requires Valid(p) && i < |p.order| && CountedTo(p, refc, i)
    requires p.order[i] in p.node && HasRef(p.node[p.order[i]])
    requires lp in p.order && lp in p.node && p.node[lp].Label?
    ensures lp in refc && CountedTo(Retargeted(p, p.order[i], lp), refc[lp := refc[lp] + 1], i + 1)
  {
    var x, r := p.order[i], refc[lp := refc[lp] + 1];
    var q := Retargeted(p, x, lp);
    NotBefore(p.order, i);
    hide Tally, Distinct, Valid;
    forall y | y in q.order && y in q.node && q.node[y].Label?
      ensures y in r && r[y] == Tally(q.node, q.order[..i + 1], Naming(y))
    {
      TallyNext(q.node, p.order, i, Naming(y));
      TallyElsewhere(p.node, p.order[..i], x, q.node[x], Naming(y));
      assert y != x && p.node[y].Label?;
    }
  }

  lemma NotBefore(s: seq<Id>, i: nat)
    requires Distinct(s) && i < |s|
    ensures s[i] !in s[..i]
  {
  }

  lemma CountLast(p: Prog, i: nat, e: nat)
    requires Valid(p) && i < |p.order| && LastTo(p, i) && p.order[i] in p.node && HasRef(p.node[p.order[i]])
    requires 0 < e < |p.order| && p.order[e] in p.node && !p.node[p.order[e]].Label?
    ensures LastTo(Retargeted(p, p.order[i], p.order[e - 1]), i + 1)
  {
    var x, q := p.order[i], Retargeted(p, p.order[i], p.order[e - 1]);
    NextAt(p.order, e - 1);
    hide Next;
    forall k | 0 <= k < i + 1 ensures NamesLast(q, q.order[k]) {
      if k < i { assert NamesLast(p, p.order[k]) && p.order[k] != x; }
    }
  }

  lemma TrimKept(p: Prog, refc: Counts, i: nat, j: nat)
    requires TrimmedTo(p, refc, i) && i <= j < |p.order| && Labels(p, i, j) && p.order[j] in p.node
    requires p.order[i] in p.node && p.node[p.order[i]].Label? && Kinds(p.node[p.order[j]])
    ensures TrimmedTo(p, refc, i + 1)
  {
  }

  lemma TrimPlain(p: Prog, refc: Counts, i: nat)
    requires TrimmedTo(p, refc, i) && i < |p.order| && p.order[i] in p.node
    requires !(p.node[p.order[i]].Label? && p.order[i] in refc && refc[p.order[i]] == 0)
    ensures TrimmedTo(p, refc, i + 1)
  {
  }

  lemma TrimOne(p: Prog, refc: Counts, isn: nat, m: Machine, i: nat)
    requires Sound(p, refc, isn) && LastNamed(p) && i < |p.order| && TrimmedTo(p, refc, i)
    requires p.order[i] in p.node && p.node[p.order[i]].Label? && p.order[i] in refc && refc[p.order[i]] == 0
    ensures
      var q, r := Prog(Remove(p.order, i), p.node), refc[p.order[i] := refc[p.order[i]] - 1];
      && Sound(q, r, isn) && LastNamed(q) && TrimmedTo(q, r, i) && Equivalent(p, q, m)
      && i <= |q.order| < |p.order|
  {
    hide *;
    var q, l, head := Without(p, i), p.order[i], p.order[0];
    WithoutIs(p, i);
    TrimParts(p, refc, isn, i);
    LabelDropped(p, refc, m, i, head);
    KeptIn(p, q, m, head);
    RemoveDistinct(p.order, i);
    TrimSound(p, q, refc, isn, l);
    TrimLast(p, i);
    TrimTrimmed(p, refc, i);
    RemoveLength(p.order, i);
  }

  lemma TrimParts(p: Prog, refc: Counts, isn: nat, i: nat)
    requires Sound(p, refc, isn) && i < |p.order| && p.order[i] in p.node && p.node[p.order[i]].Label?
    requires p.order[i] in refc && refc[p.order[i]] == 0
    ensures Formed(p) && Valid(p) && Distinct(p.order) && Exact(p, refc)
    ensures p.order[0] in p.order && p.order[0] != p.order[i] && Named(p, p.order[i]) == 0 && i < |Remove(p.order, i)|
  {
    InOrder(p, i);
    hide Named, Labels;
  }

  lemma TrimSound(p: Prog, q: Prog, refc: Counts, isn: nat, l: Id)
    requires Sound(p, refc, isn) && Formed(q) && Exact(q, refc) && l in refc
    requires forall x :: x in q.order <==> x in p.order && x != l
    ensures Sound(q, refc[l := refc[l] - 1], isn)
  {
    hide Named, Formed;
  }

  lemma TrimLast(p: Prog, i: nat)
    requires Valid(p) && i < |p.order| && LastNamed(p) && p.node[p.order[i]].Label? && Named(p, p.order[i]) == 0
    ensures LastNamed(Without(p, i))
  {
    var q := Without(p, i);
    RemoveDistinct(p.order, i);
    TallyZero(p.node, p.order, Naming(p.order[i]));
    forall k | 0 <= k < |q.order| ensures NamesLast(q, q.order[k]) {
      var x := q.order[k];
      assert x in p.order && x == p.order[Pos(p.order, x)];
      assert NamesLast(p, p.order[Pos(p.order, x)]);
      if HasRef(p.node[x]) { NextKept(p, i, p.node[x].ref); }
    }
  }

  lemma NextKept(p: Prog, i: nat, l: Id)
    requires Valid(p) && i < |p.order| && p.node[p.order[i]].Label? && l in p.order && l != p.order[i]
    requires var n := Next(p.order, l); n in p.node ==> !p.node[n].Label?
    ensures Next(Remove(p.order, i), l) == Next(p.order, l)
  {
    InOrder(p, i);
    RemoveNext(p.order, i, l);
  }

  lemma TrimTrimmed(p: Prog, refc: Counts, i: nat)
    requires Valid(p) && i < |p.order| && TrimmedTo(p, refc, i) && p.node[p.order[i]].Label? && p.order[i] in refc
    requires i < |Remove(p.order, i)|
    ensures TrimmedTo(Without(p, i), refc[p.order[i] := refc[p.order[i]] - 1], i)
  {
    var q, r := Without(p, i), refc[p.order[i] := refc[p.order[i]] - 1];
    forall k | 0 <= k < i && q.order[k] in q.node && q.node[q.order[k]].Label? && q.order[k] in r && r[q.order[k]] == 0
      ensures Wanted(q, k)
    {
      Apart(p.order, k, i);
      assert q.order[k] == p.order[k];
      StillWanted(p, i, k);
    }
  }

  lemma StillWanted(p: Prog, i: nat, k: nat)
    requires Valid(p) && k < i < |p.order| && p.node[p.order[i]].Label? && Wanted(p, k)
    ensures Wanted(Without(p, i), k)
  {
    var q := Without(p, i);
    var j :| k < j < |p.order| && Labels(p, k, j) && p.order[j] in p.node && Kinds(p.node[p.order[j]]);
    var j1 := if j < i then j else j - 1;
    hide Valid, Distinct;
    assert q.order[j1] == p.order[j];
    forall n | k <= n < j1 ensures q.order[n] in q.node && q.node[q.order[n]].Label? {
      assert q.order[n] == p.order[if n < i then n else n + 1];
    }
    assert Labels(q, k, j1);
  }
}
