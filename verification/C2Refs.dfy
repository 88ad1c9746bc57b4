// Counting nodes of a program: how many jumps name a label, how many
// instructions and jumps there are.
module C2Refs {
  import opened C2Run
  import opened C2Moves
  import opened C2Blocks

  function One(node: map<Id, Node>, x: Id, f: Node -> bool): nat {
    if x in node && f(node[x]) then 1 else 0
  }

  function Tally(node: map<Id, Node>, s: seq<Id>, f: Node -> bool): nat {
    if s == [] then 0 else One(node, s[0], f) + Tally(node, s[1..], f)
  }

  // The jumps that name l.
  function Naming(l: Id): Node -> bool { n => HasRef(n) && n.ref == l }

  lemma {:induction false} TallyConcat(node: map<Id, Node>, a: seq<Id>, b: seq<Id>, f: Node -> bool)
    ensures Tally(node, a + b, f) == Tally(node, a, f) + Tally(node, b, f)
  {
    if a == [] {
      assert a + b == b;
    } else {
      assert (a + b)[1..] == a[1..] + b;
      TallyConcat(node, a[1..], b, f);
    }
  }

  lemma TallySwap(node: map<Id, Node>, a: seq<Id>, b: seq<Id>, c: seq<Id>, d: seq<Id>, f: Node -> bool)
    ensures Tally(node, a + b + c + d, f) == Tally(node, a + c + b + d, f)
  {
    TallyConcat(node, a, b, f);
    TallyConcat(node, a + b, c, f);
    TallyConcat(node, a + b + c, d, f);
    TallyConcat(node, a, c, f);
    TallyConcat(node, a + c, b, f);
    TallyConcat(node, a + c + b, d, f);
  }

  lemma {:induction false} TallyRemove(node: map<Id, Node>, s: seq<Id>, k: nat, f: Node -> bool)
    requires k < |s|
    ensures Tally(node, s, f) == Tally(node, Remove(s, k), f) + One(node, s[k], f)
  {
    assert s == s[..k] + ([s[k]] + s[k + 1..]);
    TallyConcat(node, s[..k], [s[k]] + s[k + 1..], f);
    TallyConcat(node, s[..k], s[k + 1..], f);
  }

  lemma TallyInsert(node: map<Id, Node>, s: seq<Id>, k: nat, x: Id, f: Node -> bool)
    requires k <= |s|
    ensures Tally(node, Insert(s, k, x), f) == Tally(node, s, f) + One(node, x, f)
  {
    assert Insert(s, k, x)[k] == x && Remove(Insert(s, k, x), k) == s;
    TallyRemove(node, Insert(s, k, x), k, f);
  }

  lemma {:induction false} TallyElsewhere(node: map<Id, Node>, s: seq<Id>, x: Id, n: Node, f: Node -> bool)
    requires x !in s
    ensures Tally(node[x := n], s, f) == Tally(node, s, f)
  {
    if s != [] { TallyElsewhere(node, s[1..], x, n, f); }
  }

  lemma {:induction false} TallyUpdate(node: map<Id, Node>, s: seq<Id>, x: Id, n: Node, f: Node -> bool)
    requires Distinct(s) && x in s
    ensures Tally(node[x := n], s, f) + One(node, x, f) == Tally(node, s, f) + if f(n) then 1 else 0
  {
    if s[0] == x {
      assert x !in s[1..];
      TallyElsewhere(node, s[1..], x, n, f);
    } else {
      assert Distinct(s[1..]) by {
        forall i, j | 0 <= i < j < |s[1..]| ensures s[1..][i] != s[1..][j] { assert s[i + 1] != s[j + 1]; }
      }
      TallyUpdate(node, s[1..], x, n, f);
    }
  }

  lemma {:induction false} TallyZero(node: map<Id, Node>, s: seq<Id>, f: Node -> bool)
    requires Tally(node, s, f) == 0
    ensures forall x | x in s && x in node :: !f(node[x])
  {
    if s != [] { TallyZero(node, s[1..], f); }
  }

  lemma {:induction false} TallyPositive(node: map<Id, Node>, s: seq<Id>, x: Id, f: Node -> bool)
    requires x in s && x in node && f(node[x])
    ensures Tally(node, s, f) > 0
  {
    if s[0] != x { TallyPositive(node, s[1..], x, f); }
  }

  // ---- exact reference counts ----

  type Counts = map<Id, int>

  function Named(p: Prog, l: Id): nat { Tally(p.node, p.order, Naming(l)) }

  // Each label's count is the number of jumps that name it, but for label l,
  // whose count is d more.
  ghost predicate ExactBut(p: Prog, refc: Counts, l: Id, d: int) {
    forall x | x in p.order && x in p.node && p.node[x].Label? ::
      x in refc && refc[x] == Named(p, x) + if x == l then d else 0
  }

  ghost predicate Exact(p: Prog, refc: Counts) { ExactBut(p, refc, NIL, 0) }

  // EROU and END, with which input() ends a program.
  predicate Final(n: Node) { n.Op? && n.op in [7, 49] }

  // What every program in c2 looks like: it begins with the head, ends with
  // EROU or END, and the conditions are in the table.
  ghost predicate Formed(p: Prog) {
    && Valid(p) && p.order != [] && p.node[p.order[0]].Head?
    && Final(p.node[p.order[|p.order| - 1]])
    && (forall x | x in p.order && p.node[x].Cbr? :: p.node[x].c < 12)
    && (forall x | x in p.order && p.node[x].Head? :: x == p.order[0])
  }

  // The jump x is made to name r: its old label has one jump less.
  lemma ExactRetarget(p: Prog, refc: Counts, x: Id, n: Node)
    requires Valid(p) && Exact(p, refc) && x in p.order && HasRef(p.node[x]) && HasRef(n)
    requires n.ref in p.order && p.node[n.ref].Label? && n.ref in refc
    ensures
      var q := p.(node := p.node[x := n]);
      var l := p.node[x].ref;
      n.ref != l ==> ExactBut(q, refc[n.ref := refc[n.ref] + 1], l, 1)
  {
    var q, l := p.(node := p.node[x := n]), p.node[x].ref;
    var r := refc[n.ref := refc[n.ref] + 1];
    if n.ref != l {
      forall y | y in q.order && y in q.node && q.node[y].Label?
        ensures y in r && r[y] == Named(q, y) + if y == l then 1 else 0
      {
        TallyUpdate(p.node, p.order, x, n, Naming(y));
        assert y != x && p.node[y].Label?;
      }
    }
  }

  // The node at k is dropped.
  lemma ExactRemove(p: Prog, refc: Counts, k: nat)
    requires Valid(p) && Exact(p, refc) && k < |p.order|
    ensures
      var n, q := p.node[p.order[k]], Without(p, k);
      if HasRef(n) then ExactBut(q, refc, n.ref, 1) else Exact(q, refc)
  {
    var n, q := p.node[p.order[k]], Without(p, k);
    RemoveDistinct(p.order, k);
    forall y | y in q.order && y in q.node && q.node[y].Label?
      ensures y in refc && refc[y] == Named(q, y) + if HasRef(n) && y == n.ref then 1 else 0
    {
      TallyRemove(p.node, p.order, k, Naming(y));
      assert y != NIL;
    }
  }

  // A label without jumps is dropped.
  lemma ExactDrop(p: Prog, refc: Counts, k: nat)
    requires Valid(p) && Exact(p, refc) && k < |p.order| && p.node[p.order[k]].Label?
    ensures Exact(Without(p, k), refc)
  {
    ExactRemove(p, refc, k);
  }

  lemma ExactSwap(p: Prog, refc: Counts, a: seq<Id>, b: seq<Id>, c: seq<Id>, d: seq<Id>)
    requires p.order == a + b + c + d && Exact(p, refc) && forall x :: x in p.order <==> x in a + c + b + d
    ensures Exact(p.(order := a + c + b + d), refc)
  {
    var q := p.(order := a + c + b + d);
    forall y | y in q.order && y in q.node && q.node[y].Label? ensures y in refc && Named(q, y) == Named(p, y) {
      TallySwap(p.node, a, b, c, d, Naming(y));
      assert y in p.order;
    }
  }

  // A new label n before place k, counted once.
  lemma ExactInsert(p: Prog, refc: Counts, k: nat, n: Id)
    requires Valid(p) && Exact(p, refc) && k <= |p.order| && n !in p.order && n != NIL
    ensures ExactBut(WithLabel(p, k, n), refc[n := 1], n, 1)
  {
    var q, r := WithLabel(p, k, n), refc[n := 1];
    InsertRemove(p.order, k, n);
    forall y | y in q.order && y in q.node && q.node[y].Label?
      ensures y in r && r[y] == Named(q, y) + if y == n then 1 else 0
    {
      TallyInsert(q.node, p.order, k, n, Naming(y));
      TallyElsewhere(p.node, p.order, n, Label, Naming(y));
      if y == n && Tally(p.node, p.order, Naming(n)) > 0 { NotNamed(p, n); }
    }
  }

  lemma {:induction false} NotNamed(p: Prog, n: Id)
    requires Valid(p) && n !in p.order
    ensures Named(p, n) == 0
  {
    NotNamedIn(p, p.order, n);
  }

  lemma {:induction false} NotNamedIn(p: Prog, s: seq<Id>, n: Id)
    requires Valid(p) && n !in p.order && forall x | x in s :: x in p.order
    ensures Tally(p.node, s, Naming(n)) == 0
  {
    if s != [] {
      assert s[0] in p.order;
      NotNamedIn(p, s[1..], n);
    }
  }

  // An instruction becomes a jump to the label whose count ran ahead.
  lemma ExactBecome(p: Prog, refc: Counts, x: Id, l: Id)
    requires Valid(p) && ExactBut(p, refc, l, 1) && x in p.order && !HasRef(p.node[x]) && !p.node[x].Label?
    ensures Exact(p.(node := p.node[x := Br(l)]), refc)
  {
    var q := p.(node := p.node[x := Br(l)]);
    forall y | y in q.order && y in q.node && q.node[y].Label? ensures y in refc && refc[y] == Named(q, y) {
      TallyUpdate(p.node, p.order, x, Br(l), Naming(y));
      assert y != x && p.node[y].Label?;
    }
  }
}
