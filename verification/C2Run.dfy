// What a program means to the object code improver (c2): a list of nodes,
// run by a machine of which only the jumps are known.
module C2Run {

  // Nodes are named by numbers, 0 is no node.
  type Id = nat
  const NIL := 0

  // Head is the node `first`.  Op is everything that is neither a label nor a
  // jump, under its op number in c2.h; a Jsw is an entry of a jump table.
  datatype Node =
    | Head
    | Label
    | Br(ref: Id)
    | Cbr(c: nat, ref: Id)
    | Jsw(ref: Id)
    | Jmp(code: string)
    | Op(op: nat, code: string)

  predicate HasRef(n: Node) { n.Br? || n.Cbr? || n.Jsw? }

  // Control never reaches the node after it.
  predicate NoFall(n: Node) { n.Br? || n.Jsw? || n.Jmp? }

  function SetRef(n: Node, r: Id): Node
    requires HasRef(n)
  {
    match n
    case Br(_) => Br(r)
    case Cbr(c, _) => Cbr(c, r)
    case Jsw(_) => Jsw(r)
  }

  datatype Prog = Prog(order: seq<Id>, node: map<Id, Node>)

  ghost predicate Distinct(s: seq<Id>) {
    forall i, j | 0 <= i < j < |s| :: s[i] != s[j]
  }

  ghost predicate Valid(p: Prog) {
    && Distinct(p.order)
    && (forall x | x in p.order :: x != NIL && x in p.node)
    && (forall x | x in p.order && HasRef(p.node[x]) :: p.node[x].ref in p.order && p.node[p.node[x].ref].Label?)
  }

  function Pos(s: seq<Id>, x: Id): (i: nat)
    requires x in s
    ensures i < |s| && s[i] == x
  {
    if s[0] == x then 0 else Pos(s[1..], x) + 1
  }

  function Next(s: seq<Id>, x: Id): Id {
    if x in s && Pos(s, x) + 1 < |s| then s[Pos(s, x) + 1] else NIL
  }

  lemma NextAt(s: seq<Id>, i: nat)
    requires Distinct(s) && i < |s|
    ensures Pos(s, s[i]) == i && Next(s, s[i]) == if i + 1 < |s| then s[i + 1] else NIL
  {
  }

  // ---- condition codes ----

  datatype Flags = Flags(n: bool, z: bool, v: bool, c: bool)

  // The condition of each subop of CBR, JEQ = 0 .. JMI = 11.
  function Holds(c: nat, f: Flags): bool {
    match c
    case 0 => f.z
    case 1 => !f.z
    case 2 => f.z || f.n != f.v
    case 3 => f.n == f.v
    case 4 => f.n != f.v
    case 5 => !f.z && f.n == f.v
    case 6 => f.c
    case 7 => !f.c && !f.z
    case 8 => f.c || f.z
    case 9 => !f.c
    case 10 => !f.n
    case _ => f.n
  }

  // The table revbr.
  const REVBR: seq<nat> := [1, 0, 5, 4, 3, 2, 9, 8, 7, 6, 11, 10]

  function Revbr(c: nat): (r: nat)
    ensures c < 12 ==> r < 12
  {
    if c < 12 then REVBR[c] else c
  }

  // revbr gives the opposite condition, and is its own inverse.
  lemma RevbrComplement(c: nat, f: Flags)
    requires c < 12
    ensures Holds(Revbr(c), f) == !Holds(c, f) && Revbr(Revbr(c)) == c
  {
  }

  // ---- runs ----

  // What has been executed determines the state of the machine, so the
  // condition codes are some function of it.
  type History = seq<(nat, string)>
  type Machine = History -> Flags

  datatype Config = At(pc: Id, h: History) | Ends(h: History) | Leaves(h: History, code: string)

  function Step(p: Prog, m: Machine, c: Config): (r: Config) {
    if !c.At? then c
    else if c.pc !in p.order || c.pc !in p.node then Ends(c.h)
    else
      var on := At(Next(p.order, c.pc), c.h);
      match p.node[c.pc]
      case Head => on
      case Label => on
      case Br(ref) => At(ref, c.h)
      case Jsw(ref) => At(ref, c.h)
      case Cbr(cond, ref) => if Holds(cond, m(c.h)) then At(ref, c.h) else on
      case Jmp(code) => Leaves(c.h, code)
      case Op(op, code) => At(on.pc, c.h + [(op, code)])
  }

  function Steps(p: Prog, m: Machine, c: Config, n: nat): Config
    decreases n
  {
    if n == 0 then c else Steps(p, m, Step(p, m, c), n - 1)
  }

  lemma {:induction false} StepsAdd(p: Prog, m: Machine, c: Config, a: nat, b: nat)
    ensures Steps(p, m, c, a + b) == Steps(p, m, Steps(p, m, c, a), b)
    decreases a
  {
    if a > 0 { StepsAdd(p, m, Step(p, m, c), a - 1, b); }
  }

  // b has executed the same instructions as a, and stopped the same way if a
  // has stopped.
  predicate Matches(a: Config, b: Config) {
    a.h == b.h && (!a.At? ==> b == a)
  }

  ghost predicate Matched(p: Prog, q: Prog, m: Machine, c: Config, n: nat) {
    exists k: nat :: Matches(Steps(p, m, c, n), Steps(q, m, c, k))
  }

  // Whatever p does, q does too: however long p runs from node x, q gets to a
  // point where it has executed the same sequence, and stops where p stops.
  ghost predicate RefinesFrom(p: Prog, q: Prog, m: Machine, c: Config) {
    forall n: nat :: Matched(p, q, m, c, n)
  }

  // Where control can come in from elsewhere: the head, entries of jump
  // tables, and named labels (DLABEL).
  predicate Entry(n: Node) {
    n.Head? || n.Jsw? || (n.Op? && n.op == 5)
  }

  ghost predicate EntryAt(p: Prog, x: Id) {
    x in p.order && x in p.node && Entry(p.node[x])
  }

  ghost predicate Alike(p: Prog, q: Prog, m: Machine, x: Id, h: History) {
    RefinesFrom(p, q, m, At(x, h)) && RefinesFrom(q, p, m, At(x, h))
  }

  // Both programs have the same entries, and from each the same runs.
  ghost predicate Equivalent(p: Prog, q: Prog, m: Machine) {
    && (forall x :: EntryAt(p, x) <==> EntryAt(q, x))
    && (forall x, h :: EntryAt(p, x) ==> Alike(p, q, m, x, h))
  }

  lemma EquivalentSame(p: Prog, m: Machine)
    ensures Equivalent(p, p, m)
  {
    forall x, h ensures Alike(p, p, m, x, h) {
      forall n: nat ensures Matched(p, p, m, At(x, h), n) {
        assert Matches(Steps(p, m, At(x, h), n), Steps(p, m, At(x, h), n));
      }
    }
  }

  lemma EquivalentSwap(p: Prog, q: Prog, m: Machine)
    requires Equivalent(p, q, m)
    ensures Equivalent(q, p, m)
  {
    forall x, h | EntryAt(q, x) ensures Alike(q, p, m, x, h) {
      assert EntryAt(p, x);
      assert Alike(p, q, m, x, h);
    }
  }

  lemma RefinesThrough(p: Prog, q: Prog, r: Prog, m: Machine, c: Config)
    requires RefinesFrom(p, q, m, c) && RefinesFrom(q, r, m, c)
    ensures RefinesFrom(p, r, m, c)
  {
    forall n: nat ensures Matched(p, r, m, c, n) {
      assert Matched(p, q, m, c, n);
      var j: nat :| Matches(Steps(p, m, c, n), Steps(q, m, c, j));
      assert Matched(q, r, m, c, j);
      var k: nat :| Matches(Steps(q, m, c, j), Steps(r, m, c, k));
      assert Matches(Steps(p, m, c, n), Steps(r, m, c, k));
    }
  }

  lemma EquivalentThrough(p: Prog, q: Prog, r: Prog, m: Machine)
    requires Equivalent(p, q, m) && Equivalent(q, r, m)
    ensures Equivalent(p, r, m)
  {
    forall x, h | EntryAt(p, x) ensures Alike(p, r, m, x, h) {
      assert EntryAt(q, x);
      assert Alike(p, q, m, x, h) && Alike(q, r, m, x, h);
      RefinesThrough(p, q, r, m, At(x, h));
      RefinesThrough(r, q, p, m, At(x, h));
    }
  }

  // ---- proving runs alike ----

  // A configuration that both programs can be in.
  ghost predicate Shared(p: Prog, q: Prog, bad: set<Id>, c: Config) {
    c.At? ==> c.pc == NIL || (c.pc in p.order && c.pc in q.order && c.pc !in bad)
  }

  // From c, k >= 1 steps of p and j steps of q lead to one place, and q has a
  // match for each step of p on the way.
  ghost predicate Meets(p: Prog, q: Prog, m: Machine, bad: set<Id>, c: Config, k: nat, j: nat) {
    && k > 0
    && Steps(p, m, c, k) == Steps(q, m, c, j)
    && Shared(p, q, bad, Steps(p, m, c, k))
    && forall i: nat | 0 < i < k :: Matched(p, q, m, c, i)
  }

  ghost predicate Follows(p: Prog, q: Prog, m: Machine, bad: set<Id>) {
    forall c: Config | c.At? && Shared(p, q, bad, c) :: exists k: nat, j: nat :: Meets(p, q, m, bad, c, k, j)
  }

  lemma {:induction false} RunFollows(p: Prog, q: Prog, m: Machine, bad: set<Id>, c: Config, n: nat)
    returns (k: nat)
    requires Follows(p, q, m, bad) && Shared(p, q, bad, c)
    ensures Matches(Steps(p, m, c, n), Steps(q, m, c, k))
    decreases n
  {
    if n == 0 {
      k := 0;
    } else if !c.At? {
      Stopped(p, m, c, n);
      k := 0;
    } else {
      var a: nat, b: nat :| Meets(p, q, m, bad, c, a, b);
      if n < a {
        assert Matched(p, q, m, c, n);
        k :| Matches(Steps(p, m, c, n), Steps(q, m, c, k));
      } else {
        var e := Steps(p, m, c, a);
        StepsAdd(p, m, c, a, n - a);
        var k1 := RunFollows(p, q, m, bad, e, n - a);
        StepsAdd(q, m, c, b, k1);
        k := b + k1;
      }
    }
  }

  lemma {:induction false} Stopped(p: Prog, m: Machine, c: Config, n: nat)
    requires !c.At?
    ensures Steps(p, m, c, n) == c
    decreases n
  {
    if n > 0 { Stopped(p, m, c, n - 1); }
  }

  lemma FollowsRefines(p: Prog, q: Prog, m: Machine, bad: set<Id>, c: Config)
    requires Follows(p, q, m, bad) && Shared(p, q, bad, c)
    ensures RefinesFrom(p, q, m, c)
  {
    forall n: nat ensures Matched(p, q, m, c, n) {
      var k := RunFollows(p, q, m, bad, c, n);
    }
  }

  // The entries of the two programs are the same nodes, none of them bad.
  ghost predicate SameEntries(p: Prog, q: Prog, bad: set<Id>) {
    forall x :: (EntryAt(p, x) <==> EntryAt(q, x)) && (EntryAt(p, x) ==> x !in bad)
  }

  lemma FollowsEquivalent(p: Prog, q: Prog, m: Machine, bad: set<Id>)
    requires Follows(p, q, m, bad) && Follows(q, p, m, bad) && SameEntries(p, q, bad)
    ensures Equivalent(p, q, m)
  {
    forall x, h | EntryAt(p, x) ensures Alike(p, q, m, x, h) {
      assert EntryAt(q, x);
      FollowsRefines(p, q, m, bad, At(x, h));
      FollowsRefines(q, p, m, bad, At(x, h));
    }
  }

  // The everyday case: one step on either side.
  lemma OneStep(p: Prog, q: Prog, m: Machine, bad: set<Id>, c: Config)
    requires Step(p, m, c) == Step(q, m, c) && Shared(p, q, bad, Step(p, m, c))
    ensures Meets(p, q, m, bad, c, 1, 1)
  {
    assert Steps(p, m, c, 1) == Steps(p, m, Step(p, m, c), 0);
    assert Steps(q, m, c, 1) == Steps(q, m, Step(q, m, c), 0);
  }

  // Two ways through which at most the instructions up to the end are
  // executed: all points of one have a match at the start or end of the other.
  lemma TwoWays(p: Prog, q: Prog, m: Machine, bad: set<Id>, c: Config, k: nat, j: nat)
    requires k > 0 && Steps(p, m, c, k) == Steps(q, m, c, j) && Shared(p, q, bad, Steps(p, m, c, k))
    requires forall i | 0 < i < k ::
      Steps(p, m, c, i).At? && (Steps(p, m, c, i).h == c.h || Steps(p, m, c, i).h == Steps(p, m, c, k).h)
    ensures Meets(p, q, m, bad, c, k, j)
  {
    forall i: nat | 0 < i < k ensures Matched(p, q, m, c, i) {
      if Steps(p, m, c, i).h == c.h {
        assert Matches(Steps(p, m, c, i), Steps(q, m, c, 0));
      } else {
        assert Matches(Steps(p, m, c, i), Steps(q, m, c, j));
      }
    }
  }

  // ---- passing labels ----

  // The nodes at places a..b-1 are labels.
  ghost predicate Labels(p: Prog, a: nat, b: nat) {
    a <= b <= |p.order| && forall i | a <= i < b :: p.order[i] in p.node && p.node[p.order[i]].Label?
  }

  lemma {:induction false} PassLabels(p: Prog, m: Machine, a: nat, b: nat, h: History)
    requires Distinct(p.order) && Labels(p, a, b) && b < |p.order|
    ensures Steps(p, m, At(p.order[a], h), b - a) == At(p.order[b], h)
    ensures forall i | 0 <= i <= b - a :: Steps(p, m, At(p.order[a], h), i) == At(p.order[a + i], h)
    decreases b - a
  {
    if a < b {
      NextAt(p.order, a);
      PassLabels(p, m, a + 1, b, h);
      forall i | 0 < i <= b - a ensures Steps(p, m, At(p.order[a], h), i) == At(p.order[a + i], h) {
        assert Steps(p, m, At(p.order[a], h), i) == Steps(p, m, At(p.order[a + 1], h), i - 1);
      }
    }
  }
}
