// pcc/code.c: genswitch chooses between a jump table, a binary search laid out
// as a heap, and a row of tests.
module PccSwitch {
  import opened Words
  import opened SwitchMachine

  const SWITSZ := 210

  // ---- the shape of a complete tree in slots 1..n ----

  // Number of slots below and including s.
  function Size(s: nat, n: nat): nat
    requires s > 0
    decreases if s > n then 0 else n - s + 1
  {
    if s > n then 0 else 1 + Size(2 * s, n) + Size(2 * s + 1, n)
  }

  // The slots of that subtree from left to right.
  function Slots(s: nat, n: nat): (r: seq<nat>)
    requires s > 0
    ensures |r| == Size(s, n)
    ensures forall i | 0 <= i < |r| :: 0 < r[i] <= n
    decreases if s > n then 0 else n - s + 1
  {
    if s > n then [] else Slots(2 * s, n) + [s] + Slots(2 * s + 1, n)
  }

  // What a heap holds, from left to right.
  function InOrder(heap: seq<Case>, s: nat, n: nat): (r: seq<Case>)
    requires 0 < s && n < |heap|
    ensures |r| == Size(s, n)
    ensures forall i | 0 <= i < |r| :: r[i] == heap[Slots(s, n)[i]]
    decreases if s > n then 0 else n - s + 1
  {
    if s > n then [] else InOrder(heap, 2 * s, n) + [heap[s]] + InOrder(heap, 2 * s + 1, n)
  }

  predicate Under(s: nat, j: nat)
    decreases j
  {
    j == s || (j > s && Under(s, j / 2))
  }

  lemma {:induction false} UnderChild(s: nat, j: nat)
    requires s > 0
    ensures Under(2 * s, j) || Under(2 * s + 1, j) ==> Under(s, j) && j != s
    ensures !(Under(2 * s, j) && Under(2 * s + 1, j))
    ensures Under(s, j) && j != s ==> Under(2 * s, j) || Under(2 * s + 1, j)
    decreases j
  {
    if j == 2 * s || j == 2 * s + 1 {
      assert Under(s, j / 2);
    } else if j > s {
      UnderChild(s, j / 2);
    }
  }

  lemma {:induction false} UnderRoot(j: nat)
    requires j > 0
    ensures Under(1, j)
  {
    if j > 1 { UnderRoot(j / 2); }
  }

  // Each slot of the subtree is listed once.
  lemma {:induction false} SlotsOnce(s: nat, n: nat, j: nat)
    requires s > 0
    ensures multiset(Slots(s, n))[j] == if Under(s, j) && j <= n then 1 else 0
    decreases if s > n then 0 else n - s + 1
  {
    hide Slots, Under;
    SlotsTurn(s, n, j);
    if s <= n {
      SlotsOnce(2 * s, n, j);
      SlotsOnce(2 * s + 1, n, j);
      UnderChild(s, j);
    }
    UnderAbove(s, j);
  }

  lemma SlotsTurn(s: nat, n: nat, j: nat)
    requires s > 0
    ensures multiset(Slots(s, n))[j] ==
            if s > n then 0
            else multiset(Slots(2 * s, n))[j] + (if j == s then 1 else 0) + multiset(Slots(2 * s + 1, n))[j]
  {
    if s <= n {
      var a: seq<nat>, b: seq<nat> := Slots(2 * s, n), Slots(2 * s + 1, n);
      assert multiset(a + [s] + b) == multiset(a) + multiset{s} + multiset(b);
    }
  }

  lemma {:induction false} UnderAbove(s: nat, j: nat)
    ensures Under(s, j) ==> j >= s
    ensures Under(s, s)
  {
  }

  lemma {:induction false} InOrderSame(a: seq<Case>, b: seq<Case>, s: nat, n: nat)
    requires 0 < s && n < |a| && n < |b|
    requires forall j: nat | j <= n && Under(s, j) :: a[j] == b[j]
    ensures InOrder(a, s, n) == InOrder(b, s, n)
    decreases if s > n then 0 else n - s + 1
  {
    if s <= n {
      forall j: nat | j <= n && (Under(2 * s, j) || Under(2 * s + 1, j)) ensures a[j] == b[j] {
        UnderChild(s, j);
      }
      InOrderSame(a, b, 2 * s, n);
      InOrderSame(a, b, 2 * s + 1, n);
    }
  }

  // ---- hselect ----

  function Pow2(e: nat): (p: nat)
    ensures p > 0
  {
    if e == 0 then 1 else 2 * Pow2(e - 1)
  }

  // The leftmost slot e levels below s.
  function Leftmost(s: nat, e: nat): (l: nat)
    ensures l >= s
    decreases e
  {
    if e == 0 then s else Leftmost(2 * s, e - 1)
  }

  lemma {:induction false} LeftmostNext(s: nat, e: nat)
    ensures Leftmost(s + 1, e) == Leftmost(s, e) + Pow2(e)
    decreases e
  {
    if e > 0 {
      LeftmostNext(2 * s, e - 1);
      LeftmostNext(2 * s + 1, e - 1);
    }
  }

  lemma {:induction false} LeftmostDouble(s: nat, e: nat)
    ensures Leftmost(s, e + 1) == 2 * Leftmost(s, e)
    ensures s > 0 ==> Leftmost(s, e) >= Pow2(e)
    decreases e
  {
    if e > 0 {
      LeftmostDouble(2 * s, e - 1);
      if s > 0 { LeftmostDouble(s, e - 1); }
    }
  }

  // How many of the w slots from l on exist.
  function Row(l: nat, w: nat, n: nat): nat {
    if n + 1 <= l then 0 else if n + 1 - l <= w then n + 1 - l else w
  }

  // A subtree full down to level e - 1 and with nothing on level e + 1.
  lemma {:induction false} SizeOf(s: nat, n: nat, e: nat)
    requires s > 0 && n < Leftmost(s, e + 1)
    requires e > 0 ==> Leftmost(s + 1, e - 1) <= n + 1
    ensures Size(s, n) == Pow2(e) - 1 + Row(Leftmost(s, e), Pow2(e), n)
    decreases e
  {
    if e == 0 {
      assert Leftmost(s, 1) == Leftmost(2 * s, 0) == 2 * s;
    } else {
      ChildLevels(s, n, e);
      SizeOf(2 * s, n, e - 1);
      SizeOf(2 * s + 1, n, e - 1);
      assert s <= n;
      RowHalves(Leftmost(s, e), Pow2(e - 1), n);
    }
  }

  // The same holds of both children one level up.
  lemma ChildLevels(s: nat, n: nat, e: nat)
    requires s > 0 && e > 0 && n < Leftmost(s, e + 1) && Leftmost(s + 1, e - 1) <= n + 1
    ensures n < Leftmost(2 * s, e) && n < Leftmost(2 * s + 1, e)
    ensures e > 1 ==> Leftmost(2 * s + 1, e - 2) <= n + 1 && Leftmost(2 * s + 2, e - 2) <= n + 1
    ensures Leftmost(2 * s, e - 1) == Leftmost(s, e)
    ensures Leftmost(2 * s + 1, e - 1) == Leftmost(s, e) + Pow2(e - 1)
  {
    LeftmostNext(2 * s, e - 1);
    LeftmostNext(2 * s, e);
    if e > 1 { LeftmostNext(2 * s + 1, e - 2); }
  }

  lemma RowHalves(l: nat, w: nat, n: nat)
    ensures Row(l, w, n) + Row(l + w, w, n) == Row(l, 2 * w, n)
  {
  }

  // The last level that the subtree reaches.
  lemma {:induction false} LastLevel(s: nat, n: nat, e0: nat) returns (e: nat)
    requires 0 < s && e0 > 0 && Leftmost(s + 1, e0 - 1) <= n + 1
    ensures e > 0 && Leftmost(s + 1, e - 1) <= n + 1 < Leftmost(s + 1, e)
    decreases n + 1 - Leftmost(s + 1, e0 - 1)
  {
    if n + 1 < Leftmost(s + 1, e0) {
      e := e0;
    } else {
      LeftmostDouble(s + 1, e0 - 1);
      e := LastLevel(s, n, e0 + 1);
    }
  }

  // A subtree of m slots has 2^e - 1 full ones and r < 2^e on its last level,
  // and its left half takes as many of those as fit there.
  lemma {:induction false} LeftHalf(s: nat, n: nat) returns (e: nat, r: nat)
    requires 0 < s <= n
    ensures e > 0 && r < Pow2(e) && Size(s, n) == Pow2(e) - 1 + r
    ensures Size(2 * s, n) == Pow2(e - 1) - 1 + if r < Pow2(e - 1) then r else Pow2(e - 1)
  {
    e := LastLevel(s, n, 1);
    LeftmostNext(s, e);
    LeftmostDouble(s, e);
    r := Row(Leftmost(s, e), Pow2(e), n);
    SizeOf(s, n, e);
    ChildLevels(s, n, e);
    SizeOf(2 * s, n, e - 1);
  }

  // The tree in slots 1..n has n slots.
  lemma WholeSize(n: nat)
    ensures Size(1, n) == n
  {
    if n > 0 {
      var e := LastLevel(1, n, 1);
      LeftmostNext(1, e);
      LeftmostDouble(1, e);
      LeftmostPower(e - 1);
      LeftmostPower(e);
      SizeOf(1, n, e);
    }
  }

  lemma {:induction false} LeftmostPower(e: nat)
    ensures Leftmost(1, e) == Pow2(e)
  {
    if e > 0 {
      LeftmostPower(e - 1);
      LeftmostDouble(1, e - 1);
    }
  }

  // The powers of two on either side of a number are unique.
  lemma {:induction false} SamePower(d: nat, e: nat, m: nat)
    requires Pow2(d) - 1 <= m < Pow2(d + 1) - 1 && Pow2(e) - 1 <= m < Pow2(e + 1) - 1
    ensures d == e
  {
    if d < e { PowGrows(d + 1, e); }
    if e < d { PowGrows(e + 1, d); }
  }

  lemma {:induction false} PowGrows(d: nat, e: nat)
    requires d <= e
    ensures Pow2(d) <= Pow2(e)
  {
    if d < e { PowGrows(d, e - 1); }
  }

  // hselect: the place in a sorted list of m of the case for the root of a
  // subtree with m slots, whichever subtree it is.
  method HSelect(m: nat) returns (q: nat)
    requires m > 0
    ensures forall s: nat, n: nat | s > 0 && Size(s, n) == m :: q == 1 + Size(2 * s, n)
  {
    var i := 1;
    ghost var d := 0;
    while i - 1 <= m
      invariant i == Pow2(d) && (d > 0 ==> Pow2(d - 1) - 1 <= m)
      decreases m + 1 - i
    {
      i := i * 2;
      d := d + 1;
    }
    var k := i / 2 - 1;
    var l := (k + 1) / 2;
    q := l + if m - k < l then m - k else l;
    forall s: nat, n: nat | s > 0 && Size(s, n) == m
      ensures q == 1 + Size(2 * s, n)
    {
      var e, r := LeftHalf(s, n);
      assert Pow2(1) == 2 && Pow2(0) == 1;
      SamePower(d - 1, e, m);
    }
  }

  // ---- the code of walkheap ----

  // Labels from lab on are free; the second result is the next one free then.
  function Walk(heap: seq<Case>, s: nat, n: nat, lab: Label): (r: (Code, Label))
    requires 0 < s && n < |heap|
    ensures r.1 >= lab
    decreases if s > n then 0 else n - s + 1
  {
    if s > n then ([], lab)
    else
      var here := [Cmp(Wrap(heap[s].val)), Jeq(heap[s].lab)];
      if 2 * s > n then (here + [Jbr(heap[0].lab)], lab)
      else if 2 * s + 1 <= n then
        var (a, lab1) := Walk(heap, 2 * s, n, lab + 1);
        var (b, lab2) := Walk(heap, 2 * s + 1, n, lab1);
        (here + [Jgt(lab)] + a + [Lab(lab)] + b, lab2)
      else
        var (a, lab1) := Walk(heap, 2 * s, n, lab);
        (here + [Jgt(heap[0].lab)] + a, lab1)
  }

  lemma {:induction false} WalkLabels(heap: seq<Case>, s: nat, n: nat, lab: Label)
    requires 0 < s && n < |heap|
    ensures forall i | i in Walk(heap, s, n, lab).0 && i.Lab? :: lab <= i.l < Walk(heap, s, n, lab).1
    ensures Distinct(Walk(heap, s, n, lab).0)
    decreases if s > n then 0 else n - s + 1
  {
    if 2 * s <= n {
      if 2 * s + 1 <= n {
        WalkLabels(heap, 2 * s, n, lab + 1);
        WalkLabels(heap, 2 * s + 1, n, Walk(heap, 2 * s, n, lab + 1).1);
      } else {
        WalkLabels(heap, 2 * s, n, lab);
      }
    }
  }

  lemma SortedParts(a: seq<Case>, c: Case, b: seq<Case>)
    requires Sorted(a + [c] + b)
    ensures Sorted(a) && Sorted(b)
    ensures forall x | x in a :: x.val < c.val
    ensures forall x | x in b :: x.val > c.val
  {
    var s := a + [c] + b;
    forall x | x in a ensures x.val < c.val {
      var i :| 0 <= i < |a| && a[i] == x;
      assert s[i].val < s[|a|].val;
    }
    forall x | x in b ensures x.val > c.val {
      var i :| 0 <= i < |b| && b[i] == x;
      assert s[|a|].val < s[|a| + 1 + i].val;
    }
    forall i, j | 0 <= i < j < |b| ensures b[i].val < b[j].val {
      assert s[|a| + 1 + i].val < s[|a| + 1 + j].val;
    }
    forall i, j | 0 <= i < j < |a| ensures a[i].val < a[j].val {
      assert s[i].val < s[j].val;
    }
  }

  // Which of the three parts of a sorted list a value is looked up in.
  lemma LookupParts(a: seq<Case>, c: Case, b: seq<Case>, v: int, d: Label)
    requires Sorted(a + [c] + b)
    ensures Lookup(a + [c] + b, v, d) ==
            if v == c.val then c.lab else if v > c.val then Lookup(b, v, d) else Lookup(a, v, d)
  {
    SortedParts(a, c, b);
    LookupConcat(a + [c], b, v, d);
    LookupConcat(a, [c], v, Lookup(b, v, d));
    if v >= c.val { LookupAbsent(a, v, if v == c.val then c.lab else Lookup(b, v, d)); }
    if v < c.val { LookupAbsent(b, v, d); }
  }

  ghost predicate LabelsBelow(s: seq<Case>, lab: Label) {
    forall c | c in s :: c.lab < lab
  }

  // The heap search reaches the label of the equal case or of the default.
  lemma {:induction false} WalkDispatches(t: Tables, heap: seq<Case>, s: nat, n: nat, lab: Label)
    requires 0 < s <= n < |heap|
    requires Sorted(InOrder(heap, s, n)) && Fits(InOrder(heap, s, n))
    requires LabelsBelow(InOrder(heap, s, n), lab) && heap[0].lab < lab
    ensures Dispatches(t, Walk(heap, s, n, lab).0, InOrder(heap, s, n), heap[0].lab)
    decreases n - s
  {
    hide *;
    var d, c := heap[0].lab, heap[s];
    var left, right := InOrder(heap, 2 * s, n), InOrder(heap, 2 * s + 1, n);
    WalkTurn(heap, s, n, lab);
    Halves(left, c, right, lab);
    if 2 * s > n {
      Leaf(t, c, d);
    } else if 2 * s + 1 <= n {
      var lab1 := Walk(heap, 2 * s, n, lab + 1).1;
      HigherLabels(left, right, lab, lab1);
      WalkDispatches(t, heap, 2 * s, n, lab + 1);
      WalkDispatches(t, heap, 2 * s + 1, n, lab1);
      WalkLabels(heap, 2 * s, n, lab + 1);
      WalkLabels(heap, 2 * s + 1, n, lab1);
      TwoWays(t, left, c, right, d, Walk(heap, 2 * s, n, lab + 1).0, Walk(heap, 2 * s + 1, n, lab1).0, lab);
    } else {
      WalkDispatches(t, heap, 2 * s, n, lab);
      WalkLabels(heap, 2 * s, n, lab);
      OneWay(t, left, c, d, Walk(heap, 2 * s, n, lab).0, lab);
    }
  }

  // One node of the tree and its code.
  lemma WalkTurn(heap: seq<Case>, s: nat, n: nat, lab: Label)
    requires 0 < s <= n < |heap|
    ensures InOrder(heap, s, n) == InOrder(heap, 2 * s, n) + [heap[s]] + InOrder(heap, 2 * s + 1, n)
    ensures 2 * s > n ==> InOrder(heap, 2 * s, n) == []
    ensures 2 * s + 1 > n ==> InOrder(heap, 2 * s + 1, n) == []
    ensures Walk(heap, s, n, lab).0 ==
            var here := Test(heap[s], false);
            if 2 * s > n then here + [Jbr(heap[0].lab)]
            else if 2 * s + 1 > n then here + [Jgt(heap[0].lab)] + Walk(heap, 2 * s, n, lab).0
            else
              var left := Walk(heap, 2 * s, n, lab + 1);
              here + [Jgt(lab)] + left.0 + [Lab(lab)] + Walk(heap, 2 * s + 1, n, left.1).0
  {
  }

  lemma Halves(left: seq<Case>, c: Case, right: seq<Case>, lab: Label)
    requires Sorted(left + [c] + right) && Fits(left + [c] + right) && LabelsBelow(left + [c] + right, lab)
    ensures Sorted(left) && Fits(left) && LabelsBelow(left, lab)
    ensures Sorted(right) && Fits(right) && LabelsBelow(right, lab)
    ensures -0x8000 <= c.val < 0x8000 && c.lab < lab
  {
    SortedParts(left, c, right);
    var all := left + [c] + right;
    assert c in all && (forall x | x in left :: x in all) && (forall x | x in right :: x in all);
  }

  lemma HigherLabels(left: seq<Case>, right: seq<Case>, lab: Label, lab1: Label)
    requires LabelsBelow(left, lab) && LabelsBelow(right, lab) && lab < lab1
    ensures LabelsBelow(left, lab + 1) && LabelsBelow(right, lab1)
  {
  }

  lemma Leaf(t: Tables, c: Case, d: Label)
    requires -0x8000 <= c.val < 0x8000
    ensures Dispatches(t, Test(c, false) + [Jbr(d)], [] + [c] + [], d)
  {
    forall m: Cpu ensures Goes(t, Test(c, false) + [Jbr(d)], m, Lookup([] + [c] + [], Signed(m.r0), d)) {
      SignedWrap(c.val);
      CompareMeans(m.r0, Wrap(c.val));
      TestRun(t, c, false, m);
      RunConcat(t, Test(c, false), [Jbr(d)], At(m));
    }
  }

  lemma OneWay(t: Tables, left: seq<Case>, c: Case, d: Label, a: Code, lab: Label)
    requires Sorted(left + [c] + []) && -0x8000 <= c.val < 0x8000
    requires Dispatches(t, a, left, d)
    requires forall i | i in a && i.Lab? :: i.l >= lab
    requires c.lab < lab && d < lab
    ensures Dispatches(t, Test(c, false) + [Jgt(d)] + a, left + [c] + [], d)
  {
    forall m: Cpu ensures Goes(t, Test(c, false) + [Jgt(d)] + a, m, Lookup(left + [c] + [], Signed(m.r0), d)) {
      var m1, v := ThreeCases(t, left, c, [], d, d, m);
      RunConcat(t, Test(c, false) + [Jgt(d)], a, At(m));
      RunSkips(t, a, c.lab, m1);
      RunSkips(t, a, d, m1);
      assert Goes(t, a, m1, Lookup(left, v, d));
    }
  }

  lemma TwoWays(t: Tables, left: seq<Case>, c: Case, right: seq<Case>, d: Label, a: Code, b: Code, lab: Label)
    requires Sorted(left + [c] + right) && -0x8000 <= c.val < 0x8000
    requires Dispatches(t, a, left, d) && Dispatches(t, b, right, d)
    requires forall i | i in a && i.Lab? :: i.l > lab
    requires forall i | i in b && i.Lab? :: i.l > lab
    requires LabelsBelow(left, lab) && LabelsBelow(right, lab) && c.lab < lab && d < lab
    ensures Dispatches(t, Test(c, false) + [Jgt(lab)] + a + [Lab(lab)] + b, left + [c] + right, d)
  {
    forall m: Cpu
      ensures Goes(t, Test(c, false) + [Jgt(lab)] + a + [Lab(lab)] + b, m, Lookup(left + [c] + right, Signed(m.r0), d))
    {
      var m1, v := ThreeCases(t, left, c, right, d, lab, m);
      var here := Test(c, false) + [Jgt(lab)];
      RunConcat(t, here, a, At(m));
      RunConcat(t, here + a, [Lab(lab)], At(m));
      RunConcat(t, here + a + [Lab(lab)], b, At(m));
      if v == c.val {
        RunSkips(t, a, c.lab, m1);
        RunSkips(t, b, c.lab, m1);
      } else if v > c.val {
        RunSkips(t, a, lab, m1);
        assert Goes(t, b, m1, Lookup(right, v, d));
      } else {
        var p := Run(t, a, At(m1));
        assert Goes(t, a, m1, Lookup(left, v, d));
        LookupIn(left, v, d);
        RunSkips(t, b, p.l, p.cpu);
      }
    }
  }

  // cmp, jeq and jgt at a node: where they lead and what is looked up then.
  lemma ThreeCases(t: Tables, left: seq<Case>, c: Case, right: seq<Case>, d: Label, above: Label, m: Cpu)
    returns (m1: Cpu, v: int)
    requires Sorted(left + [c] + right) && -0x8000 <= c.val < 0x8000
    ensures m1.r0 == m.r0 && v == Signed(m.r0)
    ensures Run(t, Test(c, false) + [Jgt(above)], At(m)) ==
            if v == c.val then Seek(c.lab, m1) else if v > c.val then Seek(above, m1) else At(m1)
    ensures Lookup(left + [c] + right, v, d) ==
            if v == c.val then c.lab else if v > c.val then Lookup(right, v, d) else Lookup(left, v, d)
  {
    m1, v := m.(f := Compare(m.r0, Wrap(c.val))), Signed(m.r0);
    LookupParts(left, c, right, v, d);
    SignedWrap(c.val);
    CompareMeans(m.r0, Wrap(c.val));
    TestRun(t, c, false, m);
    RunConcat(t, Test(c, false), [Jgt(above)], At(m));
  }

  // ---- the generator ----

  class CodeGen {
    var text: Code
    var data: Tables
    var crslab: nat
    const heapsw: array<Case>

    constructor ()
      ensures Valid() && fresh(heapsw) && text == [] && data == map[] && crslab == 10
    {
      heapsw := new Case[SWITSZ](_ => Case(0, 0));
      text, data, crslab := [], map[], 10;
    }

    ghost predicate Valid()
      reads this
    {
      heapsw.Length == SWITSZ
    }

    method GetLab() returns (l: Label)
      modifies this`crslab
      ensures l == crslab == old(crslab) + 1
    {
      crslab := crslab + 1;
      l := crslab;
    }

    // makeheap for the subtree at slot n of a tree of `limit` slots; p[1..m]
    // of the source is p here.
    method MakeHeap(p: seq<Case>, n: nat, ghost limit: nat)
      requires Valid() && limit < SWITSZ && n > 0 && p != [] && Size(n, limit) == |p|
      modifies heapsw
      ensures InOrder(heapsw[..], n, limit) == p
      ensures forall j: nat | j < SWITSZ && !Under(n, j) :: heapsw[j] == old(heapsw[j])
      decreases |p|
    {
      hide Size, Slots, InOrder, Under;
      SizeTurn(n, limit);
      var m := |p|;
      var q := HSelect(m);
      assert m == q + Size(2 * n + 1, limit);
      heapsw[n] := p[q - 1];
      ghost var h0 := heapsw[..];
      if q > 1 { MakeHeap(p[..q - 1], 2 * n, limit); }
      ghost var h1 := heapsw[..];
      if q < m { MakeHeap(p[q..], 2 * n + 1, limit); }
      ghost var h2 := heapsw[..];
      assert |InOrder(h1, 2 * n, limit)| == q - 1 && |InOrder(h2, 2 * n + 1, limit)| == m - q;
      Rebuilt(h0, h1, h2, n, limit);
      assert p == p[..q - 1] + [p[q - 1]] + p[q..];
      UnderParts(n);
    }

    // walkheap
    method WalkHeap(start: nat, limit: nat)
      requires Valid() && 0 < start && limit < SWITSZ
      modifies this
      ensures data == old(data)
      ensures (text, crslab + 1) == Walked(old(text), heapsw[..], start, limit, old(crslab) + 1)
      decreases if start > limit then 0 else limit - start + 1
    {
      hide Walk;
      WalkedTurn(text, heapsw[..], start, limit, crslab + 1);
      if start > limit { return; }
      text := text + [Cmp(Wrap(heapsw[start].val)), Jeq(heapsw[start].lab)];
      if 2 * start > limit {
        text := text + [Jbr(heapsw[0].lab)];
        return;
      }
      var l := 0;
      if 2 * start + 1 <= limit {
        l := GetLab();
        text := text + [Jgt(l)];
      } else {
        text := text + [Jgt(heapsw[0].lab)];
      }
      WalkHeap(2 * start, limit);
      if 2 * start + 1 <= limit {
        text := text + [Lab(l)];
        WalkHeap(2 * start + 1, limit);
      }
    }

    // The words of the jump table.
    method Words(p: seq<Case>, dlab: Label) returns (table: seq<Label>)
      requires p != [] && Sorted(p)
      ensures table == Table(p, dlab)
    {
      var i, j := 0, p[0].val;
      table := [];
      while i < |p|
        invariant 0 <= i <= |p| && |table| == j - p[0].val
        invariant i < |p| ==> j <= p[i].val
        invariant i > 0 ==> j > p[i - 1].val
        invariant i == |p| ==> j == p[|p| - 1].val + 1
        invariant forall k | 0 <= k < |table| :: table[k] == Lookup(p, p[0].val + k, dlab)
        decreases |p| - i, if i < |p| then p[i].val - j else 0
      {
        if j == p[i].val {
          LookupAt(p, i, dlab);
          table := table + [p[i].lab];
          i := i + 1;
        } else {
          LookupAbsent(p, j, dlab);
          table := table + [dlab];
        }
        j := j + 1;
      }
    }

    // genswitch for the sorted cases p, with slab < 0 when there is no
    // default.  The code added is a switch, and its labels are new.
    method GenSwitch(p: seq<Case>, slab: int)
      requires Valid() && |p| < SWITSZ && Sorted(p) && Fits(p)
      requires LabelsBelow(p, crslab + 1) && slab <= crslab
      requires forall l | l in data :: l <= crslab
      modifies this, heapsw
      ensures old(text) <= text && old(crslab) <= crslab
      ensures
        var code := text[|old(text)|..];
        && Switches(data, code, p, slab) && Distinct(code)
        && forall i | i in code && i.Lab? :: old(crslab) < i.l <= crslab
      ensures forall l | l in old(data) :: l in data && data[l] == old(data[l])
      ensures forall l | l in data && l !in old(data) :: old(crslab) < l <= crslab
    {
      var n := |p|;
      var range := if n > 0 then p[n - 1].val - p[0].val else 0;
      if range > 0 && range <= 3 * n && n >= 4 {
        DirectSwitch(p, slab);
      } else if n > 8 {
        HeapSwitch(p, slab);
      } else {
        SimpleSwitch(p, slab);
      }
    }

    method DirectSwitch(p: seq<Case>, slab: int)
      requires Valid() && 4 <= |p| < SWITSZ && Sorted(p) && Fits(p)
      requires p[|p| - 1].val - p[0].val <= 3 * |p|
      requires LabelsBelow(p, crslab + 1) && slab <= crslab
      requires forall l | l in data :: l <= crslab
      modifies this
      ensures Added(old(text), old(data), old(crslab), p, slab)
    {
      hide Direct, Table, Switches, Distinct, Sorted, Fits;
      var swlab := GetLab();
      var dlab := slab;
      if slab < 0 { dlab := GetLab(); }
      text := text + Direct(p, dlab, swlab);
      var table := Words(p, dlab);
      data := data[swlab := table];
      DirectSwitches(data, p, slab, dlab, swlab);
      if slab < 0 { text := text + [Lab(dlab)]; }
      assert text[|old(text)|..] == Direct(p, dlab, swlab) + if slab < 0 then [Lab(dlab)] else [];
    }

    method HeapSwitch(p: seq<Case>, slab: int)
      requires Valid() && 0 < |p| < SWITSZ && Sorted(p) && Fits(p)
      requires LabelsBelow(p, crslab + 1) && slab <= crslab
      requires forall l | l in data :: l <= crslab
      modifies this, heapsw
      ensures Added(old(text), old(data), old(crslab), p, slab)
    {
      hide Walk, InOrder, Size, Under, Switches, Distinct, Sorted, Fits;
      var n := |p|;
      var dlab := slab;
      if slab < 0 { dlab := GetLab(); }
      heapsw[0] := heapsw[0].(lab := dlab);
      WholeSize(n);
      UnderAbove(1, 0);
      MakeHeap(p, 1, n);
      ghost var lab := crslab + 1;
      HeapSwitches(data, heapsw[..], p, slab, lab);
      WalkHeap(1, n);
      if slab >= 0 {
        text := text + [Jbr(dlab)];
      } else {
        text := text + [Lab(dlab)];
      }
      assert text[|old(text)|..] == Walk(heapsw[..], 1, n, lab).0 + [if slab >= 0 then Jbr(dlab) else Lab(dlab)];
    }

    method SimpleSwitch(p: seq<Case>, slab: int)
      requires Valid() && Fits(p)
      requires LabelsBelow(p, crslab + 1) && slab <= crslab
      modifies this
      ensures Added(old(text), old(data), old(crslab), p, slab)
    {
      var i := 0;
      while i < |p|
        invariant 0 <= i <= |p| && crslab == old(crslab) && data == old(data)
        invariant text == old(text) + Tests(p[..i], false)
      {
        assert p[..i + 1] == p[..i] + [p[i]];
        TestsAppend(p[..i], p[i], false);
        text := text + [Cmp(Wrap(p[i].val)), Jeq(p[i].lab)];
        i := i + 1;
      }
      assert p[..i] == p;
      if slab >= 0 { text := text + [Jbr(slab)]; }
      ghost var code := Tests(p, false) + if slab >= 0 then [Jbr(slab)] else [];
      assert text[|old(text)|..] == code;
      SimpleSwitches(data, p, slab);
    }

    // What each kind of switch leaves behind.
    ghost predicate Added(text0: Code, data0: Tables, crslab0: nat, p: seq<Case>, slab: int)
      reads this
    {
      && text0 <= text && crslab0 <= crslab
      && (var code := text[|text0|..];
          && Switches(data, code, p, slab) && Distinct(code)
          && forall i | i in code && i.Lab? :: crslab0 < i.l <= crslab)
      && (forall l | l in data0 :: l in data && data[l] == data0[l])
      && (forall l | l in data && l !in data0 :: crslab0 < l <= crslab)
    }
  }

  lemma SizeTurn(s: nat, n: nat)
    requires s > 0 && Size(s, n) > 0
    ensures s <= n && Size(s, n) == 1 + Size(2 * s, n) + Size(2 * s + 1, n)
  {
  }

  lemma UnderParts(s: nat)
    requires s > 0
    ensures Under(s, s) && forall j: nat | Under(2 * s, j) || Under(2 * s + 1, j) :: Under(s, j)
  {
    forall j: nat | Under(2 * s, j) || Under(2 * s + 1, j) ensures Under(s, j) { UnderChild(s, j); }
  }

  // The text and the next free label after the code for slot s is added.
  function Walked(text: Code, heap: seq<Case>, s: nat, n: nat, lab: Label): (Code, Label)
    requires 0 < s && n < |heap|
  {
    (text + Walk(heap, s, n, lab).0, Walk(heap, s, n, lab).1)
  }

  lemma WalkedTurn(text: Code, heap: seq<Case>, s: nat, n: nat, lab: Label)
    requires 0 < s && n < |heap|
    ensures Walked(text, heap, s, n, lab) ==
            if s > n then (text, lab)
            else
              var here := text + [Cmp(Wrap(heap[s].val)), Jeq(heap[s].lab)];
              if 2 * s > n then (here + [Jbr(heap[0].lab)], lab)
              else if 2 * s + 1 > n then Walked(here + [Jgt(heap[0].lab)], heap, 2 * s, n, lab)
              else
                var left := Walked(here + [Jgt(lab)], heap, 2 * s, n, lab + 1);
                Walked(left.0 + [Lab(lab)], heap, 2 * s + 1, n, left.1)
  {
    if 2 * s + 1 <= n {
      var here := [Cmp(Wrap(heap[s].val)), Jeq(heap[s].lab)];
      var (a, lab1) := Walk(heap, 2 * s, n, lab + 1);
      var (b, lab2) := Walk(heap, 2 * s + 1, n, lab1);
      assert text + (here + [Jgt(lab)] + a + [Lab(lab)] + b) == text + here + [Jgt(lab)] + a + [Lab(lab)] + b;
    } else if s <= n && 2 * s <= n {
      var here := [Cmp(Wrap(heap[s].val)), Jeq(heap[s].lab)];
      var a := Walk(heap, 2 * s, n, lab).0;
      assert text + (here + [Jgt(heap[0].lab)] + a) == text + here + [Jgt(heap[0].lab)] + a;
    } else if s <= n {
      var here := [Cmp(Wrap(heap[s].val)), Jeq(heap[s].lab)];
      assert text + (here + [Jbr(heap[0].lab)]) == text + here + [Jbr(heap[0].lab)];
    } else {
      assert text + [] == text;
    }
  }

  lemma DirectSwitches(t: Tables, p: seq<Case>, slab: int, d: Label, tab: Label)
    requires p != [] && Sorted(p) && Fits(p) && p[|p| - 1].val - p[0].val < 0x8000
    requires tab in t && t[tab] == Table(p, d)
    requires if slab >= 0 then d == slab else forall c | c in p :: c.lab != d
    ensures
      var code := Direct(p, d, tab) + if slab < 0 then [Lab(d)] else [];
      Switches(t, code, p, slab) && Distinct(code) && forall i | i in code && i.Lab? :: slab < 0 && i == Lab(d)
  {
    DirectDispatches(t, p, d, tab);
    if slab >= 0 {
      assert Direct(p, d, tab) + [] == Direct(p, d, tab);
      DispatchesSwitches(t, Direct(p, d, tab), p, slab);
    } else {
      DispatchesFalls(t, Direct(p, d, tab), p, d);
      SwitchesNone(t, Direct(p, d, tab) + [Lab(d)], p, slab);
    }
  }

  // genswitch's heap search, from the heap that makeheap built.
  lemma HeapSwitches(t: Tables, heap: seq<Case>, p: seq<Case>, slab: int, lab: Label)
    requires 0 < |p| < |heap| && InOrder(heap, 1, |p|) == p && Sorted(p) && Fits(p)
    requires LabelsBelow(p, lab) && heap[0].lab < lab
    requires if slab >= 0 then heap[0].lab == slab else forall c | c in p :: c.lab != heap[0].lab
    ensures
      var d := heap[0].lab;
      var code := Walk(heap, 1, |p|, lab).0 + [if slab >= 0 then Jbr(d) else Lab(d)];
      && Switches(t, code, p, slab) && Distinct(code)
      && forall i | i in code && i.Lab? && (slab >= 0 || i != Lab(d)) :: lab <= i.l < Walk(heap, 1, |p|, lab).1
  {
    var d := heap[0].lab;
    var code := Walk(heap, 1, |p|, lab).0;
    WalkLabels(heap, 1, |p|, lab);
    WalkDispatches(t, heap, 1, |p|, lab);
    if slab >= 0 {
      BranchAdded(t, code, p, slab);
    } else {
      DispatchesFalls(t, code, p, d);
      SwitchesNone(t, code + [Lab(d)], p, slab);
    }
  }

  lemma Rebuilt(h0: seq<Case>, h1: seq<Case>, h2: seq<Case>, n: nat, limit: nat)
    requires 0 < n <= limit < |h0| == |h1| == |h2|
    requires forall j: nat | j < |h0| && !Under(2 * n, j) :: h1[j] == h0[j]
    requires forall j: nat | j < |h0| && !Under(2 * n + 1, j) :: h2[j] == h1[j]
    ensures InOrder(h2, n, limit) == InOrder(h1, 2 * n, limit) + [h0[n]] + InOrder(h2, 2 * n + 1, limit)
  {
    UnderChild(n, n);
    forall j: nat | j <= limit && Under(2 * n, j) ensures h1[j] == h2[j] { UnderChild(n, j); }
    InOrderSame(h1, h2, 2 * n, limit);
  }

  lemma SwitchesNone(t: Tables, code: Code, s: seq<Case>, slab: int)
    requires Switches(t, code, s, -1) && slab < 0
    ensures Switches(t, code, s, slab)
  {
  }

  // The branch to the default that genswitch adds after the heap search.
  lemma BranchAdded(t: Tables, code: Code, s: seq<Case>, slab: nat)
    requires Dispatches(t, code, s, slab) && Distinct(code)
    requires Outside(code, s) && Lab(slab) !in code
    ensures Switches(t, code + [Jbr(slab)], s, slab)
  {
    forall m: Cpu ensures Goes(t, code + [Jbr(slab)], m, Lookup(s, Signed(m.r0), slab)) {
      RunConcat(t, code, [Jbr(slab)], At(m));
      assert Goes(t, code, m, Lookup(s, Signed(m.r0), slab));
    }
    DispatchesSwitches(t, code + [Jbr(slab)], s, slab);
  }

  lemma SimpleSwitches(t: Tables, s: seq<Case>, slab: int)
    requires Fits(s)
    ensures
      var code := Tests(s, false) + if slab >= 0 then [Jbr(slab)] else [];
      Switches(t, code, s, slab) && Distinct(code) && forall i | i in code :: !i.Lab?
  {
    var last := if slab >= 0 then [Jbr(slab)] else [];
    var code := Tests(s, false) + last;
    TestsNoLabels(s, false);
    forall m: Cpu
      ensures
        var o := Exec(t, code, 0, m);
        if Has(s, Signed(m.r0)) then o.Leaves? && o.l == Lookup(s, Signed(m.r0), 0)
        else if slab >= 0 then o.Leaves? && o.l == slab
        else o.Falls?
    {
      assert code[0..] == code;
      RunIsExec(t, code, 0, m);
      RunConcat(t, Tests(s, false), last, At(m));
      TestsRun(t, s, false, m);
      AsWordsFits(s);
    }
  }
}
