// mip/reader.c: cbranch, and pcc/local2.c: cbgen.
module PccBranch {
  import opened Conditions
  import SwitchMachine

  const NEGREL: seq<nat> := [NE, EQ, GT, GE, LT, LE, UGT, UGE, ULT, ULE]

  function Negrel(o: Relation): Relation { NEGREL[o] }

  lemma NegrelComplement(o: Relation, x: nat, y: nat, w: nat)
    ensures Holds(Negrel(o), x, y, w) == !Holds(o, x, y, w) && Negrel(Negrel(o)) == o
  {
  }

  // lbranches
  const LBRANCHES: seq<Row> := [
    Row(10, NE, EQ), Row(NE, 10, NE), Row(LT, GT, ULE), Row(LT, GT, ULT), Row(GT, LT, UGE),
    Row(GT, LT, UGT), Row(ULT, UGT, ULE), Row(ULT, UGT, ULT), Row(UGT, ULT, UGE), Row(UGT, ULT, UGT)]

  // Each row decides its relation between longs.
  lemma LongRows(o: Relation, x: nat, y: nat)
    requires x < LONG && y < LONG
    ensures Decides(LBRANCHES[o], x, y) <==> Holds(o, x, y, LONG)
  {
    Halves(o, x, y);
  }

  // brnode: a comparison of longs that cbgen is still to emit
  datatype Pending = None | Some(t: Test)

  datatype Gen = Gen(code: Code, lab: nat, pend: Pending)

  // cbgen
  function CbGen(o: Relation, l: Label, lab: nat, pend: Pending): Gen {
    match pend
    case None => Gen([J(o, l)], lab, None)
    case Some(t) => Gen(RowCode(LBRANCHES[o], t, l, lab, true), lab + 1, None)
  }

  function Before(code: Code, g: Gen): Gen { g.(code := code + g.code) }
  function Behind(g: Gen, code: Code): Gen { g.(code := g.code + code) }

  // codgen of a test for its codes: a comparison of longs stays pending.
  function TestCode(t: Test): Code {
    [Eval(t)] + if t.long then [] else [CmpW(t)]
  }

  // A value is tested against 0.
  function Zero(t: Test): Test { t.(zero := true) }

  function Left(t: Test, pend: Pending): Pending { if t.long then Some(t) else pend }

  // The relational arm for label tl >= 0.
  function RelCode(o: Relation, t: Test, tl: Label, lab: nat, pend: Pending): Gen {
    var head, pend1 := TestCode(t), Left(t, pend);
    if t.zero then
      var o1: Relation := if o == UGT then NE else if o == ULE then EQ else o;
      if o1 == UGE then Gen(head + [Jbr(tl)], lab, pend1)
      else if o1 == ULT then Gen(head, lab, pend1)
      else Before(head, CbGen(o1, tl, lab, pend1))
    else Before(head, CbGen(o, tl, lab, pend1))
  }

  function Jump(l: int): Code { if l >= 0 then [Jbr(l)] else [] }

  // cbranch: code, next free label and what is pending after it
  function CBranch(c: Tree, tl: int, fl: int, lab: nat, pend: Pending): Gen
    requires tl >= 0 || fl >= 0
    decreases c
  {
    match c
    case Rel(o, t) =>
      if tl < 0 then RelCode(Negrel(o), t, fl, lab, pend)
      else Behind(RelCode(o, t, tl, lab, pend), Jump(fl))
    case Value(t) =>
      var g := Gen(TestCode(Zero(t)), lab, Left(Zero(t), pend));
      if tl >= 0 then Behind(Before(g.code, CbGen(NE, tl, lab, g.pend)), Jump(fl))
      else Before(g.code, CbGen(EQ, fl, lab, g.pend))
    case Const(v) => Gen(Jump(if v then tl else fl), lab, pend)
    case Not(d) => CBranch(d, fl, tl, lab, pend)
    case Comma(id, d) => Before([Effect(id)], CBranch(d, tl, fl, lab, pend))
    case And(l, r) =>
      var f := if fl < 0 then lab else fl;
      var a := CBranch(l, -1, f, if fl < 0 then lab + 1 else lab, pend);
      var b := CBranch(r, tl, fl, a.lab, a.pend);
      Behind(Before(a.code, b), Mark(fl < 0, f))
    case Or(l, r) =>
      var t := if tl < 0 then lab else tl;
      var a := CBranch(l, t, -1, if tl < 0 then lab + 1 else lab, pend);
      var b := CBranch(r, tl, fl, a.lab, a.pend);
      Behind(Before(a.code, b), Mark(tl < 0, t))
    case Quest(d, x, y) =>
      var f := if fl < 0 then lab else fl;
      var lab1 := if fl < 0 then lab + 1 else lab;
      var t := if tl < 0 then lab1 else tl;
      var l := if tl < 0 then lab1 + 1 else lab1;
      var a := CBranch(d, -1, l, l + 1, pend);
      var b := CBranch(x, t, f, a.lab, a.pend);
      var z := CBranch(y, tl, fl, b.lab, b.pend);
      Gen(a.code + b.code + [Lab(l)] + z.code + Mark(tl < 0, t) + Mark(fl < 0, f), z.lab, z.pend)
  }

  // How the pending comparison fares in the order of the text.  ok: it never
  // meets a test of words; left: there is one at the end.
  datatype Fate = Fate(ok: bool, left: bool)

  function Leaves(c: Tree, stale: bool): Fate
    decreases c, 1
  {
    match c
    case Rel(o, t) =>
      if t.zero && (o == UGE || o == ULT) then Fate(true, t.long || stale) else Fate(t.long || !stale, false)
    case Value(t) => Fate(t.long || !stale, false)
    case Const(_) => Fate(true, stale)
    case And(l, r) => Both(Leaves(l, stale), Leaves(r, Leaves(l, stale).left))
    case Or(l, r) => Both(Leaves(l, stale), Leaves(r, Leaves(l, stale).left))
    case Not(d) => Leaves(d, stale)
    case Comma(_, d) => Leaves(d, stale)
    case Quest(d, x, y) => QuestFate(d, x, y, stale)
  }

  function QuestFate(d: Tree, x: Tree, y: Tree, stale: bool): Fate
    decreases Quest(d, x, y), 0
  {
    var a := Leaves(d, stale);
    var b := Leaves(x, a.left);
    Both(Both(a, b), Leaves(y, b.left))
  }

  function Both(a: Fate, b: Fate): Fate { Fate(a.ok && b.ok, b.left) }

  // ---- the leaves ----

  lemma CmpWStep(e: Env, t: Test, m: Cpu)
    requires Val(m, t).0 < WORD && Val(m, t).1 < WORD
    ensures Step(e, CmpW(t), m) == At(m.(f := SwitchMachine.Compare(Val(m, t).0, Val(m, t).1)))
  {
    hide Val, SwitchMachine.Compare;
  }

  // After its code, the operands of a test are compared or pending.
  lemma TestRun(e: Env, t: Test, m: Cpu) returns (m1: Cpu)
    ensures Run(e, TestCode(t), At(m)) == At(m1) && m1.h == m.h + [t.id]
    ensures Val(m1, t) == Operands(e, m.h, t)
    ensures !t.long ==> m1.f == SwitchMachine.Compare(Val(m1, t).0, Val(m1, t).1)
  {
    var m0 := m.(h := m.h + [t.id], vals := m.vals[t.id := Operands(e, m.h, t)]);
    var v := Val(m0, t);
    assert v == Operands(e, m.h, t) && Step(e, Eval(t), m) == At(m0);
    m1 := if t.long then m0 else m0.(f := SwitchMachine.Compare(v.0, v.1));
    if !t.long { CmpWStep(e, t, m0); }
    assert TestCode(t) == if t.long then [Eval(t)] else [Eval(t)] + [CmpW(t)];
    hide Run, Step, TestCode, Operands, SwitchMachine.Compare;
    RunOne(e, Eval(t), At(m));
    if !t.long {
      RunFirst(e, Eval(t), [CmpW(t)], m);
      RunOne(e, CmpW(t), At(m0));
    }
  }

  lemma CbRun(e: Env, o: Relation, t: Test, l: Label, lab: nat, m: Cpu)
    requires l < lab && Val(m, t).0 < Width(t) && Val(m, t).1 < Width(t)
    requires !t.long ==> m.f == SwitchMachine.Compare(Val(m, t).0, Val(m, t).1)
    ensures
      var g, v := CbGen(o, l, lab, Left(t, None)), Val(m, t);
      var p := Run(e, g.code, At(m));
      && p.m.h == m.h && (if Holds(o, v.0, v.1, Width(t)) then p.Seek? && p.l == l else p.At?)
      && g.pend == None && Own(g.code, lab, g.lab)
  {
    var v := Val(m, t);
    if t.long {
      RowRun(e, LBRANCHES[o], t, l, lab, true, m);
      LongRows(o, v.0, v.1);
    } else {
      RunOne(e, J(o, l), At(m));
      CondMeans(o, v.0, v.1);
    }
  }

  // The relational arm jumps to tl exactly when the relation holds.
  lemma RelRun(e: Env, o: Relation, t: Test, tl: Label, lab: nat, pend: Pending, m: Cpu)
    requires tl < lab && Leaves(Rel(o, t), pend.Some?).ok
    ensures
      var g, v := RelCode(o, t, tl, lab, pend), Operands(e, m.h, t);
      var p := Run(e, g.code, At(m));
      && p.m.h == m.h + [t.id] && (if Holds(o, v.0, v.1, Width(t)) then p.Seek? && p.l == tl else p.At?)
      && g.pend.Some? == Leaves(Rel(o, t), pend.Some?).left && Own(g.code, lab, g.lab)
  {
    var head := TestCode(t);
    var m1 := TestRun(e, t, m);
    hide Run, TestCode, CbGen;
    if t.zero && o == UGE {
      RunConcat(e, head, [Jbr(tl)], At(m));
      RunOne(e, Jbr(tl), At(m1));
      HeadOwn(t, [Jbr(tl)], lab, lab);
    } else if t.zero && o == ULT {
      HeadOwn(t, [], lab, lab);
      assert head + [] == head;
    } else {
      assert Left(t, pend) == Left(t, None);
      var o1: Relation := if t.zero && o == UGT then NE else if t.zero && o == ULE then EQ else o;
      var g := CbGen(o1, tl, lab, Left(t, None));
      RunConcat(e, head, g.code, At(m));
      CbRun(e, o1, t, tl, lab, m1);
      HeadOwn(t, g.code, lab, g.lab);
    }
  }

  lemma HeadOwn(t: Test, code: Code, lab: nat, lab1: nat)
    requires lab <= lab1 && forall i | i in code && i.Lab? :: lab <= i.l < lab1
    ensures Own(TestCode(t) + code, lab, lab1)
  {
  }

  // ---- the tree ----

  // Everything the induction carries.
  ghost predicate Good(e: Env, g: Gen, c: Tree, tl: int, fl: int, lab: nat, left: bool) {
    g.pend.Some? == left && Own(g.code, lab, g.lab) && Branches(e, g.code, c, tl, fl)
  }

  // cbranch evaluates the tests in short-circuit order and ends at the right
  // label or falls through, if no pending comparison meets a test of words.
  lemma {:induction false} CBranchRight(e: Env, c: Tree, tl: int, fl: int, lab: nat, pend: Pending)
    requires (tl >= 0 || fl >= 0) && tl < lab && fl < lab && Leaves(c, pend.Some?).ok
    ensures Good(e, CBranch(c, tl, fl, lab, pend), c, tl, fl, lab, Leaves(c, pend.Some?).left)
    decreases c
  {
    hide *;
    LeavesOk(c, pend.Some?);
    var st := pend.Some?;
    match c
    case Rel(o, t) => RelGood(e, o, t, tl, fl, lab, pend);
    case Value(t) => ValueGood(e, t, tl, fl, lab, pend);
    case Const(v) => ConstGood(e, v, tl, fl, lab, pend);
    case Not(d) =>
      CBranchRight(e, d, fl, tl, lab, pend);
      NotGood(e, CBranch(d, fl, tl, lab, pend), d, tl, fl, lab, Leaves(d, st).left);
      NotCode(d, tl, fl, lab, pend);
    case Comma(id, d) =>
      CBranchRight(e, d, tl, fl, lab, pend);
      CommaGood(e, CBranch(d, tl, fl, lab, pend), id, d, tl, fl, lab, Leaves(d, st).left);
      CommaCode(id, d, tl, fl, lab, pend);
    case And(l, r) =>
      var f, lab1 := if fl < 0 then lab else fl, if fl < 0 then lab + 1 else lab;
      CBranchRight(e, l, -1, f, lab1, pend);
      var a, sa := CBranch(l, -1, f, lab1, pend), Leaves(l, st).left;
      GoodLab(e, a, l, -1, f, lab1, sa);
      CBranchRight(e, r, tl, fl, a.lab, a.pend);
      AndGood(e, a, CBranch(r, tl, fl, a.lab, a.pend), l, r, tl, fl, lab, sa, Leaves(r, sa).left);
      TwoCode(l, r, tl, fl, lab, pend);
    case Or(l, r) =>
      var t, lab1 := if tl < 0 then lab else tl, if tl < 0 then lab + 1 else lab;
      CBranchRight(e, l, t, -1, lab1, pend);
      var a, sa := CBranch(l, t, -1, lab1, pend), Leaves(l, st).left;
      GoodLab(e, a, l, t, -1, lab1, sa);
      CBranchRight(e, r, tl, fl, a.lab, a.pend);
      OrGood(e, a, CBranch(r, tl, fl, a.lab, a.pend), l, r, tl, fl, lab, sa, Leaves(r, sa).left);
      TwoCode(l, r, tl, fl, lab, pend);
    case Quest(d, x, y) =>
      var f, lab1 := if fl < 0 then lab else fl, if fl < 0 then lab + 1 else lab;
      var t, l := if tl < 0 then lab1 else tl, if tl < 0 then lab1 + 1 else lab1;
      CBranchRight(e, d, -1, l, l + 1, pend);
      var a, sa := CBranch(d, -1, l, l + 1, pend), Leaves(d, st).left;
      GoodLab(e, a, d, -1, l, l + 1, sa);
      CBranchRight(e, x, t, f, a.lab, a.pend);
      var b, sb := CBranch(x, t, f, a.lab, a.pend), Leaves(x, sa).left;
      GoodLab(e, b, x, t, f, a.lab, sb);
      CBranchRight(e, y, tl, fl, b.lab, b.pend);
      QuestGood(e, a, b, CBranch(y, tl, fl, b.lab, b.pend), d, x, y, tl, fl, lab, sa, sb, Leaves(y, sb).left);
      QuestCode(d, x, y, tl, fl, lab, pend);
  }

  // The fates of the parts of a tree.
  lemma LeavesOk(c: Tree, stale: bool)
    requires Leaves(c, stale).ok
    ensures c.And? || c.Or? ==>
      var a := Leaves(c.l, stale);
      a.ok && Leaves(c.r, a.left).ok && Leaves(c, stale).left == Leaves(c.r, a.left).left
    ensures c.Not? || c.Comma? ==> Leaves(c.c, stale).ok && Leaves(c, stale).left == Leaves(c.c, stale).left
    ensures c.Quest? ==>
      var a := Leaves(c.c, stale);
      var b := Leaves(c.a, a.left);
      a.ok && b.ok && Leaves(c.b, b.left).ok && Leaves(c, stale).left == Leaves(c.b, b.left).left
  {
  }

  lemma NotCode(d: Tree, tl: int, fl: int, lab: nat, pend: Pending)
    requires tl >= 0 || fl >= 0
    ensures CBranch(Not(d), tl, fl, lab, pend) == CBranch(d, fl, tl, lab, pend)
  {
  }

  lemma CommaCode(id: nat, d: Tree, tl: int, fl: int, lab: nat, pend: Pending)
    requires tl >= 0 || fl >= 0
    ensures CBranch(Comma(id, d), tl, fl, lab, pend) == Before([Effect(id)], CBranch(d, tl, fl, lab, pend))
  {
  }

  lemma GoodParts(e: Env, g: Gen, c: Tree, tl: int, fl: int, lab: nat, left: bool)
    requires Good(e, g, c, tl, fl, lab, left)
    ensures g.lab >= lab && g.pend.Some? == left && Own(g.code, lab, g.lab) && Branches(e, g.code, c, tl, fl)
  {
  }

  lemma MakeGood(e: Env, g: Gen, c: Tree, tl: int, fl: int, lab: nat, left: bool)
    requires g.pend.Some? == left && Own(g.code, lab, g.lab)
    requires forall m: Cpu :: Ends(Run(e, g.code, At(m)), Sem(e, c, m.h), tl, fl)
    ensures Good(e, g, c, tl, fl, lab, left)
  {
  }

  lemma GoodLab(e: Env, g: Gen, c: Tree, tl: int, fl: int, lab: nat, left: bool)
    requires Good(e, g, c, tl, fl, lab, left)
    ensures g.lab >= lab && g.pend.Some? == left
  {
  }

  lemma RelGood(e: Env, o: Relation, t: Test, tl: int, fl: int, lab: nat, pend: Pending)
    requires (tl >= 0 || fl >= 0) && tl < lab && fl < lab && Leaves(Rel(o, t), pend.Some?).ok
    ensures Good(e, CBranch(Rel(o, t), tl, fl, lab, pend), Rel(o, t), tl, fl, lab, Leaves(Rel(o, t), pend.Some?).left)
  {
    RelOwn(e, o, t, tl, fl, lab, pend);
    var g := CBranch(Rel(o, t), tl, fl, lab, pend);
    hide CBranch, RelCode, Run, Sem, Ends, Leaves, Own;
    forall m: Cpu ensures Ends(Run(e, g.code, At(m)), Sem(e, Rel(o, t), m.h), tl, fl) {
      RelEnds(e, o, t, tl, fl, lab, pend, m);
    }
  }

  lemma RelOwn(e: Env, o: Relation, t: Test, tl: int, fl: int, lab: nat, pend: Pending)
    requires (tl >= 0 || fl >= 0) && tl < lab && fl < lab && Leaves(Rel(o, t), pend.Some?).ok
    ensures
      var g := CBranch(Rel(o, t), tl, fl, lab, pend);
      g.pend.Some? == Leaves(Rel(o, t), pend.Some?).left && Own(g.code, lab, g.lab)
  {
    RelEnds(e, o, t, tl, fl, lab, pend, Cpu([], map[], SwitchMachine.Compare(0, 0)));
    hide RelCode, Run, Sem, Leaves;
  }

  lemma RelEnds(e: Env, o: Relation, t: Test, tl: int, fl: int, lab: nat, pend: Pending, m: Cpu)
    requires (tl >= 0 || fl >= 0) && tl < lab && fl < lab && Leaves(Rel(o, t), pend.Some?).ok
    ensures Ends(Run(e, CBranch(Rel(o, t), tl, fl, lab, pend).code, At(m)), Sem(e, Rel(o, t), m.h), tl, fl)
    ensures
      var rel := RelCode(if tl < 0 then Negrel(o) else o, t, if tl < 0 then fl else tl, lab, pend);
      Own(rel.code, lab, rel.lab) && rel.pend.Some? == Leaves(Rel(o, t), pend.Some?).left
  {
    var o1, l := if tl < 0 then Negrel(o) else o, if tl < 0 then fl else tl;
    var rel := RelCode(o1, t, l, lab, pend);
    var v := Operands(e, m.h, t);
    NegrelComplement(o, v.0, v.1, Width(t));
    RelRun(e, o1, t, l, lab, pend, m);
    FinalJump(e, rel.code, l, if tl < 0 then -1 else fl, m);
    assert rel.code + [] == rel.code;
    hide RelCode, Run;
  }

  // jbr after a jump that may have been taken
  lemma FinalJump(e: Env, code: Code, tl: Label, fl: int, m: Cpu)
    requires var p := Run(e, code, At(m)); p.Seek? ==> p.l == tl
    ensures
      var p := Run(e, code, At(m));
      Run(e, code + Jump(fl), At(m)) == if p.Seek? || fl < 0 then p else Seek(fl, p.m)
  {
    var p := Run(e, code, At(m));
    RunConcat(e, code, Jump(fl), At(m));
    if fl >= 0 { RunOne(e, Jbr(fl), p); }
  }

  lemma ValueGood(e: Env, t: Test, tl: int, fl: int, lab: nat, pend: Pending)
    requires (tl >= 0 || fl >= 0) && tl < lab && fl < lab && Leaves(Value(t), pend.Some?).ok
    ensures Good(e, CBranch(Value(t), tl, fl, lab, pend), Value(t), tl, fl, lab, Leaves(Value(t), pend.Some?).left)
  {
    ValueOwn(e, t, tl, fl, lab, pend);
    var g := CBranch(Value(t), tl, fl, lab, pend);
    hide CBranch, Run, Sem, Ends, Leaves, Own;
    forall m: Cpu ensures Ends(Run(e, g.code, At(m)), Sem(e, Value(t), m.h), tl, fl) {
      ValueEnds(e, t, tl, fl, lab, pend, m);
    }
  }

  // The code of a value: its test, a jump on not zero or on zero, and on.
  lemma ValueCode(t: Test, tl: int, fl: int, lab: nat, pend: Pending) returns (o: Relation, l: Label, fl1: int)
    requires (tl >= 0 || fl >= 0) && tl < lab && fl < lab && Leaves(Value(t), pend.Some?).ok
    ensures o == (if tl >= 0 then NE else EQ) && l == (if tl >= 0 then tl else fl) && fl1 == if tl >= 0 then fl else -1
    ensures
      var g, cb := CBranch(Value(t), tl, fl, lab, pend), CbGen(o, l, lab, Left(Zero(t), None));
      g.code == TestCode(Zero(t)) + cb.code + Jump(fl1) && g.pend == cb.pend && g.lab == cb.lab
  {
    o, l, fl1 := if tl >= 0 then NE else EQ, if tl >= 0 then tl else fl, if tl >= 0 then fl else -1;
    assert Left(Zero(t), pend) == Left(Zero(t), None);
    hide CbGen, TestCode;
    assert Jump(-1) == [];
  }

  lemma ValueOwn(e: Env, t: Test, tl: int, fl: int, lab: nat, pend: Pending)
    requires (tl >= 0 || fl >= 0) && tl < lab && fl < lab && Leaves(Value(t), pend.Some?).ok
    ensures var g := CBranch(Value(t), tl, fl, lab, pend); g.pend == None && Own(g.code, lab, g.lab)
    ensures !Leaves(Value(t), pend.Some?).left
  {
    var o, l, fl1 := ValueCode(t, tl, fl, lab, pend);
    var z := Zero(t);
    var m0 := TestRun(e, z, Cpu([], map[], SwitchMachine.Compare(0, 0)));
    hide CbGen, TestCode, Jump, CBranch, Run, Own;
    CbRun(e, o, z, l, lab, m0);
    var cb := CbGen(o, l, lab, Left(z, None));
    OwnParts(TestCode(z), cb.code, fl1, lab, cb.lab, z);
  }

  lemma ValueEnds(e: Env, t: Test, tl: int, fl: int, lab: nat, pend: Pending, m: Cpu)
    requires (tl >= 0 || fl >= 0) && tl < lab && fl < lab && Leaves(Value(t), pend.Some?).ok
    ensures Ends(Run(e, CBranch(Value(t), tl, fl, lab, pend).code, At(m)), Sem(e, Value(t), m.h), tl, fl)
  {
    var o, l, fl1 := ValueCode(t, tl, fl, lab, pend);
    hide CbGen, TestCode, Jump, CBranch, Run, Leaves;
    ValueRun(e, t, o, l, fl1, lab, m);
  }

  lemma OwnParts(head: Code, code: Code, fl: int, lab: nat, lab1: nat, z: Test)
    requires head == TestCode(z) && Own(code, lab, lab1)
    ensures Own(head + code + Jump(fl), lab, lab1)
  {
  }

  lemma ValueRun(e: Env, t: Test, o: Relation, l: Label, fl: int, lab: nat, m: Cpu)
    requires (o == NE || (o == EQ && fl < 0)) && l < lab
    ensures
      var z := Zero(t);
      var p := Run(e, TestCode(z) + CbGen(o, l, lab, Left(z, None)).code + Jump(fl), At(m));
      var v := Operands(e, m.h, t).0 != 0;
      && p.m.h == m.h + [t.id]
      && (if v == (o == NE) then p.Seek? && p.l == l else if fl < 0 then p.At? else p.Seek? && p.l == fl)
  {
    var z := Zero(t);
    var head, cb := TestCode(z), CbGen(o, l, lab, Left(z, None));
    var m1 := TestRun(e, z, m);
    CbRun(e, o, z, l, lab, m1);
    hide Run, CbGen, TestCode, Jump;
    RunConcat(e, head, cb.code, At(m));
    FinalJump(e, head + cb.code, l, fl, m);
  }

  lemma ConstGood(e: Env, v: bool, tl: int, fl: int, lab: nat, pend: Pending)
    requires tl >= 0 || fl >= 0
    ensures Good(e, CBranch(Const(v), tl, fl, lab, pend), Const(v), tl, fl, lab, Leaves(Const(v), pend.Some?).left)
  {
    var l := if v then tl else fl;
    forall m: Cpu ensures Ends(Run(e, Jump(l), At(m)), (v, m.h), tl, fl) {
      if l >= 0 { RunOne(e, Jbr(l), At(m)); }
    }
  }

  lemma NotGood(e: Env, g: Gen, d: Tree, tl: int, fl: int, lab: nat, left: bool)
    requires Good(e, g, d, fl, tl, lab, left)
    ensures Good(e, g, Not(d), tl, fl, lab, left)
  {
    hide Own, Run;
    forall m: Cpu ensures Ends(Run(e, g.code, At(m)), Sem(e, Not(d), m.h), tl, fl) {
      assert Ends(Run(e, g.code, At(m)), Sem(e, d, m.h), fl, tl);
    }
  }

  lemma CommaGood(e: Env, g: Gen, id: nat, d: Tree, tl: int, fl: int, lab: nat, left: bool)
    requires Good(e, g, d, tl, fl, lab, left)
    ensures Good(e, Before([Effect(id)], g), Comma(id, d), tl, fl, lab, left)
  {
    hide Run;
    forall m: Cpu ensures Ends(Run(e, [Effect(id)] + g.code, At(m)), Sem(e, Comma(id, d), m.h), tl, fl) {
      var m1 := EffectRun(e, id, d, m);
      RunConcat(e, [Effect(id)], g.code, At(m));
      hide Sem, Step, Pass;
      assert Ends(Run(e, g.code, At(m1)), Sem(e, d, m1.h), tl, fl);
    }
  }

  lemma EffectRun(e: Env, id: nat, d: Tree, m: Cpu) returns (m1: Cpu)
    ensures Run(e, [Effect(id)], At(m)) == At(m1) && Sem(e, Comma(id, d), m.h) == Sem(e, d, m1.h)
  {
    m1 := m.(h := m.h + [id]);
    RunOne(e, Effect(id), At(m));
  }

  lemma AndGood(e: Env, a: Gen, b: Gen, l: Tree, r: Tree, tl: int, fl: int, lab: nat, sa: bool, left: bool)
    requires (tl >= 0 || fl >= 0) && tl < lab && fl < lab
    requires
      var f, lab1 := if fl < 0 then lab else fl, if fl < 0 then lab + 1 else lab;
      Good(e, a, l, -1, f, lab1, sa) && Good(e, b, r, tl, fl, a.lab, left)
    ensures
      var f := if fl < 0 then lab else fl;
      Good(e, Gen(a.code + b.code + Mark(fl < 0, f), b.lab, b.pend), And(l, r), tl, fl, lab, left)
  {
    var f, lab1 := if fl < 0 then lab else fl, if fl < 0 then lab + 1 else lab;
    var code := a.code + b.code + Mark(fl < 0, f);
    hide Own, Run, Mark, Sem;
    OwnMore(a.code, lab, lab1, a.lab);
    OwnMore(b.code, a.lab, a.lab, b.lab);
    OwnLess(a.code, lab1, a.lab);
    OwnLess(b.code, a.lab, b.lab);
    OwnThree(a.code, b.code, fl < 0, f, lab, a.lab, b.lab);
    forall m: Cpu ensures Ends(Run(e, code, At(m)), Sem(e, And(l, r), m.h), tl, fl) {
      AndRun(e, a.code, b.code, l, r, tl, fl, f, m);
    }
  }

  lemma OrGood(e: Env, a: Gen, b: Gen, l: Tree, r: Tree, tl: int, fl: int, lab: nat, sa: bool, left: bool)
    requires (tl >= 0 || fl >= 0) && tl < lab && fl < lab
    requires
      var t, lab1 := if tl < 0 then lab else tl, if tl < 0 then lab + 1 else lab;
      Good(e, a, l, t, -1, lab1, sa) && Good(e, b, r, tl, fl, a.lab, left)
    ensures
      var t := if tl < 0 then lab else tl;
      Good(e, Gen(a.code + b.code + Mark(tl < 0, t), b.lab, b.pend), Or(l, r), tl, fl, lab, left)
  {
    var t, lab1 := if tl < 0 then lab else tl, if tl < 0 then lab + 1 else lab;
    var code := a.code + b.code + Mark(tl < 0, t);
    hide Own, Run, Mark, Sem;
    OwnMore(a.code, lab, lab1, a.lab);
    OwnMore(b.code, a.lab, a.lab, b.lab);
    OwnLess(a.code, lab1, a.lab);
    OwnLess(b.code, a.lab, b.lab);
    OwnThree(a.code, b.code, tl < 0, t, lab, a.lab, b.lab);
    forall m: Cpu ensures Ends(Run(e, code, At(m)), Sem(e, Or(l, r), m.h), tl, fl) {
      OrRun(e, a.code, b.code, l, r, tl, fl, t, m);
    }
  }

  lemma QuestGood(e: Env, a: Gen, b: Gen, z: Gen, d: Tree, x: Tree, y: Tree, tl: int, fl: int, lab: nat,
                  sa: bool, sb: bool, left: bool)
    requires (tl >= 0 || fl >= 0) && tl < lab && fl < lab
    requires
      var f, lab1 := if fl < 0 then lab else fl, if fl < 0 then lab + 1 else lab;
      var t, l := if tl < 0 then lab1 else tl, if tl < 0 then lab1 + 1 else lab1;
      Good(e, a, d, -1, l, l + 1, sa) && Good(e, b, x, t, f, a.lab, sb) && Good(e, z, y, tl, fl, b.lab, left)
    ensures
      var f, lab1 := if fl < 0 then lab else fl, if fl < 0 then lab + 1 else lab;
      var t, l := if tl < 0 then lab1 else tl, if tl < 0 then lab1 + 1 else lab1;
      Good(e, Gen(a.code + b.code + [Lab(l)] + z.code + Mark(tl < 0, t) + Mark(fl < 0, f), z.lab, z.pend),
           Quest(d, x, y), tl, fl, lab, left)
  {
    hide Own, Run, Mark, Sem, Branches, Good;
    var f, lab1 := if fl < 0 then lab else fl, if fl < 0 then lab + 1 else lab;
    var t, l := if tl < 0 then lab1 else tl, if tl < 0 then lab1 + 1 else lab1;
    var code := a.code + b.code + [Lab(l)] + z.code + Mark(tl < 0, t) + Mark(fl < 0, f);
    GoodParts(e, a, d, -1, l, l + 1, sa);
    GoodParts(e, b, x, t, f, a.lab, sb);
    GoodParts(e, z, y, tl, fl, b.lab, left);
    OwnMore(b.code, a.lab, a.lab, b.lab);
    OwnMore(z.code, b.lab, b.lab, z.lab);
    OwnQuest(a.code, b.code, z.code, l, tl < 0, t, fl < 0, f, lab, a.lab, b.lab, z.lab);
    forall m: Cpu ensures Ends(Run(e, code, At(m)), Sem(e, Quest(d, x, y), m.h), tl, fl) {
      QuestRun(e, a.code, b.code, z.code, d, x, y, t, f, l, tl, fl, m);
    }
    MakeGood(e, Gen(code, z.lab, z.pend), Quest(d, x, y), tl, fl, lab, left);
  }

  // ---- what the code compares ----

  // Every comparison in the code is one of what was computed last.
  predicate Paired(code: Code, last: Pending) {
    if code == [] then true
    else
      match code[0]
      case Eval(t) => Paired(code[1..], Some(t))
      case CmpW(t) => last == Some(t) && Paired(code[1..], last)
      case CmpHi(t) => last == Some(t) && Paired(code[1..], last)
      case CmpLo(t) => last == Some(t) && Paired(code[1..], last)
      case _ => Paired(code[1..], last)
  }

  function LastTest(code: Code, last: Pending): Pending {
    if code == [] then last else LastTest(code[1..], if code[0].Eval? then Some(code[0].t) else last)
  }

  lemma {:induction false} PairedConcat(a: Code, b: Code, last: Pending)
    ensures Paired(a + b, last) <==> Paired(a, last) && Paired(b, LastTest(a, last))
    ensures LastTest(a + b, last) == LastTest(b, LastTest(a, last))
  {
    if a == [] {
      assert a + b == b;
    } else {
      assert (a + b)[1..] == a[1..] + b;
      PairedConcat(a[1..], b, if a[0].Eval? then Some(a[0].t) else last);
    }
  }

  predicate Plain(i: Instr) { i.Effect? || i.J? || i.Jbr? || i.Lab? }

  lemma {:induction false} PlainPaired(code: Code, last: Pending)
    requires forall i | i in code :: Plain(i)
    ensures Paired(code, last) && LastTest(code, last) == last
  {
    if code != [] {
      assert Plain(code[0]);
      PlainPaired(code[1..], last);
    }
  }

  lemma CbPaired(o: Relation, l: Label, lab: nat, pend: Pending, last: Pending)
    ensures Paired(CbGen(o, l, lab, pend).code, last) <==> pend.None? || pend == last
    ensures CbGen(o, l, lab, pend).pend == None
  {
    match pend
    case None => PlainPaired([J(o, l)], last);
    case Some(t) =>
      var r := LBRANCHES[o];
      var c, d := Maybe(r.first, l) + Maybe(r.second, lab), [J(r.third, l), Lab(lab)];
      PlainPaired(c, last);
      PlainPaired(d, last);
      PairedConcat([CmpHi(t)], c, last);
      PairedConcat([CmpLo(t)], d, last);
      PairedConcat([CmpHi(t)] + c, [CmpLo(t)] + d, last);
      OnePaired(CmpHi(t), last);
      OnePaired(CmpLo(t), last);
      assert CbGen(o, l, lab, pend).code == [CmpHi(t)] + c + ([CmpLo(t)] + d);
  }

  lemma OnePaired(i: Instr, last: Pending)
    ensures i.Eval? ==> Paired([i], last) && LastTest([i], last) == Some(i.t)
    ensures i.CmpHi? || i.CmpLo? || i.CmpW? ==>
      (Paired([i], last) <==> last == Some(i.t)) && LastTest([i], last) == last
  {
    assert Paired([], last) && LastTest([], last) == last;
  }

  // A test that cbgen is called for.
  lemma CbTestPaired(o: Relation, t: Test, l: Label, lab: nat, pend: Pending, end: Code, last: Pending)
    requires pend.Some? ==> pend.t.long
    requires forall i | i in end :: Plain(i)
    ensures Paired(TestCode(t) + CbGen(o, l, lab, Left(t, pend)).code + end, last) <==> t.long || pend.None?
    ensures CbGen(o, l, lab, Left(t, pend)).pend == None
  {
    var cb := CbGen(o, l, lab, Left(t, pend)).code;
    TestPaired(t, last);
    CbPaired(o, l, lab, Left(t, pend), Some(t));
    hide CbGen, TestCode;
    PairedConcat(TestCode(t), cb, last);
    PairedConcat(TestCode(t) + cb, end, last);
    PlainPaired(end, LastTest(TestCode(t) + cb, last));
  }

  lemma TestPaired(t: Test, last: Pending)
    ensures Paired(TestCode(t), last) && LastTest(TestCode(t), last) == Some(t)
  {
    OnePaired(Eval(t), last);
    OnePaired(CmpW(t), Some(t));
    PairedConcat([Eval(t)], [CmpW(t)], last);
    if t.long { assert TestCode(t) == [Eval(t)]; }
  }

  lemma MarkPlain(here: bool, l: Label)
    ensures forall i | i in Mark(here, l) :: Plain(i)
  {
  }

  lemma JumpPlain(l: int)
    ensures forall i | i in Jump(l) :: Plain(i)
  {
  }

  lemma RelPaired(o: Relation, t: Test, tl: Label, lab: nat, pend: Pending, end: Code, last: Pending)
    requires (pend.Some? ==> pend.t.long) && forall i | i in end :: Plain(i)
    ensures
      var g, v := RelCode(o, t, tl, lab, pend), Leaves(Rel(o, t), pend.Some?);
      (Paired(g.code + end, last) <==> v.ok) && g.pend.Some? == v.left && (g.pend.Some? ==> g.pend.t.long)
  {
    if t.zero && (o == UGE || o == ULT) {
      var rest := (if o == UGE then [Jbr(tl)] else []) + end;
      TestPaired(t, last);
      PairedConcat(TestCode(t), rest, last);
      PlainPaired(rest, Some(t));
      assert RelCode(o, t, tl, lab, pend).code + end == TestCode(t) + rest;
    } else {
      var o1: Relation := if t.zero && o == UGT then NE else if t.zero && o == ULE then EQ else o;
      CbTestPaired(o1, t, tl, lab, pend, end, last);
    }
  }

  ghost predicate Fits(g: Gen, v: Fate, last: Pending) {
    (Paired(g.code, last) <==> v.ok) && g.pend.Some? == v.left && (g.pend.Some? ==> g.pend.t.long)
  }

  // The code compares only what it has just computed, if and only if no
  // pending comparison meets a test of words.
  lemma {:induction false} ComparesOwn(c: Tree, tl: int, fl: int, lab: nat, pend: Pending, last: Pending)
    requires (tl >= 0 || fl >= 0) && (pend.Some? ==> pend.t.long)
    ensures Fits(CBranch(c, tl, fl, lab, pend), Leaves(c, pend.Some?), last)
    decreases c, 1
  {
    hide *;
    match c
    case Rel(o, t) => RelFits(o, t, tl, fl, lab, pend, last);
    case Value(t) => ValueFits(t, tl, fl, lab, pend, last);
    case Const(v) => ConstFits(v, tl, fl, lab, pend, last);
    case Not(d) =>
      ComparesOwn(d, fl, tl, lab, pend, last);
      NotFits(d, tl, fl, lab, pend, last);
    case Comma(id, d) =>
      ComparesOwn(d, tl, fl, lab, pend, last);
      CommaFits(id, d, tl, fl, lab, pend, last);
    case And(l, r) =>
      var f := if fl < 0 then lab else fl;
      TwoOwn(l, r, -1, f, if fl < 0 then lab + 1 else lab, tl, fl, pend, fl < 0, f, c, last);
      TwoCode(l, r, tl, fl, lab, pend);
    case Or(l, r) =>
      var t := if tl < 0 then lab else tl;
      TwoOwn(l, r, t, -1, if tl < 0 then lab + 1 else lab, tl, fl, pend, tl < 0, t, c, last);
      TwoCode(l, r, tl, fl, lab, pend);
    case Quest(d, x, y) =>
      var f, lab1 := if fl < 0 then lab else fl, if fl < 0 then lab + 1 else lab;
      var t, l := if tl < 0 then lab1 else tl, if tl < 0 then lab1 + 1 else lab1;
      QuestOwn(d, x, y, t, f, l, tl, fl, pend, last);
      QuestCode(d, x, y, tl, fl, lab, pend);
  }

  lemma ConstFits(v: bool, tl: int, fl: int, lab: nat, pend: Pending, last: Pending)
    requires (tl >= 0 || fl >= 0) && (pend.Some? ==> pend.t.long)
    ensures Fits(CBranch(Const(v), tl, fl, lab, pend), Leaves(Const(v), pend.Some?), last)
  {
    JumpPlain(if v then tl else fl);
    PlainPaired(Jump(if v then tl else fl), last);
    hide Paired, Jump;
  }

  lemma NotFits(d: Tree, tl: int, fl: int, lab: nat, pend: Pending, last: Pending)
    requires (tl >= 0 || fl >= 0) && Fits(CBranch(d, fl, tl, lab, pend), Leaves(d, pend.Some?), last)
    ensures Fits(CBranch(Not(d), tl, fl, lab, pend), Leaves(Not(d), pend.Some?), last)
  {
    hide Fits;
  }

  lemma CommaFits(id: nat, d: Tree, tl: int, fl: int, lab: nat, pend: Pending, last: Pending)
    requires (tl >= 0 || fl >= 0) && Fits(CBranch(d, tl, fl, lab, pend), Leaves(d, pend.Some?), last)
    ensures Fits(CBranch(Comma(id, d), tl, fl, lab, pend), Leaves(Comma(id, d), pend.Some?), last)
  {
    hide Paired, CBranch;
    CommaPaired(id, d, tl, fl, lab, pend, last);
  }

  lemma RelFits(o: Relation, t: Test, tl: int, fl: int, lab: nat, pend: Pending, last: Pending)
    requires (tl >= 0 || fl >= 0) && (pend.Some? ==> pend.t.long)
    ensures Fits(CBranch(Rel(o, t), tl, fl, lab, pend), Leaves(Rel(o, t), pend.Some?), last)
  {
    hide Paired, RelCode, Jump, Plain;
    if tl < 0 {
      JumpPlain(-1);
      RelPaired(Negrel(o), t, fl, lab, pend, [], last);
      assert RelCode(Negrel(o), t, fl, lab, pend).code + [] == RelCode(Negrel(o), t, fl, lab, pend).code;
    } else {
      JumpPlain(fl);
      RelPaired(o, t, tl, lab, pend, Jump(fl), last);
    }
  }

  lemma ValueFits(t: Test, tl: int, fl: int, lab: nat, pend: Pending, last: Pending)
    requires (tl >= 0 || fl >= 0) && (pend.Some? ==> pend.t.long)
    ensures Fits(CBranch(Value(t), tl, fl, lab, pend), Leaves(Value(t), pend.Some?), last)
  {
    hide Paired, CbGen, TestCode, Jump, Plain;
    if tl >= 0 {
      JumpPlain(fl);
      CbTestPaired(NE, Zero(t), tl, lab, pend, Jump(fl), last);
    } else {
      CbTestPaired(EQ, Zero(t), fl, lab, pend, [], last);
      var code := TestCode(Zero(t)) + CbGen(EQ, fl, lab, Left(Zero(t), pend)).code;
      assert code + [] == code;
    }
  }

  // Two conditions one after the other, with labels at the end.
  lemma {:induction false} TwoOwn(l: Tree, r: Tree, t1: int, f1: int, lab: nat, tl: int, fl: int, pend: Pending,
                                  here: bool, at: Label, c: Tree, last: Pending)
    requires (tl >= 0 || fl >= 0) && (t1 >= 0 || f1 >= 0) && (pend.Some? ==> pend.t.long)
    requires c == And(l, r) || c == Or(l, r)
    ensures
      var a := CBranch(l, t1, f1, lab, pend);
      var b := CBranch(r, tl, fl, a.lab, a.pend);
      Fits(Gen(a.code + b.code + Mark(here, at), b.lab, b.pend), Leaves(c, pend.Some?), last)
    decreases c, 0
  {
    hide *;
    MarkPlain(here, at);
    ComparesOwn(l, t1, f1, lab, pend, last);
    var a, sa := CBranch(l, t1, f1, lab, pend), Leaves(l, pend.Some?);
    FitsLeft(a, sa, last);
    ComparesOwn(r, tl, fl, a.lab, a.pend, LastTest(a.code, last));
    TwoFit(a, CBranch(r, tl, fl, a.lab, a.pend), sa, Leaves(r, sa.left), Mark(here, at), last);
    TwoLeaves(l, r, pend.Some?);
  }

  lemma FitsLeft(g: Gen, v: Fate, last: Pending)
    requires Fits(g, v, last)
    ensures g.pend.Some? == v.left && (g.pend.Some? ==> g.pend.t.long)
  {
  }

  lemma TwoFit(a: Gen, b: Gen, va: Fate, vb: Fate, end: Code, last: Pending)
    requires Fits(a, va, last) && Fits(b, vb, LastTest(a.code, last)) && forall i | i in end :: Plain(i)
    ensures Fits(Gen(a.code + b.code + end, b.lab, b.pend), Both(va, vb), last)
  {
    hide Paired, LastTest, Plain;
    TwoPaired(a.code, b.code, end, last);
  }

  lemma TwoLeaves(l: Tree, r: Tree, stale: bool)
    ensures Leaves(And(l, r), stale) == Both(Leaves(l, stale), Leaves(r, Leaves(l, stale).left))
    ensures Leaves(Or(l, r), stale) == Both(Leaves(l, stale), Leaves(r, Leaves(l, stale).left))
  {
  }

  lemma QuestLeaves(d: Tree, x: Tree, y: Tree, stale: bool)
    ensures
      var a := Leaves(d, stale);
      var b := Leaves(x, a.left);
      Leaves(Quest(d, x, y), stale) == Both(Both(a, b), Leaves(y, b.left)) && Both(a, b).left == b.left
  {
    QuestIsFate(d, x, y, stale);
    hide Leaves;
  }

  lemma QuestIsFate(d: Tree, x: Tree, y: Tree, stale: bool)
    ensures Leaves(Quest(d, x, y), stale) == QuestFate(d, x, y, stale)
  {
    hide QuestFate;
  }

  lemma {:induction false} QuestOwn(d: Tree, x: Tree, y: Tree, t: Label, f: Label, l: Label, tl: int, fl: int,
                                    pend: Pending,
                                    last: Pending)
    requires (tl >= 0 || fl >= 0) && (pend.Some? ==> pend.t.long)
    ensures
      var a := CBranch(d, -1, l, l + 1, pend);
      var b := CBranch(x, t, f, a.lab, a.pend);
      var z := CBranch(y, tl, fl, b.lab, b.pend);
      Fits(Gen(a.code + b.code + [Lab(l)] + z.code + Mark(tl < 0, t) + Mark(fl < 0, f), z.lab, z.pend),
        Leaves(Quest(d, x, y), pend.Some?), last)
    decreases Quest(d, x, y), 0
  {
    hide *;
    LabPlain(l);
    var e1, e2 := Mark(tl < 0, t), Mark(fl < 0, f);
    MarkPlain(tl < 0, t);
    MarkPlain(fl < 0, f);
    ComparesOwn(d, -1, l, l + 1, pend, last);
    var a, sa := CBranch(d, -1, l, l + 1, pend), Leaves(d, pend.Some?);
    FitsLeft(a, sa, last);
    ComparesOwn(x, t, f, a.lab, a.pend, LastTest(a.code, last));
    var b, sb := CBranch(x, t, f, a.lab, a.pend), Leaves(x, sa.left);
    TwoFit(a, b, sa, sb, [Lab(l)], last);
    var ab := Gen(a.code + b.code + [Lab(l)], b.lab, b.pend);
    FitsLeft(b, sb, LastTest(a.code, last));
    ComparesOwn(y, tl, fl, b.lab, b.pend, LastTest(ab.code, last));
    var z := CBranch(y, tl, fl, b.lab, b.pend);
    TwoFit(ab, z, Both(sa, sb), Leaves(y, sb.left), e1 + e2, last);
    QuestLeaves(d, x, y, pend.Some?);
    assert ab.code + z.code + (e1 + e2) == ab.code + z.code + e1 + e2;
  }

  lemma LabPlain(l: Label)
    ensures forall i | i in [Lab(l)] :: Plain(i)
  {
  }

  lemma CommaPaired(id: nat, d: Tree, tl: int, fl: int, lab: nat, pend: Pending, last: Pending)
    requires (tl >= 0 || fl >= 0)
    ensures
      var g, g1 := CBranch(Comma(id, d), tl, fl, lab, pend), CBranch(d, tl, fl, lab, pend);
      g.pend == g1.pend && (Paired(g.code, last) <==> Paired(g1.code, last))
  {
    PairedConcat([Effect(id)], CBranch(d, tl, fl, lab, pend).code, last);
    PlainPaired([Effect(id)], last);
  }

  lemma TwoPaired(a: Code, b: Code, end: Code, last: Pending)
    requires forall i | i in end :: Plain(i)
    ensures Paired(a + b + end, last) <==> Paired(a, last) && Paired(b, LastTest(a, last))
  {
    PairedConcat(a, b, last);
    PairedConcat(a + b, end, last);
    PlainPaired(end, LastTest(a + b, last));
  }

  // ---- a comparison left over ----

  // ul >= 0 && w == v for an unsigned long ul: nothing tests ul, but its
  // comparison is still pending when that of the words is to be emitted.
  function StaleTree(): Tree {
    And(Rel(UGE, Test(0, true, true)), Rel(EQ, Test(1, false, false)))
  }

  // With ul = 5 and w = v the condition holds, but the code tests ul == 0
  // and does not go to label 1.
  lemma StaleWrong(e: Env, m: Cpu)
    requires forall h: History :: e(h, 0) == (5, 0) && e(h, 1) == (7, 7)
    ensures Sem(e, StaleTree(), m.h).0
    ensures Run(e, CBranch(StaleTree(), 1, -1, 10, None).code, At(m)).At?
  {
    hide Run, Step, CBranch, RowCode, StaleTree, Sem, Decides, Pass;
    StaleCode();
    StaleSem(e, m.h);
    var t0, t1 := Test(0, true, true), Test(1, false, false);
    var m3 := StaleTests(e, m);
    var row := RowCode(LBRANCHES[EQ], t0, 1, 11, true);
    LongRows(EQ, 5, 0);
    RowRun(e, LBRANCHES[EQ], t0, 1, 11, true, m3);
    PassesAt(e, Lab(10), Run(e, row, At(m3)));
    RunConcat(e, [Eval(t0), Eval(t1), CmpW(t1)], row, At(m));
    RunConcat(e, [Eval(t0), Eval(t1), CmpW(t1)] + row, [Lab(10)], At(m));
  }

  lemma PassesAt(e: Env, i: Instr, p: Place)
    requires p.At? && i.Lab?
    ensures Run(e, [i], p) == p
  {
    RunOne(e, i, p);
  }

  lemma StaleSem(e: Env, h: History)
    requires e(h, 0) == (5, 0) && e(h + [0], 1) == (7, 7)
    ensures Sem(e, StaleTree(), h).0
  {
    var t0, t1 := Test(0, true, true), Test(1, false, false);
    assert Sem(e, Rel(UGE, t0), h) == (true, h + [0]);
    assert Sem(e, Rel(EQ, t1), h + [0]).0;
    SemTwo(e, Rel(UGE, t0), Rel(EQ, t1), h);
  }

  lemma StaleTests(e: Env, m: Cpu) returns (m3: Cpu)
    requires forall h: History :: e(h, 0) == (5, 0) && e(h, 1) == (7, 7)
    ensures Run(e, [Eval(Test(0, true, true)), Eval(Test(1, false, false)), CmpW(Test(1, false, false))], At(m)) ==
      At(m3)
    ensures Val(m3, Test(0, true, true)) == (5, 0)
  {
    var t0, t1 := Test(0, true, true), Test(1, false, false);
    var m1 := m.(h := m.h + [0], vals := m.vals[0 := (5, 0)]);
    var m2 := m1.(h := m1.h + [1], vals := m1.vals[1 := (7, 7)]);
    m3 := m2.(f := SwitchMachine.Compare(7, 7));
    assert Operands(e, m.h, t0) == (5, 0) && Operands(e, m1.h, t1) == (7, 7);
    assert Step(e, Eval(t0), m) == At(m1) && Step(e, Eval(t1), m1) == At(m2) && Step(e, CmpW(t1), m2) == At(m3);
    RunOne(e, Eval(t0), At(m));
    RunOne(e, Eval(t1), At(m1));
    RunOne(e, CmpW(t1), At(m2));
    hide Run, Step;
    RunConcat(e, [Eval(t0)], [Eval(t1)], At(m));
    RunConcat(e, [Eval(t0)] + [Eval(t1)], [CmpW(t1)], At(m));
    assert [Eval(t0)] + [Eval(t1)] + [CmpW(t1)] == [Eval(t0), Eval(t1), CmpW(t1)];
  }

  lemma StaleCode()
    ensures
      var t0, t1 := Test(0, true, true), Test(1, false, false);
      CBranch(StaleTree(), 1, -1, 10, None).code ==
        [Eval(t0), Eval(t1), CmpW(t1)] + RowCode(LBRANCHES[EQ], t0, 1, 11, true) + [Lab(10)]
  {
    var t0, t1 := Test(0, true, true), Test(1, false, false);
    var a := CBranch(Rel(UGE, t0), -1, 10, 11, None);
    assert a == Gen([Eval(t0)], 11, Some(t0)) by { assert [Eval(t0)] + [] == [Eval(t0)]; }
    var b := CBranch(Rel(EQ, t1), 1, -1, 11, Some(t0));
    var row := RowCode(LBRANCHES[EQ], t0, 1, 11, true);
    assert b.code == [Eval(t1)] + [CmpW(t1)] + row + [];
    hide RowCode;
    assert CBranch(StaleTree(), 1, -1, 10, None).code == a.code + b.code + [Lab(10)];
    assert [Eval(t0)] + ([Eval(t1)] + [CmpW(t1)] + row + []) == [Eval(t0), Eval(t1), CmpW(t1)] + row;
  }

  // ---- the generator ----

  // The code up to the label of the second branch of a conditional.
  ghost function SecondGen(d: Tree, x: Tree, tlab: Label, flab: Label, l: Label, lab: nat, pend: Pending): Gen {
    var a := CBranch(d, -1, l, lab, pend);
    var b := CBranch(x, tlab, flab, a.lab, a.pend);
    Gen(a.code + b.code + [Lab(l)], b.lab, b.pend)
  }

  class Emitter {
    var text: Code
    var crslab: nat       // the next label is crslab + 1
    var brnode: Pending

    constructor ()
      ensures text == [] && crslab == 10 && brnode == None
    {
      text, crslab, brnode := [], 10, None;
    }

    // What is emitted from here on: all of g behind the text of before.
    ghost predicate Has(before: Code, g: Gen)
      reads this
    {
      text == before + g.code && crslab + 1 == g.lab && brnode == g.pend
    }

    lemma HasParts(before: Code, g: Gen)
      requires Has(before, g)
      ensures text == before + g.code && crslab + 1 == g.lab && brnode == g.pend
    {
    }

    lemma Conditioned(before: Code, mid: Code, d: Tree, x: Tree, y: Tree, tl: int, fl: int, lab: nat, pend: Pending)
      requires tl >= 0 || fl >= 0
      requires
        var f, lab1 := if fl < 0 then lab else fl, if fl < 0 then lab + 1 else lab;
        var t, l := if tl < 0 then lab1 else tl, if tl < 0 then lab1 + 1 else lab1;
        var s := SecondGen(d, x, t, f, l, l + 1, pend);
        var z := CBranch(y, tl, fl, s.lab, s.pend);
        && mid == before + s.code && text == mid + z.code + Mark(tl < 0, t) + Mark(fl < 0, f)
        && crslab + 1 == z.lab && brnode == z.pend
      ensures Has(before, CBranch(Quest(d, x, y), tl, fl, lab, pend))
    {
      hide CBranch, Mark;
      QuestCode(d, x, y, tl, fl, lab, pend);
    }

    lemma ThenLab(before: Code, mid: Code, d: Tree, x: Tree, tlab: Label, flab: Label, l: Label, lab: nat,
                  pend: Pending)
      requires
        var a := CBranch(d, -1, l, lab, pend);
        var b := CBranch(x, tlab, flab, a.lab, a.pend);
        mid == before + a.code && text == mid + b.code + [Lab(l)] && crslab + 1 == b.lab && brnode == b.pend
      ensures Has(before, SecondGen(d, x, tlab, flab, l, lab, pend))
    {
      hide CBranch;
      var a := CBranch(d, -1, l, lab, pend);
      Regroup(before, a.code, CBranch(x, tlab, flab, a.lab, a.pend).code, [Lab(l)]);
    }

    method Emit(i: Instr)
      modifies this`text
      ensures text == old(text) + [i]
    {
      text := text + [i];
    }

    method GetLab() returns (l: Label)
      modifies this`crslab
      ensures l == old(crslab) + 1 && crslab == l
    {
      crslab := crslab + 1;
      l := crslab;
    }

    // cbgen for a condition
    method CbGenFor(o: Relation, l: Label)
      modifies this
      ensures Has(old(text), CbGen(o, l, old(crslab) + 1, old(brnode)))
    {
      match brnode
      case None =>
        Emit(J(o, l));
      case Some(t) =>
        var lab1f := GetLab();
        LongBranch(o, t, l, lab1f);
        brnode := None;
    }

    // The row of o in lbranches, for the pending comparison t
    method LongBranch(o: Relation, t: Test, l: Label, lab1f: Label)
      modifies this`text
      ensures text == old(text) + RowCode(LBRANCHES[o], t, l, lab1f, true)
    {
      var plb := LBRANCHES[o];
      RowIs(o, t, l, lab1f);
      hide RowCode;
      Emit(CmpHi(t));
      if plb.first < 10 { Emit(J(plb.first, l)); }
      if plb.second < 10 { Emit(J(plb.second, lab1f)); }
      Emit(CmpLo(t));
      Emit(J(plb.third, l));
      Emit(Lab(lab1f));
    }

    // codgen for the condition codes
    method CodGen(t: Test)
      modifies this
      ensures text == old(text) + TestCode(t) && crslab == old(crslab) && brnode == Left(t, old(brnode))
    {
      Emit(Eval(t));
      if t.long { brnode := Some(t); } else { Emit(CmpW(t)); }
    }

    method Relational(o: Relation, t: Test, tl: Label)
      modifies this
      ensures Has(old(text), RelCode(o, t, tl, old(crslab) + 1, old(brnode)))
    {
      hide CbGen, TestCode, Left;
      CodGen(t);
      if !t.zero {
        CbGenFor(o, tl);
      } else if o == UGE {
        Emit(Jbr(tl));
      } else if o == UGT {
        CbGenFor(NE, tl);
      } else if o == ULE {
        CbGenFor(EQ, tl);
      } else if o != ULT {
        CbGenFor(o, tl);
      }
    }

    method JumpTo(l: int)
      modifies this`text
      ensures text == old(text) + Jump(l)
    {
      if l >= 0 { Emit(Jbr(l)); }
    }

    method DefLab(here: bool, l: Label)
      modifies this`text
      ensures text == old(text) + Mark(here, l)
    {
      if here { Emit(Lab(l)); }
    }

    // cbranch
    method CondBranch(c: Tree, tl: int, fl: int)
      requires tl >= 0 || fl >= 0
      modifies this
      ensures Has(old(text), CBranch(c, tl, fl, old(crslab) + 1, old(brnode)))
      decreases c, 2
    {
      hide RelCode, CbGen, TestCode, Mark, Jump, Negrel;
      match c
      case Rel(o, t) =>
        if tl < 0 {
          Relational(Negrel(o), t, fl);
        } else {
          Relational(o, t, tl);
          JumpTo(fl);
        }
      case Value(t) =>
        CodGen(Zero(t));
        if tl >= 0 {
          CbGenFor(NE, tl);
          JumpTo(fl);
        } else {
          CbGenFor(EQ, fl);
        }
      case Const(v) => JumpTo(if v then tl else fl);
      case Not(d) => CondBranch(d, fl, tl);
      case Comma(id, d) =>
        Emit(Effect(id));
        CondBranch(d, tl, fl);
      case And(l, r) => AndAnd(l, r, tl, fl);
      case Or(l, r) => OrOr(l, r, tl, fl);
      case Quest(d, x, y) => Conditional(d, x, y, tl, fl);
    }

    // The arms of cbranch for &&, || and ?:.
    method AndAnd(l: Tree, r: Tree, tl: int, fl: int)
      requires tl >= 0 || fl >= 0
      modifies this
      ensures Has(old(text), CBranch(And(l, r), tl, fl, old(crslab) + 1, old(brnode)))
      decreases And(l, r), 1
    {
      hide CBranch, RelCode, CbGen, TestCode, Mark, Jump;
      TwoCode(l, r, tl, fl, crslab + 1, brnode);
      var lab: int := fl;
      if fl < 0 { lab := GetLab(); }
      CondBranch(l, -1, lab);
      CondBranch(r, tl, fl);
      DefLab(fl < 0, lab);
    }

    method OrOr(l: Tree, r: Tree, tl: int, fl: int)
      requires tl >= 0 || fl >= 0
      modifies this
      ensures Has(old(text), CBranch(Or(l, r), tl, fl, old(crslab) + 1, old(brnode)))
      decreases Or(l, r), 1
    {
      hide CBranch, RelCode, CbGen, TestCode, Mark, Jump;
      TwoCode(l, r, tl, fl, crslab + 1, brnode);
      var lab: int := tl;
      if tl < 0 { lab := GetLab(); }
      CondBranch(l, lab, -1);
      CondBranch(r, tl, fl);
      DefLab(tl < 0, lab);
    }

    method Conditional(d: Tree, x: Tree, y: Tree, tl: int, fl: int)
      requires tl >= 0 || fl >= 0
      modifies this
      ensures Has(old(text), CBranch(Quest(d, x, y), tl, fl, old(crslab) + 1, old(brnode)))
      decreases Quest(d, x, y), 1
    {
      hide *;
      ghost var before, l0, p0 := text, crslab + 1, brnode;
      var tlab, flab, lab := Labels(tl, fl);
      ghost var s := SecondGen(d, x, tlab, flab, lab, crslab + 1, p0);
      ToSecond(d, x, y, tlab, flab, lab);
      HasParts(before, s);
      ghost var mid := text;
      ToThird(d, x, y, tl, fl, tlab, flab);
      Conditioned(before, mid, d, x, y, tl, fl, l0, p0);
    }

    // The labels of a conditional that are not given, and that of its second branch
    method Labels(tl: int, fl: int) returns (tlab: Label, flab: Label, lab: Label)
      modifies this`crslab
      ensures flab == (if fl < 0 then old(crslab) + 1 else fl)
      ensures var lab1 := old(crslab) + if fl < 0 then 2 else 1;
        tlab == (if tl < 0 then lab1 else tl) && lab == (if tl < 0 then lab1 + 1 else lab1) && crslab == lab
    {
      if fl < 0 { flab := GetLab(); } else { flab := fl; }
      if tl < 0 { tlab := GetLab(); } else { tlab := tl; }
      lab := GetLab();
    }

    // The second branch of a conditional, and the labels for true and false
    method ToThird(ghost d: Tree, ghost x: Tree, y: Tree, tl: int, fl: int, tlab: Label, flab: Label)
      requires tl >= 0 || fl >= 0
      modifies this
      ensures
        var z := CBranch(y, tl, fl, old(crslab) + 1, old(brnode));
        && text == old(text) + z.code + Mark(tl < 0, tlab) + Mark(fl < 0, flab)
        && crslab + 1 == z.lab && brnode == z.pend
      decreases Quest(d, x, y), 0
    {
      hide *;
      ghost var before, z := text, CBranch(y, tl, fl, crslab + 1, brnode);
      CondBranch(y, tl, fl);
      HasParts(before, z);
      DefLab(tl < 0, tlab);
      DefLab(fl < 0, flab);
    }

    // The condition, the first alternative, and the label of the second.
    method ToSecond(d: Tree, x: Tree, ghost y: Tree, tlab: Label, flab: Label, lab: Label)
      modifies this
      ensures Has(old(text), SecondGen(d, x, tlab, flab, lab, old(crslab) + 1, old(brnode)))
      decreases Quest(d, x, y), 0
    {
      hide *;
      ghost var before, l0, p0 := text, crslab + 1, brnode;
      ghost var a := CBranch(d, -1, lab, l0, p0);
      CondBranch(d, -1, lab);
      HasParts(before, a);
      ghost var mid, b := text, CBranch(x, tlab, flab, crslab + 1, brnode);
      CondBranch(x, tlab, flab);
      HasParts(mid, b);
      Emit(Lab(lab));
      ThenLab(before, mid, d, x, tlab, flab, lab, l0, p0);
    }
  }

  lemma TwoCode(l: Tree, r: Tree, tl: int, fl: int, lab: nat, pend: Pending)
    requires tl >= 0 || fl >= 0
    ensures
      var f := if fl < 0 then lab else fl;
      var a := CBranch(l, -1, f, if fl < 0 then lab + 1 else lab, pend);
      var b := CBranch(r, tl, fl, a.lab, a.pend);
      CBranch(And(l, r), tl, fl, lab, pend) == Gen(a.code + b.code + Mark(fl < 0, f), b.lab, b.pend)
    ensures
      var t := if tl < 0 then lab else tl;
      var a := CBranch(l, t, -1, if tl < 0 then lab + 1 else lab, pend);
      var b := CBranch(r, tl, fl, a.lab, a.pend);
      CBranch(Or(l, r), tl, fl, lab, pend) == Gen(a.code + b.code + Mark(tl < 0, t), b.lab, b.pend)
  {
  }

  lemma QuestCode(d: Tree, x: Tree, y: Tree, tl: int, fl: int, lab: nat, pend: Pending)
    requires tl >= 0 || fl >= 0
    ensures
      var f, lab1 := if fl < 0 then lab else fl, if fl < 0 then lab + 1 else lab;
      var t, l := if tl < 0 then lab1 else tl, if tl < 0 then lab1 + 1 else lab1;
      var a := CBranch(d, -1, l, l + 1, pend);
      var b := CBranch(x, t, f, a.lab, a.pend);
      var z := CBranch(y, tl, fl, b.lab, b.pend);
      CBranch(Quest(d, x, y), tl, fl, lab, pend) ==
        Gen(a.code + b.code + [Lab(l)] + z.code + Mark(tl < 0, t) + Mark(fl < 0, f), z.lab, z.pend)
  {
  }

  lemma Regroup(before: Code, a: Code, b: Code, c: Code)
    ensures before + a + b + c == before + (a + b + c)
  {
  }

  lemma RowIs(o: Relation, t: Test, l: Label, lab1: Label)
    ensures
      var r := LBRANCHES[o];
      RowCode(r, t, l, lab1, true) ==
        [CmpHi(t)] + (if r.first < 10 then [J(r.first, l)] else []) +
        (if r.second < 10 then [J(r.second, lab1)] else []) + [CmpLo(t)] + [J(r.third, l)] + [Lab(lab1)]
  {
  }
}
