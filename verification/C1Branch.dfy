// ccom/c11.c: cbranch, branch and xlongrel of the c1 pass.
module C1Branch {
  import opened Conditions
  import SwitchMachine

  // maprel: the relation with its operands exchanged; notrel: its opposite.
  const MAPREL: seq<nat> := [EQ, NE, GE, GT, LE, LT, UGE, UGT, ULE, ULT]
  const NOTREL: seq<nat> := [NE, EQ, GT, GE, LT, LE, UGT, UGE, ULT, ULE]

  function Maprel(o: Relation): Relation { MAPREL[o] }
  function Notrel(o: Relation): Relation { NOTREL[o] }

  lemma TablesMean(o: Relation, x: nat, y: nat, w: nat)
    ensures Holds(Maprel(o), y, x, w) == Holds(o, x, y, w)
    ensures Holds(Notrel(o), x, y, w) == !Holds(o, x, y, w)
  {
  }

  // lrtab, by whether the comparison is with 0
  const LRTAB: seq<seq<Row>> := [
    [Row(10, NE, EQ), Row(NE, 10, NE), Row(LT, GT, ULE), Row(LT, GT, ULT), Row(GT, LT, UGE),
     Row(GT, LT, UGT), Row(ULT, UGT, ULE), Row(ULT, UGT, ULT), Row(UGT, ULT, UGE), Row(UGT, ULT, UGT)],
    [Row(10, NE, EQ), Row(NE, 10, NE), Row(LT, GT, EQ), Row(LT, 10, 10), Row(GE, 10, 10),
     Row(GT, LT, NE), Row(ULT, UGT, EQ), Row(ULT, 10, 10), Row(UGE, 10, 10), Row(UGT, ULT, NE)]]

  function Lrtab(zero: bool, o: Relation): Row { LRTAB[if zero then 1 else 0][o] }

  // Each row decides its relation between longs, with fewer tests for 0.
  lemma LongRows(zero: bool, o: Relation, x: nat, y: nat)
    requires x < LONG && y < LONG && (zero ==> y == 0)
    ensures Decides(Lrtab(zero, o), x, y) <==> Holds(o, x, y, LONG)
    ensures Lrtab(zero, o).third == 10 ==> Lrtab(zero, o).second == 10
  {
    Halves(o, x, y);
  }

  // The rows 200+ of branchtab, used after tst; c chooses the inverted test.
  // skip is a label for jmijne.
  function TstBranch(o: Relation, c: bool, l: Label, skip: Label): Code {
    match if c then Notrel(o) else o
    case 2 => [Jmi(l), J(EQ, l)]
    case 3 => [Jmi(l)]
    case 4 => [Jpl(l)]
    case 5 => [Jmi(skip), J(NE, l), Lab(skip)]
    case 6 => [J(EQ, l)]
    case 7 => []
    case 8 => [Jbr(l)]
    case 9 => [J(NE, l)]
    case n => [J(n, l)]
  }

  // Labels that branch makes for it.
  function Skips(o: Relation, c: bool): nat { if (if c then Notrel(o) else o) == GT then 1 else 0 }

  lemma TstRun(e: Env, o: Relation, c: bool, l: Label, skip: Label, m: Cpu, x: nat)
    requires x < WORD && l != skip && m.f == SwitchMachine.Compare(x, 0)
    ensures
      var p := Run(e, TstBranch(o, c, l, skip), At(m));
      p.m == m && if Holds(o, x, 0, WORD) != c then p.Seek? && p.l == l else p.At?
  {
    var o1: Relation := if c then Notrel(o) else o;
    TablesMean(o, x, 0, WORD);
    CondMeans(o1, x, 0);
    CondMeans(EQ, x, 0);
    CondMeans(NE, x, 0);
    assert m.f.n == (x >= 0x8000);
    if o1 == LE {
      RunConcat(e, [Jmi(l)], [J(EQ, l)], At(m));
      RunOne(e, Jmi(l), At(m));
      RunOne(e, J(EQ, l), Run(e, [Jmi(l)], At(m)));
      assert [Jmi(l)] + [J(EQ, l)] == [Jmi(l), J(EQ, l)];
    } else if o1 == GT {
      GreatRun(e, l, skip, m);
    }
  }

  lemma GreatRun(e: Env, l: Label, skip: Label, m: Cpu)
    requires l != skip
    ensures Run(e, [Jmi(skip), J(NE, l), Lab(skip)], At(m)) == if m.f.n || m.f.z then At(m) else Seek(l, m)
  {
    var a, b := Run(e, [Jmi(skip)], At(m)), Run(e, [J(NE, l)], Run(e, [Jmi(skip)], At(m)));
    RunOne(e, Jmi(skip), At(m));
    RunOne(e, J(NE, l), a);
    RunOne(e, Lab(skip), b);
    RunConcat(e, [Jmi(skip)], [J(NE, l)], At(m));
    RunConcat(e, [Jmi(skip)] + [J(NE, l)], [Lab(skip)], At(m));
    assert [Jmi(skip)] + [J(NE, l)] + [Lab(skip)] == [Jmi(skip), J(NE, l), Lab(skip)];
  }

  // ---- cbranch ----

  datatype Gen = Gen(code: Code, isn: nat)

  // The default arm and longrel: the test of o (or of != 0), to lbl when its
  // truth is cond.
  function TestCode(o: Relation, t: Test, lbl: Label, cond: bool, isn: nat): Gen {
    if t.long then
      var r := Lrtab(t.zero, if cond then o else Notrel(o));
      Gen([Eval(t)] + RowCode(r, t, lbl, isn, r.second < 10), if r.second < 10 then isn + 1 else isn)
    else if t.zero then Gen([Eval(t), CmpW(t)] + TstBranch(o, !cond, lbl, isn), isn + Skips(o, !cond))
    else
      var o1 := Maprel(o);
      Gen([Eval(t), CmpRev(t), J(if cond then o1 else Notrel(o1), lbl)], isn)
  }

  // if (x): the relation is NEQUAL and the table that without 200.
  function ValueCode(t: Test, lbl: Label, cond: bool, isn: nat): Gen {
    var z := t.(zero := true);
    if t.long then TestCode(NE, z, lbl, cond, isn)
    else Gen([Eval(z), CmpW(z), J(if cond then NE else EQ, lbl)], isn)
  }

  // The label is lbl; labels from isn on are free.
  function CBranch(c: Tree, lbl: Label, cond: bool, isn: nat): Gen
    decreases c
  {
    match c
    case Rel(o, t) => TestCode(o, t, lbl, cond, isn)
    case Value(t) => ValueCode(t, lbl, cond, isn)
    case Const(v) => Gen([Load(v), J(if cond then NE else EQ, lbl)], isn)
    case Not(d) => CBranch(d, lbl, !cond, isn)
    case Comma(id, d) =>
      var g := CBranch(d, lbl, cond, isn);
      Gen([Effect(id)] + g.code, g.isn)
    case And(l, r) =>
      var a := if cond then CBranch(l, isn, false, isn + 1) else CBranch(l, lbl, false, isn);
      var b := CBranch(r, lbl, cond, a.isn);
      Gen(a.code + b.code + Mark(cond, isn), b.isn)
    case Or(l, r) =>
      var a := if cond then CBranch(l, lbl, true, isn) else CBranch(l, isn, true, isn + 1);
      var b := CBranch(r, lbl, cond, a.isn);
      Gen(a.code + b.code + Mark(!cond, isn), b.isn)
    case Quest(d, x, y) =>
      var a := CBranch(d, isn, false, isn + 2);
      var b := CBranch(x, lbl, cond, a.isn);
      var z := CBranch(y, lbl, cond, b.isn);
      Gen(a.code + (b.code + [Jbr(isn + 1)]) + [Lab(isn)] + z.code + [Lab(isn + 1)], z.isn)
  }

  // The labels for true and false of a branch to lbl on cond.
  function TrueLab(lbl: Label, cond: bool): int { if cond then lbl else -1 }
  function FalseLab(lbl: Label, cond: bool): int { if cond then -1 else lbl }

  ghost predicate Good(e: Env, g: Gen, c: Tree, lbl: Label, cond: bool, isn: nat) {
    Own(g.code, isn, g.isn) && Branches(e, g.code, c, TrueLab(lbl, cond), FalseLab(lbl, cond))
  }

  lemma GoodParts(e: Env, g: Gen, c: Tree, lbl: Label, cond: bool, isn: nat)
    requires Good(e, g, c, lbl, cond, isn)
    ensures Own(g.code, isn, g.isn) && g.isn >= isn
    ensures Branches(e, g.code, c, TrueLab(lbl, cond), FalseLab(lbl, cond))
  {
  }

  // cbranch evaluates the tests in short-circuit order, and goes to lbl when
  // the condition has the truth value cond and on when it has not.
  lemma {:induction false} CBranchRight(e: Env, c: Tree, lbl: Label, cond: bool, isn: nat)
    requires lbl < isn
    ensures Good(e, CBranch(c, lbl, cond, isn), c, lbl, cond, isn)
    decreases c
  {
    hide Good, TestCode, ValueCode, Mark, Run, Sem, TrueLab, FalseLab;
    match c
    case Rel(o, t) => RelGood(e, o, t, lbl, cond, isn);
    case Value(t) => ValueGood(e, t, lbl, cond, isn);
    case Const(v) => ConstGood(e, v, lbl, cond, isn);
    case Not(d) =>
      CBranchRight(e, d, lbl, !cond, isn);
      NotGood(e, CBranch(d, lbl, !cond, isn), d, lbl, cond, isn);
    case Comma(id, d) =>
      CBranchRight(e, d, lbl, cond, isn);
      CommaGood(e, CBranch(d, lbl, cond, isn), id, d, lbl, cond, isn);
    case And(l, r) =>
      var l1, isn1 := if cond then isn else lbl, if cond then isn + 1 else isn;
      CBranchRight(e, l, l1, false, isn1);
      var a := CBranch(l, l1, false, isn1);
      GoodParts(e, a, l, l1, false, isn1);
      CBranchRight(e, r, lbl, cond, a.isn);
      AndGood(e, a, CBranch(r, lbl, cond, a.isn), l, r, lbl, cond, isn);
    case Or(l, r) =>
      var l1, isn1 := if cond then lbl else isn, if cond then isn else isn + 1;
      CBranchRight(e, l, l1, true, isn1);
      var a := CBranch(l, l1, true, isn1);
      GoodParts(e, a, l, l1, true, isn1);
      CBranchRight(e, r, lbl, cond, a.isn);
      OrGood(e, a, CBranch(r, lbl, cond, a.isn), l, r, lbl, cond, isn);
    case Quest(d, x, y) =>
      CBranchRight(e, d, isn, false, isn + 2);
      var a := CBranch(d, isn, false, isn + 2);
      GoodParts(e, a, d, isn, false, isn + 2);
      CBranchRight(e, x, lbl, cond, a.isn);
      var b := CBranch(x, lbl, cond, a.isn);
      GoodParts(e, b, x, lbl, cond, a.isn);
      CBranchRight(e, y, lbl, cond, b.isn);
      QuestGood(e, a, b, CBranch(y, lbl, cond, b.isn), d, x, y, lbl, cond, isn);
  }

  // ---- the leaves ----

  // The place a test leads to: lbl when v is cond.
  ghost predicate Leads(p: Place, h: History, v: bool, lbl: Label, cond: bool) {
    p.m.h == h && if v == cond then p.Seek? && p.l == lbl else p.At?
  }

  lemma LeadsEnds(p: Place, h: History, v: bool, lbl: Label, cond: bool)
    requires Leads(p, h, v, lbl, cond)
    ensures Ends(p, (v, h), TrueLab(lbl, cond), FalseLab(lbl, cond))
  {
  }

  function Evaluated(e: Env, t: Test, m: Cpu): Cpu {
    m.(h := m.h + [t.id], vals := m.vals[t.id := Operands(e, m.h, t)])
  }

  lemma EvalThen(e: Env, t: Test, code: Code, m: Cpu)
    ensures Run(e, [Eval(t)] + code, At(m)) == Run(e, code, At(Evaluated(e, t, m)))
    ensures Val(Evaluated(e, t, m), t) == Operands(e, m.h, t)
  {
    assert Step(e, Eval(t), m) == At(Evaluated(e, t, m));
    hide Run, Step, Operands;
    RunFirst(e, Eval(t), code, m);
  }

  lemma TestLeads(e: Env, o: Relation, t: Test, lbl: Label, cond: bool, isn: nat, m: Cpu)
    requires lbl < isn
    ensures
      var v := Operands(e, m.h, t);
      Leads(Run(e, TestCode(o, t, lbl, cond, isn).code, At(m)), m.h + [t.id], Holds(o, v.0, v.1, Width(t)), lbl, cond)
  {
    if t.long {
      LongLeads(e, o, t, lbl, cond, isn, m);
    } else if t.zero {
      ZeroLeads(e, o, t, lbl, cond, isn, m);
    } else {
      WordLeads(e, o, t, lbl, cond, isn, m);
    }
  }

  lemma LongLeads(e: Env, o: Relation, t: Test, lbl: Label, cond: bool, isn: nat, m: Cpu)
    requires lbl < isn && t.long
    ensures
      var v := Operands(e, m.h, t);
      Leads(Run(e, TestCode(o, t, lbl, cond, isn).code, At(m)), m.h + [t.id], Holds(o, v.0, v.1, Width(t)), lbl, cond)
  {
    var v, o1: Relation := Operands(e, m.h, t), if cond then o else Notrel(o);
    var r, m1 := Lrtab(t.zero, o1), Evaluated(e, t, m);
    EvalThen(e, t, RowCode(r, t, lbl, isn, r.second < 10), m);
    TablesMean(o, v.0, v.1, LONG);
    LongRows(t.zero, o1, v.0, v.1);
    hide Run, RowCode, Decides, Holds, Lrtab, Notrel, Val;
    RowRun(e, r, t, lbl, isn, r.second < 10, m1);
  }

  lemma ZeroLeads(e: Env, o: Relation, t: Test, lbl: Label, cond: bool, isn: nat, m: Cpu)
    requires lbl < isn && !t.long && t.zero
    ensures
      var v := Operands(e, m.h, t);
      Leads(Run(e, TestCode(o, t, lbl, cond, isn).code, At(m)), m.h + [t.id], Holds(o, v.0, v.1, Width(t)), lbl, cond)
  {
    var v, m1 := Operands(e, m.h, t), Evaluated(e, t, m);
    var tst := TstBranch(o, !cond, lbl, isn);
    assert TestCode(o, t, lbl, cond, isn).code == [Eval(t)] + ([CmpW(t)] + tst);
    hide TestCode, Run, Step, TstBranch, Holds, Val;
    EvalThen(e, t, [CmpW(t)] + tst, m);
    CmpWThen(e, t, tst, m1);
    TstRun(e, o, !cond, lbl, isn, m1.(f := SwitchMachine.Compare(v.0, 0)), v.0);
  }

  lemma CmpWThen(e: Env, t: Test, code: Code, m: Cpu)
    requires Val(m, t).0 < WORD && Val(m, t).1 < WORD
    ensures
      var v := Val(m, t);
      Run(e, [CmpW(t)] + code, At(m)) == Run(e, code, At(m.(f := SwitchMachine.Compare(v.0, v.1))))
  {
    var v := Val(m, t);
    assert Step(e, CmpW(t), m) == At(m.(f := SwitchMachine.Compare(v.0, v.1)));
    hide Run, Step, Val, SwitchMachine.Compare;
    RunFirst(e, CmpW(t), code, m);
  }

  lemma WordLeads(e: Env, o: Relation, t: Test, lbl: Label, cond: bool, isn: nat, m: Cpu)
    requires !t.long && !t.zero
    ensures
      var v := Operands(e, m.h, t);
      Leads(Run(e, TestCode(o, t, lbl, cond, isn).code, At(m)), m.h + [t.id], Holds(o, v.0, v.1, Width(t)), lbl, cond)
  {
    var v, m1 := Operands(e, m.h, t), Evaluated(e, t, m);
    var o1: Relation := if cond then Maprel(o) else Notrel(Maprel(o));
    var rest := [CmpRev(t), J(o1, lbl)];
    assert TestCode(o, t, lbl, cond, isn).code == [Eval(t)] + rest;
    hide TestCode, Run, Step, Holds, Val, Maprel, Notrel;
    EvalThen(e, t, rest, m);
    CmpRevJumps(e, o1, t, lbl, m1);
    TablesMean(o, v.0, v.1, WORD);
    TablesMean(Maprel(o), v.1, v.0, WORD);
  }

  // The comparison sets the codes of its second operand against its first, and
  // the jump goes by them.
  lemma CmpRevJumps(e: Env, o: Relation, t: Test, lbl: Label, m: Cpu)
    requires Val(m, t).0 < WORD && Val(m, t).1 < WORD
    ensures
      var v := Val(m, t);
      Leads(Run(e, [CmpRev(t), J(o, lbl)], At(m)), m.h, Holds(o, v.1, v.0, WORD), lbl, true)
  {
    var x, y := Val(m, t).1, Val(m, t).0;
    CondMeans(o, x, y);
    var m1 := m.(f := SwitchMachine.Compare(x, y));
    CmpRevStep(e, t, m);
    hide Run, Step, Val, Holds, Cond, SwitchMachine.Compare;
    JumpAfter(e, CmpRev(t), o, lbl, m, m1);
  }

  lemma CmpRevStep(e: Env, t: Test, m: Cpu)
    requires Val(m, t).0 < WORD && Val(m, t).1 < WORD
    ensures Step(e, CmpRev(t), m) == At(m.(f := SwitchMachine.Compare(Val(m, t).1, Val(m, t).0)))
  {
    hide SwitchMachine.Compare, Val;
  }

  lemma JumpAfter(e: Env, i: Instr, o: Relation, lbl: Label, m: Cpu, m1: Cpu)
    requires Step(e, i, m) == At(m1)
    ensures Run(e, [i, J(o, lbl)], At(m)) == Go(Cond(o, m1.f), lbl, m1)
  {
    assert [i, J(o, lbl)] == [i] + [J(o, lbl)];
    JumpStep(e, o, lbl, m1);
    hide Run, Step, Go, Cond;
    RunFirst(e, i, [J(o, lbl)], m);
    RunOne(e, J(o, lbl), At(m1));
  }

  lemma JumpStep(e: Env, o: Relation, lbl: Label, m: Cpu)
    ensures Step(e, J(o, lbl), m) == Go(Cond(o, m.f), lbl, m)
  {
    hide Go, Cond;
  }

  lemma TestOwn(o: Relation, t: Test, lbl: Label, cond: bool, isn: nat)
    ensures Own(TestCode(o, t, lbl, cond, isn).code, isn, TestCode(o, t, lbl, cond, isn).isn)
  {
  }

  lemma RelGood(e: Env, o: Relation, t: Test, lbl: Label, cond: bool, isn: nat)
    requires lbl < isn
    ensures Good(e, TestCode(o, t, lbl, cond, isn), Rel(o, t), lbl, cond, isn)
  {
    TestOwn(o, t, lbl, cond, isn);
    var code := TestCode(o, t, lbl, cond, isn).code;
    hide Own, TestCode, Run, TrueLab, FalseLab, Leads;
    forall m: Cpu ensures Ends(Run(e, code, At(m)), Sem(e, Rel(o, t), m.h), TrueLab(lbl, cond), FalseLab(lbl, cond)) {
      TestLeads(e, o, t, lbl, cond, isn, m);
      var v := Operands(e, m.h, t);
      LeadsEnds(Run(e, code, At(m)), m.h + [t.id], Holds(o, v.0, v.1, Width(t)), lbl, cond);
    }
  }

  lemma ValueGood(e: Env, t: Test, lbl: Label, cond: bool, isn: nat)
    requires lbl < isn
    ensures Good(e, ValueCode(t, lbl, cond, isn), Value(t), lbl, cond, isn)
  {
    var z, g := t.(zero := true), ValueCode(t, lbl, cond, isn);
    TestOwn(NE, z, lbl, cond, isn);
    hide TestCode, Run, TrueLab, FalseLab, Leads;
    forall m: Cpu ensures Ends(Run(e, g.code, At(m)), Sem(e, Value(t), m.h), TrueLab(lbl, cond), FalseLab(lbl, cond)) {
      ValueLeads(e, t, lbl, cond, isn, m);
      LeadsEnds(Run(e, g.code, At(m)), m.h + [t.id], Operands(e, m.h, t).0 != 0, lbl, cond);
    }
  }

  lemma ValueLeads(e: Env, t: Test, lbl: Label, cond: bool, isn: nat, m: Cpu)
    requires lbl < isn
    ensures Leads(Run(e, ValueCode(t, lbl, cond, isn).code, At(m)), m.h + [t.id], Operands(e, m.h, t).0 != 0, lbl, cond)
  {
    var z := t.(zero := true);
    assert Operands(e, m.h, z) == (Operands(e, m.h, t).0, 0);
    if t.long {
      TestLeads(e, NE, z, lbl, cond, isn, m);
    } else {
      var x, o: Relation := Operands(e, m.h, z).0, if cond then NE else EQ;
      var m1 := Evaluated(e, z, m);
      var m2 := m1.(f := SwitchMachine.Compare(x, 0));
      EvalThen(e, z, [CmpW(z)] + [J(o, lbl)], m);
      assert Step(e, CmpW(z), m1) == At(m2);
      RunOne(e, CmpW(z), At(m1));
      RunOne(e, J(o, lbl), At(m2));
      CondMeans(o, x, 0);
      RunConcat(e, [CmpW(z)], [J(o, lbl)], At(m1));
      assert [Eval(z), CmpW(z), J(o, lbl)] == [Eval(z)] + ([CmpW(z)] + [J(o, lbl)]);
    }
  }

  lemma ConstGood(e: Env, v: bool, lbl: Label, cond: bool, isn: nat)
    ensures Good(e, Gen([Load(v), J(if cond then NE else EQ, lbl)], isn), Const(v), lbl, cond, isn)
  {
    var o: Relation := if cond then NE else EQ;
    forall m: Cpu
      ensures Ends(Run(e, [Load(v), J(o, lbl)], At(m)), Sem(e, Const(v), m.h), TrueLab(lbl, cond), FalseLab(lbl, cond))
    {
      var x := if v then 1 else 0;
      var m1 := m.(f := SwitchMachine.Compare(x, 0));
      RunConcat(e, [Load(v)], [J(o, lbl)], At(m));
      RunOne(e, Load(v), At(m));
      RunOne(e, J(o, lbl), At(m1));
      CondMeans(o, x, 0);
      assert [Load(v)] + [J(o, lbl)] == [Load(v), J(o, lbl)];
    }
  }

  // ---- the inner nodes ----

  lemma NotGood(e: Env, g: Gen, d: Tree, lbl: Label, cond: bool, isn: nat)
    requires Good(e, g, d, lbl, !cond, isn)
    ensures Good(e, g, Not(d), lbl, cond, isn)
  {
    GoodParts(e, g, d, lbl, !cond, isn);
    hide Own, Run, Sem, Branches, Good;
    forall m: Cpu ensures Ends(Run(e, g.code, At(m)), Sem(e, Not(d), m.h), TrueLab(lbl, cond), FalseLab(lbl, cond)) {
      BranchAt(e, g.code, d, TrueLab(lbl, !cond), FalseLab(lbl, !cond), m);
      SemOne(e, d, 0, m.h);
    }
    MakeGood(e, g, Not(d), lbl, cond, isn);
  }

  lemma SemOne(e: Env, d: Tree, id: nat, h: History)
    ensures Sem(e, Not(d), h) == (!Sem(e, d, h).0, Sem(e, d, h).1)
    ensures Sem(e, Comma(id, d), h) == Sem(e, d, h + [id])
  {
  }

  lemma CommaGood(e: Env, g: Gen, id: nat, d: Tree, lbl: Label, cond: bool, isn: nat)
    requires Good(e, g, d, lbl, cond, isn)
    ensures Good(e, Gen([Effect(id)] + g.code, g.isn), Comma(id, d), lbl, cond, isn)
  {
    GoodParts(e, g, d, lbl, cond, isn);
    assert Own([Effect(id)] + g.code, isn, g.isn);
    hide Own, Run, Sem, Branches, Good, TrueLab, FalseLab;
    forall m: Cpu
      ensures Ends(Run(e, [Effect(id)] + g.code, At(m)), Sem(e, Comma(id, d), m.h), TrueLab(lbl, cond),
        FalseLab(lbl, cond))
    {
      var m1 := m.(h := m.h + [id]);
      RunConcat(e, [Effect(id)], g.code, At(m));
      RunOne(e, Effect(id), At(m));
      BranchAt(e, g.code, d, TrueLab(lbl, cond), FalseLab(lbl, cond), m1);
      SemOne(e, d, id, m.h);
    }
    MakeGood(e, Gen([Effect(id)] + g.code, g.isn), Comma(id, d), lbl, cond, isn);
  }

  lemma AndGood(e: Env, a: Gen, b: Gen, l: Tree, r: Tree, lbl: Label, cond: bool, isn: nat)
    requires lbl < isn
    requires
      var l1, isn1 := if cond then isn else lbl, if cond then isn + 1 else isn;
      Good(e, a, l, l1, false, isn1) && Good(e, b, r, lbl, cond, a.isn)
    ensures Good(e, Gen(a.code + b.code + Mark(cond, isn), b.isn), And(l, r), lbl, cond, isn)
  {
    var l1, isn1 := if cond then isn else lbl, if cond then isn + 1 else isn;
    var code := a.code + b.code + Mark(cond, isn);
    GoodParts(e, a, l, l1, false, isn1);
    GoodParts(e, b, r, lbl, cond, a.isn);
    hide Own, Run, Mark, Sem, Branches, Good;
    OwnMore(a.code, isn, isn1, a.isn);
    OwnMore(b.code, a.isn, a.isn, b.isn);
    OwnThree(a.code, b.code, cond, isn, isn, a.isn, b.isn);
    MarkNone(l1, isn);
    forall m: Cpu ensures Ends(Run(e, code, At(m)), Sem(e, And(l, r), m.h), TrueLab(lbl, cond), FalseLab(lbl, cond)) {
      BranchAt(e, a.code, l, -1, l1, m);
      AndRun(e, a.code, b.code, l, r, TrueLab(lbl, cond), FalseLab(lbl, cond), l1, m);
    }
    MakeGood(e, Gen(code, b.isn), And(l, r), lbl, cond, isn);
  }

  lemma MarkNone(l: Label, k: Label)
    ensures Mark(false, l) == Mark(false, k)
  {
  }

  lemma MakeGood(e: Env, g: Gen, c: Tree, lbl: Label, cond: bool, isn: nat)
    requires Own(g.code, isn, g.isn)
    requires forall m: Cpu :: Ends(Run(e, g.code, At(m)), Sem(e, c, m.h), TrueLab(lbl, cond), FalseLab(lbl, cond))
    ensures Good(e, g, c, lbl, cond, isn)
  {
  }

  lemma OrGood(e: Env, a: Gen, b: Gen, l: Tree, r: Tree, lbl: Label, cond: bool, isn: nat)
    requires lbl < isn
    requires
      var l1, isn1 := if cond then lbl else isn, if cond then isn else isn + 1;
      Good(e, a, l, l1, true, isn1) && Good(e, b, r, lbl, cond, a.isn)
    ensures Good(e, Gen(a.code + b.code + Mark(!cond, isn), b.isn), Or(l, r), lbl, cond, isn)
  {
    var l1, isn1 := if cond then lbl else isn, if cond then isn else isn + 1;
    var code := a.code + b.code + Mark(!cond, isn);
    GoodParts(e, a, l, l1, true, isn1);
    GoodParts(e, b, r, lbl, cond, a.isn);
    hide Own, Run, Mark, Sem, Branches, Good;
    OwnMore(a.code, isn, isn1, a.isn);
    OwnMore(b.code, a.isn, a.isn, b.isn);
    OwnThree(a.code, b.code, !cond, isn, isn, a.isn, b.isn);
    MarkNone(l1, isn);
    forall m: Cpu ensures Ends(Run(e, code, At(m)), Sem(e, Or(l, r), m.h), TrueLab(lbl, cond), FalseLab(lbl, cond)) {
      BranchAt(e, a.code, l, l1, -1, m);
      OrRun(e, a.code, b.code, l, r, TrueLab(lbl, cond), FalseLab(lbl, cond), l1, m);
    }
    MakeGood(e, Gen(code, b.isn), Or(l, r), lbl, cond, isn);
  }

  // Falling out of the code now leads to label j.
  lemma ThenJump(e: Env, code: Code, c: Tree, tl: int, fl: int, j: Label)
    requires Branches(e, code, c, tl, fl)
    ensures Branches(e, code + [Jbr(j)], c, if tl < 0 then j else tl, if fl < 0 then j else fl)
  {
    hide Run, Sem;
    forall m: Cpu
      ensures Ends(Run(e, code + [Jbr(j)], At(m)), Sem(e, c, m.h), if tl < 0 then j else tl, if fl < 0 then j else fl)
    {
      BranchAt(e, code, c, tl, fl, m);
      RunConcat(e, code, [Jbr(j)], At(m));
      RunOne(e, Jbr(j), Run(e, code, At(m)));
    }
  }

  lemma QuestGood(e: Env, a: Gen, b: Gen, z: Gen, d: Tree, x: Tree, y: Tree, lbl: Label, cond: bool, isn: nat)
    requires lbl < isn
    requires Good(e, a, d, isn, false, isn + 2) && Good(e, b, x, lbl, cond, a.isn) && Good(e, z, y, lbl, cond, b.isn)
    ensures Good(e, Gen(a.code + (b.code + [Jbr(isn + 1)]) + [Lab(isn)] + z.code + [Lab(isn + 1)], z.isn),
                 Quest(d, x, y), lbl, cond, isn)
  {
    hide Own, Run, Sem, Branches, Good;
    GoodParts(e, a, d, isn, false, isn + 2);
    GoodParts(e, b, x, lbl, cond, a.isn);
    GoodParts(e, z, y, lbl, cond, b.isn);
    var code := a.code + (b.code + [Jbr(isn + 1)]) + [Lab(isn)] + z.code + [Lab(isn + 1)];
    QuestOwn(a.code, b.code, z.code, isn, a.isn, b.isn, z.isn);
    OwnMore(z.code, b.isn, b.isn, z.isn);
    forall m: Cpu ensures Ends(Run(e, code, At(m)), Sem(e, Quest(d, x, y), m.h), TrueLab(lbl, cond),
      FalseLab(lbl, cond)) {
      QuestAt(e, a.code, b.code, z.code, d, x, y, lbl, cond, isn, m);
    }
    MakeGood(e, Gen(code, z.isn), Quest(d, x, y), lbl, cond, isn);
  }

  lemma QuestAt(e: Env, a: Code, b: Code, z: Code, d: Tree, x: Tree, y: Tree, lbl: Label, cond: bool, isn: nat, m: Cpu)
    requires Branches(e, a, d, -1, isn) && lbl < isn
    requires Branches(e, b, x, TrueLab(lbl, cond), FalseLab(lbl, cond))
    requires Branches(e, z, y, TrueLab(lbl, cond), FalseLab(lbl, cond))
    requires Lab(isn) !in b + [Jbr(isn + 1)] && Lab(isn + 1) !in z && Lab(lbl) !in z
    ensures Ends(Run(e, a + (b + [Jbr(isn + 1)]) + [Lab(isn)] + z + [Lab(isn + 1)], At(m)),
                 Sem(e, Quest(d, x, y), m.h), TrueLab(lbl, cond), FalseLab(lbl, cond))
  {
    hide Run, Sem, Branches, Mark;
    var j, b1 := isn + 1, b + [Jbr(isn + 1)];
    if cond {
      ThenJump(e, b, x, lbl, -1, j);
      QuestRun(e, a, b1, z, d, x, y, lbl, j, isn, lbl, -1, m);
      MarkLast(a + b1 + [Lab(isn)] + z, lbl, j);
    } else {
      ThenJump(e, b, x, -1, lbl, j);
      QuestRun(e, a, b1, z, d, x, y, j, lbl, isn, -1, lbl, m);
      MarkLast(a + b1 + [Lab(isn)] + z, lbl, j);
    }
  }

  lemma MarkLast(code: Code, l: Label, j: Label)
    ensures code + Mark(false, l) + Mark(true, j) == code + [Lab(j)]
    ensures code + Mark(true, j) + Mark(false, l) == code + [Lab(j)]
  {
  }

  lemma QuestOwn(a: Code, b: Code, z: Code, isn: nat, isn1: nat, isn2: nat, isn3: nat)
    requires Own(a, isn + 2, isn1) && Own(b, isn1, isn2) && Own(z, isn2, isn3)
    ensures Own(a + (b + [Jbr(isn + 1)]) + [Lab(isn)] + z + [Lab(isn + 1)], isn, isn3)
    ensures Lab(isn) !in b + [Jbr(isn + 1)]
  {
  }

  // ---- the generator ----

  class Emitter {
    var text: Code
    var isn: nat

    constructor ()
      ensures text == [] && isn == 10000
    {
      text, isn := [], 10000;
    }

    method Emit(i: Instr)
      modifies this`text
      ensures text == old(text) + [i]
    {
      text := text + [i];
    }

    // longrel and the two calls of xlongrel, for the relation op
    method LongRel(t: Test, op: Relation, lbl: Label)
      modifies this
      ensures
        var r := Lrtab(t.zero, op);
        text == old(text) + RowCode(r, t, lbl, old(isn), r.second < 10)
      ensures isn == old(isn) + if Lrtab(t.zero, op).second < 10 then 1 else 0
    {
      var r := Lrtab(t.zero, op);
      var xlab2 := isn;
      Emit(CmpHi(t));
      if r.first < 10 { Emit(J(r.first, lbl)); }
      if r.second < 10 {
        isn := isn + 1;
        Emit(J(r.second, xlab2));
      }
      RowThird(t.zero, op);
      if r.third < 10 {
        Emit(CmpLo(t));
        Emit(J(r.third, lbl));
        if r.second < 10 { Emit(Lab(xlab2)); }
      }
    }

    // branch and prins after tst
    method TstJump(o: Relation, c: bool, lbl: Label)
      modifies this
      ensures text == old(text) + TstBranch(o, c, lbl, old(isn)) && isn == old(isn) + Skips(o, c)
    {
      text := text + TstBranch(o, c, lbl, isn);
      if (if c then Notrel(o) else o) == GT { isn := isn + 1; }
    }

    method TestJump(o: Relation, t: Test, lbl: Label, cond: bool)
      modifies this
      ensures
        var g := TestCode(o, t, lbl, cond, old(isn));
        text == old(text) + g.code && isn == g.isn
    {
      hide RowCode, TstBranch, Lrtab, Maprel, Notrel, Skips;
      Emit(Eval(t));
      if t.long {
        LongRel(t, if cond then o else Notrel(o), lbl);
      } else if t.zero {
        Emit(CmpW(t));
        TstJump(o, !cond, lbl);
      } else {
        Emit(CmpRev(t));
        var o1 := Maprel(o);
        Emit(J(if cond then o1 else Notrel(o1), lbl));
      }
    }

    // cbranch
    method CondBranch(c: Tree, lbl: Label, cond: bool)
      modifies this
      ensures
        var g := CBranch(c, lbl, cond, old(isn));
        text == old(text) + g.code && isn == g.isn
      decreases c, 1
    {
      hide TestCode, Mark;
      match c
      case Rel(o, t) => TestJump(o, t, lbl, cond);
      case Value(t) =>
        var z := t.(zero := true);
        if t.long {
          TestJump(NE, z, lbl, cond);
        } else {
          Emit(Eval(z));
          Emit(CmpW(z));
          Emit(J(if cond then NE else EQ, lbl));
        }
      case Const(v) =>
        Emit(Load(v));
        Emit(J(if cond then NE else EQ, lbl));
      case Not(d) => CondBranch(d, lbl, !cond);
      case Comma(id, d) =>
        Emit(Effect(id));
        CondBranch(d, lbl, cond);
      case And(l, r) => LogAnd(l, r, lbl, cond);
      case Or(l, r) => LogOr(l, r, lbl, cond);
      case Quest(d, x, y) => Conditional(d, x, y, lbl, cond);
    }

    method LogAnd(l: Tree, r: Tree, lbl: Label, cond: bool)
      modifies this
      ensures
        var g := CBranch(And(l, r), lbl, cond, old(isn));
        text == old(text) + g.code && isn == g.isn
      decreases And(l, r), 0
    {
      hide CBranch, TestCode, ValueCode;
      AndCode(l, r, lbl, cond, isn);
      if cond {
        var l1 := isn;
        isn := isn + 1;
        CondBranch(l, l1, false);
        CondBranch(r, lbl, true);
        Emit(Lab(l1));
      } else {
        CondBranch(l, lbl, false);
        CondBranch(r, lbl, false);
      }
    }

    method LogOr(l: Tree, r: Tree, lbl: Label, cond: bool)
      modifies this
      ensures
        var g := CBranch(Or(l, r), lbl, cond, old(isn));
        text == old(text) + g.code && isn == g.isn
      decreases Or(l, r), 0
    {
      hide CBranch, TestCode, ValueCode;
      OrCode(l, r, lbl, cond, isn);
      if cond {
        CondBranch(l, lbl, true);
        CondBranch(r, lbl, true);
      } else {
        var l1 := isn;
        isn := isn + 1;
        CondBranch(l, l1, true);
        CondBranch(r, lbl, false);
        Emit(Lab(l1));
      }
    }

    method Conditional(d: Tree, x: Tree, y: Tree, lbl: Label, cond: bool)
      modifies this
      ensures
        var g := CBranch(Quest(d, x, y), lbl, cond, old(isn));
        text == old(text) + g.code && isn == g.isn
      decreases Quest(d, x, y), 0
    {
      hide CBranch, TestCode, ValueCode;
      QuestCode(d, x, y, lbl, cond, isn);
      ghost var before := text;
      var l1 := isn;
      isn := isn + 2;
      CondBranch(d, l1, false);
      ghost var a := CBranch(d, l1, false, l1 + 2);
      CondBranch(x, lbl, cond);
      Emit(Jbr(l1 + 1));
      Emit(Lab(l1));
      ghost var b := CBranch(x, lbl, cond, a.isn);
      assert text == before + (a.code + (b.code + [Jbr(l1 + 1)]) + [Lab(l1)]);
      CondBranch(y, lbl, cond);
      Emit(Lab(l1 + 1));
    }
  }

  lemma AndCode(l: Tree, r: Tree, lbl: Label, cond: bool, isn: nat)
    ensures
      var a := if cond then CBranch(l, isn, false, isn + 1) else CBranch(l, lbl, false, isn);
      var b := CBranch(r, lbl, cond, a.isn);
      CBranch(And(l, r), lbl, cond, isn) == Gen(a.code + b.code + Mark(cond, isn), b.isn)
  {
  }

  lemma OrCode(l: Tree, r: Tree, lbl: Label, cond: bool, isn: nat)
    ensures
      var a := if cond then CBranch(l, lbl, true, isn) else CBranch(l, isn, true, isn + 1);
      var b := CBranch(r, lbl, cond, a.isn);
      CBranch(Or(l, r), lbl, cond, isn) == Gen(a.code + b.code + Mark(!cond, isn), b.isn)
  {
  }

  lemma QuestCode(d: Tree, x: Tree, y: Tree, lbl: Label, cond: bool, isn: nat)
    ensures
      var a := CBranch(d, isn, false, isn + 2);
      var b := CBranch(x, lbl, cond, a.isn);
      var z := CBranch(y, lbl, cond, b.isn);
      CBranch(Quest(d, x, y), lbl, cond, isn) ==
        Gen(a.code + (b.code + [Jbr(isn + 1)]) + [Lab(isn)] + z.code + [Lab(isn + 1)], z.isn)
  {
  }

  // Where there is no third test there is no label to go past it either.
  lemma RowThird(zero: bool, o: Relation)
    ensures Lrtab(zero, o).third >= 10 ==> Lrtab(zero, o).second >= 10
  {
  }
}
