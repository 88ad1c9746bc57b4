// Conditions of C as trees, what they mean, and the code that tests them.
module Conditions {
  import opened Words
  import SwitchMachine

  type Label = nat
  type Flags = SwitchMachine.Flags

  // ---- relations ----

  // The ten relations in the order both compilers number them.
  const EQ := 0
  const NE := 1
  const LE := 2
  const LT := 3
  const GE := 4
  const GT := 5
  const ULE := 6
  const ULT := 7
  const UGE := 8
  const UGT := 9

  type Relation = n: nat | n < 10

  const WORD := 0x1_0000
  const LONG := 0x1_0000_0000

  function Signed(x: int, w: int): int { if 2 * x < w then x else x - w }

  // x o y for numbers of w values.
  predicate Holds(o: Relation, x: nat, y: nat, w: nat) {
    var sx, sy := Signed(x, w), Signed(y, w);
    match o
    case 0 => x == y
    case 1 => x != y
    case 2 => sx <= sy
    case 3 => sx < sy
    case 4 => sx >= sy
    case 5 => sx > sy
    case 6 => x <= y
    case 7 => x < y
    case 8 => x >= y
    case _ => x > y
  }

  // The condition that jeq, jne, jle, jlt, jge, jgt, jlos, jlo, jhis and jhi
  // read from the codes.
  predicate Cond(o: Relation, f: Flags) {
    match o
    case 0 => f.z
    case 1 => !f.z
    case 2 => f.z || f.n != f.v
    case 3 => f.n != f.v
    case 4 => f.n == f.v
    case 5 => !f.z && f.n == f.v
    case 6 => f.c || f.z
    case 7 => f.c
    case 8 => !f.c
    case _ => !f.c && !f.z
  }

  lemma CondMeans(o: Relation, a: word, b: word)
    ensures Cond(o, SwitchMachine.Compare(a, b)) <==> Holds(o, a, b, WORD)
  {
    SwitchMachine.CompareMeans(a, b);
    assert SwitchMachine.Compare(a, b).n == SwitchMachine.Compare(a, b).v ==>
      SwitchMachine.Signed(a) >= SwitchMachine.Signed(b);
  }

  // ---- machine ----

  // A comparison, or with zero a test of one operand, of words or longs.
  datatype Test = Test(id: nat, long: bool, zero: bool)

  datatype Instr =
    | Eval(t: Test)        // code that computes the operands of t
    | Effect(id: nat)      // code for its side effects only
    | Load(v: bool)        // a constant put into the codes
    | CmpW(t: Test)        // cmp or tst of words
    | CmpRev(t: Test)      // cmp with the operands exchanged
    | CmpHi(t: Test)       // cmp or tst of the upper words
    | CmpLo(t: Test)       // and of the lower
    | J(o: Relation, l: Label)
    | Jmi(l: Label)
    | Jpl(l: Label)
    | Jbr(l: Label)
    | Lab(l: Label)

  type Code = seq<Instr>

  // What has been evaluated so far determines the values of the next test.
  type History = seq<nat>
  type Env = (History, nat) -> (nat, nat)

  function Width(t: Test): nat { if t.long then LONG else WORD }

  function Operands(e: Env, h: History, t: Test): (r: (nat, nat))
    ensures r.0 < Width(t) && r.1 < Width(t)
  {
    var v := e(h, t.id);
    (v.0 % Width(t), if t.zero then 0 else v.1 % Width(t))
  }

  // vals: the operands each test had when it was last evaluated
  datatype Cpu = Cpu(h: History, vals: map<nat, (nat, nat)>, f: Flags)
  datatype Place = At(m: Cpu) | Seek(l: Label, m: Cpu)

  function Val(m: Cpu, t: Test): (nat, nat) {
    if t.id in m.vals then m.vals[t.id] else (0, 0)
  }

  function Compared(m: Cpu, a: nat, b: nat): Place {
    At(m.(f := SwitchMachine.Compare(a % WORD, b % WORD)))
  }

  function Go(taken: bool, l: Label, m: Cpu): Place {
    if taken then Seek(l, m) else At(m)
  }

  function Step(e: Env, i: Instr, m: Cpu): Place {
    match i
    case Eval(t) => At(m.(h := m.h + [t.id], vals := m.vals[t.id := Operands(e, m.h, t)]))
    case Effect(id) => At(m.(h := m.h + [id]))
    case Load(v) => Compared(m, if v then 1 else 0, 0)
    case CmpW(t) => Compared(m, Val(m, t).0, Val(m, t).1)
    case CmpRev(t) => Compared(m, Val(m, t).1, Val(m, t).0)
    case CmpHi(t) => Compared(m, Val(m, t).0 / WORD, Val(m, t).1 / WORD)
    case CmpLo(t) => Compared(m, Val(m, t).0 % WORD, Val(m, t).1 % WORD)
    case J(o, l) => Go(Cond(o, m.f), l, m)
    case Jmi(l) => Go(m.f.n, l, m)
    case Jpl(l) => Go(!m.f.n, l, m)
    case Jbr(l) => Seek(l, m)
    case Lab(_) => At(m)
  }

  function Pass(e: Env, i: Instr, p: Place): Place {
    match p
    case At(m) => Step(e, i, m)
    case Seek(l, m) => if i == Lab(l) then At(m) else p
  }

  // Code whose own jumps all go forward.
  function Run(e: Env, code: Code, p: Place): Place {
    if code == [] then p else Run(e, code[1..], Pass(e, code[0], p))
  }

  lemma {:induction false} RunConcat(e: Env, a: Code, b: Code, p: Place)
    ensures Run(e, a + b, p) == Run(e, b, Run(e, a, p))
  {
    if a == [] {
      assert a + b == b;
    } else {
      assert (a + b)[1..] == a[1..] + b;
      RunConcat(e, a[1..], b, Pass(e, a[0], p));
    }
  }

  lemma {:induction false} RunSkips(e: Env, a: Code, l: Label, m: Cpu)
    requires Lab(l) !in a
    ensures Run(e, a, Seek(l, m)) == Seek(l, m)
  {
    if a != [] { RunSkips(e, a[1..], l, m); }
  }

  lemma RunOne(e: Env, i: Instr, p: Place)
    ensures Run(e, [i], p) == Pass(e, i, p)
  {
  }

  lemma RunFirst(e: Env, i: Instr, code: Code, m: Cpu)
    ensures Run(e, [i] + code, At(m)) == Run(e, code, Step(e, i, m))
  {
    hide Run, Step;
    RunConcat(e, [i], code, At(m));
    RunOne(e, i, At(m));
  }

  // The labels of the code are its own: lab .. lab1 - 1.
  ghost predicate Own(code: Code, lab: nat, lab1: nat) {
    lab <= lab1 && forall i | i in code && i.Lab? :: lab <= i.l < lab1
  }

  // ---- trees and their meaning ----

  datatype Tree =
    | Rel(o: Relation, t: Test)
    | Value(t: Test)
    | Const(v: bool)
    | And(l: Tree, r: Tree)
    | Or(l: Tree, r: Tree)
    | Not(c: Tree)
    | Comma(id: nat, c: Tree)
    | Quest(c: Tree, a: Tree, b: Tree)

  // The truth value, and what has been evaluated then, left to right and no
  // further than needed.
  function Sem(e: Env, c: Tree, h: History): (bool, History) {
    match c
    case Rel(o, t) => (var v := Operands(e, h, t); Holds(o, v.0, v.1, Width(t)), h + [t.id])
    case Value(t) => (Operands(e, h, t).0 != 0, h + [t.id])
    case Const(v) => (v, h)
    case And(l, r) => var s := Sem(e, l, h); if s.0 then Sem(e, r, s.1) else s
    case Or(l, r) => var s := Sem(e, l, h); if s.0 then s else Sem(e, r, s.1)
    case Not(d) => var s := Sem(e, d, h); (!s.0, s.1)
    case Comma(id, d) => Sem(e, d, h + [id])
    case Quest(d, a, b) => var s := Sem(e, d, h); if s.0 then Sem(e, a, s.1) else Sem(e, b, s.1)
  }

  // The code ends at label tl when the condition holds and at fl when it does
  // not, a negative label being the end of the code.
  ghost predicate Branches(e: Env, code: Code, c: Tree, tl: int, fl: int) {
    forall m: Cpu :: Ends(Run(e, code, At(m)), Sem(e, c, m.h), tl, fl)
  }

  ghost predicate Ends(p: Place, s: (bool, History), tl: int, fl: int) {
    var l := if s.0 then tl else fl;
    p.m.h == s.1 && if l < 0 then p.At? else p.Seek? && p.l == l
  }

  // ---- comparing longs by halves ----

  lemma Halves(o: Relation, x: nat, y: nat)
    requires x < LONG && y < LONG
    ensures
      var hx, hy, lx, ly := x / WORD, y / WORD, x % WORD, y % WORD;
      && hx < WORD && hy < WORD
      && (hx < hy ==> x < y) && (hx > hy ==> x > y) && (hx == hy ==> (x < y <==> lx < ly) && (x == y <==> lx == ly))
      && (Signed(hx, WORD) < Signed(hy, WORD) ==> Signed(x, LONG) < Signed(y, LONG))
      && (Signed(hx, WORD) > Signed(hy, WORD) ==> Signed(x, LONG) > Signed(y, LONG))
      && (hx == hy ==> (Signed(x, LONG) < Signed(y, LONG) <==> x < y))
  {
    assert x == WORD * (x / WORD) + x % WORD;
    assert y == WORD * (y / WORD) + y % WORD;
  }

  // A table row: jump to the label on `first`, past the second comparison on
  // `second`, and after it to the label on `third`.
  datatype Row = Row(first: nat, second: nat, third: nat)      // 10: no jump

  predicate May(o: nat, x: nat, y: nat) { o < 10 && Holds(o, x, y, WORD) }

  // What a row decides, from the halves.
  predicate Decides(r: Row, x: nat, y: nat) {
    if May(r.first, x / WORD, y / WORD) then true
    else if May(r.second, x / WORD, y / WORD) then false
    else May(r.third, x % WORD, y % WORD)
  }

  function Maybe(o: nat, l: Label): Code {
    if o < 10 then [J(o, l)] else []
  }

  // Code for a row: with mark, the label lab1 stands at its end.
  function RowCode(r: Row, t: Test, l: Label, lab1: Label, mark: bool): Code {
    [CmpHi(t)] + Maybe(r.first, l) + Maybe(r.second, lab1) +
    (if r.third < 10 then [CmpLo(t), J(r.third, l)] else []) +
    if mark then [Lab(lab1)] else []
  }

  lemma RunMaybe(e: Env, o: nat, l: Label, m: Cpu, a: nat, b: nat)
    requires a < WORD && b < WORD && m.f == SwitchMachine.Compare(a, b)
    ensures Run(e, Maybe(o, l), At(m)) == Go(May(o, a, b), l, m)
  {
    if o < 10 {
      CondMeans(o, a, b);
      RunOne(e, J(o, l), At(m));
    }
  }

  // The code of a row jumps to l when the row decides so and goes on if not.
  lemma RowRun(e: Env, r: Row, t: Test, l: Label, lab1: Label, mark: bool, m: Cpu)
    requires l != lab1 && (r.second < 10 ==> mark)
    requires var v := Val(m, t); v.0 < LONG && v.1 < LONG
    ensures
      var p, v := Run(e, RowCode(r, t, l, lab1, mark), At(m)), Val(m, t);
      p.m.h == m.h && if Decides(r, v.0, v.1) then p.Seek? && p.l == l else p.At?
  {
    var v := Val(m, t);
    var hx, hy, lx, ly := v.0 / WORD, v.1 / WORD, v.0 % WORD, v.1 % WORD;
    var m1 := HighRun(e, t, m);
    RowRest(e, r, t, l, lab1, mark, m1, hx, hy, lx, ly);
    var b, c := Maybe(r.first, l), Maybe(r.second, lab1);
    var d := if r.third < 10 then [CmpLo(t), J(r.third, l)] else [];
    var z := if mark then [Lab(lab1)] else [];
    assert RowCode(r, t, l, lab1, mark) == [CmpHi(t)] + (b + c + d + z);
    hide Run, Maybe, May, RowCode, Val;
    RunConcat(e, [CmpHi(t)], b + c + d + z, At(m));
  }

  lemma HighRun(e: Env, t: Test, m: Cpu) returns (m1: Cpu)
    requires var v := Val(m, t); v.0 < LONG && v.1 < LONG
    ensures Val(m, t).0 / WORD < WORD && Val(m, t).1 / WORD < WORD
    ensures m1 == m.(f := SwitchMachine.Compare(Val(m, t).0 / WORD, Val(m, t).1 / WORD)) && Val(m1, t) == Val(m, t)
    ensures Run(e, [CmpHi(t)], At(m)) == At(m1)
  {
    m1 := m.(f := SwitchMachine.Compare(Val(m, t).0 / WORD, Val(m, t).1 / WORD));
    RunOne(e, CmpHi(t), At(m));
  }

  lemma RowRest(e: Env, r: Row, t: Test, l: Label, lab1: Label, mark: bool, m: Cpu, hx: nat, hy: nat, lx: nat, ly: nat)
    requires l != lab1 && (r.second < 10 ==> mark) && hx < WORD && hy < WORD && lx < WORD && ly < WORD
    requires m.f == SwitchMachine.Compare(hx, hy) && Val(m, t).0 % WORD == lx && Val(m, t).1 % WORD == ly
    ensures
      var b, c := Maybe(r.first, l), Maybe(r.second, lab1);
      var d := if r.third < 10 then [CmpLo(t), J(r.third, l)] else [];
      var z := if mark then [Lab(lab1)] else [];
      var p := Run(e, b + c + d + z, At(m));
      var yes := if May(r.first, hx, hy) then true else if May(r.second, hx, hy) then false else May(r.third, lx, ly);
      p.m.h == m.h && if yes then p.Seek? && p.l == l else p.At?
  {
    var b, c := Maybe(r.first, l), Maybe(r.second, lab1);
    var d := if r.third < 10 then [CmpLo(t), J(r.third, l)] else [];
    var z := if mark then [Lab(lab1)] else [];
    MayBelow(r.second, hx, hy);
    hide Run, Maybe, May, Val;
    RunConcat(e, b, c, At(m));
    RunConcat(e, b + c, d, At(m));
    RunConcat(e, b + c + d, z, At(m));
    RunMaybe(e, r.first, l, m, hx, hy);
    RunMaybe(e, r.second, lab1, m, hx, hy);
    LowRun(e, r.third, t, l, m, lx, ly);
    RowEnd(e, r, t, l, lab1, mark, m);
  }

  lemma MayBelow(o: nat, x: nat, y: nat)
    ensures May(o, x, y) ==> o < 10
  {
  }

  lemma LowRun(e: Env, o: nat, t: Test, l: Label, m: Cpu, lx: nat, ly: nat)
    requires lx < WORD && ly < WORD && Val(m, t).0 % WORD == lx && Val(m, t).1 % WORD == ly
    ensures
      var p := Run(e, if o < 10 then [CmpLo(t), J(o, l)] else [], At(m));
      p.m.h == m.h && if May(o, lx, ly) then p.Seek? && p.l == l else p.At?
  {
    if o < 10 {
      var m2 := m.(f := SwitchMachine.Compare(lx, ly));
      RunConcat(e, [CmpLo(t)], [J(o, l)], At(m));
      RunOne(e, CmpLo(t), At(m));
      RunOne(e, J(o, l), At(m2));
      CondMeans(o, lx, ly);
    }
  }

  // On the way to a label the rest of the row is passed.
  lemma RowEnd(e: Env, r: Row, t: Test, l: Label, lab1: Label, mark: bool, m: Cpu)
    requires l != lab1
    ensures
      var c, d := Maybe(r.second, lab1), if r.third < 10 then [CmpLo(t), J(r.third, l)] else [];
      && Run(e, c, Seek(l, m)) == Seek(l, m)
      && Run(e, d, Seek(l, m)) == Seek(l, m) && Run(e, d, Seek(lab1, m)) == Seek(lab1, m)
    ensures
      var z := if mark then [Lab(lab1)] else [];
      forall m1: Cpu :: Run(e, z, Seek(l, m1)) == Seek(l, m1) && Run(e, z, At(m1)) == At(m1)
        && (mark ==> Run(e, z, Seek(lab1, m1)) == At(m1))
  {
    var z := if mark then [Lab(lab1)] else [];
    RunSkips(e, Maybe(r.second, lab1), l, m);
    var d := if r.third < 10 then [CmpLo(t), J(r.third, l)] else [];
    RunSkips(e, d, l, m);
    RunSkips(e, d, lab1, m);
    forall m1: Cpu
      ensures Run(e, z, Seek(l, m1)) == Seek(l, m1) && Run(e, z, At(m1)) == At(m1) &&
        (mark ==> Run(e, z, Seek(lab1, m1)) == At(m1))
    {
      if mark {
        RunOne(e, Lab(lab1), Seek(l, m1));
        RunOne(e, Lab(lab1), At(m1));
        RunOne(e, Lab(lab1), Seek(lab1, m1));
      }
    }
  }

  // ---- how the code of the parts makes up that of the whole ----

  function Mark(here: bool, l: Label): Code { if here then [Lab(l)] else [] }

  lemma RunMark(e: Env, here: bool, l: Label, p: Place)
    ensures Run(e, Mark(here, l), p) == if here && p.Seek? && p.l == l then At(p.m) else p
  {
    if here { RunOne(e, Lab(l), p); }
  }

  // a, then b unless a has jumped, then perhaps the label at the end.
  lemma RunThree(e: Env, a: Code, b: Code, here: bool, l: Label, m: Cpu)
    requires Run(e, a, At(m)).Seek? ==> Lab(Run(e, a, At(m)).l) !in b
    ensures
      var pa := Run(e, a, At(m));
      Run(e, a + b + Mark(here, l), At(m)) == Run(e, Mark(here, l), if pa.Seek? then pa else Run(e, b, pa))
  {
    var pa := Run(e, a, At(m));
    RunConcat(e, a, b, At(m));
    RunConcat(e, a + b, Mark(here, l), At(m));
    if pa.Seek? { RunSkips(e, b, pa.l, pa.m); }
  }

  lemma OwnThree(a: Code, b: Code, here: bool, l: Label, lab: nat, lab1: nat, lab2: nat)
    requires Own(a, lab, lab1) && Own(b, lab1, lab2) && (here ==> lab <= l < lab2)
    ensures Own(a + b + Mark(here, l), lab, lab2)
  {
  }

  lemma OwnMore(a: Code, lab0: nat, lab: nat, lab1: nat)
    requires Own(a, lab, lab1) && lab0 <= lab
    ensures Own(a, lab0, lab1) && forall l: Label | l < lab :: Lab(l) !in a
  {
  }

  lemma OwnLess(a: Code, lab: nat, lab1: nat)
    requires Own(a, lab, lab1)
    ensures lab <= lab1
  {
  }

  lemma SemTwo(e: Env, l: Tree, r: Tree, h: History)
    ensures Sem(e, And(l, r), h) == if Sem(e, l, h).0 then Sem(e, r, Sem(e, l, h).1) else Sem(e, l, h)
    ensures Sem(e, Or(l, r), h) == if Sem(e, l, h).0 then Sem(e, l, h) else Sem(e, r, Sem(e, l, h).1)
  {
  }

  lemma BranchAt(e: Env, code: Code, c: Tree, tl: int, fl: int, m: Cpu)
    requires Branches(e, code, c, tl, fl)
    ensures Ends(Run(e, code, At(m)), Sem(e, c, m.h), tl, fl)
  {
  }

  lemma AndRun(e: Env, a: Code, b: Code, l: Tree, r: Tree, tl: int, fl: int, f: Label, m: Cpu)
    requires Ends(Run(e, a, At(m)), Sem(e, l, m.h), -1, f) && Branches(e, b, r, tl, fl)
    requires Lab(f) !in b && (if fl < 0 then tl != f else f == fl)
    ensures Ends(Run(e, a + b + Mark(fl < 0, f), At(m)), Sem(e, And(l, r), m.h), tl, fl)
  {
    hide Run, Mark, Sem, Branches;
    var pa := Run(e, a, At(m));
    RunThree(e, a, b, fl < 0, f, m);
    if pa.At? { BranchAt(e, b, r, tl, fl, pa.m); }
    RunMark(e, fl < 0, f, if pa.Seek? then pa else Run(e, b, pa));
    SemTwo(e, l, r, m.h);
  }

  lemma OrRun(e: Env, a: Code, b: Code, l: Tree, r: Tree, tl: int, fl: int, t: Label, m: Cpu)
    requires Ends(Run(e, a, At(m)), Sem(e, l, m.h), t, -1) && Branches(e, b, r, tl, fl)
    requires Lab(t) !in b && (if tl < 0 then fl != t else t == tl)
    ensures Ends(Run(e, a + b + Mark(tl < 0, t), At(m)), Sem(e, Or(l, r), m.h), tl, fl)
  {
    hide Run, Mark, Sem, Branches;
    var pa := Run(e, a, At(m));
    RunThree(e, a, b, tl < 0, t, m);
    if pa.At? { BranchAt(e, b, r, tl, fl, pa.m); }
    RunMark(e, tl < 0, t, if pa.Seek? then pa else Run(e, b, pa));
    SemTwo(e, l, r, m.h);
  }

  lemma OwnQuest(a: Code, b: Code, z: Code, l: Label, ht: bool, t: Label, hf: bool, f: Label,
                 lab: nat, lab1: nat, lab2: nat, lab3: nat)
    requires lab <= l && Own(a, l + 1, lab1) && Own(b, lab1, lab2) && Own(z, lab2, lab3)
    requires (ht ==> lab <= t < l) && (hf ==> lab <= f < l)
    ensures Own(a + b + [Lab(l)] + z + Mark(ht, t) + Mark(hf, f), lab, lab3)
  {
  }

  lemma QuestRun(e: Env, a: Code, b: Code, z: Code, d: Tree, x: Tree, y: Tree,
                 t: Label, f: Label, l: Label, tl: int, fl: int, m: Cpu)
    requires Branches(e, a, d, -1, l) && Branches(e, b, x, t, f) && Branches(e, z, y, tl, fl)
    requires Lab(l) !in b && Lab(t) !in z && Lab(f) !in z
    requires (tl < 0 || fl < 0 ==> t != f) && t != l && f != l && (tl >= 0 ==> t == tl) && (fl >= 0 ==> f == fl)
    ensures Ends(Run(e, a + b + [Lab(l)] + z + Mark(tl < 0, t) + Mark(fl < 0, f), At(m)),
      Sem(e, Quest(d, x, y), m.h), tl, fl)
  {
    var p := FirstTwo(e, a, b, d, x, t, f, l, m);
    SemQuest(e, d, x, y, m.h);
    hide Run, Mark, Sem, Branches;
    var abl := a + b + [Lab(l)];
    if p.At? {
      BranchAt(e, z, y, tl, fl, p.m);
    } else {
      RunSkips(e, z, p.l, p.m);
    }
    var q := Run(e, z, p);
    RunMark(e, tl < 0, t, q);
    RunMark(e, fl < 0, f, Run(e, Mark(tl < 0, t), q));
    RunParts(e, abl, z, Mark(tl < 0, t), Mark(fl < 0, f), At(m));
  }

  lemma RunParts(e: Env, a: Code, b: Code, c: Code, d: Code, p: Place)
    ensures Run(e, a + b + c + d, p) == Run(e, d, Run(e, c, Run(e, b, Run(e, a, p))))
  {
    hide Run;
    RunConcat(e, a, b, p);
    RunConcat(e, a + b, c, p);
    RunConcat(e, a + b + c, d, p);
  }

  lemma SemQuest(e: Env, d: Tree, x: Tree, y: Tree, h: History)
    ensures Sem(e, Quest(d, x, y), h) == if Sem(e, d, h).0 then Sem(e, x, Sem(e, d, h).1) else Sem(e, y, Sem(e, d, h).1)
  {
  }

  // Up to the label where the second alternative begins.
  lemma FirstTwo(e: Env, a: Code, b: Code, d: Tree, x: Tree, t: Label, f: Label, l: Label, m: Cpu) returns (p: Place)
    requires Branches(e, a, d, -1, l) && Branches(e, b, x, t, f) && Lab(l) !in b && t != l && f != l
    ensures p == Run(e, a + b + [Lab(l)], At(m))
    ensures
      var s := Sem(e, d, m.h);
      if s.0 then p.Seek? && p.l == (if Sem(e, x, s.1).0 then t else f) && p.m.h == Sem(e, x, s.1).1
      else p.At? && p.m.h == s.1
  {
    hide *;
    MarkIs(l);
    BranchAt(e, a, d, -1, l, m);
    var pa := Run(e, a, At(m));
    EndsParts(pa, Sem(e, d, m.h), -1, l);
    RunThree(e, a, b, true, l, m);
    if pa.At? {
      BranchAt(e, b, x, t, f, pa.m);
      EndsParts(Run(e, b, pa), Sem(e, x, pa.m.h), t, f);
    }
    RunMark(e, true, l, if pa.Seek? then pa else Run(e, b, pa));
    p := Run(e, a + b + [Lab(l)], At(m));
  }

  lemma MarkIs(l: Label)
    ensures Mark(true, l) == [Lab(l)]
  {
  }

  lemma EndsParts(p: Place, s: (bool, History), tl: int, fl: int)
    requires Ends(p, s, tl, fl)
    ensures
      var l := if s.0 then tl else fl;
      p.m.h == s.1 && if l < 0 then p.At? else p.Seek? && p.l == l
  {
  }
}
