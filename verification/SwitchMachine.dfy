// The part of the PDP-11 that code for a C switch uses: r0, r1, the condition
// codes, labels in .text and tables of labels in .data.
module SwitchMachine {
  import opened Words

  type Label = nat

  // A word read as a signed number, and the low word of any number.
  function Signed(w: word): int { if w < 0x8000 then w else w - 0x10000 }
  function Wrap(n: int): word { n % 0x10000 }

  datatype Flags = Flags(n: bool, z: bool, v: bool, c: bool)

  // cmp a,b: the codes of a - b
  function Compare(a: word, b: word): Flags {
    var d := Wrap(a - b);
    Flags(d >= 0x8000, d == 0,
          (a < 0x8000) != (b < 0x8000) && (d < 0x8000) != (a < 0x8000),
          a < b)
  }

  datatype Instr =
    | Cmp(k: word)            // cmp r0,$k
    | Tst                     // tst r0
    | Sub(k: word)            // sub $k,r0
    | Asl0                    // asl r0
    | Asl1                    // asl r1
    | Mov01                   // mov r0,r1
    | Clr0                    // clr r0
    | Div(k: word)            // div $k,r0
    | Jeq(l: Label)
    | Jgt(l: Label)
    | Jhi(l: Label)
    | Jbr(l: Label)
    | JmpTab0(tab: Label)     // jmp *L(r0)
    | JmpTab1(tab: Label)     // jmp *L(r1)
    | Lab(l: Label)

  type Code = seq<Instr>
  type Tables = map<Label, seq<Label>>

  datatype Cpu = Cpu(r0: word, r1: word, f: Flags)

  // At: about to execute the next instruction; Seek: on the way to a label.
  datatype Place = At(cpu: Cpu) | Seek(l: Label, cpu: Cpu) | Fault

  function Branch(taken: bool, l: Label, m: Cpu): Place {
    if taken then Seek(l, m) else At(m)
  }

  function Through(t: Tables, tab: Label, offset: word, m: Cpu): Place {
    if tab in t && offset % 2 == 0 && offset / 2 < |t[tab]| then Seek(t[tab][offset / 2], m) else Fault
  }

  // One instruction.  A div with a quotient that does not fit is a Fault.
  // After an operation that is no comparison the codes are those of its
  // result against 0; no branch reads them.
  function Step(t: Tables, i: Instr, m: Cpu): Place {
    match i
    case Cmp(k) => At(m.(f := Compare(m.r0, k)))
    case Tst => At(m.(f := Compare(m.r0, 0)))
    case Sub(k) => At(m.(r0 := Wrap(m.r0 - k), f := Compare(m.r0, k)))
    case Asl0 => At(m.(r0 := Wrap(2 * m.r0), f := Compare(Wrap(2 * m.r0), 0)))
    case Asl1 => At(m.(r1 := Wrap(2 * m.r1), f := Compare(Wrap(2 * m.r1), 0)))
    case Mov01 => At(m.(r1 := m.r0, f := Compare(m.r0, 0)))
    case Clr0 => At(m.(r0 := 0, f := Compare(0, 0)))
    case Div(k) =>
      if m.r0 == 0 && 0 < k < 0x8000 && m.r1 / k < 0x8000
      then At(Cpu(m.r1 / k, m.r1 % k, Compare(m.r1 / k, 0)))
      else Fault
    case Jeq(l) => Branch(m.f.z, l, m)
    case Jgt(l) => Branch(!m.f.z && m.f.n == m.f.v, l, m)
    case Jhi(l) => Branch(!m.f.z && !m.f.c, l, m)
    case Jbr(l) => Seek(l, m)
    case JmpTab0(tab) => Through(t, tab, m.r0, m)
    case JmpTab1(tab) => Through(t, tab, m.r1, m)
    case Lab(_) => At(m)
  }

  lemma CompareMeans(a: word, b: word)
    ensures Compare(a, b).z <==> a == b
    ensures !Compare(a, b).z && !Compare(a, b).c <==> a > b
    ensures !Compare(a, b).z && Compare(a, b).n == Compare(a, b).v <==> Signed(a) > Signed(b)
  {
    assert a - b == Wrap(a - b) || a - b == Wrap(a - b) - 0x10000;
  }

  lemma SignedWrap(v: int)
    requires -0x8000 <= v < 0x8000
    ensures Signed(Wrap(v)) == v
    ensures forall w: word :: Signed(w) == v <==> w == Wrap(v)
  {
    assert Wrap(v) == if v < 0 then v + 0x10000 else v;
  }

  // Code whose jumps all go forward, read from front to back.
  function Run(t: Tables, code: Code, p: Place): Place {
    if code == [] then p else Run(t, code[1..], Pass(t, code[0], p))
  }

  function Pass(t: Tables, i: Instr, p: Place): Place {
    match p
    case At(m) => Step(t, i, m)
    case Seek(l, m) => if i == Lab(l) then At(m) else p
    case Fault => Fault
  }

  lemma {:induction false} RunConcat(t: Tables, a: Code, b: Code, p: Place)
    ensures Run(t, a + b, p) == Run(t, b, Run(t, a, p))
  {
    if a == [] {
      assert a + b == b;
    } else {
      assert (a + b)[1..] == a[1..] + b;
      RunConcat(t, a[1..], b, Pass(t, a[0], p));
    }
  }

  lemma {:induction false} RunSkips(t: Tables, a: Code, l: Label, m: Cpu)
    requires Lab(l) !in a
    ensures Run(t, a, Seek(l, m)) == Seek(l, m)
  {
    if a != [] {
      RunSkips(t, a[1..], l, m);
    }
  }

  // ---- the same code on a machine with a program counter ----

  datatype Outcome = Falls(cpu: Cpu) | Leaves(l: Label, cpu: Cpu) | Back | Crash

  ghost predicate Distinct(code: Code) {
    forall i, j | 0 <= i < j < |code| :: code[i].Lab? && code[j].Lab? ==> code[i] != code[j]
  }

  function Index(code: Code, i: Instr): (k: nat)
    requires i in code
    ensures k < |code| && code[k] == i && i !in code[..k]
  {
    if code[0] == i then 0 else
      var k := Index(code[1..], i) + 1;
      assert code[..k] == [code[0]] + code[1..][..k - 1];
      k
  }

  // A jump goes to the one place where its label stands, wherever that is.
  function Exec(t: Tables, code: Code, pc: nat, m: Cpu): Outcome
    requires pc <= |code|
    decreases |code| - pc
  {
    if pc == |code| then Falls(m)
    else match Step(t, code[pc], m)
      case At(m1) => Exec(t, code, pc + 1, m1)
      case Seek(l, m1) =>
        if Lab(l) !in code then Leaves(l, m1)
        else
          var k := Index(code, Lab(l));
          if k <= pc then Back else Exec(t, code, k, m1)
      case Fault => Crash
  }

  // Where Run says that control falls out of the code, or leaves for a label
  // the code does not define, the machine with a program counter does so too.
  lemma {:induction false} RunIsExec(t: Tables, code: Code, pc: nat, m: Cpu)
    requires pc <= |code| && Distinct(code)
    ensures
      var r := Run(t, code[pc..], At(m));
      && (r.At? ==> Exec(t, code, pc, m) == Falls(r.cpu))
      && (r.Seek? && Lab(r.l) !in code ==> Exec(t, code, pc, m) == Leaves(r.l, r.cpu))
      && (r.Fault? ==> Exec(t, code, pc, m) == Crash)
    decreases |code| - pc
  {
    if pc < |code| {
      assert code[pc..][1..] == code[pc + 1..];
      match Step(t, code[pc], m)
      case At(m1) => RunIsExec(t, code, pc + 1, m1);
      case Fault => FaultStays(t, code[pc + 1..]);
      case Seek(l, m1) =>
        if Lab(l) in code {
          var k := Index(code, Lab(l));
          if k <= pc {
            forall j | pc < j < |code| ensures code[j] != Lab(l) { assert code[k] == Lab(l); }
            RunSkips(t, code[pc + 1..], l, m1);
          } else {
            assert code[pc + 1..] == code[pc + 1..k] + code[k..];
            forall j | pc < j < k ensures code[j] != Lab(l) { assert code[j] in code[..k]; }
            RunSkips(t, code[pc + 1..k], l, m1);
            RunConcat(t, code[pc + 1..k], code[k..], Seek(l, m1));
            RunIsExec(t, code, k, m1);
            assert Run(t, code[k..], Seek(l, m1)) == Run(t, code[k..], At(m1));
          }
        } else {
          RunSkips(t, code[pc + 1..], l, m1);
        }
    }
  }

  lemma {:induction false} FaultStays(t: Tables, code: Code)
    ensures Run(t, code, Fault) == Fault
  {
    if code != [] { FaultStays(t, code[1..]); }
  }

  // ---- what a switch is to do ----

  datatype Case = Case(val: int, lab: Label)

  ghost predicate Sorted(s: seq<Case>) {
    forall i, j | 0 <= i < j < |s| :: s[i].val < s[j].val
  }

  ghost predicate Fits(s: seq<Case>) {
    forall c | c in s :: -0x8000 <= c.val < 0x8000
  }

  function Lookup(s: seq<Case>, v: int, d: Label): Label {
    if s == [] then d
    else if s[0].val == v then s[0].lab
    else Lookup(s[1..], v, d)
  }

  lemma {:induction false} LookupConcat(a: seq<Case>, b: seq<Case>, v: int, d: Label)
    ensures Lookup(a + b, v, d) == Lookup(a, v, Lookup(b, v, d))
  {
    if a == [] {
      assert a + b == b;
    } else {
      assert (a + b)[1..] == a[1..] + b;
      LookupConcat(a[1..], b, v, d);
    }
  }

  lemma {:induction false} LookupAbsent(s: seq<Case>, v: int, d: Label)
    requires forall c | c in s :: c.val != v
    ensures Lookup(s, v, d) == d
  {
    if s != [] { LookupAbsent(s[1..], v, d); }
  }

  lemma {:induction false} LookupAt(s: seq<Case>, i: nat, d: Label)
    requires i < |s| && forall j | 0 <= j < i :: s[j].val != s[i].val
    ensures Lookup(s, s[i].val, d) == s[i].lab
  {
    if i > 0 {
      assert s[1..][i - 1] == s[i];
      LookupAt(s[1..], i - 1, d);
    }
  }

  lemma {:induction false} LookupIn(s: seq<Case>, v: int, d: Label)
    ensures Lookup(s, v, d) == d || exists c :: c in s && c.lab == Lookup(s, v, d)
  {
    if s != [] {
      if s[0].val == v { assert s[0] in s; } else { LookupIn(s[1..], v, d); }
    }
  }

  // Entered with r0, the code ends at the label of the case equal to r0, and
  // at d when there is none.
  ghost predicate Dispatches(t: Tables, code: Code, s: seq<Case>, d: Label) {
    forall m: Cpu ::
      var p := Run(t, code, At(m));
      p.Seek? && p.l == Lookup(s, Signed(m.r0), d)
  }

  ghost predicate Goes(t: Tables, code: Code, m: Cpu, l: Label) {
    var p := Run(t, code, At(m));
    p.Seek? && p.l == l
  }

  ghost predicate Has(s: seq<Case>, v: int) {
    exists c :: c in s && c.val == v
  }

  // On the machine with a program counter, with slab < 0 for a switch that
  // has no default: what no case matches falls out of the end of the code.
  ghost predicate Switches(t: Tables, code: Code, s: seq<Case>, slab: int) {
    forall m: Cpu ::
      var o := Exec(t, code, 0, m);
      if Has(s, Signed(m.r0)) then o.Leaves? && o.l == Lookup(s, Signed(m.r0), 0)
      else if slab >= 0 then o.Leaves? && o.l == slab
      else o.Falls?
  }

  lemma LookupHas(s: seq<Case>, v: int, d: Label, e: Label)
    ensures if Has(s, v) then Lookup(s, v, d) == Lookup(s, v, e) else Lookup(s, v, d) == d
  {
    if s != [] {
      LookupHas(s[1..], v, d, e);
      if Has(s, v) && s[0].val != v {
        var c :| c in s && c.val == v;
        assert c in s[1..];
      }
      if Has(s[1..], v) {
        var c :| c in s[1..] && c.val == v;
        assert c in s;
      }
      if s[0].val == v { assert s[0] in s; }
    }
  }

  // No label of s is defined in the code.
  ghost predicate Outside(code: Code, s: seq<Case>) {
    forall c | c in s :: Lab(c.lab) !in code
  }

  lemma DispatchesSwitches(t: Tables, code: Code, s: seq<Case>, slab: nat)
    requires Dispatches(t, code, s, slab) && Distinct(code)
    requires Outside(code, s) && Lab(slab) !in code
    ensures Switches(t, code, s, slab)
  {
    forall m: Cpu
      ensures
        var o := Exec(t, code, 0, m);
        o.Leaves? && o.l == Lookup(s, Signed(m.r0), slab)
    {
      assert code[0..] == code;
      RunIsExec(t, code, 0, m);
      LookupIn(s, Signed(m.r0), slab);
    }
    forall m: Cpu
      ensures
        var v := Signed(m.r0);
        if Has(s, v) then Lookup(s, v, slab) == Lookup(s, v, 0) else Lookup(s, v, slab) == slab
    {
      LookupHas(s, Signed(m.r0), slab, 0);
    }
  }

  // The default label d stands at the end of the code.
  lemma DispatchesFalls(t: Tables, code: Code, s: seq<Case>, d: Label)
    requires Dispatches(t, code, s, d) && Distinct(code + [Lab(d)])
    requires Outside(code, s) && forall c | c in s :: c.lab != d
    ensures Switches(t, code + [Lab(d)], s, -1)
  {
    forall m: Cpu
      ensures
        var o := Exec(t, code + [Lab(d)], 0, m);
        if Has(s, Signed(m.r0)) then o.Leaves? && o.l == Lookup(s, Signed(m.r0), 0) else o.Falls?
    {
      var all := code + [Lab(d)];
      assert all[0..] == all;
      RunIsExec(t, all, 0, m);
      RunConcat(t, code, [Lab(d)], At(m));
      LookupIn(s, Signed(m.r0), d);
      LookupHas(s, Signed(m.r0), d, 0);
      if Has(s, Signed(m.r0)) {
        var c :| c in s && c.val == Signed(m.r0);
        LookupFound(s, c.val, d);
      }
    }
  }

  lemma {:induction false} LookupFound(s: seq<Case>, v: int, d: Label)
    requires Has(s, v)
    ensures exists c :: c in s && c.lab == Lookup(s, v, d)
  {
    if s[0].val == v {
      assert s[0] in s;
    } else {
      var c :| c in s && c.val == v;
      assert c in s[1..];
      LookupFound(s[1..], v, d);
    }
  }

  // ---- a row of tests for equality ----

  function Test(c: Case, tst: bool): Code {
    [if tst && c.val == 0 then Tst else Cmp(Wrap(c.val)), Jeq(c.lab)]
  }

  function Tests(s: seq<Case>, tst: bool): Code {
    if s == [] then [] else Test(s[0], tst) + Tests(s[1..], tst)
  }

  lemma {:induction false} TestsNoLabels(s: seq<Case>, tst: bool)
    ensures forall i | i in Tests(s, tst) :: !i.Lab?
  {
    if s != [] { TestsNoLabels(s[1..], tst); }
  }

  lemma {:induction false} TestsAppend(s: seq<Case>, c: Case, tst: bool)
    ensures Tests(s + [c], tst) == Tests(s, tst) + Test(c, tst)
  {
    if s == [] {
      assert s + [c] == [c];
    } else {
      assert (s + [c])[1..] == s[1..] + [c];
      TestsAppend(s[1..], c, tst);
    }
  }

  // What the tests see of a list: the low words of the values.
  function AsWords(s: seq<Case>): seq<Case> {
    if s == [] then [] else [Case(Signed(Wrap(s[0].val)), s[0].lab)] + AsWords(s[1..])
  }

  lemma {:induction false} AsWordsFits(s: seq<Case>)
    requires Fits(s)
    ensures AsWords(s) == s
  {
    if s != [] {
      assert s[0] in s;
      SignedWrap(s[0].val);
      AsWordsFits(s[1..]);
    }
  }

  lemma {:induction false} TestsRun(t: Tables, s: seq<Case>, tst: bool, m: Cpu)
    ensures
      var p, ws := Run(t, Tests(s, tst), At(m)), AsWords(s);
      if Has(ws, Signed(m.r0)) then p.Seek? && p.l == Lookup(ws, Signed(m.r0), 0)
      else p.At? && p.cpu.r0 == m.r0
  {
    if s != [] {
      var c, ws, v := s[0], AsWords(s), Signed(m.r0);
      assert ws[0] in ws && ws[1..] == AsWords(s[1..]);
      CompareMeans(m.r0, Wrap(c.val));
      var m1 := m.(f := Compare(m.r0, Wrap(c.val)));
      RunConcat(t, Test(c, tst), Tests(s[1..], tst), At(m));
      TestRun(t, c, tst, m);
      if Wrap(c.val) == m.r0 {
        TestsNoLabels(s[1..], tst);
        RunSkips(t, Tests(s[1..], tst), c.lab, m1);
      } else {
        assert ws[0].val != v;
        TestsRun(t, s[1..], tst, m1);
        if Has(ws, v) {
          var e :| e in ws && e.val == v;
          assert e in ws[1..];
        }
      }
    }
  }

  lemma TestRun(t: Tables, c: Case, tst: bool, m: Cpu)
    ensures Run(t, Test(c, tst), At(m)) ==
            var m1 := m.(f := Compare(m.r0, Wrap(c.val)));
            if m1.f.z then Seek(c.lab, m1) else At(m1)
  {
    var i, m1 := Test(c, tst)[0], m.(f := Compare(m.r0, Wrap(c.val)));
    assert Test(c, tst) == [i] + [Jeq(c.lab)];
    RunConcat(t, [i], [Jeq(c.lab)], At(m));
    assert Run(t, [i], At(m)) == At(m1);
  }

  // ---- the jump table ----

  // One word for every value from that of the first case to that of the last.
  function Table(s: seq<Case>, d: Label): (r: seq<Label>)
    requires s != [] && Sorted(s)
  {
    seq<Label>(s[|s| - 1].val - s[0].val + 1, k => Lookup(s, s[0].val + k, d))
  }

  function Direct(s: seq<Case>, d: Label, tab: Label): Code
    requires s != [] && Sorted(s)
  {
    (if s[0].val != 0 then [Sub(Wrap(s[0].val))] else []) +
    [Cmp(Wrap(s[|s| - 1].val - s[0].val)), Jhi(d), Asl0, JmpTab0(tab)]
  }

  // sub, cmp and jhi send every word to the right entry or to the default,
  // also where the subtraction wraps around.
  lemma DirectDispatches(t: Tables, s: seq<Case>, d: Label, tab: Label)
    requires s != [] && Sorted(s) && Fits(s) && s[|s| - 1].val - s[0].val < 0x8000
    requires tab in t && t[tab] == Table(s, d)
    ensures Dispatches(t, Direct(s, d, tab), s, d)
  {
    forall m: Cpu ensures Goes(t, Direct(s, d, tab), m, Lookup(s, Signed(m.r0), d)) {
      var lo, range := s[0].val, s[|s| - 1].val - s[0].val;
      assert s[0] in s && s[|s| - 1] in s;
      DirectRun(t, t[tab], lo, range, d, tab, m);
      WrapSigned(m.r0, lo, range);
      if Wrap(m.r0 - lo) > range {
        LookupAbsent(s, Signed(m.r0), d);
      }
    }
  }

  lemma DirectRun(t: Tables, table: seq<Label>, lo: int, range: nat, d: Label, tab: Label, m: Cpu)
    requires range < 0x8000 && |table| == range + 1 && tab in t && t[tab] == table
    ensures
      var r := Wrap(m.r0 - lo);
      Goes(t, (if lo != 0 then [Sub(Wrap(lo))] else []) + [Cmp(Wrap(range)), Jhi(d), Asl0, JmpTab0(tab)], m,
           if r <= range then table[r] else d)
  {
    var first := if lo != 0 then [Sub(Wrap(lo))] else [];
    var rest := [Cmp(Wrap(range)), Jhi(d), Asl0, JmpTab0(tab)];
    RunConcat(t, first, rest, At(m));
    WrapSub(m.r0, lo);
    TableRun(t, table, range, d, tab, Run(t, first, At(m)).cpu);
  }

  lemma WrapSub(r: word, lo: int)
    ensures Wrap(r - Wrap(lo)) == Wrap(r - lo)
  {
    assert r - Wrap(lo) == r - lo + 0x10000 * (lo / 0x10000);
  }

  // r - lo as a word is at most range exactly for the values of the table.
  lemma WrapSigned(r: word, lo: int, range: int)
    requires -0x8000 <= lo <= lo + range < 0x8000
    ensures Wrap(r - lo) <= range <==> lo <= Signed(r) <= lo + range
    ensures Wrap(r - lo) <= range ==> Signed(r) == lo + Wrap(r - lo)
  {
    assert Wrap(r - lo) == if r - lo < 0 then r - lo + 0x10000 else if r - lo < 0x10000 then r - lo
      else r - lo - 0x10000;
  }

  lemma TableRun(t: Tables, table: seq<Label>, range: nat, d: Label, tab: Label, m: Cpu)
    requires range < 0x8000 && |table| == range + 1 && tab in t && t[tab] == table
    ensures Goes(t, [Cmp(Wrap(range)), Jhi(d), Asl0, JmpTab0(tab)], m, if m.r0 <= range then table[m.r0] else d)
  {
    var m1 := m.(f := Compare(m.r0, Wrap(range)));
    CompareMeans(m.r0, Wrap(range));
    assert Run(t, [Cmp(Wrap(range)), Jhi(d), Asl0, JmpTab0(tab)], At(m)) ==
      Run(t, [Jhi(d), Asl0, JmpTab0(tab)], At(m1));
    if m.r0 > range {
      assert Run(t, [Jhi(d), Asl0, JmpTab0(tab)], At(m1)) == Run(t, [Asl0, JmpTab0(tab)], Seek(d, m1));
      assert Run(t, [Asl0, JmpTab0(tab)], Seek(d, m1)) == Run(t, [JmpTab0(tab)], Seek(d, m1));
      assert Run(t, [JmpTab0(tab)], Seek(d, m1)) == Seek(d, m1);
    } else {
      var m2 := m1.(r0 := Wrap(2 * m.r0), f := Compare(Wrap(2 * m.r0), 0));
      assert Run(t, [Jhi(d), Asl0, JmpTab0(tab)], At(m1)) == Run(t, [Asl0, JmpTab0(tab)], At(m1));
      assert Run(t, [Asl0, JmpTab0(tab)], At(m1)) == Run(t, [JmpTab0(tab)], At(m2));
      assert Run(t, [JmpTab0(tab)], At(m2)) == Through(t, tab, m2.r0, m2);
    }
  }
}
