// The assembler's choice between short and long jumps, for one segment:
// as/as16.c lays the program out with provisional sizes, the first pass of
// as/as26.c settles every jump with the running correction brdelt, and the
// second emits.
module Relax {

  const BRLEN := 1024

  datatype Stmt =
    | Label(l: nat)
    | Fixed(n: nat)       // an instruction or data of n bytes
    | Even
    | Jbr(l: nat)
    | Jcc(l: nat)

  predicate IsJump(s: Stmt) { s.Jbr? || s.Jcc? }

  type Program = seq<Stmt>
  type Vals = map<nat, int>

  function Align(dot: nat): nat { dot + dot % 2 }

  // ---- pass 1 ----

  datatype S1 = S1(dot: nat, vals: Vals)

  // 376 is the decimal constant of the source, and the comparison for jcc
  // lacks the minus sign.
  function Step1(s: S1, st: Stmt): S1 {
    match st
    case Label(l) => s.(vals := s.vals[l := s.dot])
    case Fixed(n) => s.(dot := s.dot + n)
    case Even => s.(dot := Align(s.dot))
    case Jbr(l) =>
      if l !in s.vals || s.vals[l] - s.dot > 0 || s.vals[l] - s.dot < -376 then s.(dot := s.dot + 4)
      else s.(dot := s.dot + 2)
    case Jcc(l) =>
      if l !in s.vals || s.vals[l] - s.dot > 0 || s.vals[l] - s.dot < 376 then s.(dot := s.dot + 6)
      else s.(dot := s.dot + 2)
  }

  function After1(p: Program, k: nat): S1
    requires k <= |p|
  {
    if k == 0 then S1(0, map[]) else Step1(After1(p, k - 1), p[k - 1])
  }

  // ---- pass 2 ----

  datatype S2 = S2(dot: nat, vals: Vals, brdelt: int, bits: seq<bool>)

  function ValueOf(vals: Vals, l: nat): int { if l in vals then vals[l] else 0 }

  // setbr: the distance to the label, corrected for a label further on.
  function Estimate(s: S2, l: nat): int {
    var v := ValueOf(s.vals, l) - s.dot;
    if v > 0 then v - s.brdelt else v
  }

  predicate InRange(v: int) { -254 <= v <= 256 }

  function Step2(s: S2, st: Stmt): S2 {
    match st
    case Label(l) => s.(brdelt := ValueOf(s.vals, l) - s.dot, vals := s.vals[l := s.dot])
    case Fixed(n) => s.(dot := s.dot + n)
    case Even => s.(dot := Align(s.dot))
    case Jbr(l) =>
      var long := !InRange(Estimate(s, l));
      s.(dot := s.dot + (if long then 4 else 2), bits := s.bits + [long])
    case Jcc(l) =>
      var long := !InRange(Estimate(s, l));
      s.(dot := s.dot + (if long then 6 else 2), bits := s.bits + [long])
  }

  function After2(p: Program, k: nat): S2
    requires k <= |p|
  {
    if k == 0 then S2(0, After1(p, |p|).vals, 0, []) else Step2(After2(p, k - 1), p[k - 1])
  }

  // ---- pass 3 ----

  // What a jump becomes: a branch with its displacement byte, a jmp (for jcc
  // behind an inverted branch over it), or the error "branch offset too big".
  datatype Emit = Br(disp: int) | Jmp(target: int) | SkipJmp(target: int) | ErrorB

  datatype S3 = S3(dot: nat, brtabp: nat, out: seq<Emit>, phase: bool)

  // dobranch
  function Branch(v: int): Emit {
    if !InRange(v) || v % 2 != 0 then ErrorB else Br((v / 2 - 1) % 0x100)
  }

  function Step3(vals: Vals, bits: seq<bool>, s: S3, st: Stmt): S3 {
    match st
    case Label(l) => s.(phase := s.phase && ValueOf(vals, l) == s.dot)
    case Fixed(n) => s.(dot := s.dot + n)
    case Even => s.(dot := Align(s.dot))
    case Jbr(l) =>
      var long, v := GetBr(bits, s.brtabp), ValueOf(vals, l);
      S3(s.dot + (if long then 4 else 2), s.brtabp + 1,
         s.out + [if long then Jmp(v) else Branch(v - s.dot)], s.phase)
    case Jcc(l) =>
      var long, v := GetBr(bits, s.brtabp), ValueOf(vals, l);
      S3(s.dot + (if long then 6 else 2), s.brtabp + 1,
         s.out + [if long then SkipJmp(v) else Branch(v - s.dot)], s.phase)
  }

  function GetBr(bits: seq<bool>, k: nat): bool { k >= |bits| || bits[k] }

  function After3(p: Program, k: nat): S3
    requires k <= |p|
  {
    if k == 0 then S3(0, 0, [], true)
    else Step3(After2(p, |p|).vals, After2(p, |p|).bits, After3(p, k - 1), p[k - 1])
  }

  // ---- addresses ----

  function A1(p: Program, k: nat): nat
    requires k <= |p|
  {
    After1(p, k).dot
  }

  function A2(p: Program, k: nat): nat
    requires k <= |p|
  {
    After2(p, k).dot
  }

  // By how much the layout of pass 2 has fallen behind that of pass 1.
  function Shrink(p: Program, k: nat): int
    requires k <= |p|
  {
    A1(p, k) - A2(p, k)
  }

  // Each label is defined once, and each jump has its label.
  ghost predicate WellFormed(p: Program) {
    && (forall i, j | 0 <= i < j < |p| :: p[i].Label? && p[j].Label? ==> p[i] != p[j])
    && (forall i | 0 <= i < |p| :: IsJump(p[i]) ==> Label(p[i].l) in p)
  }

  function At(p: Program, l: nat): (i: nat)
    requires Label(l) in p
    ensures i < |p| && p[i] == Label(l)
  {
    if p[0] == Label(l) then 0 else At(p[1..], l) + 1
  }

  lemma {:induction false} Vals1(p: Program, k: nat)
    requires WellFormed(p) && k <= |p|
    ensures forall i | 0 <= i < k && p[i].Label? ::
              p[i].l in After1(p, k).vals && After1(p, k).vals[p[i].l] == A1(p, i)
    ensures forall l | l in After1(p, k).vals :: exists i :: 0 <= i < k && p[i] == Label(l)
  {
    if k > 0 { Vals1(p, k - 1); }
  }

  // Pass 2 sees a label at its new address once it is past it, and where
  // pass 1 put it before that.
  lemma {:induction false} Vals2(p: Program, k: nat)
    requires WellFormed(p) && k <= |p|
    ensures forall i | 0 <= i < |p| && p[i].Label? ::
              ValueOf(After2(p, k).vals, p[i].l) == if i < k then A2(p, i) else A1(p, i)
  {
    if k == 0 { Vals1(p, |p|); } else { Vals2(p, k - 1); }
  }

  // The last label among the first k statements, or 0.
  function LastLabel(p: Program, k: nat): (i: nat)
    requires k <= |p|
    ensures i <= k
  {
    if k == 0 then 0 else if p[k - 1].Label? then k - 1 else LastLabel(p, k - 1)
  }

  lemma {:induction false} Delta(p: Program, k: nat)
    requires WellFormed(p) && k <= |p|
    ensures After2(p, k).brdelt == Shrink(p, LastLabel(p, k))
  {
    if k > 0 {
      Delta(p, k - 1);
      Vals2(p, k - 1);
    }
  }

  // Jumps change size by an even number, so .even pads alike in all passes.
  lemma {:induction false} Parity(p: Program, k: nat)
    requires k <= |p|
    ensures Shrink(p, k) % 2 == 0
  {
    if k > 0 { Parity(p, k - 1); }
  }

  lemma {:induction false} Ascends(p: Program, i: nat, j: nat)
    requires i <= j <= |p|
    ensures A1(p, i) <= A1(p, j) && A2(p, i) <= A2(p, j)
    ensures i < j && IsJump(p[i]) ==> A1(p, i) + 2 <= A1(p, j) && A2(p, i) + 2 <= A2(p, j)
    decreases j
  {
    if i < j { Ascends(p, i, j - 1); }
  }

  // ---- soundness of the estimate ----

  // By how much the final distance of the jump at k to the label at j falls
  // short of setbr's estimate: what shrinks between the last label before the
  // jump and that label, and from the beginning when pass 2 has already come
  // past the place where pass 1 put the label.
  function Uncorrected(p: Program, k: nat, j: nat): int
    requires k <= |p| && j <= |p|
  {
    if j < k then 0
    else if A2(p, k) < A1(p, j) then Shrink(p, j) - Shrink(p, LastLabel(p, k))
    else Shrink(p, j)
  }

  lemma EstimateExact(p: Program, k: nat, j: nat)
    requires WellFormed(p) && k < |p| && j < |p| && IsJump(p[k]) && p[j] == Label(p[k].l)
    ensures Estimate(After2(p, k), p[k].l) == A2(p, j) - A2(p, k) + Uncorrected(p, k, j)
  {
    ValueAt(p, k, j);
    Delta(p, k);
    if j < k { Ascends(p, j, k); }
    hide After1, After2, LastLabel;
  }

  lemma ValueAt(p: Program, k: nat, j: nat)
    requires WellFormed(p) && k <= |p| && j < |p| && p[j].Label?
    ensures ValueOf(After2(p, k).vals, p[j].l) == if j < k then A2(p, j) else A1(p, j)
  {
    Vals2(p, k);
  }

  // Pass 1 gave each of the first n statements at least its size in pass 2.
  ghost predicate Covers(p: Program, n: nat)
    requires n <= |p|
  {
    forall k | 0 <= k < n :: A1(p, k + 1) - A1(p, k) >= A2(p, k + 1) - A2(p, k)
  }

  lemma {:induction false} ShrinkGrows(p: Program, i: nat, j: nat)
    requires i <= j <= |p| && Covers(p, j)
    ensures 0 <= Shrink(p, i) <= Shrink(p, j)
    decreases j
  {
    if i < j {
      ShrinkGrows(p, i, j - 1);
      assert A1(p, j - 1 + 1) - A1(p, j - 1) >= A2(p, j - 1 + 1) - A2(p, j - 1);
    } else if j > 0 {
      ShrinkGrows(p, j - 1, j - 1);
      assert A1(p, j - 1 + 1) - A1(p, j - 1) >= A2(p, j - 1 + 1) - A2(p, j - 1);
    }
  }

  // The estimate never undershoots, so a jump marked short stays in range.
  lemma RangeSound(p: Program, k: nat, j: nat)
    requires WellFormed(p) && Covers(p, |p|)
    requires k < |p| && j < |p| && IsJump(p[k]) && p[j] == Label(p[k].l)
    ensures var v := A2(p, j) - A2(p, k);
      && (j > k ==> v <= Estimate(After2(p, k), p[k].l))
      && (InRange(Estimate(After2(p, k), p[k].l)) ==> InRange(v))
  {
    ShrinkGrows(p, k, |p|);
    if j > k {
      Ascends(p, k, j);
      EstimateExact(p, k, j);
      CoversLess(p, j);
      ShrinkGrows(p, LastLabel(p, k), j);
    } else {
      EstimateExact(p, k, j);
    }
  }

  lemma CoversLess(p: Program, n: nat)
    requires n <= |p| && Covers(p, |p|)
    ensures Covers(p, n)
  {
  }

  // No jbr to a label behind it lies 255 to 376 bytes away in pass 1.
  ghost predicate NoGap(p: Program)
    requires WellFormed(p)
  {
    forall k | 0 <= k < |p| && p[k].Jbr? ::
      At(p, p[k].l) < k ==> !(255 <= A1(p, k) - A1(p, At(p, p[k].l)) <= 376)
  }

  lemma {:induction false} NoGapCovers(p: Program, n: nat)
    requires WellFormed(p) && NoGap(p) && n <= |p|
    ensures Covers(p, n)
  {
    if n > 0 {
      NoGapCovers(p, n - 1);
      SizeCovered(p, n - 1);
      forall k | 0 <= k < n ensures A1(p, k + 1) - A1(p, k) >= A2(p, k + 1) - A2(p, k) {}
    }
  }

  lemma SizeCovered(p: Program, k: nat)
    requires WellFormed(p) && NoGap(p) && k < |p| && Covers(p, k)
    ensures A1(p, k + 1) - A1(p, k) >= A2(p, k + 1) - A2(p, k)
  {
    Parity(p, k);
    if p[k].Jcc? {
      var j := At(p, p[k].l);
      Vals1(p, k);
      if j < k { Ascends(p, j, k); }
    }
    if p[k].Jbr? && A1(p, k + 1) - A1(p, k) == 2 {
      JbrCovered(p, k);
    }
  }

  // A jbr that pass 1 takes to be short goes back, and is short in pass 2.
  lemma JbrCovered(p: Program, k: nat)
    requires WellFormed(p) && NoGap(p) && k < |p| && Covers(p, k) && p[k].Jbr? && A1(p, k + 1) - A1(p, k) == 2
    ensures A2(p, k + 1) - A2(p, k) <= 2
  {
    var l := p[k].l;
    var j := At(p, l);
    Vals1(p, k);
    var i :| 0 <= i < k && p[i] == Label(l);
    assert i == j;
    Ascends(p, j, k);
    ShrinkGrows(p, j, k);
    EstimateExact(p, k, j);
    assert p[k].Jbr? && At(p, p[k].l) < k;
  }

  // ---- the last pass ----

  lemma {:induction false} BitsPrefix(p: Program, k: nat, n: nat)
    requires k <= n <= |p|
    ensures After2(p, k).bits <= After2(p, n).bits
    ensures k < n && IsJump(p[k]) ==> |After2(p, k).bits| < |After2(p, n).bits|
    decreases n
  {
    if k < n { BitsPrefix(p, k, n - 1); }
  }

  // Pass 3 has every statement where pass 2 had it, so no label changes.
  lemma {:induction false} SamePlaces(p: Program, k: nat)
    requires WellFormed(p) && k <= |p|
    ensures After3(p, k).dot == A2(p, k) && After3(p, k).phase
    ensures After3(p, k).brtabp == |After2(p, k).bits| == |After3(p, k).out|
  {
    if k > 0 {
      SamePlaces(p, k - 1);
      if p[k - 1].Label? { ValueAt(p, |p|, k - 1); }
      if IsJump(p[k - 1]) { BitAt(p, k - 1); }
    }
  }

  // Where a branch at address d with a displacement byte goes.
  function BranchTarget(d: int, disp: int): int {
    d + 2 + 2 * (if disp < 0x80 then disp else disp - 0x100)
  }

  lemma BranchDecodes(d: int, v: int)
    requires InRange(v) && v % 2 == 0
    ensures Branch(v).Br? && 0 <= Branch(v).disp < 0x100 && BranchTarget(d, Branch(v).disp) == d + v
  {
    var h := v / 2 - 1;
    assert h % 0x100 == if h < 0 then h + 0x100 else h;
  }

  // What the jump at k has become once the program is assembled.
  function Emitted(p: Program, k: nat): Emit
    requires WellFormed(p) && k < |p| && IsJump(p[k])
  {
    SamePlaces(p, k);
    SamePlaces(p, k + 1);
    After3(p, k + 1).out[|After3(p, k).out|]
  }

  // setbr takes the jump at k to be in range of the label at j, but the
  // program between them shrinks by less than setbr reckons with.
  predicate Misjudged(p: Program, k: nat, j: nat)
    requires k < |p| && j < |p| && IsJump(p[k])
  {
    var v := Estimate(After2(p, k), p[k].l);
    InRange(v) && v - Uncorrected(p, k, j) > 256
  }

  // Each jump goes to where pass 3 puts its label, as a branch or as a jmp; it
  // fails if and only if it is taken to be in range and is misjudged or has
  // its label an odd number of bytes away.
  lemma JumpsLand(p: Program, k: nat, j: nat)
    requires WellFormed(p) && k < |p| && j < |p| && IsJump(p[k]) && p[j] == Label(p[k].l)
    ensures After3(p, |p|).phase && After3(p, j).dot == A2(p, j) && After3(p, k).dot == A2(p, k)
    ensures
      var e := Emitted(p, k);
      && (e.Br? ==> 0 <= e.disp < 0x100 && BranchTarget(A2(p, k), e.disp) == A2(p, j))
      && (e.Jmp? ==> p[k].Jbr? && e.target == A2(p, j) && A2(p, k + 1) == A2(p, k) + 4)
      && (e.SkipJmp? ==> p[k].Jcc? && e.target == A2(p, j) && A2(p, k + 1) == A2(p, k) + 6)
    ensures Emitted(p, k) == ErrorB <==>
      Misjudged(p, k, j) || (InRange(Estimate(After2(p, k), p[k].l)) && (A1(p, j) - A1(p, k)) % 2 != 0)
    ensures Emitted(p, k) in After3(p, |p|).out
  {
    hide After1, After2, After3, WellFormed, Uncorrected;
    EstimateExact(p, k, j);
    ForwardOnly(p, k, j);
    SamePlaces(p, k);
    SamePlaces(p, j);
    SamePlaces(p, |p|);
    JumpEmits(p, k, j);
    var v := A2(p, j) - A2(p, k);
    if InRange(v) && v % 2 == 0 { BranchDecodes(A2(p, k), v); }
    Parity(p, j);
    Parity(p, k);
    assert (A1(p, j) - A1(p, k)) % 2 == v % 2;
  }

  // A label behind the jump is where setbr takes it to be, and one further on
  // stays further on.
  lemma ForwardOnly(p: Program, k: nat, j: nat)
    requires WellFormed(p) && k < |p| && j < |p| && IsJump(p[k]) && p[j] == Label(p[k].l)
    ensures if j < k then Uncorrected(p, k, j) == 0 else A2(p, j) > A2(p, k)
  {
    if j > k { Ascends(p, k, j); }
  }

  // Without a jbr 255 to 376 bytes back in pass 1 no jump is misjudged.
  lemma NoGapLands(p: Program, k: nat, j: nat)
    requires WellFormed(p) && NoGap(p) && k < |p| && j < |p| && IsJump(p[k]) && p[j] == Label(p[k].l)
    ensures !Misjudged(p, k, j)
  {
    hide After1, After2, NoGap, Covers, WellFormed, Uncorrected;
    NoGapCovers(p, |p|);
    RangeSound(p, k, j);
    EstimateExact(p, k, j);
  }

  lemma JumpEmits(p: Program, k: nat, j: nat)
    requires WellFormed(p) && k < |p| && j < |p| && IsJump(p[k]) && p[j] == Label(p[k].l)
    ensures
      var long, v := !InRange(Estimate(After2(p, k), p[k].l)), A2(p, j) - A2(p, k);
      && Emitted(p, k) == (if !long then Branch(v) else if p[k].Jbr? then Jmp(A2(p, j)) else SkipJmp(A2(p, j)))
      && A2(p, k + 1) == A2(p, k) + if !long then 2 else if p[k].Jbr? then 4 else 6
    ensures Emitted(p, k) in After3(p, |p|).out
  {
    hide After1, After2, After3, WellFormed;
    SamePlaces(p, k);
    SamePlaces(p, k + 1);
    ValueAt(p, |p|, j);
    BitAt(p, k);
    OutPrefix(p, k + 1, |p|);
    Turn2(p, k);
    Turn3(p, k);
  }

  lemma Turn3(p: Program, k: nat)
    requires k < |p|
    ensures After3(p, k + 1) == Step3(After2(p, |p|).vals, After2(p, |p|).bits, After3(p, k), p[k])
  {
  }

  // The bit that pass 3 reads is the one that pass 2 wrote for this jump.
  lemma BitAt(p: Program, k: nat)
    requires k < |p| && IsJump(p[k])
    ensures GetBr(After2(p, |p|).bits, |After2(p, k).bits|) == !InRange(Estimate(After2(p, k), p[k].l))
  {
    BitsPrefix(p, k + 1, |p|);
    var n := |After2(p, k).bits|;
    assert After2(p, k + 1).bits[n] == After2(p, |p|).bits[n];
  }

  lemma {:induction false} OutPrefix(p: Program, k: nat, n: nat)
    requires k <= n <= |p|
    ensures After3(p, k).out <= After3(p, n).out
    decreases n
  {
    if k < n { OutPrefix(p, k, n - 1); }
  }

  // ---- a program that pass 1 lays out too small ----

  // A jump forward over two jumps back to 0, which pass 1 takes to be short.
  function GapExample(): Program {
    [Label(0), Fixed(10), Jbr(1), Fixed(248), Jbr(0), Jbr(0), Label(1)]
  }

  lemma GapLayout()
    ensures WellFormed(GapExample()) && !NoGap(GapExample())
    ensures After1(GapExample(), 7).vals == map[0 := 0, 1 := 266]
    ensures A1(GapExample(), 4) == 262
  {
    GapWellFormed();
    var p := GapExample();
    assert |p| == 7 && p[..] == p;
    hide After1, WellFormed, NoGap;
    Turn1(p, 0);
    Turn1(p, 1);
    Turn1(p, 2);
    Turn1(p, 3);
    Turn1(p, 4);
    Turn1(p, 5);
    Turn1(p, 6);
    Zero1(p);
    GapLies(p);
  }

  lemma GapWellFormed()
    ensures WellFormed(GapExample())
  {
    var p := GapExample();
    forall i | 0 <= i < |p| && IsJump(p[i]) ensures Label(p[i].l) in p {
      assert p[0] == Label(0) && p[6] == Label(1);
    }
  }

  lemma GapLies(p: Program)
    requires p == GapExample() && WellFormed(p) && A1(p, 4) == 262 && A1(p, 0) == 0
    ensures !NoGap(p)
  {
    assert At(p, 0) == 0 && p[4].Jbr? && p[4].l == 0;
  }

  lemma Zero1(p: Program)
    ensures After1(p, 0) == S1(0, map[])
  {
  }

  lemma Turn1(p: Program, k: nat)
    requires k < |p|
    ensures After1(p, k + 1) == Step1(After1(p, k), p[k])
  {
  }

  lemma Turn2(p: Program, k: nat)
    requires k < |p|
    ensures After2(p, k + 1) == Step2(After2(p, k), p[k])
  {
  }

  lemma Zero2(p: Program)
    ensures After2(p, 0) == S2(0, After1(p, |p|).vals, 0, [])
  {
  }

  lemma Zero3(p: Program)
    ensures After3(p, 0) == S3(0, 0, [], true)
  {
  }

  // Its first jump is marked short, ends up 258 bytes from its label and
  // fails as "branch offset too big", though both addresses are even.
  lemma GapFails()
    ensures WellFormed(GapExample()) && !NoGap(GapExample())
    ensures A2(GapExample(), 2) == 10 && A2(GapExample(), 6) == 268
    ensures Emitted(GapExample(), 2) == ErrorB && Misjudged(GapExample(), 2, 6)
  {
    GapLayout();
    GapSecond();
    var p := GapExample();
    assert p[2] == Jbr(1) && p[6] == Label(1) && |p| == 7;
    hide GapExample, After1, After2, After3, NoGap, WellFormed;
    JumpEmits(p, 2, 6);
    GapMisjudged(p);
  }

  lemma GapMisjudged(p: Program)
    requires |p| == 7 && p[2] == Jbr(1) && p[6] == Label(1) && WellFormed(p)
    requires A2(p, 2) == 10 && A2(p, 6) == 268 && After2(p, 2).dot == 10
    requires Emitted(p, 2) == ErrorB
    ensures Misjudged(p, 2, 6)
  {
    EstimateExact(p, 2, 6);
    JumpEmits(p, 2, 6);
    hide After1, After2, After3, WellFormed, Uncorrected, Emitted;
  }

  lemma GapSecond()
    ensures After2(GapExample(), 2) == S2(10, map[0 := 0, 1 := 266], 0, [])
    ensures A2(GapExample(), 6) == 268
  {
    GapLayout();
    var p, vals := GapExample(), map[0 := 0, 1 := 266];
    hide After1, After2, WellFormed, NoGap;
    assert |p| == 7 && p[0] == Label(0) && p[1] == Fixed(10);
    Zero2(p);
    GapStart(p, vals);
    GapRest(p, vals);
  }

  lemma GapStart(p: Program, vals: Vals)
    requires |p| > 1 && p[0] == Label(0) && p[1] == Fixed(10)
    requires vals == map[0 := 0, 1 := 266] && After2(p, 0) == S2(0, vals, 0, [])
    ensures After2(p, 2) == S2(10, vals, 0, [])
  {
    hide After1, After2;
    assert vals[0 := 0] == vals;
    Turn2(p, 0);
    Turn2(p, 1);
  }

  lemma GapRest(p: Program, vals: Vals)
    requires p == GapExample() && vals == map[0 := 0, 1 := 266] && After2(p, 2) == S2(10, vals, 0, [])
    ensures After2(p, 6).dot == 268
  {
    hide After1, After2;
    Turn2(p, 2);
    Turn2(p, 3);
    assert After2(p, 4) == S2(260, vals, 0, [false]);
    Turn2(p, 4);
    Turn2(p, 5);
  }

  // ---- the assembler ----

  class Assembler {
    var dot: nat
    var vals: Vals
    var brdelt: int
    const brtab: array<bool>      // one element for each bit of the source's table
    var brtabp: nat
    var out: seq<Emit>
    var phase: bool

    constructor ()
      ensures fresh(brtab) && brtab.Length == BRLEN
      ensures dot == 0 && vals == map[] && brdelt == 0 && brtabp == 0
      ensures out == [] && phase && forall i | 0 <= i < BRLEN :: !brtab[i]
    {
      brtab := new bool[BRLEN](_ => false);
      dot, vals, brdelt, brtabp, out, phase := 0, map[], 0, 0, [], true;
    }

    function State1(): S1
      reads this
    {
      S1(dot, vals)
    }

    ghost predicate Open()
      reads this, brtab
    {
      brtab.Length == BRLEN && brtabp <= BRLEN && forall i | brtabp <= i < BRLEN :: !brtab[i]
    }

    function State2(): S2
      requires brtabp <= brtab.Length
      reads this, brtab
    {
      S2(dot, vals, brdelt, brtab[..brtabp])
    }

    function State3(): S3
      reads this
    {
      S3(dot, brtabp, out, phase)
    }

    // A statement in as/as16.c.
    method Line1(st: Stmt)
      modifies this`dot, this`vals
      ensures State1() == Step1(old(State1()), st)
    {
      match st
      case Label(l) => vals := vals[l := dot];
      case Fixed(n) => dot := dot + n;
      case Even => dot := dot + dot % 2;
      case Jbr(l) =>
        if l !in vals || vals[l] - dot > 0 || vals[l] - dot < -376 {
          dot := dot + 4;
        } else {
          dot := dot + 2;
        }
      case Jcc(l) =>
        var n := if l !in vals || vals[l] - dot > 0 || vals[l] - dot < 376 then 6 else 2;
        dot := dot + n;
    }

    // setbr
    method SetBr(value: int) returns (r: nat)
      requires Open() && brtabp < BRLEN
      modifies this`brtabp, brtab
      ensures Open() && brtabp == old(brtabp) + 1 && brtab[..old(brtabp)] == old(brtab[..brtabp])
      ensures
        var v := value - dot;
        var long := !InRange(if v > 0 then v - brdelt else v);
        brtab[brtabp - 1] == long && r == if long then 2 else 0
    {
      brtabp := brtabp + 1;
      var v := value - dot;
      if v > 0 { v := v - brdelt; }
      if v >= -254 && v <= 256 { return 0; }
      brtab[brtabp - 1] := true;
      r := 2;
    }

    // A statement in the first pass of as/as26.c, with docolon of as23.c.
    method Line2(st: Stmt)
      requires Open() && (IsJump(st) ==> brtabp < BRLEN)
      modifies this`dot, this`vals, this`brdelt, this`brtabp, brtab
      ensures Open() && State2() == Step2(old(State2()), st)
    {
      match st
      case Label(l) =>
        brdelt := ValueOf(vals, l) - dot;
        vals := vals[l := dot];
      case Fixed(n) => dot := dot + n;
      case Even => dot := dot + dot % 2;
      case Jbr(l) =>
        ghost var bits := brtab[..brtabp];
        var n := SetBr(ValueOf(vals, l));
        assert brtab[..brtabp] == bits + [brtab[brtabp - 1]];
        dot := dot + n + 2;
      case Jcc(l) =>
        ghost var bits := brtab[..brtabp];
        var n := SetBr(ValueOf(vals, l));
        assert brtab[..brtabp] == bits + [brtab[brtabp - 1]];
        if n != 0 { n := n + 2; }
        dot := dot + n + 2;
    }

    // getbr
    method NextBr(ghost bits: seq<bool>) returns (long: bool)
      requires brtab.Length == BRLEN && bits <= brtab[..] && brtabp < |bits|
      modifies this`brtabp
      ensures long == GetBr(bits, old(brtabp)) && brtabp == old(brtabp) + 1
    {
      var t := brtabp;
      brtabp := brtabp + 1;
      long := brtab[t];
    }

    // A statement in the second pass of as/as26.c.
    method Line3(st: Stmt, ghost bits: seq<bool>)
      requires brtab.Length == BRLEN && bits <= brtab[..] && (IsJump(st) ==> brtabp < |bits|)
      modifies this`dot, this`brtabp, this`out, this`phase
      ensures State3() == Step3(vals, bits, old(State3()), st)
    {
      match st
      case Label(l) => if dot != ValueOf(vals, l) { phase := false; }
      case Fixed(n) => dot := dot + n;
      case Even => dot := dot + dot % 2;
      case Jbr(l) =>
        var v := ValueOf(vals, l);
        var long := NextBr(bits);
        if long {
          out := out + [Jmp(v)];
          dot := dot + 4;
        } else {
          out := out + [Branch(v - dot)];
          dot := dot + 2;
        }
      case Jcc(l) =>
        var v := ValueOf(vals, l);
        var long := NextBr(bits);
        if long {
          out := out + [SkipJmp(v)];
          dot := dot + 6;
        } else {
          out := out + [Branch(v - dot)];
          dot := dot + 2;
        }
    }

    // The three passes over a program with at most BRLEN jumps.
    method Assemble(p: Program)
      requires WellFormed(p) && |After2(p, |p|).bits| <= BRLEN
      requires Open() && State1() == S1(0, map[]) && State2() == S2(0, map[], 0, [])
      requires State3() == S3(0, 0, [], true)
      modifies this, brtab
      ensures State3() == After3(p, |p|) && vals == After2(p, |p|).vals
    {
      PassOne(p);
      dot := 0;
      PassTwo(p);
      ghost var bits := brtab[..brtabp];
      dot, brtabp := 0, 0;
      PassThree(p, bits);
    }

    method PassOne(p: Program)
      requires State1() == S1(0, map[])
      modifies this`dot, this`vals
      ensures State1() == After1(p, |p|)
    {
      var i := 0;
      while i < |p|
        invariant 0 <= i <= |p| && State1() == After1(p, i)
      {
        Line1(p[i]);
        i := i + 1;
      }
    }

    method PassTwo(p: Program)
      requires Open() && State2() == After2(p, 0) && |After2(p, |p|).bits| <= BRLEN
      modifies this`dot, this`vals, this`brdelt, this`brtabp, brtab
      ensures Open() && State2() == After2(p, |p|)
    {
      var i := 0;
      while i < |p|
        invariant 0 <= i <= |p| && Open() && State2() == After2(p, i)
      {
        BitsPrefix(p, i, |p|);
        Line2(p[i]);
        i := i + 1;
      }
    }

    method PassThree(p: Program, ghost bits: seq<bool>)
      requires WellFormed(p) && vals == After2(p, |p|).vals && bits == After2(p, |p|).bits
      requires brtab.Length == BRLEN && bits <= brtab[..] && State3() == S3(0, 0, [], true)
      modifies this`dot, this`brtabp, this`out, this`phase
      ensures State3() == After3(p, |p|)
    {
      hide After2, After3, WellFormed, Step3;
      Zero3(p);
      var i := 0;
      while i < |p|
        invariant 0 <= i <= |p| && State3() == After3(p, i)
      {
        SamePlaces(p, i);
        BitsPrefix(p, i, |p|);
        Turn3(p, i);
        Line3(p[i], bits);
        i := i + 1;
      }
    }
  }
}
