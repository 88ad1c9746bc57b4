// ccom/c11.c: sort and pswitch of the c1 pass.
module C1Switch {
  import opened Words
  import opened SwitchMachine

  const SWSIZ := 300

  // ---- sort ----

  ghost predicate HasSame(s: seq<Case>) {
    exists i, j :: 0 <= i < j < |s| && s[i].val == s[j].val
  }

  function Swap(s: seq<Case>, k: nat): (r: seq<Case>)
    requires k + 1 < |s|
    ensures |r| == |s|
  {
    s[k := s[k + 1]][k + 1 := s[k]]
  }

  lemma SwapSame(s: seq<Case>, k: nat)
    requires k + 1 < |s| && HasSame(s)
    ensures HasSame(Swap(s, k))
  {
    var i, j :| 0 <= i < j < |s| && s[i].val == s[j].val;
    var i1 := if i == k then k + 1 else if i == k + 1 then k else i;
    var j1 := if j == k then k + 1 else if j == k + 1 then k else j;
    var r := Swap(s, k);
    assert r[i1].val == r[j1].val;
    assert i1 < j1 || j1 < i1;
  }

  // The same cases, and a repeated value if there was one.
  ghost predicate Rearranged(s: seq<Case>, r: seq<Case>) {
    |s| == |r| && multiset(s) == multiset(r) && (HasSame(s) <==> HasSame(r))
  }

  lemma SwapRearranges(s: seq<Case>, k: nat)
    requires k + 1 < |s|
    ensures Rearranged(s, Swap(s, k))
  {
    var r := Swap(s, k);
    assert Swap(r, k) == s;
    if HasSame(s) { SwapSame(s, k); }
    if HasSame(r) { SwapSame(r, k); }
    assert s == s[..k] + [s[k], s[k + 1]] + s[k + 2..];
    assert r == s[..k] + [s[k + 1], s[k]] + s[k + 2..];
  }

  // Everything from lp on is larger than what stands before it.
  ghost predicate Settled(s: seq<Case>, lp: int) {
    forall i, j | 0 <= i < j < |s| && j >= lp :: s[i].val < s[j].val
  }

  // One comparison of the inner loop with what the loop knows.
  ghost predicate Bubbled(s: seq<Case>, lp: nat, cp: nat, swapped: bool) {
    && cp <= lp < |s| && Settled(s, lp + 1)
    && (forall i | 0 <= i < cp :: s[i].val < s[cp].val)
    && (!swapped ==> forall i, j | 0 <= i < j <= cp :: s[i].val < s[j].val)
  }

  lemma BubbleSwap(s: seq<Case>, lp: nat, cp: nat, swapped: bool)
    requires Bubbled(s, lp, cp, swapped) && cp < lp && s[cp].val > s[cp + 1].val
    ensures Bubbled(Swap(s, cp), lp, cp + 1, true)
  {
    var r := Swap(s, cp);
    forall i, j | 0 <= i < j < |r| && j >= lp + 1 ensures r[i].val < r[j].val {
      assert s[if i == cp then cp + 1 else if i == cp + 1 then cp else i].val < s[j].val;
    }
    forall i | 0 <= i < cp + 1 ensures r[i].val < r[cp + 1].val {}
  }

  lemma BubbleKeep(s: seq<Case>, lp: nat, cp: nat, swapped: bool)
    requires Bubbled(s, lp, cp, swapped) && cp < lp && s[cp].val < s[cp + 1].val
    ensures Bubbled(s, lp, cp + 1, swapped)
  {
  }

  lemma BubbleEnd(s: seq<Case>, lp: nat, swapped: bool)
    requires Bubbled(s, lp, lp, swapped)
    ensures Settled(s, lp) && (!swapped ==> Sorted(s))
  {
  }

  // The inner loop: the largest of a[..lp] ends up in a[lp].
  method Pass(a: array<Case>, lp: nat) returns (same: bool, swapped: bool)
    requires lp < a.Length && Settled(a[..], lp + 1)
    modifies a
    ensures Rearranged(old(a[..]), a[..])
    ensures same ==> HasSame(a[..])
    ensures !same ==> Settled(a[..], lp) && (!swapped ==> Sorted(a[..]))
  {
    swapped := false;
    var cp := 0;
    while cp < lp
      invariant Bubbled(a[..], lp, cp, swapped)
      invariant Rearranged(old(a[..]), a[..])
    {
      hide Bubbled, Rearranged, Sorted, Settled;
      ghost var s := a[..];
      if a[cp].val == a[cp + 1].val {
        assert s[cp].val == s[cp + 1].val;
        return true, swapped;
      }
      if a[cp].val > a[cp + 1].val {
        BubbleSwap(s, lp, cp, swapped);
        SwapRearranges(s, cp);
        RearrangedTwice(old(a[..]), s, Swap(s, cp));
        swapped := true;
        a[cp], a[cp + 1] := a[cp + 1], a[cp];
        assert a[..] == Swap(s, cp);
      } else {
        BubbleKeep(s, lp, cp, swapped);
      }
      cp := cp + 1;
    }
    BubbleEnd(a[..], lp, swapped);
    same := false;
  }

  lemma RearrangedTwice(a: seq<Case>, b: seq<Case>, c: seq<Case>)
    requires Rearranged(a, b) && Rearranged(b, c)
    ensures Rearranged(a, c)
  {
  }

  // sort returns 1 exactly when two cases have the same value; otherwise the
  // array is left strictly sorted, each value with its own label.
  method Sort(a: array<Case>) returns (dup: bool)
    modifies a
    ensures multiset(a[..]) == multiset(old(a[..]))
    ensures dup <==> HasSame(old(a[..]))
    ensures !dup ==> Sorted(a[..])
  {
    var lp := a.Length - 1;
    var done := false;
    while lp > 0 && !done
      invariant lp < a.Length && Settled(a[..], lp + 1)
      invariant Rearranged(old(a[..]), a[..])
      invariant done ==> Sorted(a[..])
      decreases lp, !done
    {
      var same, swapped := Pass(a, lp);
      if same { return true; }
      done := !swapped;
      lp := lp - 1;
    }
    SettledSorted(a[..], lp + 1, done);
    dup := false;
  }

  lemma SettledSorted(s: seq<Case>, lp: int, done: bool)
    requires if done then Sorted(s) else lp <= 1 && Settled(s, lp)
    ensures Sorted(s) && !HasSame(s)
  {
  }

  // ---- the hash switch ----

  // (unsigned)v on the host, and what is left of a number in a word.
  function Unsigned(v: int): nat
    requires -0x8000 <= v < 0x8000
  {
    if v < 0 then v + 0x1_0000_0000 else v
  }

  function Count(p: seq<Case>, t: nat, j: nat): (n: nat)
    requires Fits(p) && t > 0
    ensures n <= |p|
  {
    if p == [] then 0
    else
      assert p[0] in p;
      (if Unsigned(p[0].val) % t == j then 1 else 0) + Count(p[1..], t, j)
  }

  // The longest row of tests among the first n buckets.
  function Worst(p: seq<Case>, t: nat, n: nat): (w: nat)
    requires Fits(p) && t > 0
    ensures w <= |p|
    ensures forall j: nat | j < n :: Count(p, t, j) <= w
  {
    if n == 0 then 0
    else
      var w, c := Worst(p, t, n - 1), Count(p, t, n - 1);
      if c > w then c else w
  }

  // The cases of bucket j: quotient and label.
  function Bucket(p: seq<Case>, t: nat, j: nat): seq<Case>
    requires Fits(p) && t > 0
  {
    if p == [] then []
    else
      assert p[0] in p;
      var u := Unsigned(p[0].val);
      (if u % t == j then [Case(u / t, p[0].lab)] else []) + Bucket(p[1..], t, j)
  }

  function OneBucket(p: seq<Case>, t: nat, d: Label, base: Label, j: nat): Code
    requires Fits(p) && t > 0
  {
    [Lab(base + j)] + Tests(Bucket(p, t, j), true) + [Jbr(d)]
  }

  // Buckets 0..n-1.
  function Buckets(p: seq<Case>, t: nat, d: Label, base: Label, n: nat): Code
    requires Fits(p) && t > 0
  {
    if n == 0 then [] else Buckets(p, t, d, base, n - 1) + OneBucket(p, t, d, base, n - 1)
  }

  function Head(t: nat, tab: Label): Code {
    [Mov01, Clr0, Div(Wrap(t)), Asl1, JmpTab1(tab)]
  }

  function Hash(p: seq<Case>, t: nat, d: Label, tab: Label, base: Label): Code
    requires Fits(p) && t > 0
  {
    Head(t, tab) + Buckets(p, t, d, base, t)
  }

  // The run-time word w is taken for case c.
  ghost predicate Hit(c: Case, w: word, t: nat)
    requires -0x8000 <= c.val < 0x8000 && t > 0
  {
    Unsigned(c.val) % t == w % t && Wrap(Unsigned(c.val) / t) == w / t
  }

  ghost function Chosen(p: seq<Case>, w: word, t: nat, d: Label): Label
    requires Fits(p) && t > 0
  {
    if p == [] then d
    else
      assert p[0] in p;
      if Hit(p[0], w, t) then p[0].lab else Chosen(p[1..], w, t, d)
  }

  lemma {:induction false} ChosenInBucket(p: seq<Case>, w: word, t: nat, d: Label)
    requires Fits(p) && t > 1
    ensures Chosen(p, w, t, d) == Lookup(AsWords(Bucket(p, t, w % t)), Signed(w / t), d)
  {
    if p != [] {
      assert p[0] in p;
      ChosenInBucket(p[1..], w, t, d);
      ChosenTurn(p, w, t, w % t, w / t, d);
    }
  }

  lemma ChosenTurn(p: seq<Case>, w: word, t: nat, j: nat, q: word, d: Label)
    requires Fits(p) && t > 1 && p != [] && Fits(p[1..]) && -0x8000 <= p[0].val < 0x8000
    requires j == w % t && q == w / t
    ensures Chosen(p, w, t, d) == if Hit(p[0], w, t) then p[0].lab else Chosen(p[1..], w, t, d)
    ensures Lookup(AsWords(Bucket(p, t, j)), Signed(q), d) ==
            if Hit(p[0], w, t) then p[0].lab else Lookup(AsWords(Bucket(p[1..], t, j)), Signed(q), d)
  {
    hide Bucket, AsWords, Lookup;
    var u, rest := Unsigned(p[0].val), Bucket(p[1..], t, j);
    BucketTurn(p, t, j);
    if u % t == j { FirstLookup(u / t, p[0].lab, rest, q, d); }
  }

  lemma BucketTurn(p: seq<Case>, t: nat, j: nat)
    requires Fits(p) && t > 0 && p != [] && -0x8000 <= p[0].val < 0x8000
    ensures
      var u := Unsigned(p[0].val);
      Bucket(p, t, j) == if u % t == j then [Case(u / t, p[0].lab)] + Bucket(p[1..], t, j) else Bucket(p[1..], t, j)
  {
    assert [] + Bucket(p[1..], t, j) == Bucket(p[1..], t, j);
  }

  lemma FirstLookup(q: nat, l: Label, s: seq<Case>, w: word, d: Label)
    ensures Lookup(AsWords([Case(q, l)] + s), Signed(w), d) ==
            if Wrap(q) == w then l else Lookup(AsWords(s), Signed(w), d)
  {
    var all := [Case(q, l)] + s;
    assert all[1..] == s;
    assert AsWords(all) == [Case(Signed(Wrap(q)), l)] + AsWords(s);
    assert AsWords(all)[1..] == AsWords(s);
  }

  lemma {:induction false} BucketLabels(p: seq<Case>, t: nat, d: Label, base: Label, n: nat)
    requires Fits(p) && t > 0
    ensures forall i | i in Buckets(p, t, d, base, n) && i.Lab? :: base <= i.l < base + n
    ensures Distinct(Buckets(p, t, d, base, n))
  {
    if n > 0 {
      BucketLabels(p, t, d, base, n - 1);
      TestsNoLabels(Bucket(p, t, n - 1), true);
    }
  }

  // A bucket entered at its label ends at the label of the quotient.
  lemma BucketRun(ts: Tables, p: seq<Case>, t: nat, d: Label, base: Label, j: nat, m: Cpu)
    requires Fits(p) && t > 0
    ensures
      var q := Run(ts, OneBucket(p, t, d, base, j), Seek(base + j, m));
      q.Seek? && q.l == Lookup(AsWords(Bucket(p, t, j)), Signed(m.r0), d)
  {
    var s, tests := Bucket(p, t, j), Tests(Bucket(p, t, j), true);
    RunConcat(ts, [Lab(base + j)], tests, Seek(base + j, m));
    RunConcat(ts, [Lab(base + j)] + tests, [Jbr(d)], Seek(base + j, m));
    assert Run(ts, [Lab(base + j)], Seek(base + j, m)) == At(m);
    TestsRun(ts, s, true, m);
    LookupHas(AsWords(s), Signed(m.r0), d, 0);
  }

  lemma {:induction false} BucketsRun(ts: Tables, p: seq<Case>, t: nat, d: Label, base: Label, n: nat, j: nat, m: Cpu)
    requires Fits(p) && t > 0 && j < n && d < base && LabelsUnder(p, base)
    ensures
      var q := Run(ts, Buckets(p, t, d, base, n), Seek(base + j, m));
      q.Seek? && q.l == Lookup(AsWords(Bucket(p, t, j)), Signed(m.r0), d)
  {
    hide *;
    BucketsTurn(ts, p, t, d, base, n, j, m);
    if j == n - 1 {
      BucketRun(ts, p, t, d, base, j, m);
    } else {
      BucketsRun(ts, p, t, d, base, n - 1, j, m);
      BucketTarget(p, t, j, d, base, Signed(m.r0));
      var q := Run(ts, Buckets(p, t, d, base, n - 1), Seek(base + j, m));
      OneBucketLabels(p, t, d, base, n - 1);
      RunSkips(ts, OneBucket(p, t, d, base, n - 1), q.l, q.cpu);
    }
  }

  lemma BucketsTurn(ts: Tables, p: seq<Case>, t: nat, d: Label, base: Label, n: nat, j: nat, m: Cpu)
    requires Fits(p) && t > 0 && j < n
    ensures
      var before := if j == n - 1 then Seek(base + j, m) else Run(ts, Buckets(p, t, d, base, n - 1), Seek(base + j, m));
      Run(ts, Buckets(p, t, d, base, n), Seek(base + j, m)) == Run(ts, OneBucket(p, t, d, base, n - 1), before)
  {
    var before := Buckets(p, t, d, base, n - 1);
    RunConcat(ts, before, OneBucket(p, t, d, base, n - 1), Seek(base + j, m));
    BucketLabels(p, t, d, base, n - 1);
    if j == n - 1 { RunSkips(ts, before, base + j, m); }
  }

  lemma OneBucketLabels(p: seq<Case>, t: nat, d: Label, base: Label, j: nat)
    requires Fits(p) && t > 0
    ensures forall l: Label | l < base :: Lab(l) !in OneBucket(p, t, d, base, j)
  {
    TestsNoLabels(Bucket(p, t, j), true);
  }

  lemma BucketTarget(p: seq<Case>, t: nat, j: nat, d: Label, base: Label, v: int)
    requires Fits(p) && t > 0 && d < base && LabelsUnder(p, base)
    ensures Lookup(AsWords(Bucket(p, t, j)), v, d) < base
  {
    BucketUnder(p, t, j, base);
    LookupIn(AsWords(Bucket(p, t, j)), v, d);
  }

  ghost predicate LabelsUnder(p: seq<Case>, base: Label) {
    forall c | c in p :: c.lab < base
  }

  lemma {:induction false} BucketUnder(p: seq<Case>, t: nat, j: nat, base: Label)
    requires Fits(p) && t > 0 && LabelsUnder(p, base)
    ensures LabelsUnder(AsWords(Bucket(p, t, j)), base)
  {
    if p != [] {
      assert p[0] in p;
      BucketUnder(p[1..], t, j, base);
      var u := Unsigned(p[0].val);
      if u % t == j {
        var c := Case(u / t, p[0].lab);
        assert Bucket(p, t, j) == [c] + Bucket(p[1..], t, j);
        assert ([c] + Bucket(p[1..], t, j))[1..] == Bucket(p[1..], t, j);
      } else {
        assert [] + Bucket(p[1..], t, j) == Bucket(p[1..], t, j);
      }
    }
  }

  lemma Halved(w: word, t: nat)
    requires t >= 2
    ensures w / t < 0x8000
  {
    var q := w / t;
    assert w == t * q + w % t;
    assert t * q == 2 * q + (t - 2) * q && (t - 2) * q >= 0;
  }

  // div leaves the quotient in r0 and twice the remainder indexes the table.
  lemma HeadRun(ts: Tables, t: nat, tab: Label, base: Label, m: Cpu)
    requires 2 <= t < 0x8000 && tab in ts && ts[tab] == seq<Label>(t, j => base + j)
    ensures
      var q := Run(ts, Head(t, tab), At(m));
      q.Seek? && q.l == base + m.r0 % t && q.cpu.r0 == m.r0 / t
  {
    Halved(m.r0, t);
    var m1 := m.(r1 := m.r0, f := Compare(m.r0, 0));
    var m2 := m1.(r0 := 0, f := Compare(0, 0));
    var m3 := Cpu(m.r0 / t, m.r0 % t, Compare(m.r0 / t, 0));
    Divided(ts, t, m2);
    RunConcat(ts, [Mov01, Clr0], [Div(t)] + [Asl1, JmpTab1(tab)], At(m));
    assert [Mov01, Clr0] + ([Div(t)] + [Asl1, JmpTab1(tab)]) == Head(t, tab);
    TwoMoves(ts, m);
    RunConcat(ts, [Div(t)], [Asl1, JmpTab1(tab)], At(m2));
    Indexed(ts, ts[tab], tab, m3);
  }

  lemma TwoMoves(ts: Tables, m: Cpu)
    ensures Run(ts, [Mov01, Clr0], At(m)) == At(m.(r1 := m.r0, r0 := 0, f := Compare(0, 0)))
  {
    var m1 := m.(r1 := m.r0, f := Compare(m.r0, 0));
    assert [Mov01, Clr0][1..] == [Clr0];
    assert Run(ts, [Mov01, Clr0], At(m)) == Run(ts, [Clr0], At(m1));
    assert Run(ts, [Clr0], At(m1)) == At(m1.(r0 := 0, f := Compare(0, 0)));
  }

  lemma Divided(ts: Tables, t: nat, m: Cpu)
    requires m.r0 == 0 && 0 < t < 0x8000 && m.r1 / t < 0x8000
    ensures Run(ts, [Div(t)], At(m)) == At(Cpu(m.r1 / t, m.r1 % t, Compare(m.r1 / t, 0)))
  {
  }

  lemma Indexed(ts: Tables, table: seq<Label>, tab: Label, m: Cpu)
    requires m.r1 < |table| < 0x8000 && tab in ts && ts[tab] == table
    ensures
      var q := Run(ts, [Asl1, JmpTab1(tab)], At(m));
      q.Seek? && q.l == table[m.r1] && q.cpu.r0 == m.r0
  {
    var m1 := m.(r1 := Wrap(2 * m.r1), f := Compare(Wrap(2 * m.r1), 0));
    assert Run(ts, [Asl1, JmpTab1(tab)], At(m)) == Run(ts, [JmpTab1(tab)], At(m1));
    assert Run(ts, [JmpTab1(tab)], At(m1)) == Through(ts, tab, m1.r1, m1);
  }

  // For every word the hash switch goes where quotient and remainder say.
  lemma HashRun(ts: Tables, p: seq<Case>, t: nat, d: Label, tab: Label, base: Label, m: Cpu)
    requires Fits(p) && 2 <= t < 0x8000 && d < base && LabelsUnder(p, base)
    requires tab in ts && ts[tab] == seq<Label>(t, j => base + j)
    ensures Goes(ts, Hash(p, t, d, tab, base), m, Chosen(p, m.r0, t, d))
  {
    RunConcat(ts, Head(t, tab), Buckets(p, t, d, base, t), At(m));
    HeadRun(ts, t, tab, base, m);
    var q := Run(ts, Head(t, tab), At(m));
    BucketsRun(ts, p, t, d, base, t, m.r0 % t, q.cpu);
    ChosenInBucket(p, m.r0, t, d);
  }

  // ---- when quotient and remainder identify the value ----

  ghost predicate Identified(c: Case, t: nat)
    requires -0x8000 <= c.val < 0x8000 && t > 0
  {
    c.val >= 0 || 65535 % t == 0
  }

  lemma DivMod(a: nat, b: nat, t: nat)
    requires t > 0 && a / t == b / t && a % t == b % t
    ensures a == b
  {
    assert a == t * (a / t) + a % t;
    assert b == t * (b / t) + b % t;
  }

  lemma Divide(x: nat, t: nat, q: nat, r: nat)
    requires t > 0 && r < t && x == t * q + r
    ensures x / t == q && x % t == r
  {
    Quotients(t, q, r, x / t, x % t);
  }

  lemma Quotients(t: nat, q: nat, r: nat, q1: nat, r1: nat)
    requires r < t && r1 < t && t * q + r == t * q1 + r1
    ensures q == q1 && r == r1
  {
    var k := q - q1;
    assert t * q == t * q1 + t * k;
    Multiple(t, k);
    Multiple(t, -k);
  }

  lemma Multiple(t: nat, k: int)
    ensures k >= 1 ==> t * k >= t
    ensures t * -k == -(t * k)
  {
    if k >= 1 {
      assert t * k == t + t * (k - 1) && t * (k - 1) >= 0;
    }
  }

  // A negative value v is v + 2^16 on the machine and v + 2^32 on the host;
  // they differ by 2^16 * 65535.
  lemma NegativeSame(w0: word, t: nat)
    requires t > 0 && 65535 % t == 0
    ensures
      var u := w0 + 0x10000 * 65535;
      u % t == w0 % t && Wrap(u / t) == w0 / t
  {
    var q, r, k := w0 / t, w0 % t, 65535 / t;
    assert w0 == t * q + r && 65535 == t * k;
    Shifted(w0, t, q, r, k);
    WrapHigh(q, k);
  }

  lemma Shifted(w0: word, t: nat, q: nat, r: nat, k: nat)
    requires r < t && w0 == t * q + r && 65535 == t * k
    ensures
      var u := w0 + 0x10000 * 65535;
      u / t == q + 0x10000 * k && u % t == r && q < 0x10000
  {
    Spread(t, q, k);
    Divide(w0 + 0x10000 * 65535, t, q + 0x10000 * k, r);
  }

  lemma Spread(t: nat, q: nat, k: nat)
    requires t > 0
    ensures t * (q + 0x10000 * k) == t * q + 0x10000 * (t * k)
    ensures q <= t * q
  {
    assert t * q == q + (t - 1) * q && (t - 1) * q >= 0;
  }

  lemma WrapHigh(q: nat, k: nat)
    requires q < 0x10000
    ensures Wrap(q + 0x10000 * k) == q
  {
  }

  lemma NegativeDiffers(w0: word, t: nat)
    requires t > 0
    requires
      var u := w0 + 0x10000 * 65535;
      u % t == w0 % t && Wrap(u / t) == w0 / t
    ensures 65535 % t == 0
  {
    var u := w0 + 0x10000 * 65535;
    var q, r, k := w0 / t, w0 % t, u / t / 0x10000;
    assert u / t == 0x10000 * k + q;
    assert u == t * (u / t) + r && w0 == t * q + r;
    assert t * (0x10000 * k + q) == 0x10000 * (t * k) + t * q;
    assert 65535 == t * k;
    Divide(65535, t, k, 0);
  }

  lemma HitMeans(c: Case, t: nat, w: word)
    requires -0x8000 <= c.val < 0x8000 && t > 1
    ensures Identified(c, t) ==> (Hit(c, w, t) <==> w == Wrap(c.val))
    ensures !Identified(c, t) ==> !Hit(c, Wrap(c.val), t)
  {
    if c.val >= 0 {
      PositiveHit(c, t, w);
    } else if Identified(c, t) {
      NegativeHit(c, t, w);
    } else if Hit(c, c.val + 0x10000, t) {
      NegativeDiffers(c.val + 0x10000, t);
    }
  }

  lemma PositiveHit(c: Case, t: nat, w: word)
    requires 0 <= c.val < 0x8000 && t > 0
    ensures Hit(c, w, t) <==> w == Wrap(c.val)
  {
    SmallQuotient(c.val, t);
    if Hit(c, w, t) { DivMod(c.val, w, t); }
  }

  lemma SmallQuotient(v: nat, t: nat)
    requires t > 0
    ensures v / t <= v
  {
    var q := v / t;
    assert v == t * q + v % t;
    Below(1, t, q);
  }

  lemma NegativeHit(c: Case, t: nat, w: word)
    requires -0x8000 <= c.val < 0 && t > 0 && 65535 % t == 0
    ensures Hit(c, w, t) <==> w == Wrap(c.val)
  {
    var w0 := c.val + 0x10000;
    NegativeSame(w0, t);
    if Hit(c, w, t) { DivMod(w0, w, t); }
  }

  lemma {:induction false} ChosenIsLookup(p: seq<Case>, w: word, t: nat, d: Label)
    requires Fits(p) && t > 1 && forall c | c in p :: Identified(c, t)
    ensures Chosen(p, w, t, d) == Lookup(p, Signed(w), d)
  {
    if p != [] {
      assert p[0] in p;
      HitMeans(p[0], t, w);
      SignedWrap(p[0].val);
      ChosenIsLookup(p[1..], w, t, d);
    }
  }

  lemma {:induction false} ChosenElse(p: seq<Case>, k: nat, w: word, t: nat, d: Label)
    requires Fits(p) && t > 1 && k < |p| && !Hit(Kth(p, k), w, t)
    requires p[k].lab != d && forall i | 0 <= i < |p| && i != k :: p[i].lab != p[k].lab
    ensures Chosen(p, w, t, d) != p[k].lab
  {
    assert p[0] in p;
    if k == 0 {
      ChosenOther(p[1..], w, t, d, p[0].lab);
    } else if !Hit(p[0], w, t) {
      assert forall i | 0 <= i < |p[1..]| :: p[1..][i] == p[i + 1];
      ChosenElse(p[1..], k - 1, w, t, d);
    }
  }

  function Kth(p: seq<Case>, k: nat): (c: Case)
    requires Fits(p) && k < |p|
    ensures c == p[k] && -0x8000 <= c.val < 0x8000
  {
    assert p[k] in p;
    p[k]
  }

  lemma {:induction false} ChosenOther(p: seq<Case>, w: word, t: nat, d: Label, l: Label)
    requires Fits(p) && t > 0 && d != l && forall i | 0 <= i < |p| :: p[i].lab != l
    ensures Chosen(p, w, t, d) != l
  {
    if p != [] {
      assert p[0] in p;
      ChosenOther(p[1..], w, t, d, l);
    }
  }

  // Exactly when the hash switch is right: no case is negative, or the
  // divisor divides 2^16 - 1.
  lemma HashExact(ts: Tables, p: seq<Case>, t: nat, d: Label, tab: Label, base: Label)
    requires Sorted(p) && Fits(p) && 2 <= t < 0x8000 && d < base && LabelsUnder(p, base)
    requires tab in ts && ts[tab] == seq<Label>(t, j => base + j)
    requires forall i, j | 0 <= i < j < |p| :: p[i].lab != p[j].lab
    requires forall c | c in p :: c.lab != d
    ensures Dispatches(ts, Hash(p, t, d, tab, base), p, d) <==> (forall c | c in p :: Identified(c, t))
  {
    if forall c | c in p :: Identified(c, t) {
      HashRight(ts, p, t, d, tab, base);
    }
    if Dispatches(ts, Hash(p, t, d, tab, base), p, d) {
      forall c | c in p ensures Identified(c, t) {
        if !Identified(c, t) { HashWrong(ts, p, t, d, tab, base, c); }
      }
    }
  }

  lemma HashWrong(ts: Tables, p: seq<Case>, t: nat, d: Label, tab: Label, base: Label, c: Case)
    requires Sorted(p) && Fits(p) && 2 <= t < 0x8000 && d < base && LabelsUnder(p, base)
    requires tab in ts && ts[tab] == seq<Label>(t, j => base + j)
    requires forall i, j | 0 <= i < j < |p| :: p[i].lab != p[j].lab
    requires c in p && c.lab != d && !Identified(c, t)
    ensures !Dispatches(ts, Hash(p, t, d, tab, base), p, d)
  {
    var k :| 0 <= k < |p| && p[k] == c;
    var m := Cpu(Wrap(c.val), 0, Compare(0, 0));
    HitMeans(c, t, m.r0);
    ChosenElse(p, k, m.r0, t, d);
    HashRun(ts, p, t, d, tab, base, m);
    SignedWrap(c.val);
    LookupAt(p, k, d);
    assert !Goes(ts, Hash(p, t, d, tab, base), m, Lookup(p, Signed(m.r0), d));
  }

  lemma HashRight(ts: Tables, p: seq<Case>, t: nat, d: Label, tab: Label, base: Label)
    requires Fits(p) && 2 <= t < 0x8000 && d < base && LabelsUnder(p, base)
    requires tab in ts && ts[tab] == seq<Label>(t, j => base + j)
    requires forall c | c in p :: Identified(c, t)
    ensures Dispatches(ts, Hash(p, t, d, tab, base), p, d)
  {
    forall m: Cpu ensures Goes(ts, Hash(p, t, d, tab, base), m, Lookup(p, Signed(m.r0), d)) {
      HashRun(ts, p, t, d, tab, base, m);
      ChosenIsLookup(p, m.r0, t, d);
    }
  }

  // ---- pswitch ----

  class Generator {
    var text: Code
    var data: Tables
    var isn: nat

    constructor ()
      ensures text == [] && data == map[] && isn == 10000
    {
      text, data, isn := [], map[], 10000;
    }

    // breq
    method Breq(v: int, l: Label)
      modifies this`text
      ensures text == old(text) + Test(Case(v, l), true)
    {
      if v == 0 {
        text := text + [Tst];
      } else {
        text := text + [Cmp(Wrap(v))];
      }
      text := text + [Jeq(l)];
    }

    // A row of breq for the cases, those of one bucket or all of them.
    method Row(p: seq<Case>)
      modifies this`text
      ensures text == old(text) + Tests(p, true)
    {
      var k := 0;
      while k < |p|
        invariant 0 <= k <= |p| && text == old(text) + Tests(p[..k], true)
      {
        assert p[..k + 1] == p[..k] + [p[k]];
        TestsAppend(p[..k], p[k], true);
        Breq(p[k].val, p[k].lab);
        k := k + 1;
      }
      assert p[..k] == p;
    }

    // The words of the jump table of a direct switch.
    method DirectTable(p: seq<Case>, deflab: Label) returns (table: seq<Label>)
      requires p != [] && Sorted(p)
      ensures table == Table(p, deflab)
    {
      var fp, i := 0, p[0].val;
      table := [];
      while true
        invariant 0 <= fp < |p| && i <= p[fp].val && |table| == i - p[0].val
        invariant fp > 0 ==> i > p[fp - 1].val
        invariant forall k | 0 <= k < |table| :: table[k] == Lookup(p, p[0].val + k, deflab)
        decreases |p| - fp, p[fp].val - i
      {
        if i == p[fp].val {
          LookupAt(p, fp, deflab);
          table := table + [p[fp].lab];
          if fp == |p| - 1 { break; }
          fp := fp + 1;
        } else {
          LookupAbsent(p, i, deflab);
          table := table + [deflab];
        }
        i := i + 1;
      }
    }

    // The longest bucket for divisor i, counted in poctab.
    method WorstOf(p: seq<Case>, i: nat) returns (worst: nat)
      requires Fits(p) && i > 0
      ensures worst == Worst(p, i, i)
    {
      var poctab := new int[i](_ => 0);
      var k := 0;
      while k < |p|
        invariant 0 <= k <= |p| && Fits(p[..k])
        invariant forall j | 0 <= j < i :: poctab[j] == Count(p[..k], i, j)
      {
        assert p[k] in p && p[..k + 1] == p[..k] + [p[k]];
        forall j: nat | j < i
          ensures Count(p[..k + 1], i, j) == Count(p[..k], i, j) + if Unsigned(p[k].val) % i == j then 1 else 0 {
          CountAppend(p[..k], p[k], i, j);
        }
        var b := Unsigned(p[k].val) % i;
        poctab[b] := poctab[b] + 1;
        k := k + 1;
      }
      assert p[..k] == p;
      worst := 0;
      var j := 0;
      while j < i
        invariant 0 <= j <= i && worst == Worst(p, i, j)
      {
        if poctab[j] > worst { worst := poctab[j]; }
        j := j + 1;
      }
    }

    // The divisor in ncase/4..ncase/2 with the least product of buckets and
    // longest bucket, and the first such.
    method Divisor(p: seq<Case>) returns (tabs: nat)
      requires Fits(p) && 10 <= |p| <= SWSIZ
      ensures |p| / 4 <= tabs <= |p| / 2
      ensures forall i | |p| / 4 <= i <= |p| / 2 :: tabs * Worst(p, tabs, tabs) <= i * Worst(p, i, i)
      ensures forall i | |p| / 4 <= i < tabs :: tabs * Worst(p, tabs, tabs) < i * Worst(p, i, i)
    {
      var best, i := 0x7fff, |p| / 4;
      tabs := 0;
      while i <= |p| / 2
        invariant |p| / 4 <= i <= |p| / 2 + 1
        invariant if i == |p| / 4 then tabs == 0 && best == 0x7fff
                  else |p| / 4 <= tabs < i && best == tabs * Worst(p, tabs, tabs)
        invariant forall k | |p| / 4 <= k < i :: best <= k * Worst(p, k, k)
        invariant forall k | |p| / 4 <= k < tabs && k < i :: best < k * Worst(p, k, k)
      {
        var worst := WorstOf(p, i);
        if i == |p| / 4 { SmallProduct(i, worst); }
        if i * worst < best {
          tabs := i;
          best := i * worst;
        }
        i := i + 1;
      }
    }

    // pswitch.  Equal cases are only reported; otherwise the array is sorted
    // and the code added is a switch over it, in the hash form when no case is
    // negative or the divisor divides 65535.
    method PSwitch(a: array<Case>, deflab: Label) returns (duplicate: bool)
      requires a.Length <= SWSIZ && Fits(a[..]) && LabelsUnder(a[..], isn) && deflab < isn
      requires forall l | l in data :: l < isn
      modifies this, a
      ensures duplicate <==> HasSame(old(a[..]))
      ensures multiset(a[..]) == multiset(old(a[..]))
      ensures duplicate ==> text == old(text) && data == old(data)
      ensures !duplicate ==> Sorted(a[..]) && old(text) <= text
      ensures !duplicate && !UsesHash(a[..]) ==>
                Switches(data, text[|old(text)|..], a[..], deflab) && Distinct(text[|old(text)|..])
      ensures !duplicate && UsesHash(a[..]) ==>
                exists t, tab, base :: HashForm(data, text[|old(text)|..], a[..], t, deflab, tab, base, old(isn))
      ensures forall l | l in old(data) :: l in data && data[l] == old(data[l])
    {
      if a.Length == 0 {
        text := text + [Jbr(deflab)];
        assert text[|old(text)|..] == [Jbr(deflab)];
        EmptySwitch(data, deflab);
        return false;
      }
      isn := isn + 1;
      duplicate := Sort(a);
      if duplicate { return; }
      hide Sorted, Switches, Distinct, HashForm, Tests;
      SameCases(a[..], old(a[..]), old(isn));
      Generate(a[..], deflab, old(isn));
    }

    // The form that pswitch chooses for the sorted cases
    method Generate(p: seq<Case>, deflab: Label, ghost isn0: nat)
      requires 0 < |p| <= SWSIZ && Sorted(p) && Fits(p) && isn0 <= isn && deflab < isn0 && LabelsUnder(p, isn0)
      requires forall l | l in data :: l < isn
      modifies this
      ensures old(text) <= text
      ensures !UsesHash(p) ==> Switches(data, text[|old(text)|..], p, deflab) && Distinct(text[|old(text)|..])
      ensures UsesHash(p) ==>
                exists t, tab, base :: HashForm(data, text[|old(text)|..], p, t, deflab, tab, base, isn0)
      ensures forall l | l in old(data) :: l in data && data[l] == old(data[l])
    {
      hide Sorted, Switches, Distinct, HashForm, Tests, Fits, LabelsUnder;
      var ncase := |p|;
      var range := p[ncase - 1].val - p[0].val;
      if range > 0 && range <= 3 * ncase {
        DirectSwitch(p, deflab);
      } else if ncase < 10 {
        ghost var code := Tests(p, true) + [Jbr(deflab)];
        Row(p);
        text := text + [Jbr(deflab)];
        assert text[|old(text)|..] == code;
        SimpleSwitches(data, p, deflab);
      } else {
        HashSwitch(p, deflab, isn0);
      }
    }

    method DirectSwitch(p: seq<Case>, deflab: Label)
      requires p != [] && Sorted(p) && Fits(p) && p[|p| - 1].val - p[0].val < 0x8000
      requires deflab < isn && forall l | l in data :: l < isn
      modifies this
      ensures old(text) <= text
      ensures Switches(data, text[|old(text)|..], p, deflab) && Distinct(text[|old(text)|..])
      ensures forall l | l in old(data) :: l in data && data[l] == old(data[l])
    {
      hide Direct, Table, Switches, Sorted, Fits, Distinct;
      var tab := isn;
      text := text + Direct(p, deflab, tab);
      isn := isn + 1;
      var table := DirectTable(p, deflab);
      data := data[tab := table];
      DirectIsSwitch(data, p, deflab, tab);
      assert text[|old(text)|..] == Direct(p, deflab, tab);
    }

    method HashSwitch(p: seq<Case>, deflab: Label, ghost isn0: nat)
      requires 10 <= |p| <= SWSIZ && Fits(p) && isn0 <= isn && deflab < isn0 && LabelsUnder(p, isn0)
      requires forall l | l in data :: l < isn
      modifies this
      ensures old(text) <= text
      ensures exists t, tab, base :: HashForm(data, text[|old(text)|..], p, t, deflab, tab, base, isn0)
      ensures forall l | l in old(data) :: l in data && data[l] == old(data[l])
    {
      var tabs := Divisor(p);
      var tab := isn;
      isn := isn + 2;
      var base := isn;
      text := text + Head(tabs, tab);
      data := data[tab := seq<Label>(tabs, j => base + j)];
      ghost var data1 := data;
      var i := 0;
      while i < tabs
        invariant 0 <= i <= tabs && isn == base + i && data == data1
        invariant text == old(text) + Head(tabs, tab) + Buckets(p, tabs, deflab, base, i)
      {
        text := text + [Lab(isn)];
        isn := isn + 1;
        BucketTests(p, tabs, i);
        text := text + [Jbr(deflab)];
        BucketAdded(old(text) + Head(tabs, tab), p, tabs, deflab, base, i);
        i := i + 1;
      }
      assert text[|old(text)|..] == Hash(p, tabs, deflab, tab, base);
      HashFormed(data, text[|old(text)|..], p, tabs, deflab, tab, base, isn0);
    }

    // The inner loop: tests for the cases that fall into bucket i.
    method BucketTests(p: seq<Case>, tabs: nat, i: nat)
      requires Fits(p) && tabs > 0
      modifies this`text
      ensures text == old(text) + Tests(Bucket(p, tabs, i), true)
    {
      var k := 0;
      while k < |p|
        invariant 0 <= k <= |p| && Fits(p[..k])
        invariant text == old(text) + Tests(Bucket(p[..k], tabs, i), true)
      {
        assert p[k] in p && p[..k + 1] == p[..k] + [p[k]];
        BucketAppend(p[..k], p[k], tabs, i);
        var u := Unsigned(p[k].val);
        if u % tabs == i {
          TestsAppend(Bucket(p[..k], tabs, i), Case(u / tabs, p[k].lab), true);
          Breq(u / tabs, p[k].lab);
        }
        k := k + 1;
      }
      assert p[..k] == p;
    }
  }

  lemma {:induction false} CountAppend(p: seq<Case>, c: Case, t: nat, j: nat)
    requires Fits(p) && -0x8000 <= c.val < 0x8000 && t > 0 && Fits(p + [c])
    ensures Count(p + [c], t, j) == Count(p, t, j) + if Unsigned(c.val) % t == j then 1 else 0
  {
    if p == [] {
      assert p + [c] == [c];
    } else {
      assert p[0] in p && (p + [c])[1..] == p[1..] + [c];
      CountAppend(p[1..], c, t, j);
    }
  }

  lemma {:induction false} BucketAppend(p: seq<Case>, c: Case, t: nat, j: nat)
    requires Fits(p) && -0x8000 <= c.val < 0x8000 && t > 0 && Fits(p + [c])
    ensures
      var u := Unsigned(c.val);
      Bucket(p + [c], t, j) == if u % t == j then Bucket(p, t, j) + [Case(u / t, c.lab)] else Bucket(p, t, j)
  {
    if p == [] {
      assert p + [c] == [c];
    } else {
      assert p[0] in p && (p + [c])[1..] == p[1..] + [c];
      BucketAppend(p[1..], c, t, j);
    }
  }

  // pswitch chooses the hash form for sorted cases p.
  predicate UsesHash(p: seq<Case>) {
    |p| >= 10 && !(0 < p[|p| - 1].val - p[0].val <= 3 * |p|)
  }

  // The code and the table of a hash switch with the best divisor.
  ghost predicate IsHash(ts: Tables, code: Code, p: seq<Case>, t: nat, d: Label, tab: Label, base: Label, isn0: nat) {
    && Fits(p) && |p| / 4 <= t <= |p| / 2 && t > 0
    && (forall i | |p| / 4 <= i <= |p| / 2 :: i > 0 && t * Worst(p, t, t) <= i * Worst(p, i, i))
    && isn0 <= tab < base && tab in ts && ts[tab] == seq<Label>(t, j => base + j)
    && code == Hash(p, t, d, tab, base)
  }

  // A hash switch over cases none of which is negative is right on the
  // machine with a program counter too.
  lemma HashSwitches(ts: Tables, code: Code, p: seq<Case>, t: nat, d: Label, tab: Label, base: Label, isn0: nat)
    requires IsHash(ts, code, p, t, d, tab, base, isn0) && 10 <= |p| <= SWSIZ
    requires d < isn0 && LabelsUnder(p, isn0)
    requires forall c | c in p :: c.val >= 0 || 65535 % t == 0
    ensures Switches(ts, code, p, d) && Distinct(code)
  {
    HashRight(ts, p, t, d, tab, base);
    BucketLabels(p, t, d, base, t);
    DispatchesSwitches(ts, code, p, d);
  }

  // Such a switch, and right under that condition.
  ghost predicate HashForm(ts: Tables, code: Code, p: seq<Case>, t: nat, d: Label, tab: Label, base: Label, isn0: nat) {
    && IsHash(ts, code, p, t, d, tab, base, isn0)
    && ((forall c | c in p :: c.val >= 0 || 65535 % t == 0) ==> Switches(ts, code, p, d) && Distinct(code))
  }

  lemma HashFormed(ts: Tables, code: Code, p: seq<Case>, t: nat, d: Label, tab: Label, base: Label, isn0: nat)
    requires IsHash(ts, code, p, t, d, tab, base, isn0) && 10 <= |p| <= SWSIZ
    requires d < isn0 && LabelsUnder(p, isn0)
    ensures HashForm(ts, code, p, t, d, tab, base, isn0)
  {
    if forall c | c in p :: c.val >= 0 || 65535 % t == 0 {
      HashSwitches(ts, code, p, t, d, tab, base, isn0);
    }
  }

  lemma SmallProduct(i: nat, worst: nat)
    requires i <= SWSIZ / 4 && worst <= SWSIZ
    ensures i * worst < 0x7fff
  {
    Below(i, 75, worst);
  }

  lemma Below(a: nat, b: nat, c: nat)
    requires a <= b
    ensures a * c <= b * c
  {
    assert b * c == a * c + (b - a) * c && (b - a) * c >= 0;
  }

  lemma BucketAdded(before: Code, p: seq<Case>, t: nat, d: Label, base: Label, i: nat)
    requires Fits(p) && t > 0
    ensures before + Buckets(p, t, d, base, i) + [Lab(base + i)] + Tests(Bucket(p, t, i), true) + [Jbr(d)] ==
            before + Buckets(p, t, d, base, i + 1)
  {
  }

  lemma SameCases(p: seq<Case>, q: seq<Case>, isn: nat)
    requires multiset(p) == multiset(q) && Fits(q) && LabelsUnder(q, isn)
    ensures Fits(p) && LabelsUnder(p, isn) && |p| == |q|
  {
    assert |multiset(p)| == |multiset(q)|;
    forall c | c in p ensures c in q { assert c in multiset(p); }
  }

  lemma EmptySwitch(t: Tables, d: Label)
    ensures Switches(t, [Jbr(d)], [], d) && Distinct([Jbr(d)])
  {
  }

  lemma DirectIsSwitch(t: Tables, p: seq<Case>, d: Label, tab: Label)
    requires p != [] && Sorted(p) && Fits(p) && p[|p| - 1].val - p[0].val < 0x8000
    requires tab in t && t[tab] == Table(p, d)
    ensures Switches(t, Direct(p, d, tab), p, d) && Distinct(Direct(p, d, tab))
  {
    DirectDispatches(t, p, d, tab);
    DispatchesSwitches(t, Direct(p, d, tab), p, d);
  }

  lemma SimpleSwitches(t: Tables, p: seq<Case>, d: Label)
    requires Fits(p)
    ensures
      var code := Tests(p, true) + [Jbr(d)];
      Switches(t, code, p, d) && Distinct(code)
  {
    var code := Tests(p, true) + [Jbr(d)];
    TestsNoLabels(p, true);
    forall m: Cpu ensures Goes(t, code, m, Lookup(p, Signed(m.r0), d)) {
      RunConcat(t, Tests(p, true), [Jbr(d)], At(m));
      TestsRun(t, p, true, m);
      AsWordsFits(p);
      LookupHas(p, Signed(m.r0), d, 0);
    }
    DispatchesSwitches(t, code, p, d);
  }

  // ---- a switch that goes wrong ----

  // Ten cases for which 2 is the best divisor, one of them -1.
  function Example(): seq<Case> {
    [Case(-1, 10)] + ([Case(10, 11)] + ([Case(20, 12)] + ([Case(21, 13)] + ([Case(40, 14)] +
    ([Case(61, 15)] + ([Case(80, 16)] + ([Case(101, 17)] + ([Case(120, 18)] + [Case(141, 19)]))))))))
  }

  function One(u: nat, t: nat, j: nat): nat
    requires t > 0
  {
    if u % t == j then 1 else 0
  }

  lemma CountFirst(c: Case, s: seq<Case>, t: nat, j: nat)
    requires -0x8000 <= c.val < 0x8000 && Fits(s) && t > 0
    ensures Fits([c] + s) && Count([c] + s, t, j) == One(Unsigned(c.val), t, j) + Count(s, t, j)
  {
    assert ([c] + s)[1..] == s;
  }

  lemma ExampleCount(t: nat, j: nat)
    requires t > 0
    ensures Fits(Example())
    ensures Count(Example(), t, j) ==
            One(0xffff_ffff, t, j) + One(10, t, j) + One(20, t, j) + One(21, t, j) + One(40, t, j) +
            One(61, t, j) + One(80, t, j) + One(101, t, j) + One(120, t, j) + One(141, t, j)
  {
    hide Count, Fits, One;
    var s9: seq<Case> := [Case(141, 19)];
    assert s9 + [] == s9;
    var none: seq<Case> := [];
    CountNone(t, j);
    CountFirst(Case(141, 19), none, t, j);
    assert [Case(141, 19)] + none == s9;
    var s8 := [Case(120, 18)] + s9;
    CountFirst(Case(120, 18), s9, t, j);
    var s7 := [Case(101, 17)] + s8;
    CountFirst(Case(101, 17), s8, t, j);
    var s6 := [Case(80, 16)] + s7;
    CountFirst(Case(80, 16), s7, t, j);
    var s5 := [Case(61, 15)] + s6;
    CountFirst(Case(61, 15), s6, t, j);
    var s4 := [Case(40, 14)] + s5;
    CountFirst(Case(40, 14), s5, t, j);
    var s3 := [Case(21, 13)] + s4;
    CountFirst(Case(21, 13), s4, t, j);
    var s2 := [Case(20, 12)] + s3;
    CountFirst(Case(20, 12), s3, t, j);
    var s1 := [Case(10, 11)] + s2;
    CountFirst(Case(10, 11), s2, t, j);
    CountFirst(Case(-1, 10), s1, t, j);
  }

  lemma CountNone(t: nat, j: nat)
    requires t > 0
    ensures Fits([]) && Count([], t, j) == 0
  {
  }

  // The divisors that pswitch compares for the example: 2 wins.
  lemma ExampleDivisor()
    ensures Fits(Example())
    ensures forall i | 3 <= i <= 5 :: 2 * Worst(Example(), 2, 2) < i * Worst(Example(), i, i)
  {
    ExampleHalves();
    ExampleZeros();
    hide Worst, Count, Fits, Example;
    var p := Example();
    assert Count(p, 3, 0) <= Worst(p, 3, 3) && Count(p, 4, 0) <= Worst(p, 4, 4) && Count(p, 5, 0) <= Worst(p, 5, 5);
  }

  lemma ExampleHalves()
    ensures Fits(Example()) && Worst(Example(), 2, 2) <= 5
  {
    ExampleCount(2, 0);
    ExampleCount(2, 1);
    hide Count, Fits;
    assert Worst(Example(), 2, 1) <= 5;
  }

  lemma ExampleZeros()
    ensures Fits(Example())
    ensures 3 * Count(Example(), 3, 0) > 10 && 4 * Count(Example(), 4, 0) > 10 && 5 * Count(Example(), 5, 0) > 10
  {
    ExampleCount(3, 0);
    ExampleCount(4, 0);
    ExampleCount(5, 0);
    hide Count, Fits, Example;
  }

  // The word -1 has quotient 32767, but the host divides 2^32 - 1 and emits a
  // test for 65535: the switch that pswitch makes of the example, whose divisor
  // must be 2, sends it to the default.
  lemma HashWrongExample(ts: Tables, code: Code, t: nat, tab: Label, base: Label, isn0: nat)
    requires IsHash(ts, code, Example(), t, 20, tab, base, isn0) && isn0 > 20
    ensures UsesHash(Example()) && t == 2
    ensures Goes(ts, code, Cpu(0xffff, 0, Compare(0, 0)), 20)
    ensures Lookup(Example(), Signed(0xffff), 20) == 10
  {
    ExampleShape();
    ExampleDivisor();
    OnlyTwo(ts, code, t, tab, base, isn0);
    hide Example, Worst, Goes;
    WrongRun(ts, Example(), tab, base);
    LookupAt(Example(), 0, 20);
  }

  lemma OnlyTwo(ts: Tables, code: Code, t: nat, tab: Label, base: Label, isn0: nat)
    requires IsHash(ts, code, Example(), t, 20, tab, base, isn0) && |Example()| == 10 && Fits(Example())
    requires forall i | 3 <= i <= 5 :: 2 * Worst(Example(), 2, 2) < i * Worst(Example(), i, i)
    ensures t == 2
  {
    hide Example, Worst;
    var p := Example();
    assert |p| / 4 == 2 && |p| / 2 == 5;
    assert t * Worst(p, t, t) <= 2 * Worst(p, 2, 2);
  }

  lemma WrongRun(ts: Tables, p: seq<Case>, tab: Label, base: Label)
    requires Fits(p) && LabelsUnder(p, base) && 20 < base && tab in ts && ts[tab] == seq<Label>(2, j => base + j)
    requires forall c | c in p :: c.val == -1 || 0 <= c.val < 200
    ensures Goes(ts, Hash(p, 2, 20, tab, base), Cpu(0xffff, 0, Compare(0, 0)), 20)
  {
    HashRun(ts, p, 2, 20, tab, base, Cpu(0xffff, 0, Compare(0, 0)));
    forall k | 0 <= k < |p| ensures !Hit(Kth(p, k), 0xffff, 2) {
      Misses(Kth(p, k));
    }
    ChosenNone(p, 0xffff, 2, 20);
  }

  lemma ExampleShape()
    ensures Fits(Example()) && UsesHash(Example()) && LabelsUnder(Example(), 20) && |Example()| == 10
    ensures Example()[0] == Case(-1, 10)
    ensures forall c | c in Example() :: c.val == -1 || 0 <= c.val < 200
  {
    ExampleCount(1, 0);
    ExampleEnds();
    ExampleRange();
    hide Example, Fits;
  }

  lemma ExampleEnds()
    ensures |Example()| == 10 && Example()[0] == Case(-1, 10) && Example()[9] == Case(141, 19)
  {
  }

  lemma ExampleRange()
    ensures forall c | c in Example() :: c.lab < 20 && (c.val == -1 || 0 <= c.val < 200)
  {
  }

  lemma Misses(c: Case)
    requires c.val == -1 || 0 <= c.val < 200
    ensures !Hit(c, 0xffff, 2)
  {
  }

  lemma {:induction false} ChosenNone(p: seq<Case>, w: word, t: nat, d: Label)
    requires Fits(p) && t > 0 && forall k | 0 <= k < |p| :: !Hit(Kth(p, k), w, t)
    ensures Chosen(p, w, t, d) == d
  {
    if p != [] {
      assert p[0] in p;
      forall k | 0 <= k < |p[1..]| ensures !Hit(Kth(p[1..], k), w, t) { assert Kth(p[1..], k) == Kth(p, k + 1); }
      assert !Hit(Kth(p, 0), w, t);
      ChosenNone(p[1..], w, t, d);
    }
  }
}
