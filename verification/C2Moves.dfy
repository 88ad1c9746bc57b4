// The rewrites of the improver, each shown to leave every run as it was.
module C2Moves {
  import opened C2Run

  // ---- editing a list ----

  function Remove(s: seq<Id>, k: nat): seq<Id>
    requires k < |s|
  {
    s[..k] + s[k + 1..]
  }

  function Insert(s: seq<Id>, k: nat, x: Id): seq<Id>
    requires k <= |s|
  {
    s[..k] + [x] + s[k..]
  }

  lemma RemoveDistinct(s: seq<Id>, k: nat)
    requires Distinct(s) && k < |s|
    ensures Distinct(Remove(s, k))
    ensures forall x :: x in Remove(s, k) <==> x in s && x != s[k]
  {
    forall x | x in s && x != s[k] ensures x in Remove(s, k) {
      var i := Pos(s, x);
      assert Remove(s, k)[if i < k then i else i - 1] == x;
    }
    forall x | x in Remove(s, k) ensures x in s && x != s[k] {
      var i := Pos(Remove(s, k), x);
      assert s[if i < k then i else i + 1] == x;
    }
  }

  lemma RemoveNext(s: seq<Id>, k: nat, x: Id)
    requires Distinct(s) && NIL !in s && k < |s| && x in s && x != s[k]
    ensures Next(Remove(s, k), x) == if Next(s, x) == s[k] then Next(s, s[k]) else Next(s, x)
    ensures Next(s, x) == s[k] ==> k > 0 && x == s[k - 1]
  {
    RemoveDistinct(s, k);
    var i := Pos(s, x);
    NextAt(s, i);
    NextAt(s, k);
    NextAt(Remove(s, k), if i < k then i else i - 1);
  }

  lemma InsertRemove(s: seq<Id>, k: nat, x: Id)
    requires k <= |s| && Distinct(s) && x !in s
    ensures Remove(Insert(s, k, x), k) == s && Distinct(Insert(s, k, x))
    ensures forall y :: y in Insert(s, k, x) <==> y in s || y == x
  {
    var r := Insert(s, k, x);
    forall y ensures y in r <==> y in s || y == x { InsertIn(s, k, x, y); }
    forall i, j | 0 <= i < j < |r| ensures r[i] != r[j] {
      assert r[i] == if i < k then s[i] else if i == k then x else s[i - 1];
      assert r[j] == if j < k then s[j] else if j == k then x else s[j - 1];
    }
  }

  lemma InsertIn(s: seq<Id>, k: nat, x: Id, y: Id)
    requires k <= |s|
    ensures y in Insert(s, k, x) <==> y in s || y == x
  {
    var r := Insert(s, k, x);
    if y in s {
      var i := Pos(s, y);
      assert r[if i < k then i else i + 1] == y;
    }
    assert r[k] == x;
  }

  // ---- a node that control passes without effect ----

  // The node at k is a label that nothing names, or a jump to the label at j
  // with only labels in between.
  ghost predicate Silent(p: Prog, k: nat, j: nat)
    requires Valid(p)
  {
    && k < j < |p.order| && Labels(p, k + 1, j)
    && (forall x | x in p.order && HasRef(p.node[x]) :: p.node[x].ref != p.order[k])
    && (var d := p.node[p.order[k]]; (d.Label? && j == k + 1) || d == Br(p.order[j]))
  }

  function Without(p: Prog, k: nat): Prog
    requires k < |p.order|
  {
    p.(order := Remove(p.order, k))
  }

  lemma RemoveSilent(p: Prog, m: Machine, k: nat, j: nat)
    requires Valid(p) && k < |p.order| && Silent(p, k, j)
    ensures Valid(Without(p, k)) && Equivalent(p, Without(p, k), m)
  {
    var q, d := Without(p, k), p.order[k];
    RemoveDistinct(p.order, k);
    forall c: Config | c.At? && Shared(p, q, {d}, c) ensures exists a: nat, b: nat :: Meets(p, q, m, {d}, c, a, b) {
      var a, b := PassSilent(p, m, k, j, c);
    }
    forall c: Config | c.At? && Shared(q, p, {d}, c) ensures exists b: nat, a: nat :: Meets(q, p, m, {d}, c, b, a) {
      var a, b := PassSilent(p, m, k, j, c);
    }
    FollowsEquivalent(p, q, m, {d});
  }

  // Where the next node to k is entered instead of the one at k.
  lemma StepWithout(p: Prog, m: Machine, k: nat, c: Config)
    requires Valid(p) && k < |p.order| && c.At? && c.pc != p.order[k]
    requires forall x | x in p.order && HasRef(p.node[x]) :: p.node[x].ref != p.order[k]
    ensures
      var s := Step(p, m, c);
      Step(Without(p, k), m, c) == if s.At? && s.pc == p.order[k] then At(Next(p.order, p.order[k]), s.h) else s
  {
    RemoveDistinct(p.order, k);
    if c.pc in p.order { RemoveNext(p.order, k, c.pc); }
  }

  lemma PassSilent(p: Prog, m: Machine, k: nat, j: nat, c: Config) returns (a: nat, b: nat)
    requires Valid(p) && k < |p.order| && Silent(p, k, j)
    requires c.At? && Shared(p, Without(p, k), {p.order[k]}, c)
    ensures Meets(p, Without(p, k), m, {p.order[k]}, c, a, b)
    ensures Meets(Without(p, k), p, m, {p.order[k]}, c, b, a)
  {
    hide *;
    var s := StepEither(p, m, k, j, c);
    if s.At? && s.pc == p.order[k] {
      a, b := 2, j - k;
      StepOver(p, m, k, j, c, s.h);
    } else {
      a, b := 1, 1;
      OneStep(p, Without(p, k), m, {p.order[k]}, c);
      OneStep(Without(p, k), p, m, {p.order[k]}, c);
    }
  }

  // A step in the longer list leads to the node at k, or is the same in both.
  lemma StepEither(p: Prog, m: Machine, k: nat, j: nat, c: Config) returns (s: Config)
    requires Valid(p) && k < |p.order| && Silent(p, k, j)
    requires c.At? && Shared(p, Without(p, k), {p.order[k]}, c)
    ensures s == Step(p, m, c) && k < j
    ensures
      var q, d := Without(p, k), p.order[k];
      if s.At? && s.pc == d then Step(q, m, c) == At(Next(p.order, d), s.h)
      else Step(q, m, c) == s && Shared(p, q, {d}, s) && Shared(q, p, {d}, s)
  {
    s := Step(p, m, c);
    RemoveDistinct(p.order, k);
    StepWithout(p, m, k, c);
    StepShared(p, m, c);
    hide Valid, Distinct, Labels, Step, Next;
  }

  lemma StepOver(p: Prog, m: Machine, k: nat, j: nat, c: Config, h: History)
    requires Valid(p) && k < j && k < |p.order| && Silent(p, k, j) && c.At?
    requires Step(p, m, c) == At(p.order[k], h) && Step(Without(p, k), m, c) == At(Next(p.order, p.order[k]), h)
    ensures Meets(p, Without(p, k), m, {p.order[k]}, c, 2, j - k)
    ensures Meets(Without(p, k), p, m, {p.order[k]}, c, j - k, 2)
  {
    hide *;
    var e := SilentPath(p, m, k, j, h);
    TwoSteps(p, m, c);
    PlaceIn(p, k, j);
    SilentMeets(p, Without(p, k), m, p.order[k], c, h, e, j - k);
  }

  lemma PlaceIn(p: Prog, k: nat, j: nat)
    requires Valid(p) && k < |p.order| && Silent(p, k, j)
    ensures j < |p.order| && p.order[j] in p.order &&
      (p.order[j] in Remove(p.order, k) ==> p.order[j] in Without(p, k).order)
  {
  }

  // From the node at k, and in the shorter list from the node after it.
  lemma SilentPath(p: Prog, m: Machine, k: nat, j: nat, h: History) returns (e: Config)
    requires Valid(p) && k < |p.order| && Silent(p, k, j)
    ensures e == At(p.order[j], h) && Step(p, m, At(p.order[k], h)) == e
    ensures
      var q, c := Without(p, k), At(Next(p.order, p.order[k]), h);
      && Steps(q, m, c, j - k - 1) == e
      && forall i | 0 <= i <= j - k - 1 :: Steps(q, m, c, i).At? && Steps(q, m, c, i).h == h
    ensures p.order[j] in Remove(p.order, k) && p.order[j] != p.order[k]
  {
    var q := Without(p, k);
    e := At(p.order[j], h);
    RemoveDistinct(p.order, k);
    NextAt(p.order, k);
    assert q.order[k] == p.order[k + 1] && q.order[j - 1] == p.order[j];
    assert forall i | k <= i < j - 1 :: q.order[i] == p.order[i + 1];
    PassLabels(q, m, k, j - 1, h);
  }

  lemma SilentMeets(p: Prog, q: Prog, m: Machine, d: Id, c: Config, h: History, e: Config, b: nat)
    requires c.At? && b > 0 && Step(p, m, c) == At(d, h) && Steps(p, m, c, 2) == e
    requires
      var s := Step(q, m, c);
      Steps(q, m, s, b - 1) == e && forall i | 0 <= i <= b - 1 :: Steps(q, m, s, i).At? && Steps(q, m, s, i).h == h
    requires e.At? && e.h == h && e.pc in p.order && e.pc in q.order && e.pc != d
    ensures Meets(p, q, m, {d}, c, 2, b) && Meets(q, p, m, {d}, c, b, 2)
  {
    TwoSteps(p, m, c);
    forall i | 0 < i <= b ensures Steps(q, m, c, i).At? && Steps(q, m, c, i).h == h {
      assert Steps(q, m, c, i) == Steps(q, m, Step(q, m, c), i - 1);
    }
    hide Step, Steps;
    TwoWays(p, q, m, {d}, c, 2, b);
    TwoWays(q, p, m, {d}, c, b, 2);
  }

  lemma TwoSteps(p: Prog, m: Machine, c: Config)
    ensures Steps(p, m, c, 1) == Step(p, m, c)
    ensures Steps(p, m, c, 2) == Step(p, m, Step(p, m, c))
  {
    assert Steps(p, m, c, 1) == Steps(p, m, Step(p, m, c), 0);
    assert Steps(p, m, Step(p, m, c), 1) == Steps(p, m, Step(p, m, Step(p, m, c)), 0);
  }

  // A step stays inside the program, or at its end.
  lemma StepShared(p: Prog, m: Machine, c: Config)
    requires Valid(p)
    ensures var s := Step(p, m, c); s.At? ==> s.pc == NIL || s.pc in p.order || s == c
  {
  }

  // ---- code after an unconditional jump ----

  // The node at k is not a label and no entry, and follows a jump.
  ghost predicate Unreached(p: Prog, k: nat)
    requires Valid(p)
  {
    && 0 < k < |p.order| && NoFall(p.node[p.order[k - 1]])
    && !p.node[p.order[k]].Label? && !Entry(p.node[p.order[k]])
  }

  lemma RemoveUnreached(p: Prog, m: Machine, k: nat)
    requires Valid(p) && Unreached(p, k)
    ensures Valid(Without(p, k)) && Equivalent(p, Without(p, k), m)
  {
    var q, d := Without(p, k), p.order[k];
    RemoveDistinct(p.order, k);
    NextAt(p.order, k - 1);
    forall c: Config | c.At? && Shared(p, q, {d}, c)
      ensures Meets(p, q, m, {d}, c, 1, 1) && Meets(q, p, m, {d}, c, 1, 1)
    {
      NeverReached(p, m, k, c);
      StepWithout(p, m, k, c);
      StepShared(p, m, c);
      OneStep(p, q, m, {d}, c);
      OneStep(q, p, m, {d}, c);
    }
    FollowsEquivalent(p, q, m, {d});
  }

  lemma NeverReached(p: Prog, m: Machine, k: nat, c: Config)
    requires Valid(p) && Unreached(p, k) && c.At? && (c.pc == NIL || c.pc in p.order) && c.pc != p.order[k]
    ensures var s := Step(p, m, c); s.At? ==> s.pc != p.order[k]
  {
    if c.pc in p.order {
      NextAt(p.order, Pos(p.order, c.pc));
    }
  }

  // ---- a jump to a jump ----

  // The label of x at place i is followed, after more labels, by a jump at j.
  ghost predicate Chained(p: Prog, x: Id, i: nat, j: nat)
    requires Valid(p)
  {
    && x in p.order && HasRef(p.node[x])
    && i < j < |p.order| && p.order[i] == p.node[x].ref && Labels(p, i, j)
    && p.node[p.order[j]].Br? && p.order[j] != x
  }

  function Retargeted(p: Prog, x: Id, r: Id): Prog
    requires x in p.node && HasRef(p.node[x])
  {
    p.(node := p.node[x := SetRef(p.node[x], r)])
  }

  lemma Retarget(p: Prog, m: Machine, x: Id, i: nat, j: nat)
    requires Valid(p) && Chained(p, x, i, j)
    ensures
      var q := Retargeted(p, x, p.node[p.order[j]].ref);
      Valid(q) && Equivalent(p, q, m)
  {
    var q := Retargeted(p, x, p.node[p.order[j]].ref);
    forall c: Config | c.At? && Shared(p, q, {}, c) ensures exists a: nat, b: nat :: Meets(p, q, m, {}, c, a, b) {
      var a := TakeChain(p, m, x, i, j, c);
    }
    forall c: Config | c.At? && Shared(q, p, {}, c) ensures exists b: nat, a: nat :: Meets(q, p, m, {}, c, b, a) {
      var a := TakeChain(p, m, x, i, j, c);
    }
    FollowsEquivalent(p, q, m, {});
  }

  lemma TakeChain(p: Prog, m: Machine, x: Id, i: nat, j: nat, c: Config) returns (a: nat)
    requires Valid(p) && Chained(p, x, i, j) && c.At? && (c.pc == NIL || c.pc in p.order)
    ensures
      var q := Retargeted(p, x, p.node[p.order[j]].ref);
      Meets(p, q, m, {}, c, a, 1) && Meets(q, p, m, {}, c, 1, a)
  {
    var q := Retargeted(p, x, p.node[p.order[j]].ref);
    var s := Step(p, m, c);
    StepShared(p, m, c);
    if c.pc == x && (p.node[x].Cbr? ==> Holds(p.node[x].c, m(c.h))) {
      a := j - i + 2;
      var e := At(p.node[p.order[j]].ref, c.h);
      assert s == At(p.order[i], c.h) && Step(q, m, c) == e;
      ThroughLabels(p, m, c, i, j);
      JumpMeets(p, q, m, {}, c, a, e);
    } else {
      a := 1;
      assert Step(q, m, c) == s;
      OneStep(p, q, m, {}, c);
      OneStep(q, p, m, {}, c);
    }
  }

  // The jump x may name any of the labels that follow its own directly.
  lemma RetargetLabel(p: Prog, m: Machine, x: Id, i: nat, j: nat)
    requires Valid(p) && x in p.order && HasRef(p.node[x]) && i <= j < |p.order|
    requires p.order[i] == p.node[x].ref && Labels(p, i, j + 1)
    ensures
      var q := Retargeted(p, x, p.order[j]);
      Valid(q) && Equivalent(p, q, m)
  {
    var q := Retargeted(p, x, p.order[j]);
    assert p.order[j] in p.order;
    forall c: Config | c.At? && Shared(p, q, {}, c) ensures exists a: nat, b: nat :: Meets(p, q, m, {}, c, a, b) {
      var a := TakeLabels(p, m, x, i, j, c);
    }
    forall c: Config | c.At? && Shared(q, p, {}, c) ensures exists b: nat, a: nat :: Meets(q, p, m, {}, c, b, a) {
      var a := TakeLabels(p, m, x, i, j, c);
    }
    FollowsEquivalent(p, q, m, {});
  }

  lemma TakeLabels(p: Prog, m: Machine, x: Id, i: nat, j: nat, c: Config) returns (a: nat)
    requires Valid(p) && x in p.order && HasRef(p.node[x]) && i <= j < |p.order|
    requires p.order[i] == p.node[x].ref && Labels(p, i, j + 1) && c.At? && (c.pc == NIL || c.pc in p.order)
    ensures var q := Retargeted(p, x, p.order[j]); Meets(p, q, m, {}, c, a, 1) && Meets(q, p, m, {}, c, 1, a)
  {
    var q := Retargeted(p, x, p.order[j]);
    var s := Step(p, m, c);
    StepShared(p, m, c);
    if c.pc == x && (p.node[x].Cbr? ==> Holds(p.node[x].c, m(c.h))) {
      a := j - i + 1;
      assert s == At(p.order[i], c.h) && Step(q, m, c) == At(p.order[j], c.h);
      PassLabels(p, m, i, j, c.h);
      assert p.order[j] in p.order;
      hide Step, Valid, Labels;
      forall n | 0 < n <= a ensures Steps(p, m, c, n) == At(p.order[i + n - 1], c.h) {
        assert Steps(p, m, c, n) == Steps(p, m, s, n - 1);
      }
      JumpMeets(p, q, m, {}, c, a, At(p.order[j], c.h));
    } else {
      a := 1;
      OneStep(p, q, m, {}, c);
      OneStep(q, p, m, {}, c);
    }
  }

  // One step to the label at i, then to the jump at j, then where that goes.
  lemma ThroughLabels(p: Prog, m: Machine, c: Config, i: nat, j: nat)
    requires Valid(p) && c.At? && i <= j < |p.order| && Labels(p, i, j) && p.node[p.order[j]].Br?
    requires var s := Step(p, m, c); s == At(p.order[i], s.h)
    ensures
      var h := Step(p, m, c).h;
      && Steps(p, m, c, j - i + 2) == At(p.node[p.order[j]].ref, h)
      && forall n | 0 < n <= j - i + 2 :: Steps(p, m, c, n).At? && Steps(p, m, c, n).h == h
  {
    var s := Step(p, m, c);
    PassToJump(p, m, i, j, s.h);
    hide Step, Valid, Labels;
    forall n | 0 < n <= j - i + 2 ensures Steps(p, m, c, n).At? && Steps(p, m, c, n).h == s.h {
      assert Steps(p, m, c, n) == Steps(p, m, s, n - 1);
    }
    assert Steps(p, m, c, j - i + 2) == Steps(p, m, s, j - i + 1);
  }

  lemma PassToJump(p: Prog, m: Machine, i: nat, j: nat, h: History)
    requires Valid(p) && i <= j < |p.order| && Labels(p, i, j) && p.node[p.order[j]].Br?
    ensures
      var s := At(p.order[i], h);
      && Steps(p, m, s, j - i + 1) == At(p.node[p.order[j]].ref, h)
      && forall n: nat | n <= j - i + 1 :: Steps(p, m, s, n).At? && Steps(p, m, s, n).h == h
  {
    var s := At(p.order[i], h);
    PassLabels(p, m, i, j, h);
    assert Step(p, m, At(p.order[j], h)) == At(p.node[p.order[j]].ref, h);
    TwoSteps(p, m, At(p.order[j], h));
    hide Step, Valid, Labels;
    StepsAdd(p, m, s, j - i, 1);
    forall n: nat | n <= j - i + 1 ensures Steps(p, m, s, n).At? && Steps(p, m, s, n).h == h {
      if n <= j - i { assert Steps(p, m, s, n) == At(p.order[i + n], h); }
    }
  }

  // a steps without instructions against one step.
  lemma JumpMeets(p: Prog, q: Prog, m: Machine, bad: set<Id>, c: Config, a: nat, e: Config)
    requires a > 0 && Steps(p, m, c, a) == e && Step(q, m, c) == e
    requires e.At? && (forall n | 0 < n <= a :: Steps(p, m, c, n).At? && Steps(p, m, c, n).h == e.h)
    requires Shared(p, q, bad, e) && Shared(q, p, bad, e)
    ensures Meets(p, q, m, bad, c, a, 1) && Meets(q, p, m, bad, c, 1, a)
  {
    TwoSteps(q, m, c);
    TwoWays(p, q, m, bad, c, a, 1);
    TwoWays(q, p, m, bad, c, 1, a);
  }

  // ---- a conditional skip over a jump, and the swap of the two ----

  // A conditional jump at k, a jump after it.
  ghost predicate JumpPair(p: Prog, k: nat)
    requires Valid(p)
  {
    && k + 1 < |p.order| && p.node[p.order[k]].Cbr? && p.node[p.order[k]].c < 12
    && p.node[p.order[k + 1]].Br?
  }

  function Swapped(p: Prog, k: nat): Prog
    requires k + 1 < |p.order| && p.order[k] in p.node && p.order[k + 1] in p.node
    requires p.node[p.order[k]].Cbr? && p.node[p.order[k + 1]].Br?
  {
    var x, y := p.order[k], p.order[k + 1];
    p.(node := p.node[x := Cbr(Revbr(p.node[x].c), p.node[y].ref)][y := Br(p.node[x].ref)])
  }

  lemma SwapJumps(p: Prog, m: Machine, k: nat)
    requires Valid(p) && JumpPair(p, k)
    ensures Valid(Swapped(p, k)) && Equivalent(p, Swapped(p, k), m)
  {
    var q, y := Swapped(p, k), p.order[k + 1];
    forall c: Config | c.At? && Shared(p, q, {y}, c) ensures exists a: nat, b: nat :: Meets(p, q, m, {y}, c, a, b) {
      var a, b := TakePair(p, m, k, c);
    }
    forall c: Config | c.At? && Shared(q, p, {y}, c) ensures exists b: nat, a: nat :: Meets(q, p, m, {y}, c, b, a) {
      var a, b := TakePair(p, m, k, c);
    }
    FollowsEquivalent(p, q, m, {y});
  }

  lemma TakePair(p: Prog, m: Machine, k: nat, c: Config) returns (a: nat, b: nat)
    requires Valid(p) && JumpPair(p, k) && c.At? && (c.pc == NIL || c.pc in p.order) && c.pc != p.order[k + 1]
    ensures
      var q, y := Swapped(p, k), p.order[k + 1];
      Meets(p, q, m, {y}, c, a, b) && Meets(q, p, m, {y}, c, b, a)
  {
    var q, x, y := Swapped(p, k), p.order[k], p.order[k + 1];
    a, b := 1, 1;
    NextAt(p.order, k);
    if c.pc == x {
      RevbrComplement(p.node[x].c, m(c.h));
      TwoSteps(p, m, c);
      TwoSteps(q, m, c);
      if Holds(p.node[x].c, m(c.h)) {
        b := 2;
        TwoWays(p, q, m, {y}, c, a, b);
        TwoWays(q, p, m, {y}, c, b, a);
      } else {
        a := 2;
        TwoWays(p, q, m, {y}, c, a, b);
        TwoWays(q, p, m, {y}, c, b, a);
      }
    } else {
      StepShared(p, m, c);
      if c.pc != NIL { NextAt(p.order, Pos(p.order, c.pc)); }
      OneStep(p, q, m, {y}, c);
      OneStep(q, p, m, {y}, c);
    }
  }

  // The pair at k where the first jump goes to just behind the second: the
  // swap makes the second a jump to a label that follows it.
  lemma SkipReversal(p: Prog, m: Machine, k: nat, j: nat)
    requires Valid(p) && JumpPair(p, k) && k + 1 < j < |p.order| && Labels(p, k + 2, j)
    requires p.node[p.order[k]].ref == p.order[j]
    ensures Valid(Swapped(p, k))
    ensures
      var q := Without(Swapped(p, k), k + 1);
      Valid(q) && Equivalent(p, q, m)
  {
    var q := Swapped(p, k);
    SwapJumps(p, m, k);
    assert Silent(q, k + 1, j);
    RemoveSilent(q, m, k + 1, j);
    EquivalentThrough(p, q, Without(q, k + 1), m);
  }

  // ---- cross-jumping ----

  // An instruction, as equop compares them: no jump, no label of any kind.
  predicate IsInstr(n: Node) { n.Op? && (n.op == 0 || n.op >= 10) }

  // The instruction at a, followed after labels by the jump at b, is the same
  // as the one at c, which stands before the labels that the jump goes to.
  ghost predicate SameTail(p: Prog, a: nat, b: nat, c: nat, d: nat)
    requires Valid(p)
  {
    && a < b < |p.order| && Labels(p, a + 1, b) && p.node[p.order[b]] == Br(if d < |p.order| then p.order[d] else NIL)
    && 0 < c < d < |p.order| && Labels(p, c + 1, d) && p.node[p.order[c - 1]].Label?
    && a != c && IsInstr(p.node[p.order[a]]) && p.node[p.order[a]] == p.node[p.order[c]]
  }

  function Merged(p: Prog, a: nat, c: nat): Prog
    requires a < |p.order| && 0 < c < |p.order|
  {
    p.(node := p.node[p.order[a] := Br(p.order[c - 1])])
  }

  lemma MergeTail(p: Prog, m: Machine, a: nat, b: nat, c: nat, d: nat)
    requires Valid(p) && SameTail(p, a, b, c, d)
    ensures Valid(Merged(p, a, c)) && Equivalent(p, Merged(p, a, c), m)
  {
    var q := Merged(p, a, c);
    forall f: Config | f.At? && Shared(p, q, {}, f) ensures exists k: nat, j: nat :: Meets(p, q, m, {}, f, k, j) {
      var k, j := TakeTail(p, m, a, b, c, d, f);
    }
    forall f: Config | f.At? && Shared(q, p, {}, f) ensures exists j: nat, k: nat :: Meets(q, p, m, {}, f, j, k) {
      var k, j := TakeTail(p, m, a, b, c, d, f);
    }
    FollowsEquivalent(p, q, m, {});
  }

  lemma TakeTail(p: Prog, m: Machine, a: nat, b: nat, c: nat, d: nat, f: Config) returns (k: nat, j: nat)
    requires Valid(p) && SameTail(p, a, b, c, d) && f.At? && (f.pc == NIL || f.pc in p.order)
    ensures
      var q := Merged(p, a, c);
      Meets(p, q, m, {}, f, k, j) && Meets(q, p, m, {}, f, j, k)
  {
    if f.pc == p.order[a] {
      k, j := b - a + 1, d - c + 2;
      hide *;
      TailMeets(p, m, a, b, c, d, f);
    } else {
      k, j := 1, 1;
      StepShared(p, m, f);
      hide Labels, Distinct, Next;
      assert Step(Merged(p, a, c), m, f) == Step(p, m, f);
      OneStep(p, Merged(p, a, c), m, {}, f);
      OneStep(Merged(p, a, c), p, m, {}, f);
    }
  }

  lemma TailMeets(p: Prog, m: Machine, a: nat, b: nat, c: nat, d: nat, f: Config)
    requires Valid(p) && SameTail(p, a, b, c, d) && f.At? && f.pc == p.order[a]
    ensures
      var q := Merged(p, a, c);
      Meets(p, q, m, {}, f, b - a + 1, d - c + 2) && Meets(q, p, m, {}, f, d - c + 2, b - a + 1)
  {
    NextAt(p.order, a);
    ThroughLabels(p, m, f, a + 1, b);
    OtherTail(p, m, a, b, c, d, f);
    var q, k, j := Merged(p, a, c), b - a + 1, d - c + 2;
    hide Step, Valid, Labels, Steps, Distinct;
    TwoWays(p, q, m, {}, f, k, j);
    TwoWays(q, p, m, {}, f, j, k);
  }

  // The history after the instruction at a.
  function Done(p: Prog, a: nat, h: History): History
    requires a < |p.order| && p.order[a] in p.node && p.node[p.order[a]].Op?
  {
    h + [(p.node[p.order[a]].op, p.node[p.order[a]].code)]
  }

  // After the merge: to the label before c, through the instruction at c, and
  // past the labels up to d.
  lemma OtherTail(p: Prog, m: Machine, a: nat, b: nat, c: nat, d: nat, f: Config)
    requires Valid(p) && SameTail(p, a, b, c, d) && f.At? && f.pc == p.order[a]
    ensures
      var q, h := Merged(p, a, c), Done(p, a, f.h);
      && Steps(q, m, f, d - c + 2) == At(p.order[d], h)
      && forall i | 0 < i < d - c + 2 ::
           Steps(q, m, f, i).At? && (Steps(q, m, f, i).h == f.h || Steps(q, m, f, i).h == h)
  {
    hide *;
    var q, f1, f2, f3 := IntoTail(p, m, a, b, c, d, f);
    PassLabels(q, m, c + 1, d, f3.h);
    AfterThree(q, m, f, f1, f2, f3, d - c - 1);
  }

  lemma IntoTail(p: Prog, m: Machine, a: nat, b: nat, c: nat, d: nat, f: Config)
    returns (q: Prog, f1: Config, f2: Config, f3: Config)
    requires Valid(p) && SameTail(p, a, b, c, d) && f.At? && f.pc == p.order[a]
    ensures q == Merged(p, a, c) && q.order == p.order && Distinct(q.order) && c < d < |q.order| && Labels(q, c + 1, d)
    ensures f1.At? && f2.At? && f1.h == f2.h == f.h && f3 == At(p.order[c + 1], Done(p, a, f.h))
    ensures Step(q, m, f) == f1 && Step(q, m, f1) == f2 && Step(q, m, f2) == f3
  {
    q := Merged(p, a, c);
    f1, f2, f3 := At(p.order[c - 1], f.h), At(p.order[c], f.h), At(p.order[c + 1], Done(p, a, f.h));
    NextAt(p.order, c - 1);
    NextAt(p.order, c);
  }

  lemma AfterThree(q: Prog, m: Machine, f: Config, f1: Config, f2: Config, f3: Config, n: nat)
    requires Step(q, m, f) == f1 && Step(q, m, f1) == f2 && Step(q, m, f2) == f3
    requires f1.At? && f2.At? && f1.h == f2.h == f.h
    requires forall i: nat | i <= n :: Steps(q, m, f3, i).At? && Steps(q, m, f3, i).h == f3.h
    ensures Steps(q, m, f, n + 3) == Steps(q, m, f3, n)
    ensures forall i | 0 < i < n + 3 ::
      Steps(q, m, f, i).At? && (Steps(q, m, f, i).h == f.h || Steps(q, m, f, i).h == f3.h)
  {
    hide Step, Steps;
    UnrollThree(q, m, f, n + 3);
    forall i | 0 < i < n + 3
      ensures Steps(q, m, f, i).At? && (Steps(q, m, f, i).h == f.h || Steps(q, m, f, i).h == f3.h)
    {
      UnrollThree(q, m, f, i);
    }
  }

  lemma UnrollThree(p: Prog, m: Machine, c: Config, i: nat)
    ensures
      var c1 := Step(p, m, c);
      var c2 := Step(p, m, c1);
      Steps(p, m, c, i) == if i == 0 then c else if i == 1 then c1 else if i == 2 then c2
        else Steps(p, m, Step(p, m, c2), i - 3)
  {
    if i > 0 {
      var c1 := Step(p, m, c);
      assert Steps(p, m, c, i) == Steps(p, m, c1, i - 1);
      if i > 1 {
        assert Steps(p, m, c1, i - 1) == Steps(p, m, Step(p, m, c1), i - 2);
      }
    }
  }

  // ---- moving code ----

  // The same nodes in another order; every node that falls through falls into
  // the same one as before.
  lemma Reorder(p: Prog, q: Prog, m: Machine)
    requires Valid(p) && Distinct(q.order)
    requires forall x :: x in p.order <==> x in q.order
    requires forall x | x in p.order :: x in q.node && q.node[x] == p.node[x]
    requires forall x | x in p.order && !NoFall(p.node[x]) :: Next(q.order, x) == Next(p.order, x)
    ensures Valid(q) && Equivalent(p, q, m)
  {
    forall c: Config | c.At? && Shared(p, q, {}, c)
      ensures Meets(p, q, m, {}, c, 1, 1) && Meets(q, p, m, {}, c, 1, 1)
    {
      StepShared(p, m, c);
      OneStep(p, q, m, {}, c);
      OneStep(q, p, m, {}, c);
    }
    FollowsEquivalent(p, q, m, {});
  }
}
