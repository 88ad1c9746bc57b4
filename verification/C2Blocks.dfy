// The remaining rewrites: a new label, a block moved to the jump that leads
// to it, and two jumps with the same instruction before them.
module C2Blocks {
  import opened C2Run
  import opened C2Moves

  // ---- a new label ----

  function WithLabel(p: Prog, k: nat, n: Id): Prog
    requires k <= |p.order|
  {
    Prog(Insert(p.order, k, n), p.node[n := Label])
  }

  lemma InsertLabel(p: Prog, m: Machine, k: nat, n: Id)
    requires Valid(p) && k < |p.order| && n !in p.order && n != NIL
    ensures Valid(WithLabel(p, k, n)) && Equivalent(p, WithLabel(p, k, n), m)
  {
    var q, r := WithLabel(p, k, n), p.(node := p.node[n := Label]);
    InsertRemove(p.order, k, n);
    Reorder(p, r, m);
    assert Without(q, k) == r;
    assert q.order[k] == n && Labels(q, k + 1, k + 1);
    RemoveSilent(q, m, k, k + 1);
    EquivalentSwap(q, r, m);
    EquivalentThrough(p, r, q, m);
  }

  // ---- codemove ----

  function LastOf(s: seq<Id>): Id {
    if s == [] then NIL else s[|s| - 1]
  }

  lemma BlockSwap(a: seq<Id>, b: seq<Id>, c: seq<Id>, d: seq<Id>)
    requires Distinct(a + b + c + d) && b != [] && c != []
    ensures
      var s, r := a + b + c + d, a + c + b + d;
      && Distinct(r) && (forall x :: x in s <==> x in r)
      && forall x | x in s && x != LastOf(a) && x != LastOf(b) && x != LastOf(c) :: Next(r, x) == Next(s, x)
  {
    var s, r := a + b + c + d, a + c + b + d;
    SwapDistinct(a, b, c, d);
    forall x | x in s && x != LastOf(a) && x != LastOf(b) && x != LastOf(c) ensures Next(r, x) == Next(s, x) {
      var i := Pos(s, x);
      var j := Moved(a, b, c, i);
      assert r[j] == x;
      NextAt(s, i);
      NextAt(r, j);
    }
  }

  // Where the element at i stands after b and c have changed places.
  function Moved(a: seq<Id>, b: seq<Id>, c: seq<Id>, i: nat): nat {
    if i < |a| || i >= |a| + |b| + |c| then i
    else if i < |a| + |b| then i + |c|
    else i - |b|
  }

  lemma SwapDistinct(a: seq<Id>, b: seq<Id>, c: seq<Id>, d: seq<Id>)
    requires Distinct(a + b + c + d)
    ensures var s, r := a + b + c + d, a + c + b + d;
      Distinct(r) && (forall x :: x in s <==> x in r)
  {
    var s, r := a + b + c + d, a + c + b + d;
    forall i | 0 <= i < |s| ensures r[Moved(a, b, c, i)] == s[i] {}
    forall i | 0 <= i < |r| ensures r[i] == s[Moved(a, c, b, i)] {}
    forall x | x in s ensures x in r { assert r[Moved(a, b, c, Pos(s, x))] == x; }
    forall x | x in r ensures x in s { assert s[Moved(a, c, b, Pos(r, x))] == x; }
    forall i, j | 0 <= i < j < |r| ensures r[i] != r[j] { MovedApart(a, b, c, d, i, j); }
  }

  lemma MovedApart(a: seq<Id>, b: seq<Id>, c: seq<Id>, d: seq<Id>, i: nat, j: nat)
    requires Distinct(a + b + c + d) && i < j < |a| + |b| + |c| + |d|
    ensures var r := a + c + b + d; r[i] != r[j]
  {
    var s, r, i1, j1 := a + b + c + d, a + c + b + d, Moved(a, c, b, i), Moved(a, c, b, j);
    assert r[i] == s[i1] && r[j] == s[j1] && i1 != j1;
  }

  // p1 is at k.  The block from s to t begins with labels up to the one at l
  // that p1 names, ends with a jump, and control does not fall into it.
  ghost predicate Movable(p: Prog, k: nat, s: nat, l: nat, t: nat)
    requires Valid(p)
  {
    && k < |p.order| && 0 < s <= l < t < |p.order|
    && NoFall(p.node[p.order[s - 1]]) && NoFall(p.node[p.order[t]])
    && Labels(p, s, l + 1) && p.node[p.order[k]] == Br(p.order[l])
    && (k < s - 1 || k > t)
  }

  // The four pieces of the list, the two in the middle to be exchanged.
  function Pieces(o: seq<Id>, k: nat, s: nat, t: nat): (r: (seq<Id>, seq<Id>, seq<Id>, seq<Id>))
    requires k < |o| && 0 < s < t < |o| && (k < s - 1 || k > t)
    ensures o == r.0 + r.1 + r.2 + r.3
    ensures r.1 != [] && r.2 != []
  {
    if k < s then (o[..k + 1], o[k + 1..s], o[s..t + 1], o[t + 1..])
    else (o[..s], o[s..t + 1], o[t + 1..k + 1], o[k + 1..])
  }

  // The list with the block put right behind the jump, and where the jump is.
  function Behind(o: seq<Id>, k: nat, s: nat, t: nat): seq<Id>
    requires k < |o| && 0 < s < t < |o| && (k < s - 1 || k > t)
  {
    var (a, b, c, d) := Pieces(o, k, s, t);
    a + c + b + d
  }

  function JumpAt(k: nat, s: nat, t: nat): nat {
    if k < s then k else if k > t then k - (t + 1 - s) else 0
  }

  // codemove's result: the block in place of the jump.
  function CodeMoved(p: Prog, k: nat, s: nat, t: nat): Prog
    requires k < |p.order| && 0 < s < t < |p.order| && (k < s - 1 || k > t)
  {
    Without(p.(order := Behind(p.order, k, s, t)), JumpAt(k, s, t))
  }

  lemma BehindAt(o: seq<Id>, k: nat, s: nat, t: nat)
    requires k < |o| && 0 < s < t < |o| && (k < s - 1 || k > t)
    ensures var r, k1 := Behind(o, k, s, t), JumpAt(k, s, t);
      && |r| == |o| && r[k1] == o[k] && k1 + 1 + t - s < |r|
      && forall i | s <= i <= t :: r[k1 + 1 + i - s] == o[i]
  {
  }

  lemma MoveBlock(p: Prog, m: Machine, k: nat, s: nat, l: nat, t: nat)
    requires Valid(p) && Movable(p, k, s, l, t)
    ensures Valid(CodeMoved(p, k, s, t)) && Equivalent(p, CodeMoved(p, k, s, t), m)
  {
    hide *;
    Indexes(p, k, s, l, t);
    CodeMovedIs(p, k, s, t);
    BehindSame(p, m, k, s, l, t);
    BehindSilent(p, k, s, l, t);
    var q, k1 := p.(order := Behind(p.order, k, s, t)), JumpAt(k, s, t);
    RemoveSilent(q, m, k1, k1 + 1 + l - s);
    EquivalentThrough(p, q, Without(q, k1), m);
  }

  lemma Indexes(p: Prog, k: nat, s: nat, l: nat, t: nat)
    requires Valid(p) && Movable(p, k, s, l, t)
    ensures k < |p.order| && 0 < s <= l < t < |p.order| && (k < s - 1 || k > t)
  {
  }

  lemma CodeMovedIs(p: Prog, k: nat, s: nat, t: nat)
    requires k < |p.order| && 0 < s < t < |p.order| && (k < s - 1 || k > t)
    ensures JumpAt(k, s, t) < |Behind(p.order, k, s, t)|
    ensures CodeMoved(p, k, s, t) == Without(p.(order := Behind(p.order, k, s, t)), JumpAt(k, s, t))
  {
  }

  // Behind the jump now come the labels up to the one it names.
  lemma BehindSilent(p: Prog, k: nat, s: nat, l: nat, t: nat)
    requires Valid(p) && Movable(p, k, s, l, t)
    requires Valid(p.(order := Behind(p.order, k, s, t)))
    ensures
      var q, k1 := p.(order := Behind(p.order, k, s, t)), JumpAt(k, s, t);
      k < |p.order| && 0 < s < t < |p.order| && (k < s - 1 || k > t)
      && k1 < |q.order| && Silent(q, k1, k1 + 1 + l - s)
  {
    hide Behind, JumpAt, Distinct;
    var q, k1 := p.(order := Behind(p.order, k, s, t)), JumpAt(k, s, t);
    BehindAt(p.order, k, s, t);
    forall i | k1 + 1 <= i < k1 + 1 + l - s ensures q.order[i] in q.node && q.node[q.order[i]].Label? {
      assert q.order[i] == p.order[s + i - k1 - 1];
    }
    assert q.order[k1 + 1 + l - s] == p.order[l];
  }

  lemma BehindSame(p: Prog, m: Machine, k: nat, s: nat, l: nat, t: nat)
    requires Valid(p) && Movable(p, k, s, l, t)
    ensures var q := p.(order := Behind(p.order, k, s, t)); Valid(q) && Equivalent(p, q, m)
  {
    var (a, b, c, d) := Pieces(p.order, k, s, t);
    PieceEnds(p, k, s, l, t);
    BlockSwap(a, b, c, d);
    Rearrange(p, m, a, b, c, d);
  }

  lemma Rearrange(p: Prog, m: Machine, a: seq<Id>, b: seq<Id>, c: seq<Id>, d: seq<Id>)
    requires Valid(p) && p.order == a + b + c + d && Distinct(a + c + b + d)
    requires forall x :: x in p.order <==> x in a + c + b + d
    requires forall x | x in p.order && x != LastOf(a) && x != LastOf(b) && x != LastOf(c) ::
      Next(a + c + b + d, x) == Next(p.order, x)
    requires LastOf(a) in p.node && LastOf(b) in p.node && LastOf(c) in p.node
    requires NoFall(p.node[LastOf(a)]) && NoFall(p.node[LastOf(b)]) && NoFall(p.node[LastOf(c)])
    ensures var q := p.(order := a + c + b + d); Valid(q) && Equivalent(p, q, m)
  {
    hide Distinct, Next, LastOf;
    Reorder(p, p.(order := a + c + b + d), m);
  }

  lemma PieceEnds(p: Prog, k: nat, s: nat, l: nat, t: nat)
    requires Valid(p) && Movable(p, k, s, l, t)
    ensures
      var (a, b, c, d) := Pieces(p.order, k, s, t);
      && p.order == a + b + c + d && Distinct(a + b + c + d) && b != [] && c != []
      && LastOf(a) in p.node && LastOf(b) in p.node && LastOf(c) in p.node
      && NoFall(p.node[LastOf(a)]) && NoFall(p.node[LastOf(b)]) && NoFall(p.node[LastOf(c)])
  {
    hide *;
    Ends(p, k, s, l, t);
    PiecesEnd(p.order, k, s, t);
  }

  lemma PiecesEnd(o: seq<Id>, k: nat, s: nat, t: nat)
    requires k < |o| && 0 < s < t < |o| && (k < s - 1 || k > t)
    ensures
      var (a, b, c, d) := Pieces(o, k, s, t);
      && o == a + b + c + d && b != [] && c != []
      && LastOf(a) in [o[k], o[s - 1]] && LastOf(b) in [o[s - 1], o[t]] && LastOf(c) in [o[t], o[k]]
  {
    LastOfSlice(o, 0, k + 1);
    LastOfSlice(o, 0, s);
    LastOfSlice(o, s, t + 1);
    if k < s { LastOfSlice(o, k + 1, s); } else { LastOfSlice(o, t + 1, k + 1); }
    hide LastOf;
    assert o[..k + 1] == o[0..k + 1] && o[..s] == o[0..s];
  }

  lemma Ends(p: Prog, k: nat, s: nat, l: nat, t: nat)
    requires Valid(p) && Movable(p, k, s, l, t)
    ensures Distinct(p.order) && k < |p.order| && 0 < s < t < |p.order| && (k < s - 1 || k > t)
    ensures p.order[k] in p.node && NoFall(p.node[p.order[k]])
    ensures p.order[s - 1] in p.node && NoFall(p.node[p.order[s - 1]])
    ensures p.order[t] in p.node && NoFall(p.node[p.order[t]])
  {
    hide Distinct, Labels;
  }

  lemma LastOfSlice(o: seq<Id>, i: nat, j: nat)
    requires i < j <= |o|
    ensures LastOf(o[i..j]) == o[j - 1]
  {
  }

  lemma InOrder(p: Prog, i: nat)
    requires Valid(p) && i < |p.order|
    ensures p.order[i] in p.order && p.order[i] in p.node && p.order[i] != NIL
  {
  }

  // ---- backjmp ----

  // A jump at k, and before it a place b that is a jump to the same label or
  // that label itself.  Before them, at a (with labels between) and right
  // before k, stands the same instruction; a label before a.
  ghost predicate SameHead(p: Prog, a: nat, b: nat, k: nat)
    requires Valid(p)
  {
    && 0 < a < b < |p.order| && Labels(p, a + 1, b) && p.node[p.order[a - 1]].Label?
    && b < k - 1 < k < |p.order|
    && p.node[p.order[k]].Br?
    && (if p.node[p.order[b]].Br? then p.node[p.order[k]] == p.node[p.order[b]]
        else p.node[p.order[b]].Label? && p.node[p.order[k]].ref == p.order[b])
    && IsInstr(p.node[p.order[a]]) && p.node[p.order[k - 1]] == p.node[p.order[a]]
  }

  // The second instruction is dropped and its jump goes to the first.
  function Joined(p: Prog, a: nat, k: nat): Prog
    requires 0 < a < |p.order| && 0 < k < |p.order|
  {
    Prog(Remove(p.order, k - 1), p.node[p.order[k] := Br(p.order[a - 1])])
  }

  // The two lists by node: p loses `gone`, which falls into `jump` alone, and
  // `jump`, which went to `to` as `first` does, goes to `lab`.
  ghost predicate Rejoined(p: Prog, q: Prog, gone: Id, jump: Id) {
    && gone != NIL && jump != NIL && gone != jump
    && (forall x | x != gone && x != jump :: x in q.order <==> x in p.order)
    && (forall x | x != jump :: (x in q.node <==> x in p.node) && (x in p.node ==> q.node[x] == p.node[x]))
    && (forall x | x != gone && x != jump ::
          var n := Next(p.order, x);
          n != jump && (n == NIL || n in p.order) && Next(q.order, x) == if n == gone then jump else n)
    && (forall x | x in p.order && x in p.node && HasRef(p.node[x]) :: p.node[x].ref != gone && p.node[x].ref != jump)
  }

  lemma JoinedIs(p: Prog, a: nat, b: nat, k: nat)
    requires Valid(p) && SameHead(p, a, b, k)
    ensures Rejoined(p, Joined(p, a, k), p.order[k - 1], p.order[k])
  {
    var gone, jump := p.order[k - 1], p.order[k];
    InOrder(p, k - 1);
    InOrder(p, k);
    RemoveDistinct(p.order, k - 1);
    NextAt(p.order, k - 1);
    forall x | x != gone && x != jump
      ensures
        var n := Next(p.order, x);
        n != jump && (n == NIL || n in p.order) && Next(Remove(p.order, k - 1), x) == if n == gone then jump else n
    {
      OtherNext(p.order, k, x);
    }
    forall x | x in p.order && HasRef(p.node[x]) ensures p.node[x].ref != gone && p.node[x].ref != jump {
      assert p.node[p.node[x].ref].Label?;
    }
  }

  lemma OtherNext(s: seq<Id>, k: nat, x: Id)
    requires Distinct(s) && NIL !in s && 0 < k < |s| && x != s[k - 1] && x != s[k]
    ensures
      var n := Next(s, x);
      n != s[k] && (n == NIL || n in s) && Next(Remove(s, k - 1), x) == if n == s[k - 1] then s[k] else n
  {
    RemoveDistinct(s, k - 1);
    NextAt(s, k - 1);
    if x in s {
      RemoveNext(s, k - 1, x);
      NextAt(s, Pos(s, x));
    }
  }

  lemma JoinedValid(p: Prog, a: nat, b: nat, k: nat)
    requires Valid(p) && SameHead(p, a, b, k)
    ensures Valid(Joined(p, a, k)) && p.order[k] in Joined(p, a, k).order
  {
    HeadIndexes(p, a, b, k);
    InOrder(p, k);
    InOrder(p, k - 1);
    InOrder(p, a - 1);
    NotSame(p, a, b, k);
    JoinedParts(p, a, k);
    hide Labels, Distinct, Valid, Joined, Remove;
    RejoinedValid(p, Joined(p, a, k), p.order[k - 1], p.order[k], p.order[a - 1]);
  }

  lemma HeadIndexes(p: Prog, a: nat, b: nat, k: nat)
    requires Valid(p) && SameHead(p, a, b, k)
    ensures 0 < a < b < k - 1 && k < |p.order| && p.order[b] in p.node
  {
  }

  lemma JoinedParts(p: Prog, a: nat, k: nat)
    requires Valid(p) && 0 < a < |p.order| && 0 < k < |p.order|
    ensures
      var q := Joined(p, a, k);
      && Distinct(q.order) && (forall x :: x in q.order <==> x in p.order && x != p.order[k - 1])
      && q.node == p.node[p.order[k] := Br(p.order[a - 1])]
  {
    RemoveDistinct(p.order, k - 1);
  }

  lemma RejoinedValid(p: Prog, q: Prog, gone: Id, jump: Id, lab: Id)
    requires Valid(p) && Distinct(q.order) && forall x :: x in q.order <==> x in p.order && x != gone
    requires q.node == p.node[jump := Br(lab)] && jump in p.order && jump != gone
    requires !p.node[jump].Label? && gone in p.order && !p.node[gone].Label?
    requires lab in p.order && p.node[lab].Label?
    ensures Valid(q)
  {
    hide Distinct;
  }

  lemma JoinedEntries(p: Prog, a: nat, b: nat, k: nat)
    requires Valid(p) && SameHead(p, a, b, k)
    ensures SameEntries(p, Joined(p, a, k), {p.order[k - 1], p.order[k]})
  {
    hide *;
    HeadIndexes(p, a, b, k);
    JoinedParts(p, a, k);
    JoinedKinds(p, a, b, k);
    RejoinedEntries(p, Joined(p, a, k), p.order[k - 1], p.order[k], p.order[a - 1]);
  }

  lemma JoinedKinds(p: Prog, a: nat, b: nat, k: nat)
    requires Valid(p) && SameHead(p, a, b, k)
    ensures 0 < k < |p.order| && p.order[k] in p.node && p.order[k - 1] in p.node
    ensures !Entry(p.node[p.order[k]]) && !Entry(p.node[p.order[k - 1]])
  {
    InOrder(p, k);
    InOrder(p, k - 1);
    hide Labels, Distinct;
  }

  lemma RejoinedEntries(p: Prog, q: Prog, gone: Id, jump: Id, lab: Id)
    requires forall x :: x in q.order <==> x in p.order && x != gone
    requires q.node == p.node[jump := Br(lab)] && jump in p.node && !Entry(p.node[jump])
    requires gone in p.node && !Entry(p.node[gone])
    ensures SameEntries(p, q, {gone, jump})
  {
  }

  lemma NotSame(p: Prog, a: nat, b: nat, k: nat)
    requires Valid(p) && SameHead(p, a, b, k)
    ensures p.order[k - 1] != p.order[k] && p.order[a - 1] != p.order[k] && p.order[a - 1] != p.order[k - 1]
  {
    hide Labels;
  }

  lemma JoinHeads(p: Prog, m: Machine, a: nat, b: nat, k: nat)
    requires Valid(p) && SameHead(p, a, b, k)
    ensures Valid(Joined(p, a, k)) && Equivalent(p, Joined(p, a, k), m)
  {
    hide *;
    HeadIndexes(p, a, b, k);
    JoinedIs(p, a, b, k);
    JoinedValid(p, a, b, k);
    JoinedEntries(p, a, b, k);
    var q, gone, jump, n := Joined(p, a, k), p.order[k - 1], p.order[k], Last(p, a, b) + 3;
    forall h: History ensures Longer(p, q, m, gone, jump, n, h) { BothWays(p, m, a, b, k, h); }
    RejoinedFollows(p, q, m, gone, jump, n);
    FollowsEquivalent(p, q, m, {gone, jump});
  }

  // From `gone`, p executes one instruction and gets to e; from `jump`, q
  // gets to e in n steps, the first two without an instruction.
  ghost predicate Longer(p: Prog, q: Prog, m: Machine, gone: Id, jump: Id, n: nat, h: History) {
    var e := Steps(p, m, At(gone, h), 2);
    && e.At? && e.pc in p.order && e.pc in q.order && e.pc != gone && e.pc != jump
    && Steps(p, m, At(gone, h), 1).At? && Steps(p, m, At(gone, h), 1).h == e.h
    && n > 2 && Steps(q, m, At(jump, h), n) == e
    && forall j: nat | j < n ::
         Steps(q, m, At(jump, h), j).At? && Steps(q, m, At(jump, h), j).h == if j <= 2 then h else e.h
  }

  lemma RejoinedFollows(p: Prog, q: Prog, m: Machine, gone: Id, jump: Id, n: nat)
    requires Valid(p) && Rejoined(p, q, gone, jump)
    requires forall h: History :: Longer(p, q, m, gone, jump, n, h)
    ensures Follows(p, q, m, {gone, jump}) && Follows(q, p, m, {gone, jump})
  {
    var bad := {gone, jump};
    forall c: Config | c.At? && Shared(p, q, bad, c) ensures exists i: nat, j: nat :: Meets(p, q, m, bad, c, i, j) {
      var i, j := TakeHead(p, q, m, gone, jump, n, c);
    }
    forall c: Config | c.At? && Shared(q, p, bad, c) ensures exists j: nat, i: nat :: Meets(q, p, m, bad, c, j, i) {
      var i, j := TakeHead(p, q, m, gone, jump, n, c);
    }
  }

  lemma TakeHead(p: Prog, q: Prog, m: Machine, gone: Id, jump: Id, n: nat, c: Config) returns (i: nat, j: nat)
    requires Valid(p) && Rejoined(p, q, gone, jump)
    requires forall h: History :: Longer(p, q, m, gone, jump, n, h)
    requires c.At? && (c.pc == NIL || c.pc in p.order) && c.pc != gone && c.pc != jump
    ensures Meets(p, q, m, {gone, jump}, c, i, j) && Meets(q, p, m, {gone, jump}, c, j, i)
  {
    var s := Step(p, m, c);
    StepRejoined(p, q, m, gone, jump, c);
    hide Valid, Rejoined, Step;
    if s.At? && s.pc == gone {
      i, j := 3, n + 1;
      assert Longer(p, q, m, gone, jump, n, s.h);
      HeadMeets(p, q, m, gone, jump, n, c, s.h);
    } else {
      i, j := 1, 1;
      OneStep(p, q, m, {gone, jump}, c);
      OneStep(q, p, m, {gone, jump}, c);
    }
  }

  lemma StepRejoined(p: Prog, q: Prog, m: Machine, gone: Id, jump: Id, c: Config)
    requires Valid(p) && Rejoined(p, q, gone, jump)
    requires c.At? && (c.pc == NIL || c.pc in p.order) && c.pc != gone && c.pc != jump
    ensures
      var s := Step(p, m, c);
      && Step(q, m, c) == (if s.At? && s.pc == gone then At(jump, s.h) else s)
      && (s.At? && s.pc != gone ==> Shared(p, q, {gone, jump}, s) && Shared(q, p, {gone, jump}, s))
  {
    hide Next;
  }

  lemma HeadMeets(p: Prog, q: Prog, m: Machine, gone: Id, jump: Id, n: nat, c: Config, h: History)
    requires Longer(p, q, m, gone, jump, n, h)
    requires c.At? && Step(p, m, c) == At(gone, h) && Step(q, m, c) == At(jump, h)
    ensures Meets(p, q, m, {gone, jump}, c, 3, n + 1) && Meets(q, p, m, {gone, jump}, c, n + 1, 3)
  {
    var e := Steps(p, m, At(gone, h), 2);
    forall i: nat | 0 < i <= 3 ensures Steps(p, m, c, i) == Steps(p, m, At(gone, h), i - 1) {
      Shift(p, m, c, At(gone, h), i);
    }
    forall j: nat | 0 < j <= n + 1 ensures Steps(q, m, c, j) == Steps(q, m, At(jump, h), j - 1) {
      Shift(q, m, c, At(jump, h), j);
    }
    Zero(p, m, At(gone, h));
    hide Step, Steps;
    forall i: nat | 0 < i < 3 ensures Matched(p, q, m, c, i) { MatchPlain(p, q, m, c, i, if i == 1 then 1 else n + 1); }
    forall j: nat | 0 < j < n + 1 ensures Matched(q, p, m, c, j) { MatchPlain(q, p, m, c, j, if j <= 3 then 1 else 3); }
  }

  lemma Shift(p: Prog, m: Machine, c: Config, f: Config, n: nat)
    requires n > 0 && Step(p, m, c) == f
    ensures Steps(p, m, c, n) == Steps(p, m, f, n - 1)
  {
  }

  lemma Zero(p: Prog, m: Machine, c: Config)
    ensures Steps(p, m, c, 0) == c
  {
  }

  lemma MatchPlain(p: Prog, q: Prog, m: Machine, c: Config, n: nat, k: nat)
    requires Steps(p, m, c, n).At? && Steps(p, m, c, n).h == Steps(q, m, c, k).h
    ensures Matched(p, q, m, c, n)
  {
    assert Matches(Steps(p, m, c, n), Steps(q, m, c, k));
  }

  // Steps from behind the instruction at a to where the jump at k used to go.
  function Last(p: Prog, a: nat, b: nat): nat
    requires a < b < |p.order| && p.order[b] in p.node
  {
    if p.node[p.order[b]].Br? then b - a else b - a - 1
  }

  // In p: the instruction before k, the jump at k.  In q: the jump at k, the
  // label and the instruction at a, labels, and the jump at b if there is one.
  lemma BothWays(p: Prog, m: Machine, a: nat, b: nat, k: nat, h: History)
    requires Valid(p) && SameHead(p, a, b, k)
    ensures Longer(p, Joined(p, a, k), m, p.order[k - 1], p.order[k], Last(p, a, b) + 3, h)
  {
    var e := ShortWay(p, m, a, b, k, h);
    LongWay(p, m, a, b, k, h);
  }

  lemma ShortWay(p: Prog, m: Machine, a: nat, b: nat, k: nat, h: History) returns (e: Config)
    requires Valid(p) && SameHead(p, a, b, k)
    ensures e == At(p.node[p.order[k]].ref, Done(p, a, h))
    ensures Steps(p, m, At(p.order[k - 1], h), 2) == e
    ensures Steps(p, m, At(p.order[k - 1], h), 1) == At(p.order[k], e.h)
    ensures e.pc in p.order && e.pc in Joined(p, a, k).order && e.pc != p.order[k - 1] && e.pc != p.order[k]
  {
    hide *;
    HeadIndexes(p, a, b, k);
    JoinedValid(p, a, b, k);
    HeadNodes(p, a, b, k);
    e := At(p.node[p.order[k]].ref, Done(p, a, h));
    ValidDistinct(p);
    NextAt(p.order, k - 1);
    TwoPlain(p, m, k, a, h);
  }

  lemma HeadNodes(p: Prog, a: nat, b: nat, k: nat)
    requires Valid(p) && SameHead(p, a, b, k)
    ensures
      var x, y := p.order[k - 1], p.order[k];
      && x in p.order && y in p.order && x in p.node && y in p.node && p.order[a] in p.node
      && p.node[p.order[a]].Op? && p.node[x] == p.node[p.order[a]] && p.node[y].Br?
      && p.node[y].ref in p.order && p.node[y].ref != x && p.node[y].ref != y
      && 0 < a && p.node[y].ref in Joined(p, a, k).order
  {
    InOrder(p, b);
    InOrder(p, k - 1);
    InOrder(p, k);
    assert p.node[p.node[p.order[k]].ref].Label?;
    RemoveDistinct(p.order, k - 1);
  }

  lemma TwoPlain(p: Prog, m: Machine, k: nat, a: nat, h: History)
    requires 0 < k < |p.order| && a < |p.order| && p.order[a] in p.node && p.node[p.order[a]].Op?
    requires p.order[k - 1] in p.node && p.node[p.order[k - 1]] == p.node[p.order[a]]
    requires p.order[k] in p.node && p.node[p.order[k]].Br? && Next(p.order, p.order[k - 1]) == p.order[k]
    ensures Steps(p, m, At(p.order[k - 1], h), 1) == At(p.order[k], Done(p, a, h))
    ensures Steps(p, m, At(p.order[k - 1], h), 2) == At(p.node[p.order[k]].ref, Done(p, a, h))
  {
    hide Next;
    TwoSteps(p, m, At(p.order[k - 1], h));
  }

  lemma LongWay(p: Prog, m: Machine, a: nat, b: nat, k: nat, h: History)
    requires Valid(p) && SameHead(p, a, b, k)
    ensures
      var q, h1, n := Joined(p, a, k), Done(p, a, h), Last(p, a, b) + 3;
      && Steps(q, m, At(p.order[k], h), n) == At(p.node[p.order[k]].ref, h1)
      && forall j: nat | j < n ::
           Steps(q, m, At(p.order[k], h), j).At? && Steps(q, m, At(p.order[k], h), j).h == if j <= 2 then h else h1
  {
    var q, f1, f2, f3, n := ToHead(p, m, a, b, k, h);
    var f := At(p.order[k], h);
    hide *;
    forall j: nat | j <= n + 3
      ensures Steps(q, m, f, j) == if j == 0 then f else if j == 1 then f1 else if j == 2 then f2
        else Steps(q, m, f3, j - 3)
    {
      UnrollThree(q, m, f, j);
    }
  }

  lemma ToHead(p: Prog, m: Machine, a: nat, b: nat, k: nat, h: History)
    returns (q: Prog, f1: Config, f2: Config, f3: Config, n: nat)
    requires Valid(p) && SameHead(p, a, b, k)
    ensures q == Joined(p, a, k) && n == Last(p, a, b)
    ensures f1.At? && f2.At? && f1.h == f2.h == h && f3 == At(p.order[a + 1], Done(p, a, h))
    ensures Step(q, m, At(p.order[k], h)) == f1 && Step(q, m, f1) == f2 && Step(q, m, f2) == f3
    ensures Steps(q, m, f3, n) == At(p.node[p.order[k]].ref, f3.h)
    ensures forall i: nat | i <= n :: Steps(q, m, f3, i).At? && Steps(q, m, f3, i).h == f3.h
  {
    hide *;
    HeadIndexes(p, a, b, k);
    JoinedValid(p, a, b, k);
    SamePlaces(p, a, b, k);
    LastIs(p, Joined(p, a, k), a, b);
    q, n := Joined(p, a, k), Last(p, a, b);
    f1, f2, f3 := At(p.order[a - 1], h), At(p.order[a], h), At(p.order[a + 1], Done(p, a, h));
    InOrder(q, a - 1);
    InOrder(q, a);
    InOrder(p, k);
    ValidDistinct(q);
    ToHeadSteps(q, m, p.order[k], a, h);
    DoneSame(p, q, a, h);
    ToTarget(q, m, a + 1, b, f3.h);
  }

  lemma ValidDistinct(p: Prog)
    requires Valid(p)
    ensures Distinct(p.order)
  {
  }

  lemma DoneSame(p: Prog, q: Prog, a: nat, h: History)
    requires a < |p.order| && a < |q.order| && p.order[a] == q.order[a] && p.order[a] in p.node && p.order[a] in q.node
    requires p.node[p.order[a]] == q.node[p.order[a]] && p.node[p.order[a]].Op?
    ensures Done(p, a, h) == Done(q, a, h)
  {
  }

  lemma LastIs(p: Prog, q: Prog, a: nat, b: nat)
    requires a < b < |p.order| && p.order[b] in p.node && p.order[b] in q.node &&
      q.node[p.order[b]] == p.node[p.order[b]]
    ensures Last(p, a, b) == if q.node[p.order[b]].Br? then b - a else b - a - 1
  {
  }

  // Past the labels from a on to b, and where b goes if it is a jump.
  lemma ToTarget(q: Prog, m: Machine, a: nat, b: nat, h: History)
    requires Valid(q) && a <= b < |q.order| && Labels(q, a, b)
    requires q.order[b] in q.node && (q.node[q.order[b]].Br? || q.node[q.order[b]].Label?)
    ensures
      var f, n, z := At(q.order[a], h), (if q.node[q.order[b]].Br? then b - a + 1 else b - a), q.node[q.order[b]];
      && Steps(q, m, f, n) == At(if z.Br? then z.ref else q.order[b], h)
      && forall i: nat | i <= n :: Steps(q, m, f, i).At? && Steps(q, m, f, i).h == h
  {
    if q.node[q.order[b]].Br? {
      PassToJump(q, m, a, b, h);
    } else {
      PassLabels(q, m, a, b, h);
    }
  }

  lemma ToHeadSteps(q: Prog, m: Machine, jump: Id, a: nat, h: History)
    requires 0 < a && a + 1 < |q.order| && Distinct(q.order)
    requires jump in q.order && jump in q.node && q.node[jump] == Br(q.order[a - 1])
    requires q.order[a - 1] in q.node && q.node[q.order[a - 1]].Label?
    requires q.order[a] in q.node && q.node[q.order[a]].Op?
    ensures Step(q, m, At(jump, h)) == At(q.order[a - 1], h)
    ensures Step(q, m, At(q.order[a - 1], h)) == At(q.order[a], h)
    ensures Step(q, m, At(q.order[a], h)) == At(q.order[a + 1], Done(q, a, h))
  {
    NextAt(q.order, a - 1);
    NextAt(q.order, a);
  }

  // Up to place b the list is as before.
  lemma SamePlaces(p: Prog, a: nat, b: nat, k: nat)
    requires Valid(p) && SameHead(p, a, b, k)
    ensures
      var q := Joined(p, a, k);
      && 0 < a < b < |q.order| && Labels(q, a + 1, b)
      && (forall i | 0 <= i <= b :: q.order[i] == p.order[i] && q.order[i] in q.node && q.order[i] in p.node)
      && q.node[p.order[a - 1]].Label? && q.node[p.order[a]] == p.node[p.order[a]] && p.node[p.order[a]].Op?
      && q.node[p.order[b]] == p.node[p.order[b]] && p.node[p.order[k]].Br?
      && (q.node[p.order[b]].Br? || q.node[p.order[b]].Label?)
      && (if q.node[p.order[b]].Br? then q.node[p.order[b]] == p.node[p.order[k]]
        else p.order[b] == p.node[p.order[k]].ref)
      && p.order[k] in q.node && q.node[p.order[k]] == Br(p.order[a - 1])
  {
    var q := Joined(p, a, k);
    forall i | 0 <= i <= b ensures q.order[i] == p.order[i] && q.order[i] in q.node &&
      q.node[q.order[i]] == p.node[p.order[i]] {
      SameOne(p, a, b, k, i);
    }
    hide Distinct, Valid;
  }

  lemma SameOne(p: Prog, a: nat, b: nat, k: nat, i: nat)
    requires Valid(p) && SameHead(p, a, b, k) && i <= b
    ensures
      var q := Joined(p, a, k);
      i < |q.order| && q.order[i] == p.order[i] && q.order[i] in q.node && q.node[q.order[i]] == p.node[p.order[i]]
  {
    InOrder(p, i);
    hide Labels;
    assert p.order[i] != p.order[k];
  }
}
