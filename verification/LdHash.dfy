// ld/ld.c lookup and enter: the hash table that leads to the symbol table.
module LdHash {
  import opened LdSymbols

  const NSYM := 501
  const NSLOTS := 503      // NSYM + 2

  // Twice the hash of what comes before, plus the last character.
  function Hash(name: string): nat {
    if name == [] then 0 else 2 * Hash(name[..|name| - 1]) + name[|name| - 1] as int
  }

  // Where the search for a name begins, and the slot d steps on; the table is
  // a ring.
  function Start(name: string): (h: nat)
    ensures h < NSLOTS
  {
    Hash(name) % 0x8000 % NSYM + 2
  }

  function Slot(name: string, d: nat): (h: nat)
    ensures h < NSLOTS
  {
    (Start(name) + d) % NSLOTS
  }

  // After d steps, all slots taken, the search is at the entry i + 1.
  ghost predicate At(tab: seq<nat>, name: string, d: nat, i: nat)
    requires |tab| == NSLOTS
  {
    d < NSLOTS && tab[Slot(name, d)] == i + 1 && forall e | 0 <= e < d :: tab[Slot(name, e)] != 0
  }

  ghost predicate Reached(tab: seq<nat>, name: string, i: nat)
    requires |tab| == NSLOTS
  {
    exists d :: At(tab, name, d, i)
  }

  // The slots hold 0 or one more than the place of a symbol, each symbol is in
  // one of them, where its name leads to, and names are different.
  ghost predicate Hashed(tab: seq<nat>, t: Table) {
    && |tab| == NSLOTS && |t| <= NSYM
    && (forall h | 0 <= h < NSLOTS :: tab[h] <= |t|)
    && (forall h, k | 0 <= h < k < NSLOTS && tab[h] != 0 :: tab[h] != tab[k])
    && (forall i, j | 0 <= i < j < |t| :: t[i].name != t[j].name)
    && (forall i | 0 <= i < |t| :: Reached(tab, t[i].name, i))
  }

  // ---- probing ends ----

  lemma {:induction false} Crowded(s: seq<nat>, n: nat)
    requires (forall i | 0 <= i < |s| :: s[i] < n) && forall i, j | 0 <= i < j < |s| :: s[i] != s[j]
    ensures |s| <= n
    decreases n
  {
    if s != [] {
      assert s[0] < n;
      if i :| 0 <= i < |s| && s[i] == n - 1 {
        var r := s[..i] + s[i + 1..];
        forall k | 0 <= k < |r| ensures r[k] < n - 1 { assert r[k] == s[if k < i then k else k + 1]; }
        Crowded(r, n - 1);
      } else {
        Crowded(s, n - 1);
      }
    }
  }

  // There are more slots than symbols, so every search comes to an empty one.
  lemma SlotFree(tab: seq<nat>, t: Table, name: string) returns (d: nat)
    requires Hashed(tab, t)
    ensures d < NSLOTS && tab[Slot(name, d)] == 0
  {
    if forall h | 0 <= h < NSLOTS :: tab[h] != 0 {
      var s := seq(NSLOTS, h requires 0 <= h < NSLOTS => tab[h] - 1);
      Crowded(s, NSYM);
      assert false;
    }
    var h :| 0 <= h < NSLOTS && tab[h] == 0;
    d := (h + NSLOTS - Start(name)) % NSLOTS;
    Around(Start(name), h);
  }

  lemma Around(a: nat, h: nat)
    requires a < NSLOTS && h < NSLOTS
    ensures (a + (h + NSLOTS - a) % NSLOTS) % NSLOTS == h
  {
  }

  // ---- what a search finds ----

  // d steps on, no slot before was empty or led to the name.
  ghost predicate Probed(tab: seq<nat>, t: Table, name: string, d: nat)
    requires |tab| == NSLOTS
  {
    d < NSLOTS && forall e | 0 <= e < d :: 0 < tab[Slot(name, e)] <= |t| && t[tab[Slot(name, e)] - 1].name != name
  }

  // A search that stops has found the symbol if the table has it.
  lemma FoundIs(tab: seq<nat>, t: Table, name: string, d: nat)
    requires Hashed(tab, t) && Probed(tab, t, name, d)
    requires var x := tab[Slot(name, d)]; x == 0 || t[x - 1].name == name
    ensures tab[Slot(name, d)] == if Find(t, name) < |t| then Find(t, name) + 1 else 0
  {
    var i := Find(t, name);
    if i < |t| {
      assert Reached(tab, t[i].name, i);
      var c :| At(tab, t[i].name, c, i);
    }
  }

  // ---- entering and ripping out ----

  // A new symbol goes to the empty slot where the search for it stopped.
  lemma EnterHashed(tab: seq<nat>, t: Table, c: Sym, d: nat)
    requires Hashed(tab, t) && Probed(tab, t, c.name, d) && tab[Slot(c.name, d)] == 0 && |t| < NSYM
    ensures Hashed(tab[Slot(c.name, d) := |t| + 1], t + [c])
  {
    var h := Slot(c.name, d);
    var tab1, t1 := tab[h := |t| + 1], t + [c];
    FoundIs(tab, t, c.name, d);
    forall i | 0 <= i < |t1| ensures Reached(tab1, t1[i].name, i) {
      if i < |t| {
        assert Reached(tab, t[i].name, i);
        var e :| At(tab, t[i].name, e, i);
        assert At(tab1, t[i].name, e, i);
      } else {
        assert At(tab1, c.name, d, i);
      }
    }
  }

  // Only names count.
  lemma HashedSame(tab: seq<nat>, t: Table, u: Table)
    requires Hashed(tab, t) && |u| == |t| && forall i | 0 <= i < |t| :: u[i].name == t[i].name
    ensures Hashed(tab, u)
  {
    forall i | 0 <= i < |u| ensures Reached(tab, u[i].name, i) { assert Reached(tab, t[i].name, i); }
  }

  lemma NoneHashed()
    ensures Hashed(seq(NSLOTS, _ => 0), [])
  {
  }
}
