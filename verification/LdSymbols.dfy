// ld/ld.c: symbols, and what loading a file does to the symbol table.
module LdSymbols {
  import opened Words

  // The types of symbols: those of the object files, and COMM after middle.
  datatype Kind = Undf | Abs | Text | Data | Bss | Comm

  datatype Sym = Sym(name: string, ext: bool, kind: Kind, value: word)

  // How a word is to be relocated: not, into text, data or bss of its file, or
  // by the symbol with a number.
  datatype Reloc = None | InText | InData | InBss | Extern(symno: nat)
  datatype RWord = RWord(t: word, r: Reloc, pcrel: bool)

  // An object file: its sizes, its symbols, and the words of text and data.
  datatype Member = Member(text: nat, data: nat, bss: nat, norel: bool, syms: seq<Sym>,
                           twords: seq<RWord>, dwords: seq<RWord>)

  function Even(n: nat): nat { n + n % 2 }

  // n_value has 16 bits.
  function Wrap(x: int): word { x % 0x1_0000 }

  lemma WrapAdd(x: int, y: int)
    ensures Wrap(Wrap(x) + y) == Wrap(x + y)
  {
  }

  // ---- symreloc ----

  // ctrel, cdrel and cbrel for a file whose text, data and bss come to be at
  // t, d and b.
  datatype Bases = Bases(t: int, d: int, b: int)

  const ORIGIN := Bases(0, 0, 0)

  function Relocated(m: Member, c: Sym, at: Bases): Sym {
    match c.kind
    case Text => c.(value := Wrap(c.value + at.t))
    case Data => c.(value := Wrap(c.value - Even(m.text) + at.d))
    case Bss => c.(value := Wrap(c.value - (Even(m.text) + Even(m.data)) + at.b))
    case Undf => c
    case _ => if c.ext then c.(kind := Abs) else c
  }

  // The external symbols of a file as load1 sees them.
  function Exts(m: Member, syms: seq<Sym>, at: Bases): seq<Sym> {
    if syms == [] then []
    else (if syms[0].ext then [Relocated(m, syms[0], at)] else []) + Exts(m, syms[1..], at)
  }

  // ---- the symbol table ----

  type Table = seq<Sym>

  function Find(t: Table, name: string): (i: nat)
    ensures i <= |t| && (i < |t| ==> t[i].name == name)
    ensures forall j | 0 <= j < i :: t[j].name != name
  {
    if t == [] || t[0].name == name then 0 else Find(t[1..], name) + 1
  }

  function Max(a: word, b: word): word { if a > b then a else b }

  // One external symbol in load1: the new table, and 1 for a definition.
  function Ref(t: Table, c: Sym): (r: (Table, nat)) {
    var i := Find(t, c.name);
    if i == |t| then (t + [c], 0)
    else if t[i].kind != Undf then (t, 0)
    else if c.kind == Undf then (t[i := t[i].(value := Max(t[i].value, c.value))], 0)
    else if t[i].value != 0 && c.kind == Text then (t, 0)
    else (t[i := t[i].(kind := c.kind, value := c.value)], 1)
  }

  function Refs(t: Table, cs: seq<Sym>): (Table, nat)
    decreases |cs|
  {
    if cs == [] then (t, 0)
    else
      var r := Ref(t, cs[0]);
      var s := Refs(r.0, cs[1..]);
      (s.0, r.1 + s.1)
  }

  // Nothing is lost from t to u: entries keep their place and name, what is
  // defined stays as it is, and a common block only grows.
  ghost predicate Extends(t: Table, u: Table) {
    |t| <= |u| && forall i | 0 <= i < |t| ::
      && u[i].name == t[i].name
      && (t[i].kind != Undf ==> u[i] == t[i])
      && (t[i].kind == Undf && u[i].kind == Undf ==> t[i].value <= u[i].value)
  }

  lemma RefExtends(t: Table, c: Sym)
    ensures Extends(t, Ref(t, c).0)
  {
  }

  lemma {:induction false} RefsExtend(t: Table, cs: seq<Sym>)
    ensures Extends(t, Refs(t, cs).0)
    decreases |cs|
  {
    if cs != [] {
      RefExtends(t, cs[0]);
      RefsExtend(Ref(t, cs[0]).0, cs[1..]);
    }
  }

  lemma FindExtends(t: Table, u: Table, name: string)
    requires Extends(t, u) && Find(t, name) < |t|
    ensures Find(u, name) == Find(t, name)
  {
    var i, j := Find(t, name), Find(u, name);
    assert u[i].name == name;
    assert forall k | 0 <= k < |t| :: u[k].name == t[k].name;
  }

  // ---- members that have nothing to give ----

  // load1 would take c for the definition of a symbol in t.
  predicate CanDefine(t: Table, c: Sym) {
    var i := Find(t, c.name);
    i < |t| && t[i].kind == Undf && c.kind != Undf && !(t[i].value != 0 && c.kind == Text)
  }

  // All symbols are known and none defines anything any more.
  ghost predicate Settled(t: Table, cs: seq<Sym>) {
    forall c | c in cs :: Find(t, c.name) < |t| && !CanDefine(t, c)
  }

  lemma SettledExtends(t: Table, u: Table, cs: seq<Sym>)
    requires Extends(t, u) && Settled(t, cs)
    ensures Settled(u, cs)
  {
    forall c | c in cs ensures Find(u, c.name) < |u| && !CanDefine(u, c) {
      FindExtends(t, u, c.name);
      assert !CanDefine(t, c);
    }
  }

  lemma {:induction false} SettledNoDef(t: Table, cs: seq<Sym>)
    requires Settled(t, cs)
    ensures Refs(t, cs).1 == 0 && |Refs(t, cs).0| == |t|
    decreases |cs|
  {
    if cs != [] {
      assert cs[0] in cs;
      assert !CanDefine(t, cs[0]);
      RefExtends(t, cs[0]);
      SettledExtends(t, Ref(t, cs[0]).0, cs);
      assert Settled(Ref(t, cs[0]).0, cs[1..]);
      SettledNoDef(Ref(t, cs[0]).0, cs[1..]);
    }
  }

  // A file that has been loaded is settled.
  lemma {:induction false} LoadedSettled(t: Table, cs: seq<Sym>)
    ensures Settled(Refs(t, cs).0, cs)
    decreases |cs|
  {
    if cs != [] {
      var t1, u := Ref(t, cs[0]).0, Refs(t, cs).0;
      RefExtends(t, cs[0]);
      RefsExtend(t1, cs[1..]);
      LoadedSettled(t1, cs[1..]);
      OneSettled(t, cs[0]);
      SettledExtends(t1, u, [cs[0]]);
      forall c | c in cs ensures Find(u, c.name) < |u| && !CanDefine(u, c) {
        if c == cs[0] { assert c in [cs[0]]; } else { assert c in cs[1..]; }
      }
    }
  }

  lemma OneSettled(t: Table, c: Sym)
    ensures Settled(Ref(t, c).0, [c])
  {
    var u := Ref(t, c).0;
    var i := Find(t, c.name);
    assert u[i].name == c.name;
    assert forall j | 0 <= j < i :: u[j].name == t[j].name;
    assert Find(u, c.name) == i;
  }

  // What a file without definitions leaves when its entries are ripped out:
  // names and types as before, and common blocks as large as it asks for.
  function Grown(t: Table, cs: seq<Sym>): (u: Table)
    ensures |u| == |t|
    decreases |cs|
  {
    if cs == [] then t
    else
      var i, c := Find(t, cs[0].name), cs[0];
      Grown(if i < |t| && t[i].kind == Undf && c.kind == Undf
            then t[i := t[i].(value := Max(t[i].value, c.value))] else t, cs[1..])
  }

  lemma {:induction false} GrownKeeps(t: Table, cs: seq<Sym>)
    ensures forall i | 0 <= i < |t| ::
              var u := Grown(t, cs);
              && u[i].name == t[i].name && u[i].kind == t[i].kind && u[i].ext == t[i].ext
              && u[i].value >= t[i].value && (t[i].kind != Undf ==> u[i].value == t[i].value)
    decreases |cs|
  {
    if cs != [] {
      var i, c := Find(t, cs[0].name), cs[0];
      GrownKeeps(if i < |t| && t[i].kind == Undf && c.kind == Undf
                 then t[i := t[i].(value := Max(t[i].value, c.value))] else t, cs[1..]);
    }
  }

  // u is t with entries added at its end.
  lemma {:induction false} RejectRestores(t: Table, u: Table, cs: seq<Sym>)
    requires t <= u && Refs(u, cs).1 == 0
    requires forall i | |t| <= i < |u| :: Find(t, u[i].name) == |t|
    ensures |Refs(u, cs).0| >= |t| && Refs(u, cs).0[..|t|] == Grown(t, cs)
    decreases |cs|
  {
    if cs == [] {
      assert u[..|t|] == t;
    } else {
      var c := cs[0];
      var i, j := Find(t, c.name), Find(u, c.name);
      PrefixFind(t, u, c.name);
      var u1 := Ref(u, c).0;
      var t1 := if i < |t| && t[i].kind == Undf && c.kind == Undf
                then t[i := t[i].(value := Max(t[i].value, c.value))] else t;
      RestoresFirst(t, u, c, t1);
      hide Ref;
      RejectRestores(t1, u1, cs[1..]);
    }
  }

  // The first of the symbols, which defines nothing.
  lemma RestoresFirst(t: Table, u: Table, c: Sym, t1: Table)
    requires t <= u && Ref(u, c).1 == 0
    requires forall i | |t| <= i < |u| :: Find(t, u[i].name) == |t|
    requires
      var i := Find(t, c.name);
      t1 == if i < |t| && t[i].kind == Undf && c.kind == Undf
            then t[i := t[i].(value := Max(t[i].value, c.value))] else t
    ensures var u1 := Ref(u, c).0; t1 <= u1 && forall k | |t1| <= k < |u1| :: Find(t1, u1[k].name) == |t1|
  {
    PrefixFind(t, u, c.name);
    RefNames(u, c);
    var u1 := Ref(u, c).0;
    assert t1 <= u1;
    hide Ref, Find;
    forall k | |t1| <= k < |u1| ensures Find(t1, u1[k].name) == |t1| {
      SameFind(t, t1, u1[k].name);
      if k < |u| { assert Find(t, u[k].name) == |t|; }
    }
  }

  lemma RefNames(u: Table, c: Sym)
    ensures
      var u1 := Ref(u, c).0;
      && |u| <= |u1| && (forall k | 0 <= k < |u| :: u1[k].name == u[k].name)
      && (|u1| > |u| ==> |u1| == |u| + 1 && u1[|u|] == c && Find(u, c.name) == |u|)
  {
  }

  lemma PrefixFind(t: Table, u: Table, name: string)
    requires t <= u
    ensures Find(t, name) < |t| ==> Find(u, name) == Find(t, name)
    ensures Find(t, name) == |t| ==> Find(u, name) >= |t|
  {
    var i, j := Find(t, name), Find(u, name);
    if j < |t| { assert t[j] == u[j]; }
    if i < |t| { assert u[i] == t[i]; }
  }

  lemma SameFind(t: Table, u: Table, name: string)
    requires |t| == |u| && forall i | 0 <= i < |t| :: t[i].name == u[i].name
    ensures Find(t, name) == Find(u, name)
  {
    var i, j := Find(t, name), Find(u, name);
    assert forall k | 0 <= k < |t| :: (k < i ==> u[k].name != name) && (k < j ==> t[k].name != name);
  }

  // If nothing was defined, nothing could be, in the table that remains.
  lemma {:induction false} RejectedUseless(t: Table, cs: seq<Sym>)
    requires Refs(t, cs).1 == 0
    ensures forall c | c in cs :: !CanDefine(Grown(t, cs), c)
  {
    var u := Refs(t, cs).0;
    RejectRestores(t, t, cs);
    LoadedSettled(t, cs);
    forall c | c in cs ensures !CanDefine(Grown(t, cs), c) {
      PrefixFind(Grown(t, cs), u, c.name);
      assert !CanDefine(u, c);
    }
  }

  // ---- members ----

  // What settles a member does not depend on where it is placed.
  lemma {:induction false} ExtsAnywhere(m: Member, syms: seq<Sym>, p: Bases, q: Bases)
    ensures |Exts(m, syms, p)| == |Exts(m, syms, q)|
    ensures forall i | 0 <= i < |Exts(m, syms, p)| ::
              Exts(m, syms, p)[i].name == Exts(m, syms, q)[i].name &&
                Exts(m, syms, p)[i].kind == Exts(m, syms, q)[i].kind
  {
    if syms != [] {
      ExtsAnywhere(m, syms[1..], p, q);
    }
  }

  ghost predicate Done(t: Table, m: Member) { Settled(t, Exts(m, m.syms, ORIGIN)) }

  lemma DoneAnywhere(t: Table, m: Member, p: Bases)
    ensures Done(t, m) <==> Settled(t, Exts(m, m.syms, p))
  {
    ExtsAnywhere(m, m.syms, p, ORIGIN);
    var a, b := Exts(m, m.syms, p), Exts(m, m.syms, ORIGIN);
    if Settled(t, a) {
      forall c | c in b ensures Find(t, c.name) < |t| && !CanDefine(t, c) {
        var i :| 0 <= i < |b| && b[i] == c;
        assert a[i] in a;
      }
    }
    if Settled(t, b) {
      forall c | c in a ensures Find(t, c.name) < |t| && !CanDefine(t, c) {
        var i :| 0 <= i < |a| && a[i] == c;
        assert b[i] in b;
      }
    }
  }

  // No external symbol of the member defines a symbol that is undefined in t.
  ghost predicate Useless(t: Table, m: Member) {
    forall c | c in Exts(m, m.syms, ORIGIN) :: !CanDefine(t, c)
  }

  lemma UselessAnywhere(t: Table, m: Member, p: Bases)
    requires forall c | c in Exts(m, m.syms, p) :: !CanDefine(t, c)
    ensures Useless(t, m)
  {
    ExtsAnywhere(m, m.syms, p, ORIGIN);
    var a, b := Exts(m, m.syms, p), Exts(m, m.syms, ORIGIN);
    forall c | c in b ensures !CanDefine(t, c) {
      var i :| 0 <= i < |b| && b[i] == c;
      assert a[i] in a;
    }
  }

  // Same names and types, and common blocks no smaller.
  ghost predicate SameNames(t: Table, u: Table) {
    |t| == |u| && forall i | 0 <= i < |t| ::
      u[i].name == t[i].name && u[i].kind == t[i].kind && u[i].value >= t[i].value
      && (t[i].kind != Undf ==> u[i] == t[i])
  }

  lemma UselessSame(t: Table, u: Table, m: Member)
    requires SameNames(t, u) && Useless(t, m)
    ensures Useless(u, m)
  {
    forall c | c in Exts(m, m.syms, ORIGIN) ensures !CanDefine(u, c) {
      SameFind(t, u, c.name);
      assert !CanDefine(t, c);
    }
  }

  // Members of an archive that are not done.
  function Undone(t: Table, ms: seq<Member>): nat {
    if ms == [] then 0
    else (if DoneNow(t, Exts(ms[0], ms[0].syms, ORIGIN)) then 0 else 1) + Undone(t, ms[1..])
  }

  predicate DoneNow(t: Table, cs: seq<Sym>)
    ensures DoneNow(t, cs) <==> Settled(t, cs)
  {
    if cs == [] then true
    else
      assert cs == [cs[0]] + cs[1..];
      Find(t, cs[0].name) < |t| && !CanDefine(t, cs[0]) && DoneNow(t, cs[1..])
  }

  lemma {:induction false} UndoneFalls(t: Table, u: Table, ms: seq<Member>, k: nat)
    requires Extends(t, u) && k <= |ms|
    ensures Undone(u, ms) <= Undone(t, ms)
    ensures k < |ms| && !Done(t, ms[k]) && Done(u, ms[k]) ==> Undone(u, ms) < Undone(t, ms)
  {
    if ms != [] {
      var cs := Exts(ms[0], ms[0].syms, ORIGIN);
      if Settled(t, cs) { SettledExtends(t, u, cs); }
      UndoneFalls(t, u, ms[1..], if k > 0 then k - 1 else |ms[1..]|);
    }
  }

  // ---- the scan of an archive ----

  // What the scan has found of no use among the first k members.
  ghost predicate UselessTo(t: Table, ms: seq<Member>, k: nat) {
    forall i | 0 <= i < k && i < |ms| && !ms[i].norel :: Useless(t, ms[i])
  }

  lemma NoneUseless(t: Table, ms: seq<Member>)
    ensures UselessTo(t, ms, 0)
  {
  }

  lemma OneMoreUseless(u: Table, v: Table, ms: seq<Member>, k: nat)
    requires k < |ms| && UselessTo(u, ms, k) && SameNames(u, v) && (!ms[k].norel ==> Useless(v, ms[k]))
    ensures UselessTo(v, ms, k + 1)
  {
    hide Useless, SameNames;
    forall i | 0 <= i < k + 1 && !ms[i].norel ensures Useless(v, ms[i]) {
      if i < k { UselessSame(u, v, ms[i]); }
    }
  }

  // The members in lib are different, and done.
  ghost predicate LoadedOnce(t: Table, ms: seq<Member>, lib: seq<nat>) {
    && (forall i, j | 0 <= i < j < |lib| :: lib[i] != lib[j])
    && (forall k | k in lib :: k < |ms| && !ms[k].norel && Done(t, ms[k]))
  }

  lemma ExtendsThrough(t: Table, u: Table, v: Table)
    requires Extends(t, u) && Extends(u, v)
    ensures Extends(t, v)
  {
    forall i | 0 <= i < |t| ensures
      && v[i].name == t[i].name && (t[i].kind != Undf ==> v[i] == t[i])
      && (t[i].kind == Undf && v[i].kind == Undf ==> t[i].value <= v[i].value)
    {
      assert u[i].name == t[i].name && v[i].name == u[i].name;
    }
  }

  // One member in the scan: u before, v after.
  lemma OneMember(t0: Table, u: Table, v: Table, ms: seq<Member>, lib: seq<nat>, at: Bases, k: nat, loaded: bool)
    requires k < |ms| && Extends(t0, u) && Extends(u, v) && LoadedOnce(u, ms, lib)
    requires loaded ==> !ms[k].norel && Done(v, ms[k]) && Refs(u, Exts(ms[k], ms[k].syms, at)).1 > 0
    ensures Extends(t0, v) && LoadedOnce(v, ms, lib) && Undone(v, ms) <= Undone(u, ms)
    ensures loaded ==> LoadedOnce(v, ms, lib + [k]) && Undone(v, ms) < Undone(u, ms)
  {
    hide Extends, Done, Refs, Undone, Exts;
    ExtendsThrough(t0, u, v);
    UndoneFalls(u, v, ms, k);
    forall i | i in lib ensures Done(v, ms[i]) { DoneExtends(u, v, ms[i]); }
    if loaded {
      NotDone(u, ms[k], at);
    }
  }

  lemma DoneExtends(u: Table, v: Table, m: Member)
    requires Extends(u, v) && Done(u, m)
    ensures Done(v, m)
  {
    SettledExtends(u, v, Exts(m, m.syms, ORIGIN));
  }

  // A member that has defined something was not done.
  lemma NotDone(u: Table, m: Member, at: Bases)
    requires Refs(u, Exts(m, m.syms, at)).1 > 0
    ensures !Done(u, m)
  {
    if Done(u, m) {
      DoneAnywhere(u, m, at);
      SettledNoDef(u, Exts(m, m.syms, at));
    }
  }
}
