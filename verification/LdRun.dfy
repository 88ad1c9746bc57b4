// ld/ld.c: what loading a list of files makes of the symbol table, how middle
// lays the program out, and where the second pass finds what the first has.
module LdRun {
  import opened Words
  import opened LdSymbols

  // ---- the first pass ----

  // -u, or load1 for a file or a member of an archive.
  datatype Call = Ask(name: string) | Load(lib: bool, m: Member)

  // The symbol table, tsize, dsize and bsize, and the files taken so far.
  datatype Loads = Loads(t: Table, at: Bases, files: seq<Member>)

  const NONE := Loads([], ORIGIN, [])

  function Next(at: Bases, m: Member): Bases {
    Bases(at.t + Even(m.text), at.d + m.data, at.b + Even(m.bss))
  }

  predicate Takes(s: Loads, lib: bool, m: Member) {
    !m.norel && (!lib || Refs(s.t, Exts(m, m.syms, s.at)).1 > 0)
  }

  function LoadOne(s: Loads, c: Call): Loads {
    match c
    case Ask(name) => s.(t := Ref(s.t, Sym(name, true, Undf, 0)).0)
    case Load(lib, m) =>
      if Takes(s, lib, m) then Loads(Refs(s.t, Exts(m, m.syms, s.at)).0, Next(s.at, m), s.files + [m])
      else if m.norel then s
      else s.(t := Grown(s.t, Exts(m, m.syms, s.at)))
  }

  function LoadAll(s: Loads, calls: seq<Call>): Loads
    decreases |calls|
  {
    if calls == [] then s else LoadAll(LoadOne(s, calls[0]), calls[1..])
  }

  lemma {:induction false} LoadConcat(s: Loads, a: seq<Call>, b: seq<Call>)
    ensures LoadAll(s, a + b) == LoadAll(LoadAll(s, a), b)
    decreases |a|
  {
    if a == [] {
      assert a + b == b;
    } else {
      assert (a + b)[1..] == a[1..] + b;
      LoadConcat(LoadOne(s, a[0]), a[1..], b);
    }
  }

  lemma OneExtends(s: Loads, c: Call)
    ensures Extends(s.t, LoadOne(s, c).t) && s.files <= LoadOne(s, c).files
  {
    if c.Ask? {
      RefExtends(s.t, Sym(c.name, true, Undf, 0));
    } else {
      var cs := Exts(c.m, c.m.syms, s.at);
      RefsExtend(s.t, cs);
      GrownKeeps(s.t, cs);
      GrownSame(s.t, cs);
    }
  }

  // Ripped-out tables keep defined symbols as they are.
  lemma {:induction false} GrownSame(t: Table, cs: seq<Sym>)
    ensures forall i | 0 <= i < |t| && t[i].kind != Undf :: Grown(t, cs)[i] == t[i]
  {
    GrownKeeps(t, cs);
  }

  lemma {:induction false} RunExtends(s: Loads, calls: seq<Call>)
    ensures Extends(s.t, LoadAll(s, calls).t) && s.files <= LoadAll(s, calls).files
    decreases |calls|
  {
    if calls != [] {
      OneExtends(s, calls[0]);
      RunExtends(LoadOne(s, calls[0]), calls[1..]);
      ExtendsThrough(s.t, LoadOne(s, calls[0]).t, LoadAll(s, calls).t);
    }
  }

  // ---- where the files are ----

  // The sizes of the first k files.
  function Ahead(ms: seq<Member>, k: nat): (b: Bases)
    requires k <= |ms|
  {
    if k == 0 then ORIGIN else Next(Ahead(ms, k - 1), ms[k - 1])
  }

  // torigin, dorigin and borigin when load2 comes to file k
  function Origins(ms: seq<Member>, k: nat, o: Bases): (b: Bases)
    requires k <= |ms|
  {
    if k == 0 then o else Next(Origins(ms, k - 1, o), ms[k - 1])
  }

  lemma {:induction false} OriginsAhead(ms: seq<Member>, k: nat, o: Bases)
    requires k <= |ms|
    ensures
      var a := Ahead(ms, k);
      Origins(ms, k, o) == Bases(o.t + a.t, o.d + a.d, o.b + a.b)
  {
    if k > 0 { OriginsAhead(ms, k - 1, o); }
  }

  lemma {:induction false} AheadPrefix(ms: seq<Member>, ns: seq<Member>, k: nat)
    requires k <= |ms| && ms <= ns
    ensures Ahead(ms, k) == Ahead(ns, k)
  {
    if k > 0 { AheadPrefix(ms, ns, k - 1); }
  }

  ghost predicate Counted(s: Loads) { s.at == Ahead(s.files, |s.files|) }

  lemma {:induction false} RunCounted(s: Loads, calls: seq<Call>)
    requires Counted(s)
    ensures Counted(LoadAll(s, calls))
    decreases |calls|
  {
    if calls != [] {
      var s1 := LoadOne(s, calls[0]);
      if s1.files != s.files {
        AheadPrefix(s.files, s1.files, |s.files|);
      }
      RunCounted(s1, calls[1..]);
    }
  }

  // ---- names that are not defined ----

  // The file refers to the name but does not define it.
  ghost predicate NoDef(syms: seq<Sym>, name: string) {
    forall c | c in syms && c.ext && c.name == name :: c.kind == Undf
  }

  lemma {:induction false} ExtsNoDef(m: Member, syms: seq<Sym>, at: Bases, name: string)
    requires NoDef(syms, name)
    ensures forall x | x in Exts(m, syms, at) && x.name == name :: x.kind == Undf
  {
    if syms != [] {
      assert syms[0] in syms;
      assert NoDef(syms[1..], name);
      ExtsNoDef(m, syms[1..], at, name);
    }
  }

  // The table has the name at most as undefined.
  ghost predicate Open(t: Table, name: string) {
    Find(t, name) < |t| ==> t[Find(t, name)].kind == Undf
  }

  // It stays so in u, and a common block does not shrink.
  ghost predicate StillOpen(t: Table, u: Table, name: string) {
    && Open(u, name)
    && (Find(t, name) < |t| ==>
          Find(u, name) == Find(t, name) < |u| && t[Find(t, name)].value <= u[Find(t, name)].value)
  }

  lemma OpenRef(t: Table, c: Sym, name: string)
    requires Open(t, name) && (c.name == name ==> c.kind == Undf)
    ensures StillOpen(t, Ref(t, c).0, name)
  {
    RefFind(t, c, name);
    RefExtends(t, c);
  }

  // What one reference does to the entry for a name.
  lemma RefFind(t: Table, x: Sym, name: string)
    ensures
      var u := Ref(t, x).0;
      var i, j := Find(t, name), Find(u, name);
      if i < |t| then j == i && (x.name != name ==> u[j] == t[i])
      else if x.name == name then j == |t| && |u| == |t| + 1 && u[j] == x
      else j == |u|
  {
    var u := Ref(t, x).0;
    var i, j := Find(t, name), Find(u, name);
    assert forall k | 0 <= k < |t| :: u[k].name == t[k].name;
    if i < |t| { assert u[i].name == name; }
    if i == |t| && x.name == name { assert u[|t|].name == name; }
  }

  lemma {:induction false} OpenRefs(t: Table, cs: seq<Sym>, name: string)
    requires Open(t, name) && forall c | c in cs && c.name == name :: c.kind == Undf
    ensures StillOpen(t, Refs(t, cs).0, name)
    decreases |cs|
  {
    if cs != [] {
      assert cs[0] in cs;
      OpenRef(t, cs[0], name);
      OpenRefs(Ref(t, cs[0]).0, cs[1..], name);
    }
  }

  lemma OpenGrown(t: Table, cs: seq<Sym>, name: string)
    requires Open(t, name)
    ensures StillOpen(t, Grown(t, cs), name)
  {
    GrownKeeps(t, cs);
    SameFind(t, Grown(t, cs), name);
  }

  ghost predicate NoneDefines(files: seq<Member>, from: nat, name: string) {
    forall k | from <= k < |files| :: NoDef(files[k].syms, name)
  }

  lemma OpenOne(s: Loads, c: Call, name: string)
    requires Open(s.t, name) && NoneDefines(LoadOne(s, c).files, |s.files|, name)
    ensures StillOpen(s.t, LoadOne(s, c).t, name)
  {
    match c
    case Ask(n) => OpenRef(s.t, Sym(n, true, Undf, 0), name);
    case Load(lib, m) =>
      var cs := Exts(m, m.syms, s.at);
      if Takes(s, lib, m) {
        assert LoadOne(s, c).files[|s.files|] == m;
        ExtsNoDef(m, m.syms, s.at, name);
        OpenRefs(s.t, cs, name);
      } else {
        OpenGrown(s.t, cs, name);
      }
  }

  lemma {:induction false} OpenRun(s: Loads, calls: seq<Call>, name: string)
    requires Open(s.t, name) && NoneDefines(LoadAll(s, calls).files, |s.files|, name)
    ensures StillOpen(s.t, LoadAll(s, calls).t, name)
    decreases |calls|
  {
    if calls != [] {
      var s1 := LoadOne(s, calls[0]);
      OneExtends(s, calls[0]);
      RunExtends(s1, calls[1..]);
      forall k | |s.files| <= k < |s1.files| ensures NoDef(s1.files[k].syms, name) {
        assert s1.files[k] == LoadAll(s, calls).files[k];
      }
      OpenOne(s, calls[0], name);
      OpenRun(s1, calls[1..], name);
    }
  }

  // ---- a name that is defined once ----

  // Symbol p of file k is the only definition of its name.
  ghost predicate DefinedOnce(files: seq<Member>, k: nat, p: nat)
    requires k < |files| && p < |files[k].syms|
  {
    forall i, q | 0 <= i < |files| && 0 <= q < |files[i].syms| ::
      DefinedBy(files, i, q, files[k].syms[p].name) ==> i == k && q == p
  }

  predicate DefinedBy(files: seq<Member>, i: nat, q: nat, name: string)
    requires i < |files| && q < |files[i].syms|
  {
    files[i].syms[q].ext && files[i].syms[q].name == name && files[i].syms[q].kind != Undf
  }

  // load1 does not let a text symbol take the place of a common block.
  predicate Refuses(t: Table, c: Sym) {
    var i := Find(t, c.name);
    c.kind == Text && i < |t| && t[i].kind == Undf && t[i].value != 0
  }

  // The table when load1 comes to symbol p of the file.
  function TableAt(s: Loads, m: Member, p: nat): Table
    requires p <= |m.syms|
  {
    Refs(s.t, Exts(m, m.syms[..p], s.at)).0
  }

  lemma {:induction false} ExtsConcat(m: Member, a: seq<Sym>, b: seq<Sym>, at: Bases)
    ensures Exts(m, a + b, at) == Exts(m, a, at) + Exts(m, b, at)
  {
    if a == [] {
      assert a + b == b;
    } else {
      assert (a + b)[1..] == a[1..] + b;
      ExtsConcat(m, a[1..], b, at);
    }
  }

  lemma {:induction false} RefsConcat(t: Table, a: seq<Sym>, b: seq<Sym>)
    ensures Refs(t, a + b).0 == Refs(Refs(t, a).0, b).0
    decreases |a|
  {
    if a == [] {
      assert a + b == b;
    } else {
      assert (a + b)[1..] == a[1..] + b;
      RefsConcat(Ref(t, a[0]).0, a[1..], b);
    }
  }

  lemma SplitAt(s: Loads, m: Member, p: nat)
    requires p < |m.syms| && m.syms[p].ext
    ensures
      var c := Relocated(m, m.syms[p], s.at);
      Refs(s.t, Exts(m, m.syms, s.at)).0 ==
        Refs(Ref(TableAt(s, m, p), c).0, Exts(m, m.syms[p + 1..], s.at)).0
  {
    var a, x, b := m.syms[..p], [m.syms[p]], m.syms[p + 1..];
    var c := Relocated(m, m.syms[p], s.at);
    assert m.syms == a + (x + b);
    ExtsConcat(m, a, x + b, s.at);
    assert (x + b)[1..] == b && (x + b)[0] == m.syms[p];
    assert Exts(m, x + b, s.at) == [c] + Exts(m, b, s.at);
    RefsConcat(s.t, Exts(m, a, s.at), [c] + Exts(m, b, s.at));
    assert ([c] + Exts(m, b, s.at))[1..] == Exts(m, b, s.at);
  }

  // What one run of load1 makes of the name: the definition, or a common
  // block that stays.
  ghost predicate Ended(t: Table, c: Sym, refused: bool) {
    var i := Find(t, c.name);
    i < |t| && if refused then t[i].kind == Undf && t[i].value != 0 else t[i].kind == c.kind && t[i].value == c.value
  }

  lemma DefinedHere(s: Loads, m: Member, p: nat)
    requires p < |m.syms| && m.syms[p].ext && m.syms[p].kind != Undf && Open(s.t, m.syms[p].name)
    requires NoDef(m.syms[..p], m.syms[p].name) && NoDef(m.syms[p + 1..], m.syms[p].name)
    ensures
      Ended(Refs(s.t, Exts(m, m.syms, s.at)).0, Relocated(m, m.syms[p], s.at), Refuses(TableAt(s, m, p), m.syms[p]))
  {
    var c := Relocated(m, m.syms[p], s.at);
    ExtsNoDef(m, m.syms[..p], s.at, c.name);
    ExtsNoDef(m, m.syms[p + 1..], s.at, c.name);
    SplitAt(s, m, p);
    var t, post := TableAt(s, m, p), Exts(m, m.syms[p + 1..], s.at);
    OpenRefs(s.t, Exts(m, m.syms[..p], s.at), c.name);
    RefFind(t, c, c.name);
    var u := Ref(t, c).0;
    hide Exts;
    if Refuses(t, m.syms[p]) {
      OpenRefs(u, post, c.name);
    } else {
      RefsExtend(u, post);
      FindExtends(u, Refs(u, post).0, c.name);
    }
  }

  lemma EndedLater(s: Loads, calls: seq<Call>, c: Sym, refused: bool)
    requires Ended(s.t, c, refused) && c.kind != Undf
    requires refused ==> NoneDefines(LoadAll(s, calls).files, |s.files|, c.name)
    ensures Ended(LoadAll(s, calls).t, c, refused)
  {
    if refused {
      OpenRun(s, calls, c.name);
    } else {
      RunExtends(s, calls);
      FindExtends(s.t, LoadAll(s, calls).t, c.name);
    }
  }

  // The call n loads a file whose symbol p is the only definition of its name.
  ghost predicate DefinesAt(calls: seq<Call>, n: nat, p: nat) {
    && n < |calls| && calls[n].Load? && Takes(LoadAll(NONE, calls[..n]), calls[n].lib, calls[n].m)
    && p < |calls[n].m.syms| && calls[n].m.syms[p].ext && calls[n].m.syms[p].kind != Undf
    && (var files, k := LoadAll(NONE, calls).files, |LoadAll(NONE, calls[..n]).files|;
        k < |files| && files[k] == calls[n].m && DefinedOnce(files, k, p))
  }

  // The table and the place in it when load1 comes to that symbol.
  function Meets(calls: seq<Call>, n: nat, p: nat): Table
    requires n < |calls| && calls[n].Load? && p <= |calls[n].m.syms|
  {
    TableAt(LoadAll(NONE, calls[..n]), calls[n].m, p)
  }

  lemma Parts(calls: seq<Call>, n: nat)
    requires n < |calls|
    ensures
      var s0 := LoadAll(NONE, calls[..n]);
      var s1 := LoadOne(s0, calls[n]);
      && LoadAll(s1, calls[n + 1..]) == LoadAll(NONE, calls)
      && s0.files <= s1.files <= LoadAll(NONE, calls).files && Counted(s0) && Counted(LoadAll(NONE, calls))
  {
    var a, b := calls[..n], calls[n..];
    assert calls == a + b && b[0] == calls[n] && b[1..] == calls[n + 1..];
    LoadConcat(NONE, a, b);
    var s0 := LoadAll(NONE, a);
    OneExtends(s0, calls[n]);
    RunExtends(LoadOne(s0, calls[n]), b[1..]);
    RunCounted(NONE, a);
    RunCounted(NONE, calls);
  }

  // Apart from that symbol nothing defines the name.
  lemma NoneElse(calls: seq<Call>, n: nat, p: nat)
    requires DefinesAt(calls, n, p)
    ensures
      var m, name, files := calls[n].m, calls[n].m.syms[p].name, LoadAll(NONE, calls).files;
      var k := |LoadAll(NONE, calls[..n]).files|;
      && NoneDefines(LoadAll(NONE, calls[..n]).files, 0, name) && NoneDefines(files, k + 1, name)
      && NoDef(m.syms[..p], name) && NoDef(m.syms[p + 1..], name)
  {
    var m, name, files := calls[n].m, calls[n].m.syms[p].name, LoadAll(NONE, calls).files;
    var f0 := LoadAll(NONE, calls[..n]).files;
    Parts(calls, n);
    forall i | 0 <= i < |files| && i != |f0| ensures NoDef(files[i].syms, name) {
      forall c | c in files[i].syms && c.ext && c.name == name ensures c.kind == Undf {
        var q :| 0 <= q < |files[i].syms| && files[i].syms[q] == c;
        assert DefinedBy(files, i, q, name) ==> i == |f0|;
      }
    }
    assert forall i | 0 <= i < |f0| :: f0[i] == files[i];
    forall q | 0 <= q < |m.syms| && q != p && m.syms[q].ext && m.syms[q].name == name ensures m.syms[q].kind == Undf {
      assert DefinedBy(files, |f0|, q, name) ==> q == p;
    }
  }

  // After the first pass the table has the definition, or the common block
  // that was in its way.
  lemma DefinitionEnds(calls: seq<Call>, n: nat, p: nat)
    requires DefinesAt(calls, n, p)
    ensures
      var s0 := LoadAll(NONE, calls[..n]);
      Ended(LoadAll(NONE, calls).t, Relocated(calls[n].m, calls[n].m.syms[p], s0.at),
        Refuses(Meets(calls, n, p), calls[n].m.syms[p]))
  {
    var m := calls[n].m;
    var s0, c := LoadAll(NONE, calls[..n]), m.syms[p];
    Parts(calls, n);
    NoneElse(calls, n, p);
    OpenRun(NONE, calls[..n], c.name);
    DefinedHere(s0, m, p);
    hide Exts, Refs, DefinedOnce, TableAt;
    EndedLater(LoadOne(s0, calls[n]), calls[n + 1..], Relocated(m, c, s0.at), Refuses(Meets(calls, n, p), c));
  }

  // ---- middle ----

  // rflag, dflag, nflag, iflag and aflag
  datatype Flags = Flags(r: bool, d: bool, n: bool, i: bool, a: int)

  const SPECIAL := ["_etext", "_edata", "_end"]

  // A symbol is undefined, and not one that middle defines.
  predicate Missing(t: Table) {
    exists i :: 0 <= i < |t| && t[i].kind == Undf && t[i].value == 0 && t[i].name !in SPECIAL
  }

  function Decide(t: Table, f: Flags): Flags {
    if !f.r && Missing(t) then Flags(true, false, false, false, f.a) else f
  }

  predicate Allocates(f: Flags) { f.d || !f.r }

  predicate Common(c: Sym) { c.kind == Undf && c.value != 0 }

  // The size of the common blocks before entry i.
  function CommonTo(t: Table, i: nat): nat
    requires i <= |t|
  {
    if i == 0 then 0 else CommonTo(t, i - 1) + if Common(t[i - 1]) then Even(t[i - 1].value) else 0
  }

  function Commons(t: Table): (u: Table)
    ensures |u| == |t|
  {
    seq(|t|, i requires 0 <= i < |t| =>
      if Common(t[i]) then t[i].(kind := Comm, value := Wrap(CommonTo(t, i))) else t[i])
  }

  function Define(t: Table, name: string, kind: Kind, value: int): (u: Table)
    ensures |u| == |t|
  {
    var i := Find(t, name);
    if i < |t| && t[i].kind == Undf then t[i := t[i].(kind := kind, value := Wrap(value))] else t
  }

  // The table when common blocks are laid out and the ends of the segments
  // are known.
  function Allotted(t: Table, at: Bases): (u: Table)
    ensures |u| == |t|
  {
    Define(Define(Define(Commons(t), "_etext", Text, at.t), "_edata", Data, at.d), "_end", Bss, at.b)
  }

  function Align(x: int, n: nat): int
    requires n > 0
  {
    (x + n - 1) / n * n
  }

  // The table, the origins of text, data and bss, that of the common blocks,
  // and their size.
  datatype Layout = Layout(t: Table, o: Bases, c: int, csize: nat)

  function Final(x: Sym, o: Bases, c: int): Sym {
    match x.kind
    case Text => x.(value := Wrap(x.value + o.t))
    case Data => x.(value := Wrap(x.value + o.d))
    case Bss => x.(value := Wrap(x.value + o.b))
    case Comm => x.(kind := Bss, value := Wrap(x.value + c))
    case _ => x
  }

  function Finals(t: Table, o: Bases, c: int): (u: Table)
    ensures |u| == |t|
  {
    seq(|t|, i requires 0 <= i < |t| => Final(t[i], o, c))
  }

  function DataOrigin(at: Bases, g: Flags): int {
    var tsize := if g.n || g.i then Align(at.t, 0x40) else at.t;
    if g.i then 0 else if g.n then Align(tsize, 0x2000) else tsize
  }

  function Middle(t: Table, at: Bases, f: Flags): (y: Layout)
    ensures |y.t| == |t|
  {
    var g := Decide(t, f);
    var csize := if Allocates(g) then CommonTo(t, |t|) else 0;
    var d := DataOrigin(at, g) + g.a;
    var o := Bases(g.a, d, d + at.d + csize);
    Layout(Finals(if Allocates(g) then Allotted(t, at) else t, o, d + at.d), o, d + at.d, csize)
  }

  // ---- what middle makes of an entry ----

  lemma DefineKeeps(t: Table, name: string, kind: Kind, value: int)
    ensures var u := Define(t, name, kind, value);
      forall i | 0 <= i < |t| :: u[i].name == t[i].name && (t[i].kind != Undf ==> u[i] == t[i])
  {
  }

  lemma AllottedKeeps(t: Table, at: Bases)
    ensures forall i | 0 <= i < |t| ::
      && Allotted(t, at)[i].name == t[i].name
      && (t[i].kind != Undf ==> Allotted(t, at)[i] == t[i])
      && (Common(t[i]) ==> Allotted(t, at)[i] == Commons(t)[i])
  {
    var t1 := Commons(t);
    var t2 := Define(t1, "_etext", Text, at.t);
    var t3 := Define(t2, "_edata", Data, at.d);
    DefineKeeps(t1, "_etext", Text, at.t);
    DefineKeeps(t2, "_edata", Data, at.d);
    DefineKeeps(t3, "_end", Bss, at.b);
    hide Define, Common;
    forall i | 0 <= i < |t| ensures Commons(t)[i].name == t[i].name && (!Common(t[i]) ==> Commons(t)[i] == t[i]) {}
    CommonKind();
  }

  lemma CommonKind()
    ensures forall x: Sym :: Common(x) ==> x.kind == Undf
  {
  }

  lemma MiddleEntry(t: Table, at: Bases, f: Flags, i: nat)
    requires i < |t|
    ensures
      var y := Middle(t, at, f);
      && y.t[i].name == t[i].name
      && (t[i].kind != Undf ==> y.t[i] == Final(t[i], y.o, y.c))
      && (Common(t[i]) && Allocates(Decide(t, f)) ==>
            y.t[i] == t[i].(kind := Bss, value := Wrap(CommonTo(t, i) + y.c)))
      && (Common(t[i]) && !Allocates(Decide(t, f)) ==> y.t[i] == t[i])
  {
    hide Middle, Allotted, CommonTo, Common, Commons, Decide, Allocates, Wrap;
    MiddleBounds(t, at, f);
    AllottedKeeps(t, at);
    CommonKind();
    var y := Middle(t, at, f);
    if Common(t[i]) { CommonsAt(t, i); }
    WrapAdd(CommonTo(t, i), y.c);
  }

  lemma CommonsAt(t: Table, i: nat)
    requires i < |t| && Common(t[i])
    ensures Commons(t)[i] == t[i].(kind := Comm, value := Wrap(CommonTo(t, i)))
  {
  }

  lemma MiddleBounds(t: Table, at: Bases, f: Flags)
    ensures
      var y, all := Middle(t, at, f), Allocates(Decide(t, f));
      && y.t == Finals(if all then Allotted(t, at) else t, y.o, y.c)
      && y.c == y.o.d + at.d && y.o.b == y.c + y.csize && y.csize == if all then CommonTo(t, |t|) else 0
  {
    hide Finals, Allotted, CommonTo, Decide, DataOrigin;
  }

  lemma MiddleFind(t: Table, at: Bases, f: Flags, name: string)
    ensures Find(Middle(t, at, f).t, name) == Find(t, name)
  {
    forall i | 0 <= i < |t| ensures Middle(t, at, f).t[i].name == t[i].name { MiddleEntry(t, at, f, i); }
    SameFind(t, Middle(t, at, f).t, name);
  }

  // Common blocks are apart from each other, behind the data and in front of
  // bss.
  lemma CommonsApart(t: Table, at: Bases, f: Flags, i: nat, j: nat)
    requires i < j < |t| && Common(t[i]) && Common(t[j]) && Allocates(Decide(t, f)) && at.d >= 0
    ensures
      var y := Middle(t, at, f);
      && y.o.d + at.d == y.c <= y.c + CommonTo(t, i)
      && y.c + CommonTo(t, i) + t[i].value <= y.c + CommonTo(t, j)
      && y.c + CommonTo(t, j) + t[j].value <= y.o.b == y.c + y.csize
  {
    hide *;
    MiddleBounds(t, at, f);
    CommonStep(t, i);
    CommonStep(t, j);
    CommonGrows(t, i + 1, j);
    CommonGrows(t, j + 1, |t|);
  }

  lemma CommonStep(t: Table, i: nat)
    requires i < |t| && Common(t[i])
    ensures CommonTo(t, i) + t[i].value <= CommonTo(t, i + 1)
  {
  }

  lemma {:induction false} CommonGrows(t: Table, i: nat, j: nat)
    requires i <= j <= |t|
    ensures CommonTo(t, i) <= CommonTo(t, j)
    decreases j
  {
    if i < j { CommonGrows(t, i, j - 1); }
  }

  // ---- the second pass ----

  // What the test for "Multiply defined" in load2 compares.
  predicate SameSym(e: Sym, c: Sym) { e.kind == c.kind && e.value == c.value }

  // The first pass and middle give a symbol the address that load2 gives it.
  lemma SameAddress(ms: seq<Member>, k: nat, c: Sym, o: Bases, cc: int)
    requires k < |ms| && c.ext && c.kind != Undf
    ensures SameSym(Final(Relocated(ms[k], c, Ahead(ms, k)), o, cc), Relocated(ms[k], c, Origins(ms, k, o)))
  {
    hide Wrap, Origins, Ahead, Even;
    OriginsAhead(ms, k, o);
    var a, m := Ahead(ms, k), ms[k];
    WrapAdd(c.value + a.t, o.t);
    WrapAdd(c.value - Even(m.text) + a.d, o.d);
    WrapAdd(c.value - (Even(m.text) + Even(m.data)) + a.b, o.b);
  }

  // Over a whole run: the entry of a name that is defined once is what load2
  // computes for the definition, if and only if load1 did not refuse it in
  // favour of a common block.
  lemma DefinitionPlaced(calls: seq<Call>, n: nat, p: nat, f: Flags)
    requires DefinesAt(calls, n, p)
    ensures
      var s, k, c := LoadAll(NONE, calls), |LoadAll(NONE, calls[..n]).files|, calls[n].m.syms[p];
      var y := Middle(s.t, s.at, f);
      var i := Find(y.t, c.name);
      i < |y.t| && k < |s.files| &&
      (SameSym(y.t[i], Relocated(s.files[k], c, Origins(s.files, k, y.o))) <==> !Refuses(Meets(calls, n, p), c))
  {
    var s, s0, m := LoadAll(NONE, calls), LoadAll(NONE, calls[..n]), calls[n].m;
    var k, c := |s0.files|, m.syms[p];
    Parts(calls, n);
    DefinitionEnds(calls, n, p);
    AheadPrefix(s0.files, s.files, k);
    var y := Middle(s.t, s.at, f);
    MiddleFind(s.t, s.at, f, c.name);
    MiddleEntry(s.t, s.at, f, Find(s.t, c.name));
    SameAddress(s.files, k, c, y.o, y.c);
    hide Middle, LoadAll, DefinedOnce, Ahead, Origins, Meets, Exts, Refs, Find, Takes;
    FinalSame(s.t[Find(s.t, c.name)], Relocated(m, c, s0.at), y.o, y.c);
  }

  lemma FinalSame(e: Sym, c: Sym, o: Bases, cc: int)
    ensures SameSym(e, c) ==> SameSym(Final(e, o, cc), Final(c, o, cc))
  {
  }

  // ---- a definition that is refused ----

  // The first file asks for a common block x of two bytes, the second defines
  // x in its text.
  function RefusedExample(): seq<Call> {
    [Load(false, Member(0, 0, 0, false, [Sym("x", true, Undf, 2)], [], [])),
     Load(false, Member(2, 0, 0, false, [Sym("x", true, Text, 0)], [RWord(0, None, false)], []))]
  }

  // The only definition of x is refused, and load2 computes another symbol
  // than the table has.
  lemma RefusedWrong(f: Flags)
    ensures DefinesAt(RefusedExample(), 1, 0)
    ensures
      var calls := RefusedExample();
      var s := LoadAll(NONE, calls);
      var y := Middle(s.t, s.at, f);
      var i := Find(y.t, "x");
      && 1 < |s.files| && i < |y.t|
      && !SameSym(y.t[i], Relocated(s.files[1], Sym("x", true, Text, 0), Origins(s.files, 1, y.o)))
  {
    var calls := RefusedExample();
    RefusedRun(calls);
    DefinitionPlaced(calls, 1, 0, f);
  }

  lemma RefusedRun(calls: seq<Call>)
    requires calls == RefusedExample()
    ensures DefinesAt(calls, 1, 0) && Refuses(Meets(calls, 1, 0), calls[1].m.syms[0])
    ensures |LoadAll(NONE, calls[..1]).files| == 1
  {
    var a, b := calls[0].m, calls[1].m;
    var x := Sym("x", true, Undf, 2);
    assert calls[..1] == [calls[0]] && calls == [calls[0], calls[1]];
    assert Exts(a, a.syms, ORIGIN) == [x] by { assert a.syms == [x] && a.syms[1..] == []; }
    var none: Table := [];
    assert [x][1..] == [] && none + [x] == [x];
    assert Ref(none, x).0 == [x];
    assert Refs(none, [x]).0 == Refs([x], []).0 == [x];
    var s1 := LoadOne(NONE, calls[0]);
    assert s1.t == [x] && s1.files == [] + [a];
    assert [calls[0]][1..] == [];
    assert LoadAll(NONE, calls[..1]) == LoadAll(s1, []) == s1;
    var s2 := LoadOne(s1, calls[1]);
    assert calls[1..] == [calls[1]] && [calls[1]][1..] == [];
    assert LoadAll(NONE, calls) == LoadAll(s1, [calls[1]]) == LoadAll(s2, []) == s2;
    assert s2.files == [a, b];
    assert b.syms[..0] == [] && Exts(b, [], s1.at) == [] && Refs(s1.t, []).0 == s1.t;
    assert TableAt(s1, b, 0) == [x];
    assert Find([x], "x") == 0;
  }

  // ---- names that the second pass looks up ----

  // Every external symbol of the files is in the table.
  ghost predicate Known(t: Table, files: seq<Member>) {
    forall k | 0 <= k < |files| :: NamesIn(t, files[k])
  }

  ghost predicate NamesIn(t: Table, m: Member) {
    forall c | c in m.syms && c.ext :: Find(t, c.name) < |t|
  }

  lemma {:induction false} ExtsHas(m: Member, syms: seq<Sym>, at: Bases, c: Sym)
    requires c in syms && c.ext
    ensures exists x :: x in Exts(m, syms, at) && x.name == c.name
  {
    if syms[0] == c {
      assert Exts(m, syms, at)[0] in Exts(m, syms, at);
    } else {
      ExtsHas(m, syms[1..], at, c);
      var x :| x in Exts(m, syms[1..], at) && x.name == c.name;
      assert x in Exts(m, syms, at);
    }
  }

  lemma TakenKnown(s: Loads, m: Member)
    ensures NamesIn(Refs(s.t, Exts(m, m.syms, s.at)).0, m)
  {
    var cs := Exts(m, m.syms, s.at);
    LoadedSettled(s.t, cs);
    forall c | c in m.syms && c.ext ensures Find(Refs(s.t, cs).0, c.name) < |Refs(s.t, cs).0| {
      ExtsHas(m, m.syms, s.at, c);
    }
  }

  lemma KnownExtends(t: Table, u: Table, m: Member)
    requires NamesIn(t, m) && Extends(t, u)
    ensures NamesIn(u, m)
  {
    forall c | c in m.syms && c.ext ensures Find(u, c.name) < |u| { FindExtends(t, u, c.name); }
  }

  // "Internal error: symbol not found" cannot happen.
  lemma {:induction false} RunKnown(s: Loads, calls: seq<Call>)
    requires Known(s.t, s.files)
    ensures Known(LoadAll(s, calls).t, LoadAll(s, calls).files)
    decreases |calls|
  {
    if calls != [] {
      var s1 := LoadOne(s, calls[0]);
      OneExtends(s, calls[0]);
      forall k | 0 <= k < |s1.files| ensures NamesIn(s1.t, s1.files[k]) {
        if k < |s.files| {
          assert s1.files[k] == s.files[k];
          KnownExtends(s.t, s1.t, s.files[k]);
        } else {
          TakenKnown(s, calls[0].m);
        }
      }
      RunKnown(s1, calls[1..]);
    }
  }

  lemma MiddleKnown(calls: seq<Call>, f: Flags)
    ensures var s := LoadAll(NONE, calls); Known(Middle(s.t, s.at, f).t, s.files)
  {
    var s := LoadAll(NONE, calls);
    RunKnown(NONE, calls);
    forall name ensures Find(Middle(s.t, s.at, f).t, name) == Find(s.t, name) { MiddleFind(s.t, s.at, f, name); }
    hide LoadAll, Middle;
    forall k | 0 <= k < |s.files| ensures NamesIn(Middle(s.t, s.at, f).t, s.files[k]) {
      assert NamesIn(s.t, s.files[k]);
    }
  }

  // ---- the words of a file ----

  // lookloc finds symbol n among the undefined external ones of the file.
  predicate Refers(m: Member, n: nat) {
    n < |m.syms| && m.syms[n].ext && m.syms[n].kind == Undf
  }

  predicate WordOk(m: Member, w: RWord) { w.r.Extern? ==> Refers(m, w.r.symno) }

  // load2td for one word; at are the origins of the file and shift its own
  // that a word relative to the pc loses.
  function OutWord(t: Table, m: Member, at: Bases, shift: int, w: RWord): word
    requires WordOk(m, w)
  {
    var v: int := match w.r
      case None => w.t
      case InText => w.t + at.t
      case InData => w.t - Even(m.text) + at.d
      case InBss => w.t - (Even(m.text) + Even(m.data)) + at.b
      case Extern(n) =>
        var i := Find(t, m.syms[n].name);
        if i < |t| && t[i].kind != Undf then w.t + t[i].value else w.t;
    Wrap(if w.pcrel then v - shift else v)
  }

  // Where the byte at address a of a file is in the program: its text, data
  // and bss are put behind those of the files before.
  function Placed(m: Member, at: Bases, a: int): int {
    if a < Even(m.text) then at.t + a
    else if a < Even(m.text) + Even(m.data) then at.d + (a - Even(m.text))
    else at.b + (a - (Even(m.text) + Even(m.data)))
  }

  // The address a lies in the segment of kind k.
  predicate Within(m: Member, k: Kind, a: int) {
    match k
    case Text => 0 <= a < Even(m.text)
    case Data => Even(m.text) <= a < Even(m.text) + Even(m.data)
    case Bss => Even(m.text) + Even(m.data) <= a
    case _ => false
  }

  // The place of address a counted from the beginning of the segment of kind
  // k, in front of which or behind whose end it may lie; an absolute address
  // stays.
  function Spot(m: Member, at: Bases, k: Kind, a: int): int {
    match k
    case Text => at.t + a
    case Data => at.d + (a - Even(m.text))
    case Bss => at.b + (a - (Even(m.text) + Even(m.data)))
    case _ => a
  }

  // It is as far from the place of every byte of the segment as a is from that
  // byte's address, and the place of the byte when a lies in the segment.
  lemma SpotKeepsDistance(m: Member, at: Bases, k: Kind, a: int, b: int)
    requires Within(m, k, b)
    ensures Spot(m, at, k, a) - Placed(m, at, b) == a - b
    ensures Within(m, k, a) ==> Spot(m, at, k, a) == Placed(m, at, a)
  {
  }

  // The place of a definition.
  function SymSpot(m: Member, at: Bases, c: Sym): int { Spot(m, at, c.kind, c.value) }

  lemma SpotIs(m: Member, at: Bases, c: Sym)
    requires c.ext && c.kind != Undf
    ensures Relocated(m, c, at).value == Wrap(SymSpot(m, at, c))
  {
  }

  function Shifted(w: RWord, v: int, shift: int): word { Wrap(if w.pcrel then v - shift else v) }

  // A word that refers by name to a symbol that is defined once comes to hold
  // the place of the definition, offset included, less the pc shift, unless
  // a common block was in the way of the definition.
  lemma WordHolds(calls: seq<Call>, n: nat, p: nat, f: Flags, k: nat, w: RWord, shift: int)
    requires DefinesAt(calls, n, p) && !Refuses(Meets(calls, n, p), calls[n].m.syms[p])
    requires k < |LoadAll(NONE, calls).files|
    requires
      var m := LoadAll(NONE, calls).files[k];
      w.r.Extern? && Refers(m, w.r.symno) && m.syms[w.r.symno].name == calls[n].m.syms[p].name
    ensures
      var s, k0 := LoadAll(NONE, calls), |LoadAll(NONE, calls[..n]).files|;
      var y := Middle(s.t, s.at, f);
      k0 < |s.files| &&
      OutWord(y.t, s.files[k], Origins(s.files, k, y.o), shift, w) ==
        Shifted(w, w.t + SymSpot(calls[n].m, Origins(s.files, k0, y.o), calls[n].m.syms[p]), shift)
  {
    hide *;
    DefinesParts(calls, n, p);
    var e := DefinedEntry(calls, n, p, f);
    var s, k0, c := LoadAll(NONE, calls), |LoadAll(NONE, calls[..n]).files|, calls[n].m.syms[p];
    var y := Middle(s.t, s.at, f);
    ByName(y.t, s.files[k], Origins(s.files, k, y.o), shift, w, Find(y.t, c.name));
    WrapShift(w, e.value, SymSpot(calls[n].m, Origins(s.files, k0, y.o), c), shift);
  }

  // The entry of the definition.
  lemma DefinedEntry(calls: seq<Call>, n: nat, p: nat, f: Flags) returns (e: Sym)
    requires DefinesAt(calls, n, p) && !Refuses(Meets(calls, n, p), calls[n].m.syms[p])
    ensures
      var s, k0, c := LoadAll(NONE, calls), |LoadAll(NONE, calls[..n]).files|, calls[n].m.syms[p];
      var y := Middle(s.t, s.at, f);
      && k0 < |s.files| && Find(y.t, c.name) < |y.t| && e == y.t[Find(y.t, c.name)] && e.kind != Undf
      && e.value == Wrap(SymSpot(calls[n].m, Origins(s.files, k0, y.o), c))
  {
    hide *;
    DefinesParts(calls, n, p);
    var s, k0, c := LoadAll(NONE, calls), |LoadAll(NONE, calls[..n]).files|, calls[n].m.syms[p];
    var y := Middle(s.t, s.at, f);
    DefinitionPlaced(calls, n, p, f);
    var at := Origins(s.files, k0, y.o);
    e := y.t[Find(y.t, c.name)];
    SpotIs(calls[n].m, at, c);
    NotUndf(calls[n].m, c, at);
    SameIs(e, Relocated(calls[n].m, c, at));
  }

  lemma DefinesParts(calls: seq<Call>, n: nat, p: nat)
    requires DefinesAt(calls, n, p)
    ensures n < |calls| && calls[n].Load? && p < |calls[n].m.syms|
    ensures calls[n].m.syms[p].ext && calls[n].m.syms[p].kind != Undf
    ensures var k := |LoadAll(NONE, calls[..n]).files|;
      k < |LoadAll(NONE, calls).files| && LoadAll(NONE, calls).files[k] == calls[n].m
  {
  }

  lemma SameIs(e: Sym, c: Sym)
    requires SameSym(e, c)
    ensures e.kind == c.kind && e.value == c.value
  {
  }

  lemma NotUndf(m: Member, c: Sym, at: Bases)
    requires c.kind != Undf && c.ext
    ensures Relocated(m, c, at).kind != Undf
  {
  }

  lemma WrapShift(w: RWord, v: word, a: int, shift: int)
    requires v == Wrap(a)
    ensures Shifted(w, w.t + v, shift) == Shifted(w, w.t + a, shift)
  {
    WrapAdd(a, w.t);
    WrapAdd(a, w.t - shift);
  }

  // A word that refers to a common block comes to hold its place, and one that
  // refers to what stays undefined its offset.
  lemma WordCommon(t: Table, z: Bases, f: Flags, m: Member, at: Bases, shift: int, w: RWord, i: nat)
    requires w.r.Extern? && Refers(m, w.r.symno) && i == Find(t, m.syms[w.r.symno].name)
    requires i < |t| && Common(t[i])
    ensures
      var y := Middle(t, z, f);
      OutWord(y.t, m, at, shift, w) ==
        Shifted(w, if Allocates(Decide(t, f)) then w.t + y.c + CommonTo(t, i) else w.t, shift)
  {
    hide *;
    var e := CommonEntry(t, z, f, i);
    ByName(Middle(t, z, f).t, m, at, shift, w, i);
    CommonWord(w, e, t[i], Allocates(Decide(t, f)), CommonTo(t, i) + Middle(t, z, f).c, shift);
  }

  lemma CommonEntry(t: Table, z: Bases, f: Flags, i: nat) returns (e: Sym)
    requires i < |t| && Common(t[i])
    ensures Find(t, t[i].name) == i ==> Find(Middle(t, z, f).t, t[i].name) == i
    ensures e == Middle(t, z, f).t[i] && t[i].kind == Undf
    ensures e ==
      if Allocates(Decide(t, f)) then t[i].(kind := Bss, value := Wrap(CommonTo(t, i) + Middle(t, z, f).c)) else t[i]
  {
    hide *;
    MiddleFind(t, z, f, t[i].name);
    MiddleEntry(t, z, f, i);
    CommonUndf(t[i]);
    e := Middle(t, z, f).t[i];
  }

  lemma CommonUndf(c: Sym)
    requires Common(c)
    ensures c.kind == Undf
  {
  }

  lemma CommonWord(w: RWord, e: Sym, c: Sym, all: bool, a: int, shift: int)
    requires c.kind == Undf && e == if all then c.(kind := Bss, value := Wrap(a)) else c
    ensures Shifted(w, if e.kind != Undf then w.t + e.value else w.t, shift) ==
      Shifted(w, if all then w.t + a else w.t, shift)
  {
    hide Wrap, Shifted;
    if all { WrapShift(w, e.value, a, shift); }
  }

  lemma ByName(t: Table, m: Member, at: Bases, shift: int, w: RWord, i: nat)
    requires w.r.Extern? && Refers(m, w.r.symno) && i == Find(t, m.syms[w.r.symno].name) && i < |t|
    ensures WordOk(m, w) && OutWord(t, m, at, shift, w) ==
      Shifted(w, if t[i].kind != Undf then w.t + t[i].value else w.t, shift)
  {
    hide Wrap, Find;
  }

  function SegmentOf(r: Reloc): Kind {
    if r.InText? then Text else if r.InData? then Data else if r.InBss? then Bss else Abs
  }

  // A word that holds an address of its own file, counted in one of its
  // segments, comes to hold the place at the same distance from the bytes of
  // that segment; one that is not relocated stays.
  lemma WordLocal(t: Table, m: Member, at: Bases, shift: int, w: RWord)
    requires !w.r.Extern?
    ensures OutWord(t, m, at, shift, w) == Shifted(w, Spot(m, at, SegmentOf(w.r), w.t), shift)
    ensures forall b | Within(m, SegmentOf(w.r), b) ::
      OutWord(t, m, at, shift, w) == Shifted(w, Placed(m, at, b) + (w.t - b), shift)
  {
    hide Wrap;
    forall b | Within(m, SegmentOf(w.r), b)
      ensures Spot(m, at, SegmentOf(w.r), w.t) == Placed(m, at, b) + (w.t - b)
    {
      SpotKeepsDistance(m, at, SegmentOf(w.r), w.t, b);
    }
  }
}
