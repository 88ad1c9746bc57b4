// ld/ld.c: the linker at work on its tables.
module Ld {
  import opened Words
  import opened LdSymbols
  import opened LdHash
  import opened LdRun

  // What the command line names, in order.
  datatype Arg = Undefined(name: string) | File(m: Member) | Archive(ms: seq<Member>)

  // ---- the members taken from an archive ----

  ghost predicate Numbers(ms: seq<Member>, libs: seq<nat>) {
    forall i | 0 <= i < |libs| :: libs[i] < |ms|
  }

  ghost function Picked(ms: seq<Member>, libs: seq<nat>): (r: seq<Member>)
    requires Numbers(ms, libs)
    ensures |r| == |libs| && forall i | 0 <= i < |libs| :: r[i] == ms[libs[i]]
  {
    seq(|libs|, i requires 0 <= i < |libs| => ms[libs[i]])
  }

  // The part of liblist for one archive: offsets, here one more than the
  // number of the member, and 0 at the end.
  function Offsets(libs: seq<nat>): (s: seq<nat>)
    ensures |s| == |libs| && forall i | 0 <= i < |libs| :: s[i] == libs[i] + 1
  {
    seq(|libs|, i requires 0 <= i < |libs| => libs[i] + 1)
  }

  // ---- the linker ----

  class Linker {
    const hshtab: array<nat>    // 0, or one more than the place of a symbol
    var symtab: Table
    var tsize: nat
    var dsize: nat
    var bsize: nat
    var libs: seq<nat>          // the members taken from the archive at hand
    var liblist: seq<nat>
    var torigin: int
    var dorigin: int
    var borigin: int
    var toutb: seq<word>
    var doutb: seq<word>
    var errlev: bool            // a symbol was multiply defined
    ghost var files: seq<Member>
    ghost var calls: seq<Call>

    constructor ()
      ensures fresh(hshtab) && Valid() && Traced()
      ensures calls == [] && files == [] && libs == [] && liblist == []
      ensures toutb == [] && doutb == [] && !errlev
    {
      hshtab := new nat[NSLOTS](_ => 0);
      torigin, dorigin, borigin, toutb, doutb, errlev := 0, 0, 0, [], [], false;
      symtab, tsize, dsize, bsize, libs, liblist := [], 0, 0, 0, [], [];
      files, calls := [], [];
      new;
      NoneHashed();
      assert hshtab[..] == seq(NSLOTS, _ => 0);
    }

    ghost predicate Valid()
      reads this, hshtab
    {
      hshtab.Length == NSLOTS && Hashed(hshtab[..], symtab)
    }

    // Where the next file goes.
    function Here(): Bases
      reads this
    {
      Bases(tsize, dsize, bsize)
    }

    ghost function State(): Loads
      reads this
    {
      Loads(symtab, Here(), files)
    }

    // The state is what the calls so far lead to.
    ghost predicate Traced()
      reads this
    {
      State() == LoadAll(NONE, calls)
    }

    method HashOf(name: string) returns (h: nat)
      ensures h == Start(name)
    {
      var hash := 0;
      for i := 0 to |name|
        invariant hash == Hash(name[..i])
      {
        assert name[..i + 1][..i] == name[..i];
        hash := 2 * hash + name[i] as int;
      }
      assert name[..|name|] == name;
      h := hash % 0x8000 % NSYM + 2;
    }

    // lookup: the slot of a name, or the empty slot where it belongs.
    method Lookup(name: string) returns (h: nat, ghost d: nat)
      requires Valid()
      ensures d < NSLOTS && h == Slot(name, d) && Probed(hshtab[..], symtab, name, d)
      ensures hshtab[h] == if Find(symtab, name) < |symtab| then Find(symtab, name) + 1 else 0
    {
      h := HashOf(name);
      d := 0;
      ghost var z := SlotFree(hshtab[..], symtab, name);
      while hshtab[h] != 0 && symtab[hshtab[h] - 1].name != name
        invariant d <= z && h == Slot(name, d) && Probed(hshtab[..], symtab, name, d)
        decreases z - d
      {
        ProbeOn(hshtab[..], symtab, name, d, z);
        h := h + 1;
        if h >= NSLOTS { h := 0; }
        d := d + 1;
      }
      FoundIs(hshtab[..], symtab, name, d);
    }

    // The loop of load1 over the symbols of a file, with the stack of slots
    // that were filled.  It fails when the symbol table overflows.
    method Symbols(m: Member) returns (ndef: nat, added: seq<nat>, fatal: bool)
      requires Valid()
      modifies this`symtab, hshtab
      ensures Valid() && Filled(old(hshtab[..]), hshtab[..], added)
      ensures fatal <==> |Refs(old(symtab), Exts(m, m.syms, Here())).0| > NSYM
      ensures !fatal ==> (symtab, ndef) == Refs(old(symtab), Exts(m, m.syms, Here()))
    {
      hide Hashed, Refs, Ref, Filled, Exts, Relocated;
      ghost var at, was := Here(), hshtab[..];
      ghost var all := Refs(symtab, Exts(m, m.syms, at));
      ndef, added, fatal := 0, [], false;
      var n := 0;
      assert m.syms[0..] == m.syms;
      FilledNone(was);
      while n < |m.syms|
        invariant 0 <= n <= |m.syms| && Here() == at && Valid() && Filled(was, hshtab[..], added)
        invariant var r := Refs(symtab, Exts(m, m.syms[n..], at)); (r.0, ndef + r.1) == all
      {
        var c := m.syms[n];
        ghost var rest := Exts(m, m.syms[n + 1..], at);
        ExtsTurn(m, m.syms, n, at);
        if c.ext {
          var cur := Relocated(m, c, Bases(tsize, dsize, bsize));
          RefsTurn(symtab, cur, rest);
          var def;
          added, def, fatal := Enter(cur, added, was);
          if fatal { return; }
          ndef := ndef + def;
        }
        n := n + 1;
      }
      RefsNone(m, symtab, m.syms[n..], at);
      ValidSize();
    }

    lemma ValidSize()
      requires Valid()
      ensures |symtab| <= NSYM
    {
    }

    // One external symbol in load1.
    method Enter(c: Sym, added: seq<nat>, ghost was: seq<nat>) returns (added1: seq<nat>, def: nat, fatal: bool)
      requires Valid() && Filled(was, hshtab[..], added)
      modifies this`symtab, hshtab
      ensures Valid() && Filled(was, hshtab[..], added1)
      ensures fatal <==> |Ref(old(symtab), c).0| > NSYM
      ensures !fatal ==> (symtab, def) == Ref(old(symtab), c)
    {
      hide Hashed, Filled, Find;
      added1, def, fatal := added, 0, false;
      var h, d := Lookup(c.name);
      FindRef(symtab, c);
      if hshtab[h] == 0 {
        if |symtab| >= NSYM { fatal := true; return; }
        EnterHashed(hshtab[..], symtab, c, d);
        FilledMore(was, hshtab[..], added, h, |symtab| + 1);
        ghost var tab := hshtab[..][h := |symtab| + 1];
        hshtab[h] := |symtab| + 1;
        assert hshtab[..] == tab;
        symtab := symtab + [c];
        added1 := added + [h];
      } else {
        def := Meet(hshtab[h] - 1, c);
      }
    }

    // The name has an entry.
    method Meet(i: nat, c: Sym) returns (def: nat)
      requires Valid() && i < |symtab| && i == Find(symtab, c.name)
      modifies this`symtab
      ensures Valid() && (symtab, def) == Ref(old(symtab), c) && |symtab| == old(|symtab|) <= NSYM
    {
      hide Hashed, Find;
      ghost var t := symtab;
      ValidSize();
      def := 0;
      if symtab[i].kind == Undf {
        if c.kind == Undf {
          if c.value > symtab[i].value { symtab := symtab[i := symtab[i].(value := c.value)]; }
        } else if symtab[i].value == 0 || c.kind != Text {
          symtab := symtab[i := symtab[i].(kind := c.kind, value := c.value)];
          def := 1;
        }
      }
      assert symtab == Ref(t, c).0;
      RefExtends(t, c);
      HashedSame(hshtab[..], t, symtab);
    }

    // The slots on the stack are emptied again.
    method RipOut(added: seq<nat>, ghost was: seq<nat>)
      requires hshtab.Length == NSLOTS && Filled(was, hshtab[..], added)
      modifies hshtab
      ensures hshtab[..] == was
    {
      var lp := |added|;
      while lp > 0
        invariant 0 <= lp <= |added| && Filled(was, hshtab[..], added[..lp])
      {
        lp := lp - 1;
        FilledLess(was, hshtab[..], added[..lp + 1]);
        hshtab[added[lp]] := 0;
      }
    }

    // load1.  A member that is not taken leaves the hash table as it was, so
    // that every search ends where it did, and the names and types.
    method Load1(lib: bool, m: Member) returns (loaded: bool, fatal: bool)
      requires Valid()
      modifies this`symtab, this`tsize, this`dsize, this`bsize, this`files, this`calls, hshtab
      ensures fatal <==> !m.norel && |Refs(old(symtab), Exts(m, m.syms, old(Here()))).0| > NSYM
      ensures !fatal ==>
        && Valid() && State() == LoadOne(old(State()), Load(lib, m)) && loaded == Takes(old(State()), lib, m)
        && calls == old(calls) + [Load(lib, m)]
      ensures !fatal && !loaded ==> hshtab[..] == old(hshtab[..]) && SameNames(old(symtab), symtab)
    {
      hide Hashed, Filled, Refs, Exts, Grown, SameNames;
      loaded, fatal := false, false;
      ghost var t, at, was := symtab, Here(), hshtab[..];
      SelfSame(t);
      calls := calls + [Load(lib, m)];
      if m.norel { return; }
      ghost var cs := Exts(m, m.syms, at);
      var ssymp := |symtab|;
      var ndef, added;
      ndef, added, fatal := Symbols(m);
      if fatal { return; }
      if !lib || ndef > 0 {
        tsize := tsize + Even(m.text);
        dsize := dsize + m.data;
        bsize := bsize + Even(m.bss);
        files := files + [m];
        return true, false;
      }
      Rejected(t, cs);
      symtab := symtab[..ssymp];
      RipOut(added, was);
      HashedSame(was, t, symtab);
    }

    // -u
    method AskFor(name: string) returns (fatal: bool)
      requires Valid() && Traced()
      modifies this`symtab, this`calls, hshtab
      ensures !fatal ==> Valid() && Traced() && calls == old(calls) + [Ask(name)]
    {
      ghost var s := State();
      var added, def;
      FilledNone(hshtab[..]);
      added, def, fatal := Enter(Sym(name, true, Undf, 0), [], hshtab[..]);
      LoadConcat(NONE, calls, [Ask(name)]);
      OneCall(s, Ask(name));
      calls := calls + [Ask(name)];
    }

    // load1arg for an archive: the scan is repeated until a whole pass has
    // taken nothing.
    method LoadArchive(ms: seq<Member>) returns (fatal: bool)
      requires Valid() && Traced()
      modifies this`symtab, this`tsize, this`dsize, this`bsize, this`files, this`calls, this`libs, this`liblist, hshtab
      ensures !fatal ==> Valid() && Traced() && old(calls) <= calls && Scanned(ms, calls[|old(calls)|..])
      ensures !fatal ==> liblist == old(liblist) + Offsets(libs) + [0] && Numbers(ms, libs)
      ensures !fatal ==> files == old(files) + Picked(ms, libs)
      ensures !fatal ==> forall i, j | 0 <= i < j < |libs| :: libs[i] != libs[j]
      ensures !fatal ==> UselessTo(symtab, ms, |ms|)
    {
      libs, fatal := [], false;
      ghost var files0, calls0, list0 := files, calls, liblist;
      var again := true;
      NothingTaken(symtab, ms, calls, files);
      while again
        invariant Valid() && Traced() && Taken(symtab, ms, libs, files0, files, calls0, calls)
        invariant liblist == list0 && (!again ==> UselessTo(symtab, ms, |ms|))
        decreases Undone(symtab, ms), again
      {
        hide Taken, UselessTo, Hashed, LoadAll, Undone;
        again, fatal := ScanOnce(ms, files0, calls0);
        if fatal { return; }
      }
      TakenParts(symtab, ms, libs, files0, files, calls0, calls);
      liblist := liblist + Offsets(libs) + [0];
    }

    // One pass; true when something was taken.
    method ScanOnce(ms: seq<Member>, ghost files0: seq<Member>, ghost calls0: seq<Call>)
      returns (linked: bool, fatal: bool)
      requires Valid() && Traced() && Taken(symtab, ms, libs, files0, files, calls0, calls)
      modifies this`symtab, this`tsize, this`dsize, this`bsize, this`files, this`calls, this`libs, hshtab
      ensures !fatal ==> Valid() && Traced() && Taken(symtab, ms, libs, files0, files, calls0, calls)
      ensures !fatal && linked ==> Undone(symtab, ms) < Undone(old(symtab), ms)
      ensures !fatal && !linked ==> Undone(symtab, ms) <= Undone(old(symtab), ms) && UselessTo(symtab, ms, |ms|)
    {
      hide Taken, Undone, UselessTo, Hashed, LoadAll;
      ghost var t := symtab;
      linked, fatal := false, false;
      var k := 0;
      NoneUseless(symtab, ms);
      while k < |ms|
        invariant 0 <= k <= |ms| && Valid() && Traced() && Taken(symtab, ms, libs, files0, files, calls0, calls)
        invariant Undone(symtab, ms) <= Undone(t, ms) && (linked ==> Undone(symtab, ms) < Undone(t, ms))
        invariant linked || UselessTo(symtab, ms, k)
      {
        var loaded;
        loaded, fatal := ScanMember(ms, k, files0, calls0);
        if fatal { return; }
        linked := linked || loaded;
        k := k + 1;
      }
    }

    method ScanMember(ms: seq<Member>, k: nat, ghost files0: seq<Member>, ghost calls0: seq<Call>)
      returns (loaded: bool, fatal: bool)
      requires Valid() && Traced() && Taken(symtab, ms, libs, files0, files, calls0, calls) && k < |ms|
      modifies this`symtab, this`tsize, this`dsize, this`bsize, this`files, this`calls, this`libs, hshtab
      ensures !fatal ==> Valid() && Traced() && Taken(symtab, ms, libs, files0, files, calls0, calls)
      ensures !fatal ==> Undone(symtab, ms) <= Undone(old(symtab), ms)
      ensures !fatal && loaded ==> Undone(symtab, ms) < Undone(old(symtab), ms)
      ensures !fatal && !loaded && UselessTo(old(symtab), ms, k) ==> UselessTo(symtab, ms, k + 1)
    {
      hide Taken, Undone, UselessTo, Hashed, LoadAll, LoadOne, Takes, SameNames, Refs;
      ghost var s, c := State(), Load(true, ms[k]);
      loaded, fatal := Load1(true, ms[k]);
      if fatal { return; }
      LoadConcat(NONE, old(calls), [c]);
      OneCall(s, c);
      MemberScanned(s, ms, k, libs, files0, calls0, old(calls));
      if loaded { libs := libs + [k]; }
    }

    // ---- middle ----

    // Is any symbol undefined but those that middle defines?
    method FindMissing() returns (missing: bool)
      requires Valid()
      ensures missing <==> Missing(symtab)
    {
      hide Hashed, Find;
      var etext, d1 := Lookup("_etext");
      var edata, d2 := Lookup("_edata");
      var end, d3 := Lookup("_end");
      missing := false;
      var i := 0;
      while i < |symtab| && !missing
        invariant 0 <= i <= |symtab| && (missing ==> Missing(symtab))
        invariant !missing ==> forall j | 0 <= j < i :: !(Lacks(symtab[j]) && symtab[j].name !in SPECIAL)
      {
        NotSpecial(hshtab[..], symtab, i, hshtab[etext], hshtab[edata], hshtab[end]);
        if symtab[i].kind == Undf && symtab[i].value == 0
          && i + 1 != hshtab[end] && i + 1 != hshtab[edata] && i + 1 != hshtab[etext] {
          missing := true;
        }
        i := i + 1;
      }
    }

    // The common blocks get their places.
    method LayCommons() returns (csize: nat)
      requires Valid()
      modifies this`symtab
      ensures Valid() && symtab == Commons(old(symtab)) && csize == CommonTo(old(symtab), |symtab|)
    {
      hide Hashed;
      ghost var t := symtab;
      csize := 0;
      for i := 0 to |symtab|
        invariant |symtab| == |t| && csize == CommonTo(t, i)
        invariant forall j | 0 <= j < |t| :: symtab[j] == if j < i then Commons(t)[j] else t[j]
      {
        var sp := symtab[i];
        if sp.kind == Undf && sp.value != 0 {
          var size := Even(sp.value);
          symtab := symtab[i := sp.(kind := Comm, value := Wrap(csize))];
          csize := csize + size;
        }
      }
      assert symtab == Commons(t);
      HashedSame(hshtab[..], t, symtab);
    }

    // One of the three symbols that middle defines.
    method DefineEnd(name: string, kind: Kind, value: int)
      requires Valid()
      modifies this`symtab
      ensures Valid() && symtab == Define(old(symtab), name, kind, value)
    {
      hide Hashed, Find, Wrap;
      ghost var t := symtab;
      var h, d := Lookup(name);
      var p := hshtab[h];
      if p != 0 && symtab[p - 1].kind == Undf {
        symtab := symtab[p - 1 := symtab[p - 1].(kind := kind, value := Wrap(value))];
      }
      HashedSame(hshtab[..], t, symtab);
    }

    // All symbols get their final values.
    method SetFinal(o: Bases, c: int)
      requires Valid()
      modifies this`symtab
      ensures Valid() && symtab == Finals(old(symtab), o, c)
    {
      ghost var t := symtab;
      for i := 0 to |symtab|
        invariant |symtab| == |t|
        invariant forall j | 0 <= j < |t| :: symtab[j] == if j < i then Final(t[j], o, c) else t[j]
      {
        var sp := symtab[i];
        match sp.kind
        case Text => symtab := symtab[i := sp.(value := Wrap(sp.value + o.t))];
        case Data => symtab := symtab[i := sp.(value := Wrap(sp.value + o.d))];
        case Bss => symtab := symtab[i := sp.(value := Wrap(sp.value + o.b))];
        case Comm => symtab := symtab[i := sp.(kind := Bss, value := Wrap(sp.value + c))];
        case _ =>
      }
      assert symtab == Finals(t, o, c);
      HashedSame(hshtab[..], t, symtab);
    }

    // middle
    method MiddlePass(f: Flags)
      requires Valid()
      modifies this`symtab, this`torigin, this`dorigin, this`borigin
      ensures var y := Middle(old(symtab), old(Here()), f);
        Valid() && symtab == y.t && Bases(torigin, dorigin, borigin) == y.o
    {
      hide Hashed, Commons, CommonTo, Define, Finals, Missing, DataOrigin;
      var g := f;
      if !f.r {
        var missing := FindMissing();
        if missing { g := Flags(true, false, false, false, f.a); }
      }
      var csize := 0;
      if g.d || !g.r {
        csize := LayCommons();
        DefineEnd("_etext", Text, tsize);
        DefineEnd("_edata", Data, dsize);
        DefineEnd("_end", Bss, bsize);
      }
      var corigin := DataOrigin(Bases(tsize, dsize, bsize), g) + dsize;
      torigin := g.a;
      dorigin := corigin - dsize + g.a;
      borigin := corigin + csize + g.a;
      SetFinal(Bases(torigin, dorigin, borigin), corigin + g.a);
    }

    // ---- load2 ----

    function There(): Bases
      reads this
    {
      Bases(torigin, dorigin, borigin)
    }

    // lookloc
    method LookLoc(local: seq<(nat, nat)>, sn: nat, ghost m: Member, ghost n: nat) returns (found: bool, i: nat)
      requires Numbered(local, symtab, m, n) && n == |m.syms|
      ensures found <==> Refers(m, sn)
      ensures found ==> i == Find(symtab, m.syms[sn].name) && i < |symtab|
    {
      found, i := false, 0;
      for k := 0 to |local|
        invariant forall j | 0 <= j < k :: local[j].0 != sn
      {
        if local[k].0 == sn {
          assert local[k] in local;
          return true, local[k].1;
        }
      }
      NotNumbered(local, symtab, m, sn);
    }

    // The loop of load2 over the symbols of a file; it fails when a name is
    // not in the table.
    method Numbers2(m: Member) returns (local: seq<(nat, nat)>, ok: bool)
      requires Valid()
      modifies this`errlev
      ensures ok <==> NamesIn(symtab, m)
      ensures ok ==> Numbered(local, symtab, m, |m.syms|)
      ensures ok ==> errlev == (old(errlev) || Clashes(symtab, m, There(), |m.syms|))
    {
      hide Hashed, Find, Relocated, Numbered;
      local, ok := [], true;
      var at := Bases(torigin, dorigin, borigin);
      var symno := 0;
      NoneNumbered(symtab, m);
      while symno < |m.syms|
        invariant 0 <= symno <= |m.syms| && ok && at == There()
        invariant Numbered(local, symtab, m, symno)
        invariant forall q | 0 <= q < symno && m.syms[q].ext :: Find(symtab, m.syms[q].name) < |symtab|
        invariant errlev == (old(errlev) || Clashes(symtab, m, at, symno))
      {
        var c := m.syms[symno];
        ClashesMore(symtab, m, at, symno);
        if c.ext {
          var h, d := Lookup(c.name);
          if hshtab[h] == 0 {
            assert c in m.syms;
            ok := false;
            return;
          }
          var sp := hshtab[h] - 1;
          if c.kind == Undf {
            NumberedMore(local, symtab, m, symno, sp);
            local := local + [(symno, sp)];
          } else {
            var cur := Relocated(m, c, at);
            if cur.kind != symtab[sp].kind || cur.value != symtab[sp].value { errlev := true; }
            SameNumbered(local, symtab, m, symno);
          }
        } else {
          SameNumbered(local, symtab, m, symno);
        }
        symno := symno + 1;
      }
    }

    // load2td
    method Load2td(m: Member, words: seq<RWord>, local: seq<(nat, nat)>, shift: int) returns (out: seq<word>, ok: bool)
      requires Numbered(local, symtab, m, |m.syms|)
      ensures ok <==> WordsOk(m, words)
      ensures ok ==> out == OutWords(symtab, m, There(), shift, words)
    {
      out, ok := [], true;
      for i := 0 to |words|
        invariant WordsOk(m, words[..i]) && out == OutWords(symtab, m, There(), shift, words[..i])
      {
        var w := words[i];
        var t: int := w.t;
        match w.r {
          case None =>
          case InText => t := t + torigin;
          case InData => t := t - Even(m.text) + dorigin;
          case InBss => t := t - (Even(m.text) + Even(m.data)) + borigin;
          case Extern(sn) =>
            var found, sp := LookLoc(local, sn, m, |m.syms|);
            if !found {
              assert w in words;
              ok := false;
              return;
            }
            if symtab[sp].kind != Undf { t := t + symtab[sp].value; }
        }
        if w.pcrel { t := t - shift; }
        OutWordsMore(symtab, m, There(), shift, words, i);
        out := out + [Wrap(t)];
      }
      assert words[..|words|] == words;
    }

    // load2: the words of the file, with the places that the second pass
    // gives it.
    method Load2(m: Member) returns (ok: bool)
      requires Valid()
      modifies this`errlev, this`toutb, this`doutb, this`torigin, this`dorigin, this`borigin
      ensures ok <==> NamesIn(symtab, m) && WordsOk(m, m.twords) && WordsOk(m, m.dwords)
      ensures ok ==>
        && toutb == old(toutb) + TextOf(symtab, m, old(There())) &&
          doutb == old(doutb) + DataOf(symtab, m, old(There()))
        && errlev == (old(errlev) || Clashes(symtab, m, old(There()), |m.syms|)) && There() == Next(old(There()), m)
    {
      var local, text, data;
      local, ok := Numbers2(m);
      if !ok { return; }
      text, ok := Load2td(m, m.twords, local, torigin);
      if !ok { return; }
      data, ok := Load2td(m, m.dwords, local, dorigin - Even(m.text));
      if !ok { return; }
      toutb := toutb + text;
      doutb := doutb + data;
      torigin := torigin + Even(m.text);
      dorigin := dorigin + m.data;
      borigin := borigin + Even(m.bss);
    }

    // ---- the whole program ----

    // The first pass over the command line; it fails when the symbol table
    // overflows or a file has no relocation bits.
    method FirstPass(args: seq<Arg>) returns (ok: bool, ghost picks: seq<seq<nat>>)
      requires Valid() && Traced() && calls == [] && files == [] && liblist == []
      modifies this, hshtab
      ensures ok ==> Valid() && Traced() && Agree(args, picks, files, liblist) && Follows(args, calls)
      ensures toutb == old(toutb) && doutb == old(doutb) && errlev == old(errlev)
    {
      ok, picks := true, [];
      NoArgs();
      for j := 0 to |args|
        invariant Valid() && Traced() && Agree(args[..j], picks, files, liblist) && Follows(args[..j], calls)
        invariant toutb == old(toutb) && doutb == old(doutb) && errlev == old(errlev)
      {
        hide Hashed, LoadAll, Agree, Follows;
        ok, picks := Take(args[j], args[..j], picks);
        if !ok { return; }
        assert args[..j + 1] == args[..j] + [args[j]];
      }
      assert args[..|args|] == args;
    }

    // One argument, after those done.
    method Take(x: Arg, ghost done: seq<Arg>, ghost picks: seq<seq<nat>>)
      returns (ok: bool, ghost picks1: seq<seq<nat>>)
      requires Valid() && Traced() && Agree(done, picks, files, liblist) && Follows(done, calls)
      modifies this`symtab, this`tsize, this`dsize, this`bsize, this`files, this`calls, this`libs, this`liblist, hshtab
      ensures ok ==> Valid() && Traced() && Agree(done + [x], picks1, files, liblist) && Follows(done + [x], calls)
    {
      hide Hashed, LoadAll, Agree, Follows, Scanned, UselessTo, Numbers, Takes, LoadOne;
      ghost var calls0, s, list0 := calls, State(), liblist;
      ok, picks1 := true, picks;
      match x {
        case Undefined(name) =>
          var fatal := AskFor(name);
          if fatal { ok := false; return; }
          ArgAsked(done, picks, files, liblist, name, calls0);
        case File(m) =>
          var loaded, fatal := Load1(false, m);
          if fatal || !loaded { ok := false; return; }
          LoadConcat(NONE, calls0, [Load(false, m)]);
          OneCall(s, Load(false, m));
          FilesAfter(s, m);
          ArgFile(done, picks, s.files, liblist, m, calls0);
        case Archive(ms) =>
          var fatal := LoadArchive(ms);
          if fatal { ok := false; return; }
          ArgArchive(done, picks, s.files, list0, ms, libs, calls0, calls, symtab);
          picks1 := picks + [libs];
      }
    }

    // What the second pass has written when it is through with the first n
    // files, from the origins o on.
    ghost predicate Written(n: nat, o: Bases)
      reads this
    {
      && n <= |files| && (forall i | 0 <= i < n :: WordsFine(files[i]))
      && toutb == Texts(symtab, files, n, o) && doutb == Datas(symtab, files, n, o)
      && There() == Origins(files, n, o) && errlev == Clashed(symtab, files, n, o)
    }

    method Visit(m: Member, ghost n: nat, ghost o: Bases) returns (ok: bool)
      requires Valid() && Written(n, o) && n < |files| && files[n] == m && NamesIn(symtab, m)
      modifies this`errlev, this`toutb, this`doutb, this`torigin, this`dorigin, this`borigin
      ensures ok <==> WordsFine(m)
      ensures ok ==> Written(n + 1, o)
    {
      ok := Load2(m);
      if ok { ClashedMore(symtab, files, n, o); }
    }

    // The second pass visits the files that the first has taken, in the same
    // order, and fails exactly when a word names a symbol that its file does
    // not refer to.
    method SecondPass(args: seq<Arg>, ghost picks: seq<seq<nat>>) returns (ok: bool)
      requires Valid() && Agree(args, picks, files, liblist) && Known(symtab, files)
      requires toutb == [] && doutb == [] && !errlev
      modifies this`errlev, this`toutb, this`doutb, this`torigin, this`dorigin, this`borigin
      ensures ok <==> forall i | 0 <= i < |files| :: WordsFine(files[i])
      ensures ok ==> Written(|files|, old(There()))
    {
      hide Hashed, Known, NamesIn, WordsFine, Written, Texts, Datas, Files, Lists, Fits, Clashed, Numbers;
      ghost var o, n, left := There(), 0, picks;
      NothingWritten(o);
      AgreeParts(args, picks, files, liblist);
      var libp := 0;
      for j := 0 to |args|
        invariant Valid() && Written(n, o) && n <= |files| && libp <= |liblist|
        invariant Fits(args[j..], left) && Files(args[j..], left) == files[n..] && liblist[libp..] == Lists(left)
      {
        ghost var rest := args[j + 1..];
        assert args[j..] == [args[j]] + rest;
        FirstArg(args[j], rest, left, files, n);
        match args[j] {
          case Undefined(_) =>
          case File(m) =>
            KnownIn(symtab, files, n);
            ok := Visit(m, n, o);
            if !ok { return; }
            n := n + 1;
          case Archive(ms) =>
            ghost var picked := left[0];
            ghost var n0, libp0 := n, libp;
            FirstList(left, liblist, libp);
            while liblist[libp] > 0
              invariant libp0 <= libp <= libp0 + |picked| && n == n0 + (libp - libp0) <= |files|
              invariant Valid() && Written(n, o)
              decreases |liblist| - libp
            {
              KnownIn(symtab, files, n);
              ok := Visit(ms[liblist[libp] - 1], n, o);
              if !ok { return; }
              libp := libp + 1;
              n := n + 1;
            }
            libp := libp + 1;
            left := left[1..];
        }
      }
      ok := true;
      NoArgsLeft(args[|args|..], left);
      AllFine(o, n);
    }

    lemma NothingWritten(o: Bases)
      requires toutb == [] && doutb == [] && !errlev && There() == o
      ensures Written(0, o)
    {
    }

    lemma AllFine(o: Bases, n: nat)
      requires Written(n, o) && n == |files|
      ensures forall i | 0 <= i < |files| :: WordsFine(files[i])
    {
    }

    // main: both passes and middle.
    method Link(args: seq<Arg>, f: Flags) returns (ok: bool)
      requires Valid() && Traced() && calls == [] && files == [] && liblist == []
      requires toutb == [] && doutb == [] && !errlev
      modifies this, hshtab
      ensures ok ==>
        var s := LoadAll(NONE, calls);
        var y := Middle(s.t, s.at, f);
        && Follows(args, calls) && s.files == files && symtab == y.t
        && Written(|files|, y.o) && (forall i | 0 <= i < |files| :: WordsFine(files[i]))
    {
      hide Hashed, LoadAll, Middle, Agree, Follows, Known, WordsFine, Texts, Datas, Clashed, Origins;
      ghost var picks;
      ok, picks := FirstPass(args);
      if !ok { return; }
      MiddleKnown(calls, f);
      MiddlePass(f);
      ok := SecondPass(args, picks);
    }
  }

  lemma OneCall(s: Loads, c: Call)
    ensures LoadAll(s, [c]) == LoadOne(s, c)
  {
    assert [c][1..] == [];
    assert LoadAll(LoadOne(s, c), []) == LoadOne(s, c);
  }

  // ---- the scan of an archive ----

  ghost predicate Scanned(ms: seq<Member>, calls: seq<Call>) {
    forall c | c in calls :: c.Load? && c.lib && c.m in ms
  }

  // The members in libs are different, done, and the files taken since files0.
  ghost predicate Taken(t: Table, ms: seq<Member>, libs: seq<nat>, files0: seq<Member>, files: seq<Member>,
                        calls0: seq<Call>, calls: seq<Call>) {
    && LoadedOnce(t, ms, libs) && Numbers(ms, libs) && files == files0 + Picked(ms, libs)
    && calls0 <= calls && Scanned(ms, calls[|calls0|..])
  }

  lemma NothingTaken(t: Table, ms: seq<Member>, calls: seq<Call>, files: seq<Member>)
    ensures Taken(t, ms, [], files, files, calls, calls)
  {
  }

  lemma TakenParts(t: Table, ms: seq<Member>, libs: seq<nat>, files0: seq<Member>, files: seq<Member>,
                   calls0: seq<Call>, calls: seq<Call>)
    requires Taken(t, ms, libs, files0, files, calls0, calls)
    ensures Numbers(ms, libs) && files == files0 + Picked(ms, libs)
    ensures calls0 <= calls && Scanned(ms, calls[|calls0|..])
    ensures forall i, j | 0 <= i < j < |libs| :: libs[i] != libs[j]
  {
  }

  // What load1 does with member k of an archive.
  lemma MemberScanned(s: Loads, ms: seq<Member>, k: nat, libs: seq<nat>, files0: seq<Member>,
                      calls0: seq<Call>, calls: seq<Call>)
    requires k < |ms| && Taken(s.t, ms, libs, files0, s.files, calls0, calls)
    ensures
      var c := Load(true, ms[k]);
      var u := LoadOne(s, c);
      && Undone(u.t, ms) <= Undone(s.t, ms)
      && (if Takes(s, true, ms[k]) then
            Taken(u.t, ms, libs + [k], files0, u.files, calls0, calls + [c]) && Undone(u.t, ms) < Undone(s.t, ms)
          else
            && Taken(u.t, ms, libs, files0, u.files, calls0, calls + [c])
            && (UselessTo(s.t, ms, k) ==> UselessTo(u.t, ms, k + 1)))
  {
    hide Taken, Undone, UselessTo, Takes, LoadedOnce, Refs, Exts, Scanned;
    var c := Load(true, ms[k]);
    var u := LoadOne(s, c);
    OneExtends(s, c);
    LoadedIn(s.t, ms, libs, files0, s.files, calls0, calls);
    OneScanned(s, true, ms[k]);
    OneMember(s.t, s.t, u.t, ms, libs, s.at, k, Takes(s, true, ms[k]));
    MoreCalls(ms, calls0, calls, c);
    if Takes(s, true, ms[k]) {
      assert Picked(ms, libs + [k]) == Picked(ms, libs) + [ms[k]];
      assert files0 + Picked(ms, libs) + [ms[k]] == files0 + Picked(ms, libs + [k]);
      MakeTaken(u.t, ms, libs + [k], files0, u.files, calls0, calls + [c]);
    } else {
      MakeTaken(u.t, ms, libs, files0, u.files, calls0, calls + [c]);
      if UselessTo(s.t, ms, k) { OneMoreUseless(s.t, u.t, ms, k); }
    }
  }

  lemma LoadedIn(t: Table, ms: seq<Member>, libs: seq<nat>, files0: seq<Member>, files: seq<Member>,
                 calls0: seq<Call>, calls: seq<Call>)
    requires Taken(t, ms, libs, files0, files, calls0, calls)
    ensures LoadedOnce(t, ms, libs) && Numbers(ms, libs) && files == files0 + Picked(ms, libs)
    ensures calls0 <= calls && Scanned(ms, calls[|calls0|..]) && Extends(t, t)
  {
  }

  lemma MakeTaken(t: Table, ms: seq<Member>, libs: seq<nat>, files0: seq<Member>, files: seq<Member>,
                  calls0: seq<Call>, calls: seq<Call>)
    requires LoadedOnce(t, ms, libs) && Numbers(ms, libs) && files == files0 + Picked(ms, libs)
    requires calls0 <= calls && Scanned(ms, calls[|calls0|..])
    ensures Taken(t, ms, libs, files0, files, calls0, calls)
  {
  }

  lemma MoreCalls(ms: seq<Member>, calls0: seq<Call>, calls: seq<Call>, c: Call)
    requires calls0 <= calls && Scanned(ms, calls[|calls0|..]) && c.Load? && c.lib && c.m in ms
    ensures calls0 <= calls + [c] && Scanned(ms, (calls + [c])[|calls0|..])
  {
    assert (calls + [c])[|calls0|..] == calls[|calls0|..] + [c];
  }

  // A file that is taken is done; one that is not is of no use in the table
  // that is left.
  lemma OneScanned(s: Loads, lib: bool, m: Member)
    ensures
      var u := LoadOne(s, Load(lib, m));
      if Takes(s, lib, m) then !m.norel && Done(u.t, m) && (lib ==> Refs(s.t, Exts(m, m.syms, s.at)).1 > 0)
      else SameNames(s.t, u.t) && (!m.norel ==> Useless(u.t, m))
  {
    var cs := Exts(m, m.syms, s.at);
    if Takes(s, lib, m) {
      LoadedSettled(s.t, cs);
      DoneAnywhere(Refs(s.t, cs).0, m, s.at);
    } else if !m.norel {
      RejectedUseless(s.t, cs);
      GrownKeeps(s.t, cs);
      GrownSame(s.t, cs);
      UselessAnywhere(Grown(s.t, cs), m, s.at);
    }
  }

  // ---- middle and load2 ----

  predicate Lacks(c: Sym) { c.kind == Undf && c.value == 0 }

  // The slot of a name points to the symbol with that name.
  lemma NotSpecial(tab: seq<nat>, t: Table, i: nat, et: nat, ed: nat, en: nat)
    requires Hashed(tab, t) && i < |t|
    requires Points(t, "_etext", et) && Points(t, "_edata", ed) && Points(t, "_end", en)
    ensures i + 1 != en && i + 1 != ed && i + 1 != et <==> t[i].name !in SPECIAL
  {
    PlaceOf(tab, t, i, "_etext");
    PlaceOf(tab, t, i, "_edata");
    PlaceOf(tab, t, i, "_end");
    hide Hashed, Find;
  }

  predicate Points(t: Table, name: string, p: nat) {
    p == if Find(t, name) < |t| then Find(t, name) + 1 else 0
  }

  lemma PlaceOf(tab: seq<nat>, t: Table, i: nat, name: string)
    requires Hashed(tab, t) && i < |t|
    ensures Find(t, name) == i <==> t[i].name == name
  {
  }

  // The undefined external ones of the first n symbols, with their numbers
  // and places in the table.
  ghost predicate Numbered(local: seq<(nat, nat)>, t: Table, m: Member, n: nat) {
    && n <= |m.syms|
    && (forall e | e in local :: Refers(m, e.0) && e.1 == Find(t, m.syms[e.0].name) && e.1 < |t|)
    && (forall q | 0 <= q < n && Refers(m, q) :: exists e :: e in local && e.0 == q)
  }

  lemma NoneNumbered(t: Table, m: Member)
    ensures Numbered([], t, m, 0)
  {
  }

  lemma SameNumbered(local: seq<(nat, nat)>, t: Table, m: Member, n: nat)
    requires Numbered(local, t, m, n) && n < |m.syms| && !Refers(m, n)
    ensures Numbered(local, t, m, n + 1)
  {
  }

  lemma NotNumbered(local: seq<(nat, nat)>, t: Table, m: Member, sn: nat)
    requires Numbered(local, t, m, |m.syms|) && forall j | 0 <= j < |local| :: local[j].0 != sn
    ensures !Refers(m, sn)
  {
  }

  lemma NumberedMore(local: seq<(nat, nat)>, t: Table, m: Member, n: nat, i: nat)
    requires Numbered(local, t, m, n) && Refers(m, n) && i == Find(t, m.syms[n].name) && i < |t|
    ensures Numbered(local + [(n, i)], t, m, n + 1)
  {
    var local1 := local + [(n, i)];
    forall q | 0 <= q < n + 1 && Refers(m, q) ensures exists e :: e in local1 && e.0 == q {
      if q < n {
        var e :| e in local && e.0 == q;
        assert e in local1;
      } else {
        assert (n, i) in local1;
      }
    }
  }

  // One of the first n symbols is a definition that differs from the table:
  // "Multiply defined".
  ghost predicate Clashes(t: Table, m: Member, at: Bases, n: nat) {
    exists q :: 0 <= q < n && q < |m.syms| && Clash(t, m, at, q)
  }

  lemma ClashesMore(t: Table, m: Member, at: Bases, n: nat)
    requires n < |m.syms|
    ensures Clashes(t, m, at, n + 1) <==> Clashes(t, m, at, n) || Clash(t, m, at, n)
  {
    if Clash(t, m, at, n) { assert Clashes(t, m, at, n + 1); }
    if Clashes(t, m, at, n) {
      var q :| 0 <= q < n && q < |m.syms| && Clash(t, m, at, q);
      assert Clashes(t, m, at, n + 1);
    }
  }

  predicate Clash(t: Table, m: Member, at: Bases, q: nat)
    requires q < |m.syms|
  {
    var c := m.syms[q];
    var i := Find(t, c.name);
    c.ext && c.kind != Undf && i < |t| && !SameSym(t[i], Relocated(m, c, at))
  }

  predicate WordsOk(m: Member, ws: seq<RWord>) {
    forall w | w in ws :: WordOk(m, w)
  }

  function OutWords(t: Table, m: Member, at: Bases, shift: int, ws: seq<RWord>): (r: seq<word>)
    requires WordsOk(m, ws)
    ensures |r| == |ws| && forall i | 0 <= i < |ws| :: r[i] == OutWord(t, m, at, shift, ws[i])
  {
    seq(|ws|, i requires 0 <= i < |ws| => OutWord(t, m, at, shift, ws[i]))
  }

  lemma OutWordsMore(t: Table, m: Member, at: Bases, shift: int, ws: seq<RWord>, i: nat)
    requires i < |ws| && WordsOk(m, ws[..i]) && WordOk(m, ws[i])
    ensures WordsOk(m, ws[..i + 1])
    ensures OutWords(t, m, at, shift, ws[..i + 1]) ==
      OutWords(t, m, at, shift, ws[..i]) + [OutWord(t, m, at, shift, ws[i])]
  {
    assert ws[..i + 1] == ws[..i] + [ws[i]];
  }

  // What load2 writes for a file that comes to be at `at`.
  function TextOf(t: Table, m: Member, at: Bases): seq<word>
    requires WordsOk(m, m.twords)
  {
    OutWords(t, m, at, at.t, m.twords)
  }

  function DataOf(t: Table, m: Member, at: Bases): seq<word>
    requires WordsOk(m, m.dwords)
  {
    OutWords(t, m, at, at.d - Even(m.text), m.dwords)
  }

  // ---- the command line ----

  // Which members the archives of the command line give, and the files that
  // are loaded then.
  ghost predicate Fits(args: seq<Arg>, picks: seq<seq<nat>>) {
    if args == [] then picks == []
    else
      match args[0]
      case Archive(ms) => picks != [] && Numbers(ms, picks[0]) && Fits(args[1..], picks[1..])
      case _ => Fits(args[1..], picks)
  }

  ghost function Files(args: seq<Arg>, picks: seq<seq<nat>>): seq<Member>
    requires Fits(args, picks)
  {
    if args == [] then []
    else
      match args[0]
      case Undefined(_) => Files(args[1..], picks)
      case File(m) => [m] + Files(args[1..], picks)
      case Archive(ms) => Picked(ms, picks[0]) + Files(args[1..], picks[1..])
  }

  // liblist for them
  ghost function Lists(picks: seq<seq<nat>>): seq<nat> {
    if picks == [] then [] else Offsets(picks[0]) + [0] + Lists(picks[1..])
  }

  ghost predicate Agree(args: seq<Arg>, picks: seq<seq<nat>>, files: seq<Member>, list: seq<nat>) {
    Fits(args, picks) && files == Files(args, picks) && list == Lists(picks)
  }

  lemma AgreeParts(args: seq<Arg>, picks: seq<seq<nat>>, files: seq<Member>, list: seq<nat>)
    requires Agree(args, picks, files, list)
    ensures Fits(args[0..], picks) && files[0..] == Files(args[0..], picks) && list[0..] == Lists(picks)
  {
    assert args[0..] == args && files[0..] == files && list[0..] == list;
  }

  // The calls of load1 for the arguments: an archive is scanned until no
  // member is of use.
  ghost predicate Follows(args: seq<Arg>, calls: seq<Call>) {
    if args == [] then calls == []
    else
      var n := |args| - 1;
      exists i | 0 <= i <= |calls| ::
        Follows(args[..n], calls[..i]) && Does(args[n], LoadAll(NONE, calls).t, calls[i..])
  }

  ghost predicate Does(x: Arg, t: Table, calls: seq<Call>) {
    match x
    case Undefined(name) => calls == [Ask(name)]
    case File(m) => calls == [Load(false, m)] && !m.norel
    case Archive(ms) => Scanned(ms, calls) && UselessTo(t, ms, |ms|)
  }

  lemma NoArgs()
    ensures Agree([], [], [], []) && Follows([], [])
  {
  }

  lemma FollowsMore(args: seq<Arg>, x: Arg, calls: seq<Call>, more: seq<Call>)
    requires Follows(args, calls) && Does(x, LoadAll(NONE, calls + more).t, more)
    ensures Follows(args + [x], calls + more)
  {
    var a, c := args + [x], calls + more;
    assert a[..|a| - 1] == args && a[|a| - 1] == x;
    assert c[..|calls|] == calls && c[|calls|..] == more;
  }

  lemma {:induction false} FitsMore(args: seq<Arg>, picks: seq<seq<nat>>, x: Arg, libs: seq<nat>)
    requires Fits(args, picks) && (x.Archive? ==> Numbers(x.ms, libs))
    ensures
      var more := if x.Archive? then picks + [libs] else picks;
      && Fits(args + [x], more)
      && Files(args + [x], more) == Files(args, picks) +
           if x.Archive? then Picked(x.ms, libs) else if x.File? then [x.m] else []
    decreases |args|
  {
    hide *;
    var more := if x.Archive? then picks + [libs] else picks;
    if args == [] {
      FitsNone(picks);
      FitsNone(if x.Archive? then more[1..] else more);
      assert args + [x] == [x] + [];
      FitsTurn(x, [], more);
    } else {
      var first, rest := args[0], args[1..];
      assert args == [first] + rest && args + [x] == [first] + (rest + [x]);
      FitsTurn(first, rest, picks);
      FitsTurn(first, rest + [x], more);
      if first.Archive? {
        assert x.Archive? ==> more[1..] == picks[1..] + [libs];
        FitsMore(rest, picks[1..], x, libs);
      } else {
        FitsMore(rest, picks, x, libs);
      }
    }
  }

  lemma FitsNone(picks: seq<seq<nat>>)
    ensures Fits([], picks) <==> picks == []
    ensures Fits([], picks) ==> Files([], picks) == []
  {
  }

  // The first argument takes its part of the picks.
  lemma FitsTurn(x: Arg, rest: seq<Arg>, picks: seq<seq<nat>>)
    ensures Fits([x] + rest, picks) <==>
      if x.Archive? then picks != [] && Numbers(x.ms, picks[0]) && Fits(rest, picks[1..]) else Fits(rest, picks)
    ensures Fits([x] + rest, picks) ==>
      Files([x] + rest, picks) ==
        if x.Archive? then Picked(x.ms, picks[0]) + Files(rest, picks[1..])
        else if x.File? then [x.m] + Files(rest, picks)
        else Files(rest, picks)
  {
    assert ([x] + rest)[1..] == rest;
  }

  lemma {:induction false} ListsMore(picks: seq<seq<nat>>, libs: seq<nat>)
    ensures Lists(picks + [libs]) == Lists(picks) + Offsets(libs) + [0]
  {
    if picks == [] {
      assert [libs][1..] == [];
    } else {
      assert (picks + [libs])[1..] == picks[1..] + [libs];
      ListsMore(picks[1..], libs);
    }
  }

  lemma FilesAfter(s: Loads, m: Member)
    requires Takes(s, false, m)
    ensures LoadOne(s, Load(false, m)).files == s.files + [m] && !m.norel
  {
  }

  lemma ArgAsked(args: seq<Arg>, picks: seq<seq<nat>>, files: seq<Member>, list: seq<nat>, name: string,
                 calls: seq<Call>)
    requires Agree(args, picks, files, list) && Follows(args, calls)
    ensures Agree(args + [Undefined(name)], picks, files, list) &&
      Follows(args + [Undefined(name)], calls + [Ask(name)])
  {
    FitsMore(args, picks, Undefined(name), []);
    FollowsMore(args, Undefined(name), calls, [Ask(name)]);
  }

  lemma ArgFile(args: seq<Arg>, picks: seq<seq<nat>>, files: seq<Member>, list: seq<nat>, m: Member, calls: seq<Call>)
    requires Agree(args, picks, files, list) && Follows(args, calls) && !m.norel
    ensures Agree(args + [File(m)], picks, files + [m], list) && Follows(args + [File(m)], calls + [Load(false, m)])
  {
    FitsMore(args, picks, File(m), []);
    FollowsMore(args, File(m), calls, [Load(false, m)]);
  }

  lemma ArgArchive(args: seq<Arg>, picks: seq<seq<nat>>, files: seq<Member>, list: seq<nat>, ms: seq<Member>,
                   libs: seq<nat>, calls: seq<Call>, all: seq<Call>, t: Table)
    requires Agree(args, picks, files, list) && Follows(args, calls) && Numbers(ms, libs) && calls <= all
    requires Scanned(ms, all[|calls|..]) && t == LoadAll(NONE, all).t && UselessTo(t, ms, |ms|)
    ensures Agree(args + [Archive(ms)], picks + [libs], files + Picked(ms, libs), list + Offsets(libs) + [0])
    ensures Follows(args + [Archive(ms)], all)
  {
    hide Fits, Files, Lists, Follows, Scanned, UselessTo, LoadAll;
    FitsMore(args, picks, Archive(ms), libs);
    ListsMore(picks, libs);
    assert all == calls + all[|calls|..];
    FollowsMore(args, Archive(ms), calls, all[|calls|..]);
  }

  // ---- the second pass ----

  predicate WordsFine(m: Member) { WordsOk(m, m.twords) && WordsOk(m, m.dwords) }

  ghost function Texts(t: Table, ms: seq<Member>, k: nat, o: Bases): seq<word>
    requires k <= |ms| && forall i | 0 <= i < k :: WordsFine(ms[i])
  {
    if k == 0 then []
    else
      assert WordsFine(ms[k - 1]);
      Texts(t, ms, k - 1, o) + TextOf(t, ms[k - 1], Origins(ms, k - 1, o))
  }

  ghost function Datas(t: Table, ms: seq<Member>, k: nat, o: Bases): seq<word>
    requires k <= |ms| && forall i | 0 <= i < k :: WordsFine(ms[i])
  {
    if k == 0 then []
    else
      assert WordsFine(ms[k - 1]);
      Datas(t, ms, k - 1, o) + DataOf(t, ms[k - 1], Origins(ms, k - 1, o))
  }

  // Some definition in the first k files is not what the table has.
  ghost predicate Clashed(t: Table, ms: seq<Member>, k: nat, o: Bases)
    requires k <= |ms|
  {
    exists i :: 0 <= i < k && Clashes(t, ms[i], Origins(ms, i, o), |ms[i].syms|)
  }

  lemma ClashedMore(t: Table, ms: seq<Member>, n: nat, o: Bases)
    requires n < |ms|
    ensures Clashed(t, ms, n + 1, o) <==> Clashed(t, ms, n, o) || Clashes(t, ms[n], Origins(ms, n, o), |ms[n].syms|)
  {
    hide Clashes, Origins;
    if Clashes(t, ms[n], Origins(ms, n, o), |ms[n].syms|) { assert Clashed(t, ms, n + 1, o); }
    if Clashed(t, ms, n, o) {
      var i :| 0 <= i < n && Clashes(t, ms[i], Origins(ms, i, o), |ms[i].syms|);
      assert Clashed(t, ms, n + 1, o);
    }
  }

  // The call that has taken file k.
  lemma {:induction false} FileCall(calls: seq<Call>, k: nat) returns (n: nat)
    requires k < |LoadAll(NONE, calls).files|
    ensures n < |calls| && calls[n].Load? && calls[n].m == LoadAll(NONE, calls).files[k]
    ensures Takes(LoadAll(NONE, calls[..n]), calls[n].lib, calls[n].m) && |LoadAll(NONE, calls[..n]).files| == k
    decreases |calls|
  {
    n := |calls| - 1;
    var a, c := calls[..n], calls[n];
    assert calls == a + [c];
    LoadConcat(NONE, a, [c]);
    OneCall(LoadAll(NONE, a), c);
    if k < |LoadAll(NONE, a).files| {
      n := FileCall(a, k);
      assert a[..n] == calls[..n];
    }
  }

  // Where each name has one definition "Multiply defined" is reported if and
  // only if load1 has refused one in favour of a common block.
  lemma ClashedIff(calls: seq<Call>, f: Flags)
    requires
      var files := LoadAll(NONE, calls).files;
      forall k, p | 0 <= k < |files| && 0 <= p < |files[k].syms| && DefinedBy(files, k, p, files[k].syms[p].name) ::
        DefinedOnce(files, k, p)
    ensures
      var s := LoadAll(NONE, calls);
      var y := Middle(s.t, s.at, f);
      Clashed(y.t, s.files, |s.files|, y.o) <==>
        exists n: nat, p: nat :: RefusedAt(calls, n, p)
  {
    var s := LoadAll(NONE, calls);
    var y := Middle(s.t, s.at, f);
    hide LoadAll, Middle, Origins, DefinedOnce, RefusedAt;
    if Clashed(y.t, s.files, |s.files|, y.o) {
      var k: nat :| 0 <= k < |s.files| && Clashes(y.t, s.files[k], Origins(s.files, k, y.o), |s.files[k].syms|);
      var p: nat :| 0 <= p < |s.files[k].syms| && Clash(y.t, s.files[k], Origins(s.files, k, y.o), p);
      hide Clash, Clashes, Clashed, DefinedBy;
      ClashRefused(calls, f, k, p);
    }
    if n: nat, p: nat :| RefusedAt(calls, n, p) { RefusedClash(calls, f, n, p); }
  }

  // Call n loads a file whose symbol p is refused, and is the only definition
  // of its name.
  ghost predicate RefusedAt(calls: seq<Call>, n: nat, p: nat) {
    DefinesAt(calls, n, p) && Refuses(Meets(calls, n, p), calls[n].m.syms[p])
  }

  lemma ClashRefused(calls: seq<Call>, f: Flags, k: nat, p: nat)
    requires k < |LoadAll(NONE, calls).files| && p < |LoadAll(NONE, calls).files[k].syms|
    requires
      var s := LoadAll(NONE, calls);
      var y := Middle(s.t, s.at, f);
      Clash(y.t, s.files[k], Origins(s.files, k, y.o), p)
    requires
      var files := LoadAll(NONE, calls).files;
      DefinedBy(files, k, p, files[k].syms[p].name) ==> DefinedOnce(files, k, p)
    ensures exists n: nat :: RefusedAt(calls, n, p)
  {
    var n := FileCall(calls, k);
    hide LoadAll, Middle, Takes, DefinedOnce, Origins, Meets, Refuses, Find;
    assert DefinesAt(calls, n, p);
    DefinitionPlaced(calls, n, p, f);
    assert RefusedAt(calls, n, p);
  }

  lemma RefusedClash(calls: seq<Call>, f: Flags, n: nat, p: nat)
    requires RefusedAt(calls, n, p)
    ensures
      var s := LoadAll(NONE, calls);
      var y := Middle(s.t, s.at, f);
      Clashed(y.t, s.files, |s.files|, y.o)
  {
    DefinitionPlaced(calls, n, p, f);
    hide LoadAll, Middle, Takes, DefinedOnce, Origins, Meets, Refuses, Find;
    var s := LoadAll(NONE, calls);
    var y := Middle(s.t, s.at, f);
    var k := |LoadAll(NONE, calls[..n]).files|;
    assert Clash(y.t, s.files[k], Origins(s.files, k, y.o), p);
    assert Clashes(y.t, s.files[k], Origins(s.files, k, y.o), |s.files[k].syms|);
  }

  lemma KnownIn(t: Table, files: seq<Member>, n: nat)
    requires Known(t, files) && n < |files|
    ensures NamesIn(t, files[n])
  {
  }

  // The first argument and the files it stands for.
  lemma FirstArg(x: Arg, rest: seq<Arg>, left: seq<seq<nat>>, files: seq<Member>, n: nat)
    requires Fits([x] + rest, left) && n <= |files| && Files([x] + rest, left) == files[n..]
    ensures x.Undefined? ==> Fits(rest, left) && Files(rest, left) == files[n..]
    ensures x.File? ==> Fits(rest, left) && n < |files| && files[n] == x.m && Files(rest, left) == files[n + 1..]
    ensures x.Archive? ==>
      && left != [] && Numbers(x.ms, left[0]) && Fits(rest, left[1..]) && n + |left[0]| <= |files|
      && Files(rest, left[1..]) == files[n + |left[0]|..]
      && forall i | 0 <= i < |left[0]| :: left[0][i] < |x.ms| && files[n + i] == x.ms[left[0][i]]
  {
    assert ([x] + rest)[1..] == rest;
    match x
    case Undefined(_) =>
    case File(m) =>
      assert files[n..][0] == m && files[n..][1..] == files[n + 1..];
    case Archive(ms) =>
      var p, r := Picked(ms, left[0]), Files(rest, left[1..]);
      assert files[n..] == p + r;
      assert files[n..][|p|..] == files[n + |p|..];
      forall i | 0 <= i < |p| ensures files[n + i] == ms[left[0][i]] { assert files[n..][i] == p[i]; }
  }

  // liblist begins with the members of the first archive and a 0.
  lemma FirstList(left: seq<seq<nat>>, list: seq<nat>, at: nat)
    requires left != [] && at <= |list| && list[at..] == Lists(left)
    ensures at + |left[0]| < |list| && list[at + |left[0]|] == 0
    ensures forall i | at <= i < at + |left[0]| :: list[i] == left[0][i - at] + 1
    ensures list[at + |left[0]| + 1..] == Lists(left[1..])
  {
    var a, r := Offsets(left[0]), Lists(left[1..]);
    assert list[at..] == a + [0] + r;
    assert list[at..][|a|] == 0;
    forall i | at <= i < at + |left[0]| ensures list[i] == left[0][i - at] + 1 {
      assert list[at..][i - at] == a[i - at];
    }
    assert list[at..][|a| + 1..] == r;
    assert list[at..][|a| + 1..] == list[at + |a| + 1..];
  }

  lemma NoArgsLeft(args: seq<Arg>, left: seq<seq<nat>>)
    requires args == [] && Fits(args, left)
    ensures Files(args, left) == []
  {
  }

  lemma FindRef(t: Table, c: Sym)
    ensures Find(t, c.name) <= |t|
    ensures Find(t, c.name) == |t| ==> Ref(t, c) == (t + [c], 0)
  {
  }

  lemma ProbeOn(tab: seq<nat>, t: Table, name: string, d: nat, z: nat)
    requires Hashed(tab, t) && Probed(tab, t, name, d) && d <= z < NSLOTS && tab[Slot(name, z)] == 0
    requires tab[Slot(name, d)] != 0 && t[tab[Slot(name, d)] - 1].name != name
    ensures d < z && Probed(tab, t, name, d + 1)
    ensures Slot(name, d + 1) == if Slot(name, d) + 1 >= NSLOTS then 0 else Slot(name, d) + 1
  {
    NextSlot(Start(name), d);
    BoundOf(tab, t, Slot(name, d));
    hide Hashed, Start;
  }

  lemma BoundOf(tab: seq<nat>, t: Table, h: nat)
    requires Hashed(tab, t) && h < NSLOTS
    ensures tab[h] <= |t|
  {
  }

  lemma NextSlot(a: nat, d: nat)
    ensures (a + (d + 1)) % NSLOTS == if (a + d) % NSLOTS + 1 >= NSLOTS then 0 else (a + d) % NSLOTS + 1
  {
  }

  lemma SelfSame(t: Table)
    ensures SameNames(t, t)
  {
  }

  // Without a definition, the table without its new entries is as before but
  // for the sizes of common blocks.
  lemma Rejected(t: Table, cs: seq<Sym>)
    requires Refs(t, cs).1 == 0
    ensures |Refs(t, cs).0| >= |t| && Refs(t, cs).0[..|t|] == Grown(t, cs) && SameNames(t, Grown(t, cs))
    ensures forall i | 0 <= i < |t| :: Grown(t, cs)[i].name == t[i].name
  {
    RejectRestores(t, t, cs);
    GrownKeeps(t, cs);
    GrownSame(t, cs);
  }

  // ---- the stack of slots ----

  // The slots on the stack were empty before, and no other has changed.
  ghost predicate Filled(was: seq<nat>, now: seq<nat>, added: seq<nat>) {
    && |now| == |was|
    && (forall h | h in added :: h < |was| && was[h] == 0)
    && (forall h | 0 <= h < |was| && h !in added :: now[h] == was[h])
  }

  lemma FilledNone(tab: seq<nat>)
    ensures Filled(tab, tab, [])
  {
  }

  lemma FilledMore(was: seq<nat>, now: seq<nat>, added: seq<nat>, h: nat, x: nat)
    requires Filled(was, now, added) && h < |now| && now[h] == 0
    ensures Filled(was, now[h := x], added + [h])
  {
  }

  lemma FilledLess(was: seq<nat>, now: seq<nat>, added: seq<nat>)
    requires Filled(was, now, added) && added != []
    ensures var n := |added| - 1; added[n] < |now| && Filled(was, now[added[n] := 0], added[..n])
  {
    var n := |added| - 1;
    assert added == added[..n] + [added[n]];
    assert added[n] in added;
  }

  // ---- turns of the loop ----

  lemma ExtsTurn(m: Member, syms: seq<Sym>, n: nat, at: Bases)
    requires n < |syms|
    ensures
      var rest := Exts(m, syms[n + 1..], at);
      Exts(m, syms[n..], at) == if syms[n].ext then [Relocated(m, syms[n], at)] + rest else rest
  {
    assert syms[n..][1..] == syms[n + 1..];
  }

  lemma RefsTurn(t: Table, c: Sym, rest: seq<Sym>)
    ensures var r, s := Ref(t, c), Refs(Ref(t, c).0, rest); Refs(t, [c] + rest) == (s.0, r.1 + s.1)
    ensures |Ref(t, c).0| <= |Refs(t, [c] + rest).0|
  {
    assert ([c] + rest)[1..] == rest;
    RefsExtend(Ref(t, c).0, rest);
  }

  lemma RefsNone(m: Member, t: Table, syms: seq<Sym>, at: Bases)
    requires syms == []
    ensures Refs(t, Exts(m, syms, at)) == (t, 0)
  {
  }
}
