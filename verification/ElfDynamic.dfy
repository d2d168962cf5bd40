/**
 The coupled dynamic tables of an ELF output: the string table, the symbol
 table, the PLT/GOT slots and the relocations, with the memo of imports in front.

 The tables are arrays of bytes and records with a fill counter each, as the D[]
 entries are; the counters and the ghost lists below say what they contain.
 */
module ElfDynamicSpec {
  import opened Machine
  import opened LittleEndian
  import opened SymbolSpec

  const SLOT: nat := 0x10
  const CAPACITY: nat := 0x3000   // entries of each table, and bytes of .dynstr

  datatype Sym = Sym(st_name: nat, st_shndx: nat, st_value: nat)
  datatype Rela = Rela(r_offset: int, r_info: nat, r_addend: int)

  /** jmp *2(%rip): the six bytes of every slot. */
  const STUB: seq<uint8> := [0xff, 0x25, 0x02, 0x00, 0x00, 0x00]

  /** The address an indirect jump with a 32-bit displacement reads, for a stub placed at r. */
  function JumpTarget(stub: seq<uint8>, r: nat): nat
    requires |stub| == 6
  {
    r + 6 + LeAt(stub, 2, 4)
  }

  lemma {:induction false} StubJumpsThroughItsSlot(r: nat)
    ensures STUB[0] == 0xff && STUB[1] == 0x25 && JumpTarget(STUB, r) == r + 8
  {
  }

  // ---------- what a run of requests does ----------

  datatype Request = Request(name: Name, check: bool)

  /** The slot a request is answered with. */
  function Answer(slots: seq<Name>, q: Request): nat {
    if q.check && IndexOf(slots, q.name) < |slots| then IndexOf(slots, q.name) else |slots|
  }

  /** The slots after it. */
  function Next(slots: seq<Name>, q: Request): (r: seq<Name>)
    ensures Answer(slots, q) < |r| && r[Answer(slots, q)] == q.name
    ensures slots <= r
  {
    if Answer(slots, q) < |slots| then slots else slots + [q.name]
  }

  function Slots(reqs: seq<Request>): seq<Name> {
    if reqs == [] then [] else Next(Slots(reqs[..|reqs| - 1]), reqs[|reqs| - 1])
  }

  /** The answer to request i of a run. */
  function AnswerOf(reqs: seq<Request>, i: nat): nat
    requires i < |reqs|
  {
    Answer(Slots(reqs[..i]), reqs[i])
  }

  lemma {:induction false} SlotsGrow(reqs: seq<Request>, i: nat)
    requires i <= |reqs|
    ensures Slots(reqs[..i]) <= Slots(reqs)
  {
    if i < |reqs| {
      assert reqs[..|reqs| - 1][..i] == reqs[..i];
      SlotsGrow(reqs[..|reqs| - 1], i);
    } else {
      assert reqs[..i] == reqs;
    }
  }

  lemma {:induction false} SlotsStep(reqs: seq<Request>, i: nat)
    requires i < |reqs|
    ensures Slots(reqs[..i + 1]) == Next(Slots(reqs[..i]), reqs[i])
    ensures reqs[i] == Request(reqs[i].name, reqs[i].check)
  {
    assert reqs[..i + 1][..i] == reqs[..i];
  }

  /** The first slot of a name never moves once the name has one. */
  lemma {:induction false} IndexOfStays(slots: seq<Name>, more: seq<Name>, name: Name)
    requires slots <= more && IndexOf(slots, name) < |slots|
    ensures IndexOf(more, name) == IndexOf(slots, name)
  {
    var k := IndexOf(slots, name);
    assert more[k] == slots[k] == name;
    forall n | 0 <= n < k ensures more[n] != name {
      assert slots[n] == more[n];
    }
  }

  /**
   In any run, a checked request that follows a request for the same name gets the
   first slot of the name; and requests for different names never share a slot.
   */
  lemma {:induction false} AnswersFollowNames(reqs: seq<Request>, i: nat, j: nat)
    requires i < j < |reqs|
    ensures AnswerOf(reqs, i) == AnswerOf(reqs, j) ==> reqs[i].name == reqs[j].name
    ensures reqs[i].name == reqs[j].name && reqs[i].check && reqs[j].check ==> AnswerOf(reqs, i) == AnswerOf(reqs, j)
  {
    var before, between := Slots(reqs[..i]), Slots(reqs[..j]);
    assert reqs[..i + 1][..i] == reqs[..i] && reqs[..j][..i + 1] == reqs[..i + 1];
    SlotsGrow(reqs[..j], i + 1);
    var after := Slots(reqs[..i + 1]);
    assert after == Next(before, reqs[i]);
    assert between[AnswerOf(reqs, i)] == reqs[i].name;
    if AnswerOf(reqs, i) == AnswerOf(reqs, j) {
      assert Next(between, reqs[j])[AnswerOf(reqs, j)] == reqs[j].name;
    }
    if reqs[i].name == reqs[j].name && reqs[i].check && reqs[j].check {
      var name := reqs[i].name;
      assert IndexOf(after, name) == AnswerOf(reqs, i) by {
        if IndexOf(before, name) < |before| {
          IndexOfStays(before, after, name);
        } else {
          assert forall k :: 0 <= k < |before| ==> before[k] != name && after[k] == before[k];
        }
      }
      IndexOfStays(after, between, name);
    }
  }

  /** With every request checked, no two slots carry the same name. */
  lemma {:induction false} CheckedSlotsDistinct(reqs: seq<Request>)
    requires forall q :: q in reqs ==> q.check
    ensures forall a, b :: 0 <= a < b < |Slots(reqs)| ==> Slots(reqs)[a] != Slots(reqs)[b]
  {
    if reqs != [] {
      CheckedSlotsDistinct(reqs[..|reqs| - 1]);
      assert reqs[|reqs| - 1] in reqs;
    }
  }

  /** The memo holds the address of every slot under its name. */
  function Memo(slots: seq<Name>, plt: nat): (log: seq<Import>)
    ensures |log| == |slots|
  {
    seq(|slots|, k requires 0 <= k < |slots| => Import(slots[k], plt + SLOT * k))
  }

  lemma {:induction false} MemoFindsIndexOf(slots: seq<Name>, plt: nat, name: Name)
    requires plt > 0
    ensures FirstValue(Memo(slots, plt), name)
            == if IndexOf(slots, name) < |slots| then plt + SLOT * IndexOf(slots, name) else 0
  {
    if slots != [] {
      assert Memo(slots, plt)[1..] == Memo(slots[1..], plt + SLOT);
      MemoFindsIndexOf(slots[1..], plt + SLOT, name);
    }
  }

  // ---------- what the tables hold ----------

  /** Symbol j names symNames[j] through .dynstr; everything from the fill mark on is still zero. */
  ghost predicate StringsOk(dynstr: seq<uint8>, size: nat, dynsym: seq<Sym>, symNames: seq<Name>) {
    && size <= |dynstr| && |symNames| <= |dynsym|
    && (forall j :: 0 <= j < |symNames| ==> NamedBy(dynstr, size, dynsym[j], symNames[j]))
    && (forall i :: size <= i < |dynstr| ==> dynstr[i] == 0)
  }

  ghost predicate NamedBy(dynstr: seq<uint8>, size: nat, sym: Sym, name: Name) {
    sym.st_name + |name| < size <= |dynstr| && CString(dynstr, sym.st_name) == name
  }

  /** Every slot begins with its stub; all other bytes are still zero. */
  ghost predicate StubsOk(got: seq<uint8>, n: nat) {
    && SLOT * n <= |got| && (forall k :: 0 <= k < n ==> StubAt(got, k))
    && (forall i :: SLOT * n <= i < |got| ==> got[i] == 0)
  }

  ghost predicate StubAt(got: seq<uint8>, k: nat) {
    SLOT * k + SLOT <= |got| && got[SLOT * k..SLOT * k + SLOT] == STUB + Zeros(10)
  }

  /** The word a slot jumps through, relative to the image base. */
  function SlotWord(plt: nat, base: nat, k: nat): int {
    plt + SLOT * k + 8 - base
  }

  /** The relocation of slot k against symbol j. */
  function SlotRela(plt: nat, base: nat, k: nat, j: nat, kind: nat): Rela {
    Rela(SlotWord(plt, base, k), 0x1_0000_0000 * j + kind, 0 - base)
  }

  /** Relocation x fills the word of slot k with the symbol of that name. */
  ghost predicate Fills(x: Rela, plt: nat, base: nat, k: nat, name: Name, symNames: seq<Name>) {
    && x.r_offset == SlotWord(plt, base, k)
    && x.r_info / 0x1_0000_0000 < |symNames| && symNames[x.r_info / 0x1_0000_0000] == name
  }

  /** Every slot has its relocation, and no other relocation touches the word of any slot, used or not. */
  ghost predicate RelocsOk(
    relas: seq<Rela>, slots: seq<Name>, relaOf: seq<nat>, symNames: seq<Name>, plt: nat, base: nat)
  {
    && |relaOf| == |slots|
    && (forall k :: 0 <= k < |slots| ==>
          relaOf[k] < |relas| && Fills(relas[relaOf[k]], plt, base, k, slots[k], symNames))
    && (forall i, k: nat :: 0 <= i < |relas| && k < CAPACITY && relas[i].r_offset == SlotWord(plt, base, k)
          ==> k < |slots| && relaOf[k] == i)
  }

  /** The string table with a string at the fill mark; the terminator is the zero the buffer came with. */
  function WithString(dynstr: seq<uint8>, size: nat, s: Name): (r: seq<uint8>)
    requires size + |s| < |dynstr|
    ensures |r| == |dynstr|
  {
    dynstr[..size] + s + dynstr[size + |s|..]
  }

  /** One byte more of the copy. */
  lemma {:induction false} ByteCopied(was: seq<uint8>, now: seq<uint8>, r: nat, s: Name, i: nat)
    requires i < |s| && r + |s| < |was|
    requires now == (was[..r] + s[..i] + was[r + i..])[r + i := s[i]]
    ensures now == was[..r] + s[..i + 1] + was[r + i + 1..]
  {
    assert s[..i + 1] == s[..i] + [s[i]];
  }

  /** The names of the symbols stay. */
  lemma {:induction false} TextAppended(dynstr: seq<uint8>, size: nat, dynsym: seq<Sym>, symNames: seq<Name>, s: Name)
    requires StringsOk(dynstr, size, dynsym, symNames) && size + |s| < |dynstr|
    ensures StringsOk(WithString(dynstr, size, s), size + |s| + 1, dynsym, symNames)
  {
    var r := WithString(dynstr, size, s);
    forall j | 0 <= j < |symNames| ensures NamedBy(r, size + |s| + 1, dynsym[j], symNames[j]) {
      assert NamedBy(dynstr, size, dynsym[j], symNames[j]);
      var o, n := dynsym[j].st_name, |symNames[j]|;
      assert r[o..o + n + 1] == dynstr[o..o + n + 1];
      SameString(dynstr, r, o);
    }
  }

  lemma {:induction false} StringAppended(
    dynstr: seq<uint8>, size: nat, dynsym: seq<Sym>, symNames: seq<Name>, s: Name, sym: Sym)
    requires StringsOk(dynstr, size, dynsym, symNames) && IsName(s) && size + |s| < |dynstr|
    requires |symNames| < |dynsym| && sym.st_name == size
    ensures StringsOk(WithString(dynstr, size, s), size + |s| + 1, dynsym[|symNames| := sym], symNames + [s])
  {
    TextAppended(dynstr, size, dynsym, symNames, s);
    var r, syms, names := WithString(dynstr, size, s), dynsym[|symNames| := sym], symNames + [s];
    WrittenReadsBack(r, size, s);
    forall j | 0 <= j < |names| ensures NamedBy(r, size + |s| + 1, syms[j], names[j]) {
      assert j < |symNames| ==> NamedBy(r, size + |s| + 1, dynsym[j], symNames[j]);
    }
  }

  lemma {:induction false} StubAppended(got: seq<uint8>, n: nat)
    requires StubsOk(got, n) && SLOT * (n + 1) <= |got|
    ensures StubsOk(got[..SLOT * n] + STUB + got[SLOT * n + 6..], n + 1)
  {
    var r := got[..SLOT * n] + STUB + got[SLOT * n + 6..];
    forall k | 0 <= k < n + 1 ensures StubAt(r, k) {
      if k < n {
        assert StubAt(got, k);
        assert r[SLOT * k..SLOT * k + SLOT] == got[SLOT * k..SLOT * k + SLOT];
      }
    }
  }

  lemma {:induction false} SlotRelocAppended(
    relas: seq<Rela>, slots: seq<Name>, relaOf: seq<nat>, symNames: seq<Name>, plt: nat, base: nat, s: Name, x: Rela)
    requires RelocsOk(relas, slots, relaOf, symNames, plt, base) && |slots| < CAPACITY
    requires Fills(x, plt, base, |slots|, s, symNames)
    ensures RelocsOk(relas + [x], slots + [s], relaOf + [|relas|], symNames, plt, base)
  {
  }

  lemma {:induction false} OtherRelocAppended(
    relas: seq<Rela>, slots: seq<Name>, relaOf: seq<nat>, symNames: seq<Name>, plt: nat, base: nat, x: Rela)
    requires RelocsOk(relas, slots, relaOf, symNames, plt, base)
    requires forall k: nat :: k < CAPACITY ==> x.r_offset != SlotWord(plt, base, k)
    ensures RelocsOk(relas + [x], slots, relaOf, symNames, plt, base)
  {
  }

  lemma {:induction false} SymbolsGrow(
    relas: seq<Rela>, slots: seq<Name>, relaOf: seq<nat>, symNames: seq<Name>, plt: nat, base: nat, s: Name)
    requires RelocsOk(relas, slots, relaOf, symNames, plt, base)
    ensures RelocsOk(relas, slots, relaOf, symNames + [s], plt, base)
  {
    forall k | 0 <= k < |slots| ensures Fills(relas[relaOf[k]], plt, base, k, slots[k], symNames + [s]) {
      assert Fills(relas[relaOf[k]], plt, base, k, slots[k], symNames);
    }
  }

  // ---------- exported symbols ----------

  /** A symbol an object exports: its section and its address relative to the image base. */
  datatype Export = Export(name: Name, shndx: nat, value: nat)

  /** Symbol 1 + k is export k. */
  ghost predicate ExportAt(dynsym: seq<Sym>, symNames: seq<Name>, exports: seq<Export>, k: nat)
    requires k < |exports| < |symNames| <= |dynsym|
  {
    var sym, e := dynsym[1 + k], exports[k];
    sym.st_shndx == e.shndx && sym.st_value == e.value && symNames[1 + k] == e.name
  }

  /** The null symbol, which has no value, then the exported symbols; all others are imported: no section, no value. */
  ghost predicate ExportsOk(dynsym: seq<Sym>, symNames: seq<Name>, exports: seq<Export>) {
    && |exports| < |symNames| <= |dynsym| && dynsym[0].st_value == 0
    && (forall k {:trigger ExportAt(dynsym, symNames, exports, k)} ::
          0 <= k < |exports| ==> ExportAt(dynsym, symNames, exports, k))
    && (forall j :: |exports| < j < |symNames| ==> dynsym[j].st_shndx == 0 && dynsym[j].st_value == 0)
  }

  /** One more imported symbol leaves them. */
  lemma {:induction false} ExportsStay(
    dynsym: seq<Sym>, symNames: seq<Name>, exports: seq<Export>, sym: Sym, name: Name)
    requires ExportsOk(dynsym, symNames, exports) && |symNames| < |dynsym| && sym.st_shndx == 0 && sym.st_value == 0
    ensures ExportsOk(dynsym[|symNames| := sym], symNames + [name], exports)
  {
    var syms, names := dynsym[|symNames| := sym], symNames + [name];
    forall k: nat | k < |exports| ensures ExportAt(syms, names, exports, k) {
      assert ExportAt(dynsym, symNames, exports, k);
    }
  }

  /** Entered right behind them, with its section and value, a symbol is one more export. */
  lemma {:induction false} ExportAppended(
    dynsym: seq<Sym>, symNames: seq<Name>, exports: seq<Export>, sym: Sym, e: Export)
    requires ExportsOk(dynsym, symNames, exports) && |symNames| == |exports| + 1 < |dynsym|
    requires sym.st_shndx == e.shndx && sym.st_value == e.value
    ensures ExportsOk(dynsym[|symNames| := sym], symNames + [e.name], exports + [e])
  {
    var syms, names, more := dynsym[|symNames| := sym], symNames + [e.name], exports + [e];
    forall k: nat | k < |more| ensures ExportAt(syms, names, more, k) {
      assert k < |exports| ==> ExportAt(dynsym, symNames, exports, k);
    }
  }

  // ---------- needed libraries ----------

  /** .dynstr after the first n needed libraries: the empty string, then their names. */
  function NeededText(libs: seq<Name>, n: nat): (s: seq<uint8>)
    requires n <= |libs|
    ensures |s| > 0
  {
    if n == 0 then [0] else NeededText(libs, n - 1) + (libs[n - 1] + [0])
  }

  /** The libraries are named first in the string table; anything may follow. */
  ghost predicate NamesNeeded(dynstr: seq<uint8>, libs: seq<Name>) {
    NeededText(libs, |libs|) <= dynstr && forall l :: l in libs ==> IsName(l)
  }

  /** They are, and the fill mark is behind them. */
  ghost predicate NeededOk(dynstr: seq<uint8>, size: nat, libs: seq<Name>) {
    |NeededText(libs, |libs|)| <= size <= |dynstr| && NamesNeeded(dynstr, libs)
  }

  /** A string entered at the fill mark leaves them. */
  lemma {:induction false} NeededStay(dynstr: seq<uint8>, size: nat, libs: seq<Name>, s: Name)
    requires NeededOk(dynstr, size, libs) && size + |s| < |dynstr|
    ensures NeededOk(WithString(dynstr, size, s), size + |s| + 1, libs)
  {
    var n, r := |NeededText(libs, |libs|)|, WithString(dynstr, size, s);
    assert r[..n] == dynstr[..n];
  }

  lemma {:induction false} SameText(libs: seq<Name>, more: seq<Name>, n: nat)
    requires n <= |libs| && n <= |more| && forall i :: 0 <= i < n ==> libs[i] == more[i]
    ensures NeededText(libs, n) == NeededText(more, n)
  {
    if n > 0 { SameText(libs, more, n - 1); }
  }

  /** Entered right behind them it is one more needed library. */
  lemma {:induction false} NeededAppended(dynstr: seq<uint8>, size: nat, libs: seq<Name>, l: Name)
    requires NeededOk(dynstr, size, libs) && size == |NeededText(libs, |libs|)| && size + |l| < |dynstr| && IsName(l)
    requires dynstr[size + |l|] == 0
    ensures var more := libs + [l];
            && NeededOk(WithString(dynstr, size, l), size + |l| + 1, more)
            && |NeededText(more, |more|)| == size + |l| + 1
  {
    var more, r := libs + [l], WithString(dynstr, size, l);
    SameText(libs, more, |libs|);
    assert NeededText(more, |more|) == NeededText(libs, |libs|) + (l + [0]);
    assert r[..size + |l| + 1] == NeededText(libs, |libs|) + (l + [0]);
  }

  /** memmem for ".so". */
  predicate NamesSharedObject(s: Name) {
    |s| >= 3 && (s[..3] == [0x2e, 0x73, 0x6f] || NamesSharedObject(s[1..]))
  }

  /** The libraries a command line needs: those up to the first that is no shared object. */
  function Needed(dynlib: seq<Name>): seq<Name> {
    if dynlib == [] || !NamesSharedObject(dynlib[0]) then [] else [dynlib[0]] + Needed(dynlib[1..])
  }

  ghost predicate StandsAt(s: Name, k: nat, t: Name) {
    k + |t| <= |s| && s[k..k + |t|] == t
  }

  /** The name contains ".so". */
  lemma {:induction false} NamesSharedObjectIff(s: Name)
    ensures NamesSharedObject(s) <==> exists k :: StandsAt(s, k, Ascii(".so"))
  {
    var so := Ascii(".so");
    assert so == [0x2e, 0x73, 0x6f];
    if |s| >= 3 {
      NamesSharedObjectIff(s[1..]);
      if NamesSharedObject(s[1..]) {
        var k: nat :| StandsAt(s[1..], k, so);
        assert s[1..][k..k + |so|] == s[k + 1..k + 1 + |so|];
        assert StandsAt(s, k + 1, so);
      }
      if s[..3] == so {
        assert StandsAt(s, 0, so);
      }
      forall k: nat | StandsAt(s, k, so) ensures NamesSharedObject(s) {
        if k > 0 {
          assert s[1..][k - 1..k - 1 + |so|] == s[k..k + |so|];
          assert StandsAt(s[1..], k - 1, so);
        }
      }
    }
  }

  lemma {:induction false} NeededIsPrefix(dynlib: seq<Name>)
    ensures Needed(dynlib) <= dynlib && forall l :: l in Needed(dynlib) ==> NamesSharedObject(l)
    ensures var n := |Needed(dynlib)|; n < |dynlib| ==> !NamesSharedObject(dynlib[n])
  {
    if dynlib != [] && NamesSharedObject(dynlib[0]) { NeededIsPrefix(dynlib[1..]); }
  }

  lemma {:induction false} NeededPrefix(libs: seq<Name>, m: nat, n: nat)
    requires m <= n <= |libs|
    ensures NeededText(libs, m) <= NeededText(libs, n)
    decreases n
  {
    if m < n { NeededPrefix(libs, m, n - 1); }
  }

  /** Library k stands where the text of the ones before it ends. */
  lemma {:induction false} NeededStands(dynstr: seq<uint8>, libs: seq<Name>, k: nat)
    requires NamesNeeded(dynstr, libs) && k < |libs|
    ensures var o := |NeededText(libs, k)|;
            && o + |libs[k]| < |dynstr| && dynstr[o..o + |libs[k]|] == libs[k] && dynstr[o + |libs[k]|] == 0
            && |NeededText(libs, k + 1)| == o + |libs[k]| + 1 && CString(dynstr, o) == libs[k]
  {
    var o, t := |NeededText(libs, k)|, NeededText(libs, k + 1);
    NeededPrefix(libs, k + 1, |libs|);
    assert t <= dynstr && t[o..o + |libs[k]|] == libs[k] && t[o + |libs[k]|] == 0;
    assert dynstr[..|t|] == t;
    assert dynstr[o..o + |libs[k]|] == dynstr[..|t|][o..o + |libs[k]|];
    assert libs[k] in libs;
    WrittenReadsBack(dynstr, o, libs[k]);
  }

  lemma {:induction false} EmptyTables(
    got: seq<uint8>, dynstr: seq<uint8>, dynsym: seq<Sym>, plt: nat, base: nat)
    requires |dynstr| > 0 && |dynsym| > 0 && dynsym[0] == Sym(0, 0, 0)
    requires (forall i :: 0 <= i < |dynstr| ==> dynstr[i] == 0) && (forall i :: 0 <= i < |got| ==> got[i] == 0)
    ensures StubsOk(got, 0) && StringsOk(dynstr, 1, dynsym, [[]]) && RelocsOk([], [], [], [[]], plt, base)
    ensures NeededOk(dynstr, 1, []) && ExportsOk(dynsym, [[]], [])
  {
    assert NamedBy(dynstr, 1, dynsym[0], []);
  }

  /** ELF64_R_INFO and its inverse. */
  lemma {:induction false} InfoSplits(sym: nat, kind: nat)
    requires kind < 0x1_0000_0000
    ensures (0x1_0000_0000 * sym + kind) / 0x1_0000_0000 == sym
    ensures (0x1_0000_0000 * sym + kind) % 0x1_0000_0000 == kind
  {
  }

  lemma {:induction false} MemoAppended(slots: seq<Name>, plt: nat, s: Name)
    ensures Memo(slots + [s], plt) == Memo(slots, plt) + [Import(s, plt + SLOT * |slots|)]
  {
  }
}

module ElfDynamic {
  import opened Machine
  import opened SymbolSpec
  import opened SymbolTable
  import opened ElfDynamicSpec

  /** The end of the string at offset p, counted with its terminator. */
  method SkipString(dynstr: seq<uint8>, p: nat, ghost name: Name) returns (next: nat)
    requires p + |name| < |dynstr| && dynstr[p..p + |name|] == name && dynstr[p + |name|] == 0 && IsName(name)
    ensures next == p + |name| + 1
  {
    assert forall j :: p <= j < p + |name| ==> dynstr[j] == dynstr[p..p + |name|][j - p] != 0;
    var q := p;
    next := p + 1;
    while dynstr[q] != 0
      invariant p <= q <= p + |name| && next == q + 1
      decreases p + |name| - q
    {
      q, next := q + 1, next + 1;
    }
  }

  /** One step of the walk over the needed libraries. */
  method NextNeeded(dynstr: seq<uint8>, p: nat, ghost libs: seq<Name>, ghost k: nat) returns (next: nat)
    requires NamesNeeded(dynstr, libs) && k < |libs| && p == |NeededText(libs, k)|
    ensures CString(dynstr, p) == libs[k] && next == |NeededText(libs, k + 1)|
  {
    NeededStands(dynstr, libs, k);
    assert libs[k] in libs;
    next := SkipString(dynstr, p, libs[k]);
  }

  /**
   The DT_NEEDED values of set_dynamic: the k-th one is the offset of the k-th needed library's
   name, whatever else the string table holds behind them.
   */
  method NeededValues(dynstr: seq<uint8>, num: nat, ghost libs: seq<Name>) returns (values: seq<nat>)
    requires NamesNeeded(dynstr, libs) && num == |libs|
    ensures |values| == num && forall k :: 0 <= k < num ==> CString(dynstr, values[k]) == libs[k]
  {
    values := [];
    var i, p := 0, 1;
    while i < num
      invariant i <= num && |values| == i && p == |NeededText(libs, i)|
      invariant forall k :: 0 <= k < i ==> CString(dynstr, values[k]) == libs[k]
    {
      var next := NextNeeded(dynstr, p, libs, i);
      values, p, i := values + [p], next, i + 1;
    }
  }

  class Tables {
    const plt: nat            // virtual address of .plt.got
    const base: nat           // image base
    const memo: Table         // DynamicImportHashTable
    const got: array<uint8>
    var gotNum: nat
    const dynstr: array<uint8>
    var strSize: nat
    const dynsym: array<Sym>
    var symNum: nat
    const rela: array<Rela>
    var relaNum: nat
    var needed: nat           // DT_NEEDED entries
    ghost var libs: seq<Name>
    ghost var exports: seq<Export>
    ghost var slots: seq<Name>
    ghost var symNames: seq<Name>
    ghost var relas: seq<Rela>
    ghost var relaOf: seq<nat>

    ghost predicate SymbolsValid()
      reads this, dynstr, dynsym
    {
      dynsym.Length == CAPACITY && symNum == |symNames| < CAPACITY
          && StringsOk(dynstr[..], strSize, dynsym[..], symNames) && ExportsOk(dynsym[..], symNames, exports)
    }

    ghost predicate RelocsValid()
      reads this, rela
    {
      RelasHeld() && RelocsOk(relas, slots, relaOf, symNames, plt, base)
    }

    ghost predicate RelasHeld()
      reads this, rela
    {
      rela.Length == CAPACITY && relaNum == |relas| < CAPACITY && rela[..relaNum] == relas
    }

    /** The needed libraries stand first in the string table. */
    ghost predicate NeededValid()
      reads this, dynstr
    {
      needed == |libs| && NeededOk(dynstr[..], strSize, libs)
    }

    ghost predicate TablesValid()
      reads this, got, dynstr, dynsym, rela
    {
      && got != dynstr && base <= plt && 0 < plt
      && got.Length == SLOT * CAPACITY && gotNum == |slots| < CAPACITY && StubsOk(got[..], gotNum)
      && SymbolsValid() && RelocsValid() && NeededValid()
    }

    ghost predicate Valid()
      reads this, memo, memo.Repr, got, dynstr, dynsym, rela
    {
      TablesValid() && Apart() && memo.Valid() && memo.log == Memo(slots, plt)
    }

    /** The memo stands outside the tables. */
    ghost predicate Apart()
      reads this, memo
    {
      {this, got, dynstr, dynsym, rela} !! memo.Repr
    }

    /** The tables and the memo. */
    ghost function Repr(): set<object>
      reads this, memo
    {
      {this, got, dynstr, dynsym, rela} + memo.Repr
    }

    /** add_dynamic: empty tables, the empty string at offset 0, the null symbol at index 0; the memo is empty. */
    constructor (plt: nat, base: nat, memo: Table)
      requires base <= plt && 0 < plt && memo.Valid() && memo.log == []
      ensures Valid() && slots == [] && symNames == [[]] && libs == [] && exports == []
      ensures strSize == 1 && relas == []
      ensures this.plt == plt && this.base == base && this.memo == memo
      ensures got.Length == 0x3_0000 && dynstr.Length == dynsym.Length == rela.Length == 0x3000
      ensures fresh({this, got, dynstr, dynsym, rela})
    {
      this.plt, this.base, this.memo := plt, base, memo;
      got := new uint8[SLOT * CAPACITY](_ => 0);
      dynstr := new uint8[CAPACITY](_ => 0);
      dynsym := new Sym[CAPACITY](_ => Sym(0, 0, 0));
      rela := new Rela[CAPACITY](_ => Rela(0, 0, 0));
      gotNum, strSize, symNum, relaNum, needed := 0, 1, 1, 0, 0;
      slots, symNames, relas, relaOf, libs, exports := [], [[]], [], [], [], [];
      new;
      EmptyTables(got[..], dynstr[..], dynsym[..], plt, base);
    }

    /** add_pltgot_entry: six bytes of stub; the other ten of the slot stay zero until load time. */
    method AddPltGotEntry() returns (r: nat)
      requires got.Length == SLOT * CAPACITY && gotNum + 1 < CAPACITY && StubsOk(got[..], gotNum)
      modifies this`gotNum, got
      ensures r == plt + SLOT * old(gotNum) && gotNum == old(gotNum) + 1 && StubsOk(got[..], gotNum)
    {
      r := plt + gotNum * 0x10;
      ghost var was := got[..];
      StubAppended(was, gotNum);
      var s := SLOT * gotNum;
      forall i | 0 <= i < 6 { got[s + i] := STUB[i]; }
      assert got[..] == was[..s] + STUB + was[s + 6..];
      gotNum := gotNum + 1;
    }

    /** add_dynstr_entry: the terminator is the zero the buffer came with. */
    method AddDynstrEntry(name: Name) returns (r: nat)
      requires strSize + |name| < dynstr.Length
      modifies this`strSize, dynstr
      ensures r == old(strSize) && strSize == old(strSize) + |name| + 1
      ensures dynstr[..] == WithString(old(dynstr[..]), r, name)
    {
      r := strSize;
      ghost var was := dynstr[..];
      var i := 0;
      while i < |name|
        invariant i <= |name| && dynstr[..] == was[..r] + name[..i] + was[r + i..]
      {
        dynstr[r + i] := name[i];
        ByteCopied(was, dynstr[..], r, name, i);
        i := i + 1;
      }
      strSize := r + |name| + 1;
    }

    method AddDynsymEntry(st_name: nat, st_shndx: nat, st_value: nat)
      requires symNum < dynsym.Length
      modifies this`symNum, dynsym
      ensures dynsym[..] == old(dynsym[..])[old(symNum) := Sym(st_name, st_shndx, st_value)]
      ensures symNum == old(symNum) + 1
    {
      dynsym[symNum] := Sym(st_name, st_shndx, st_value);
      symNum := symNum + 1;
    }

    /** A symbol with its string; the symbols already there keep their names. */
    method AddSymbol(name: Name, shndx: nat, value: nat)
      requires SymbolsValid() && NeededValid() && IsName(name) && strSize + |name| < dynstr.Length
               && symNum + 1 < CAPACITY
      modifies this`strSize, this`symNum, this`symNames, dynstr, dynsym
      ensures NeededValid() && symNames == old(symNames) + [name] && symNum == |symNames| < CAPACITY
      ensures StringsOk(dynstr[..], strSize, dynsym[..], symNames) && strSize == old(strSize) + |name| + 1
      ensures dynsym[..] == old(dynsym[..])[old(|symNames|) := Sym(old(strSize), shndx, value)]
    {
      NeededStay(dynstr[..], strSize, libs, name);
      StringAppended(dynstr[..], strSize, dynsym[..], symNames, name, Sym(strSize, shndx, value));
      var o := AddDynstrEntry(name);
      AddDynsymEntry(o, shndx, value);
      symNames := symNames + [name];
    }

    /** An imported symbol has no section and no value. */
    method AddImported(name: Name)
      requires SymbolsValid() && NeededValid() && IsName(name) && strSize + |name| < dynstr.Length
               && symNum + 1 < CAPACITY
      modifies this`strSize, this`symNum, this`symNames, dynstr, dynsym
      ensures SymbolsValid() && NeededValid() && symNames == old(symNames) + [name]
              && strSize == old(strSize) + |name| + 1
    {
      ExportsStay(dynsym[..], symNames, exports, Sym(strSize, 0, 0), name);
      AddSymbol(name, 0, 0);
    }

    /** An exported symbol, while the symbol table holds exported symbols only. */
    method AddExported(e: Export)
      requires Valid() && IsName(e.name) && |symNames| == |exports| + 1
      requires strSize + |e.name| < dynstr.Length && symNum + 1 < CAPACITY
      modifies this`strSize, this`symNum, this`symNames, this`exports, dynstr, dynsym
      ensures Valid() && exports == old(exports) + [e] && |symNames| == |exports| + 1
      ensures symNames == old(symNames) + [e.name] && strSize == old(strSize) + |e.name| + 1
    {
      SymbolsGrow(relas, slots, relaOf, symNames, plt, base, e.name);
      ExportAppended(dynsym[..], symNames, exports, Sym(strSize, e.shndx, e.value), e);
      AddSymbol(e.name, e.shndx, e.value);
      exports := exports + [e];
    }

    /** Bytes of the string table up to the last needed library. */
    ghost function NeededSize(): (n: nat)
      reads this
      ensures n > 0
    {
      |NeededText(libs, |libs|)|
    }

    /** add_dt_needed for one library, while the string table holds needed libraries only. */
    method AddNeeded(name: Name)
      requires Valid() && IsName(name) && strSize == NeededSize() && strSize + |name| < dynstr.Length
      modifies this`strSize, this`needed, this`libs, dynstr
      ensures Valid() && libs == old(libs) + [name] && strSize == NeededSize() == old(strSize) + |name| + 1
    {
      TextAppended(dynstr[..], strSize, dynsym[..], symNames, name);
      NeededAppended(dynstr[..], strSize, libs, name);
      var o := AddDynstrEntry(name);
      needed, libs := needed + 1, libs + [name];
    }

    /** __z__link__add_dt_needed on fresh tables: the libraries named up to the first that is no shared object. */
    method AddDtNeeded(dynlib: seq<Name>)
      requires Valid() && libs == [] && strSize == 1 && forall l :: l in dynlib ==> IsName(l)
      requires |NeededText(dynlib, |dynlib|)| < dynstr.Length
      modifies this`strSize, this`needed, this`libs, dynstr
      ensures Valid() && libs == Needed(dynlib) && strSize == NeededSize()
    {
      var p := 0;
      ghost var rest := Needed(dynlib);
      assert dynlib[0..] == dynlib && libs + rest == rest;
      while p < |dynlib|
        invariant p <= |dynlib| && Valid() && libs == dynlib[..p] && strSize == NeededSize()
        invariant rest == Needed(dynlib[p..]) && libs + rest == Needed(dynlib)
      {
        FirstNeeded(dynlib, p);
        if !NamesSharedObject(dynlib[p]) {
          break;
        }
        NextLibrary(dynlib, p, rest);
        AddNeeded(dynlib[p]);
        p, rest := p + 1, rest[1..];
      }
      assert rest == [] && libs + [] == libs;
    }

    static lemma {:induction false} FirstNeeded(dynlib: seq<Name>, p: nat)
      requires p < |dynlib|
      ensures !NamesSharedObject(dynlib[p]) ==> Needed(dynlib[p..]) == []
      ensures NamesSharedObject(dynlib[p]) ==> Needed(dynlib[p..]) == [dynlib[p]] + Needed(dynlib[p + 1..])
    {
      assert dynlib[p..][1..] == dynlib[p + 1..];
    }

    static lemma {:induction false} NextLibrary(dynlib: seq<Name>, p: nat, rest: seq<Name>)
      requires p < |dynlib| && rest == [dynlib[p]] + Needed(dynlib[p + 1..])
      ensures dynlib[..p + 1] == dynlib[..p] + [dynlib[p]] && dynlib[p] in dynlib
      ensures rest[1..] == Needed(dynlib[p + 1..]) && dynlib[..p] + rest == dynlib[..p + 1] + rest[1..]
      ensures |NeededText(dynlib[..p], p)| + |dynlib[p]| < |NeededText(dynlib, |dynlib|)|
    {
      SameText(dynlib[..p], dynlib, p);
      NeededPrefix(dynlib, p + 1, |dynlib|);
    }

    /** The DT_NEEDED entries set_dynamic writes, in any reachable state. */
    method DtNeeded() returns (values: seq<nat>)
      requires Valid()
      ensures |values| == |libs| && forall k :: 0 <= k < |libs| ==> CString(dynstr[..], values[k]) == libs[k]
    {
      values := NeededValues(dynstr[..], needed, libs);
    }

    /** add_rela_plt_entry */
    method AddRelaPltEntry(offset: nat, sym: nat, kind: nat, addend: nat)
      requires RelasHeld() && relaNum + 1 < CAPACITY
      modifies this`relaNum, this`relas, rela
      ensures RelasHeld()
      ensures relas == old(relas) + [Rela(offset - base, 0x1_0000_0000 * sym + kind, addend - base)]
    {
      rela[relaNum] := Rela(offset - base, 0x1_0000_0000 * sym + kind, addend - base);
      relas := relas + [rela[relaNum]];
      relaNum := relaNum + 1;
    }

    /** add_dynamic_entry2: a data word outside the slots gets a symbol and a relocation, but no slot. */
    method AddDynamicEntry2(offset: nat, name: Name)
      requires Valid() && IsName(name) && strSize + |name| < dynstr.Length && symNum + 1 < CAPACITY
               && relaNum + 1 < CAPACITY
      requires base <= offset && forall k: nat :: k < CAPACITY ==> offset - base != SlotWord(plt, base, k)
      modifies this`strSize, this`symNum, this`symNames, this`relaNum, this`relas, dynstr, dynsym, rela
      ensures Valid() && symNames == old(symNames) + [name] && strSize == old(strSize) + |name| + 1
      ensures relas == old(relas) + [Rela(offset - base, 0x1_0000_0000 * |old(symNames)| + 6, 0 - base)]
    {
      SymbolsGrow(relas, slots, relaOf, symNames, plt, base, name);
      AddImported(name);
      OtherRelocAppended(relas, slots, relaOf, symNames, plt, base,
                         Rela(offset - base, 0x1_0000_0000 * (symNum - 1) + 6, 0 - base));
      AddRelaPltEntry(offset, symNum - 1, 6 /* R_X86_64_GLOB_DAT */, 0);
    }

    /** A data word that holds an address of the image: a relocation against no symbol. */
    method AddRelative(offset: nat, addend: nat)
      requires Valid() && relaNum + 1 < CAPACITY
      requires base <= offset && forall k: nat :: k < CAPACITY ==> offset - base != SlotWord(plt, base, k)
      modifies this`relaNum, this`relas, rela
      ensures Valid() && relas == old(relas) + [Rela(offset - base, 8, addend - base)]
    {
      OtherRelocAppended(relas, slots, relaOf, symNames, plt, base,
                         Rela(offset - base, 0x1_0000_0000 * 0 + 8, addend - base));
      AddRelaPltEntry(offset, 0, 8 /* R_X86_64_RELATIVE */, addend);
    }

    /**
     add_dynamic_entry: a checked name that has a slot is answered with it and
     nothing is written; otherwise all four tables and the memo gain an entry.
     */
    method AddDynamicEntry(name: Name, kind: nat, check: bool) returns (r: nat)
      requires Valid() && IsName(name) && kind < 0x1_0000_0000
      requires gotNum + 1 < CAPACITY && symNum + 1 < CAPACITY && relaNum + 1 < CAPACITY
               && strSize + |name| < dynstr.Length
      modifies Repr()
      ensures Valid() && fresh(Repr() - old(Repr())) && libs == old(libs) && exports == old(exports)
      ensures slots == Next(old(slots), Request(name, check))
      ensures r == plt + SLOT * Answer(old(slots), Request(name, check))
      ensures slots == old(slots) ==>
                symNames == old(symNames) && relas == old(relas) && strSize == old(strSize)
      ensures slots != old(slots) ==>
                symNames == old(symNames) + [name] && strSize == old(strSize) + |name| + 1
                && relas == old(relas) + [SlotRela(plt, base, |old(slots)|, |old(symNames)|, kind)]
    {
      MemoFindsIndexOf(slots, plt, name);
      if check {
        var known := memo.Lookup(name);
        if known != 0 {
          return known;
        }
      }
      r := AddSlot(name, kind);
    }

    /** A new slot: stub, string, symbol, relocation and memo, in that order. */
    method AddSlot(name: Name, kind: nat) returns (r: nat)
      requires Valid() && IsName(name) && kind < 0x1_0000_0000
      requires gotNum + 1 < CAPACITY && symNum + 1 < CAPACITY && relaNum + 1 < CAPACITY
               && strSize + |name| < dynstr.Length
      modifies Repr()
      ensures Valid() && fresh(Repr() - old(Repr())) && libs == old(libs) && exports == old(exports)
      ensures slots == old(slots) + [name] && r == plt + SLOT * |old(slots)|
      ensures symNames == old(symNames) + [name] && strSize == old(strSize) + |name| + 1
      ensures relas == old(relas) + [SlotRela(plt, base, |old(slots)|, |old(symNames)|, kind)]
    {
      MemoAppended(slots, plt, name);
      r := FillSlotFirst(name, kind);
      memo.Append(name, r);
    }

    /** First the tables; the memo stays. */
    method FillSlotFirst(name: Name, kind: nat) returns (r: nat)
      requires TablesValid() && Apart() && memo.Valid() && IsName(name) && kind < 0x1_0000_0000
      requires gotNum + 1 < CAPACITY && symNum + 1 < CAPACITY && relaNum + 1 < CAPACITY
               && strSize + |name| < dynstr.Length
      modifies this, got, dynstr, dynsym, rela
      ensures TablesValid() && slots == old(slots) + [name] && r == plt + SLOT * |old(slots)|
      ensures libs == old(libs) && exports == old(exports)
      ensures symNames == old(symNames) + [name] && strSize == old(strSize) + |name| + 1
      ensures relas == old(relas) + [SlotRela(plt, base, |old(slots)|, |old(symNames)|, kind)]
      ensures memo.Valid() && memo.log == old(memo.log) && memo.Repr == old(memo.Repr)
    {
      r := FillSlot(name, kind);
    }

    method FillSlot(name: Name, kind: nat) returns (r: nat)
      requires TablesValid() && IsName(name) && kind < 0x1_0000_0000
      requires gotNum + 1 < CAPACITY && symNum + 1 < CAPACITY && relaNum + 1 < CAPACITY
               && strSize + |name| < dynstr.Length
      modifies this, got, dynstr, dynsym, rela
      ensures TablesValid() && slots == old(slots) + [name] && r == plt + SLOT * |old(slots)|
      ensures libs == old(libs) && exports == old(exports)
      ensures symNames == old(symNames) + [name] && strSize == old(strSize) + |name| + 1
      ensures relas == old(relas) + [SlotRela(plt, base, |old(slots)|, |old(symNames)|, kind)]
    {
      ghost var names, x := symNames + [name], SlotRela(plt, base, gotNum, symNum, kind);
      SymbolsGrow(relas, slots, relaOf, symNames, plt, base, name);
      InfoSplits(symNum, kind);
      SlotRelocAppended(relas, slots, relaOf, names, plt, base, name, x);
      r := WriteSlot(name, kind, x);
      slots, relaOf := slots + [name], relaOf + [|relas| - 1];
    }

    /** Stub, string, symbol and relocation. */
    method WriteSlot(name: Name, kind: nat, ghost x: Rela) returns (r: nat)
      requires TablesValid() && IsName(name) && x == SlotRela(plt, base, gotNum, symNum, kind)
      requires gotNum + 1 < CAPACITY && symNum + 1 < CAPACITY && relaNum + 1 < CAPACITY
               && strSize + |name| < dynstr.Length
      modifies this`gotNum, this`strSize, this`symNum, this`symNames, this`relaNum, this`relas
      modifies got, dynstr, dynsym, rela
      ensures SymbolsValid() && NeededValid() && StubsOk(got[..], gotNum) && RelasHeld()
      ensures gotNum == old(gotNum) + 1 && r == plt + SLOT * old(gotNum)
      ensures symNames == old(symNames) + [name] && strSize == old(strSize) + |name| + 1
      ensures relas == old(relas) + [x]
    {
      r := AddPltGotEntry();
      AddImported(name);
      AddRelaPltEntry(r + 8, symNum - 1, kind, 0);
    }

    /**
     Reading the tables back, as the loader does: the relocation of slot k leads
     through the symbol table to the name the slot was made for.
     */
    method NameOfSlot(k: nat) returns (s: Name)
      requires Valid() && k < |slots|
      ensures s == slots[k]
    {
      var i := 0;
      while rela[i].r_offset != plt + SLOT * k + 8 - base
        invariant i < relaNum && i <= relaOf[k]
        decreases relaOf[k] - i
      {
        assert Fills(relas[relaOf[k]], plt, base, k, slots[k], symNames);
        i := i + 1;
      }
      assert i == relaOf[k] && Fills(relas[i], plt, base, k, slots[k], symNames);
      var j := rela[i].r_info / 0x1_0000_0000;
      assert NamedBy(dynstr[..], strSize, dynsym[..][j], symNames[j]);
      s := CString(dynstr[..], dynsym[j].st_name);
    }
  }

  /** Fresh tables with the needed libraries. */
  method NeedingTables(plt: nat, base: nat, dynlib: seq<Name>) returns (tables: Tables)
    requires base <= plt && 0 < plt
    requires (forall l :: l in dynlib ==> IsName(l)) && |NeededText(dynlib, |dynlib|)| < CAPACITY
    ensures tables.Valid() && fresh(tables.Repr()) && tables.plt == plt && tables.base == base
    ensures tables.dynstr.Length == CAPACITY
    ensures tables.slots == [] && tables.libs == Needed(dynlib) && tables.NeededSize() <= |NeededText(dynlib, |dynlib|)|
    ensures tables.exports == [] && tables.symNames == [[]] && tables.relas == []
    ensures tables.strSize == tables.NeededSize()
  {
    var memo := new Table(10);
    tables := new Tables(plt, base, memo);
    tables.AddDtNeeded(dynlib);
    NeededIsPrefix(dynlib);
    SameText(Needed(dynlib), dynlib, |Needed(dynlib)|);
    NeededPrefix(dynlib, |Needed(dynlib)|, |dynlib|);
  }
}
