/**
 The dynamic side of an ELF link from end to end: needed libraries, exported symbols entered in
 the symbol table and the GNU hash at once, and the relocation pass that looks every name up
 there before it asks for an import.
 */
module ElfLinkSpec {
  import opened Machine
  import opened Hashes
  import opened Bitmap
  import opened GnuSpec
  import opened ElfDynamicSpec

  const BUCKETS: nat := 1
  const BLOOM_SIZE: nat := 2
  const BLOOM_SHIFT: nat := 5
  const SYMOFFSET: nat := 1

  function Names(es: seq<Export>): (s: seq<Name>)
    ensures |s| == |es| && forall k :: 0 <= k < |es| ==> s[k] == es[k].name
  {
    seq(|es|, k requires 0 <= k < |es| => es[k].name)
  }

  /** Bytes the names of exported symbols take with their terminators. */
  function NamesSize(es: seq<Export>): nat {
    if es == [] then 0 else NamesSize(es[..|es| - 1]) + |es[|es| - 1].name| + 1
  }

  /** The value a name resolves to inside the link, 0 if it has to be imported. */
  function ValueOf(es: seq<Export>, name: Name): nat {
    if name in Names(es) then es[IndexOf(Names(es), name)].value else 0
  }

  /** The lookup of a name ends: it is exported, or the filter turns it away. */
  ghost predicate Resolvable(es: seq<Export>, name: Name) {
    name in Names(es)
    || !Accepts(FilterOf(BLOOM_SIZE, BLOOM_SHIFT, Names(es)), BLOOM_SHIFT, GnuHash(name))
  }

  /** Names that can be entered, and room for them behind what the string table holds. */
  ghost predicate ExportsFit(es: seq<Export>, size: nat, length: nat) {
    && size + NamesSize(es) < length && |es| + 1 < CAPACITY
    && forall e :: e in es ==> IsName(e.name) && GnuHash(e.name) >= 2
  }

  // ---------- the relocation pass ----------

  /** What a relocation wants of a symbol: its address in a data word, a call to it, or its slot's word. */
  datatype Use = Word(src: nat, name: Name) | Call(name: Name) | Got(name: Name)

  /** The import requests a use leads to: a call of an exported name needs none. */
  function RequestsOf(es: seq<Export>, u: Use): seq<Request> {
    match u
    case Word(_, _) => []
    case Call(name) => if ValueOf(es, name) != 0 then [] else [Request(name, true)]
    case Got(name) => [Request(name, false)]
  }

  function Requests(es: seq<Export>, uses: seq<Use>): seq<Request> {
    if uses == [] then [] else Requests(es, uses[..|uses| - 1]) + RequestsOf(es, uses[|uses| - 1])
  }

  /** The slots after a use. */
  function After(slots: seq<Name>, es: seq<Export>, u: Use): seq<Name> {
    var rs := RequestsOf(es, u);
    if rs == [] then slots else Next(slots, rs[0])
  }

  /** The address a use is given; for a word, the value put into it, 0 leaving it to the loader. */
  function Destination(plt: nat, slots: seq<Name>, es: seq<Export>, u: Use): nat {
    match u
    case Word(_, name) => ValueOf(es, name)
    case Call(name) =>
      if ValueOf(es, name) != 0 then ValueOf(es, name) else plt + SLOT * Answer(slots, Request(name, true))
    case Got(name) => plt + SLOT * Answer(slots, Request(name, false)) + 8
  }

  function Destinations(plt: nat, es: seq<Export>, uses: seq<Use>, n: nat): (a: seq<nat>)
    requires n <= |uses|
    ensures |a| == n && forall i :: 0 <= i < n ==> a[i] == DestinationOf(plt, es, uses, i)
  {
    seq(n, i requires 0 <= i < n => DestinationOf(plt, es, uses, i))
  }

  /** The address use i of a pass is given. */
  function DestinationOf(plt: nat, es: seq<Export>, uses: seq<Use>, i: nat): nat
    requires i < |uses|
  {
    Destination(plt, Slots(Requests(es, uses[..i])), es, uses[i])
  }

  /** One use more: its address. */
  lemma {:induction false} NextDestination(plt: nat, es: seq<Export>, uses: seq<Use>, i: nat, dst: nat)
    requires i < |uses| && dst == DestinationOf(plt, es, uses, i)
    ensures Destinations(plt, es, uses, i) + [dst] == Destinations(plt, es, uses, i + 1)
  {
    var before, after := Destinations(plt, es, uses, i), Destinations(plt, es, uses, i + 1);
    forall k | 0 <= k < i + 1 ensures (before + [dst])[k] == after[k] {
      assert k < i ==> before[k] == DestinationOf(plt, es, uses, k);
    }
  }

  /** And its slots. */
  lemma {:induction false} UsesStep(es: seq<Export>, uses: seq<Use>, i: nat)
    requires i < |uses|
    ensures Slots(Requests(es, uses[..i + 1])) == After(Slots(Requests(es, uses[..i])), es, uses[i])
  {
    var before, rs := Requests(es, uses[..i]), RequestsOf(es, uses[i]);
    assert uses[..i + 1][..i] == uses[..i];
    if rs == [] {
      assert before + rs == before;
    } else {
      assert (before + rs)[..|before|] == before && (before + rs)[|before|] == rs[0];
    }
  }

  lemma {:induction false} RequestsGrow(es: seq<Export>, uses: seq<Use>, i: nat, j: nat)
    requires i <= j <= |uses|
    ensures Requests(es, uses[..i]) <= Requests(es, uses[..j])
    decreases j
  {
    if i < j {
      RequestsGrow(es, uses, i, j - 1);
      assert uses[..j][..j - 1] == uses[..j - 1];
    }
  }

  /** The request a use leads to stands in the list of all. */
  lemma {:induction false} RequestAt(es: seq<Export>, uses: seq<Use>, i: nat, j: nat)
    requires i < j <= |uses| && RequestsOf(es, uses[i]) != []
    ensures var rs, k := Requests(es, uses[..j]), |Requests(es, uses[..i])|;
            k < |rs| && rs[k] == RequestsOf(es, uses[i])[0] && rs[..k] == Requests(es, uses[..i])
  {
    var before, rs, all := Requests(es, uses[..i]), RequestsOf(es, uses[i]), Requests(es, uses[..j]);
    assert uses[..i + 1][..i] == uses[..i];
    RequestsGrow(es, uses, i + 1, j);
    assert before + rs <= all;
    assert all[|before|] == (before + rs)[|before|];
    assert all[..|before|] == before;
  }

  /** Two calls of names that have to be imported get one address exactly if they are for one name. */
  lemma {:induction false} CallsShareIffSameName(plt: nat, es: seq<Export>, uses: seq<Use>, i: nat, j: nat)
    requires i < j < |uses| && uses[i].Call? && uses[j].Call?
    requires ValueOf(es, uses[i].name) == 0 && ValueOf(es, uses[j].name) == 0
    ensures var a := Destinations(plt, es, uses, |uses|);
            a[i] == a[j] <==> uses[i].name == uses[j].name
  {
    var rs, k, l := Requests(es, uses), |Requests(es, uses[..i])|, |Requests(es, uses[..j])|;
    assert uses[..|uses|] == uses;
    RequestAt(es, uses, i, |uses|);
    RequestAt(es, uses, j, |uses|);
    RequestAt(es, uses, i, j);
    AnswersFollowNames(rs, k, l);
  }

  /**
   An instruction is led to the exported function itself, or through the slot of that very name.
   The relocation of slot k leads to the name of slot k, in every state of the tables.
   */
  lemma {:induction false} CodeReaches(plt: nat, es: seq<Export>, uses: seq<Use>, i: nat) returns (k: nat)
    requires i < |uses| && !uses[i].Word?
    ensures var u, dst, slots := uses[i], Destinations(plt, es, uses, |uses|)[i], Slots(Requests(es, uses));
            if u.Call? && ValueOf(es, u.name) != 0 then dst == ValueOf(es, u.name)
            else k < |slots| && slots[k] == u.name && dst == plt + SLOT * k + (if u.Got? then 8 else 0)
  {
    k := 0;
    if RequestsOf(es, uses[i]) != [] {
      var rs, m := Requests(es, uses), |Requests(es, uses[..i])|;
      assert uses[..|uses|] == uses;
      RequestAt(es, uses, i, |uses|);
      k := AnswerOf(rs, m);
      SlotsStep(rs, m);
      SlotsGrow(rs, m + 1);
    }
  }

  // ---------- the symbols and relocations of a pass ----------

  /** A data word makes no slot; without a value it gets a symbol. */
  lemma {:induction false} WordUse(plt: nat, base: nat, slots: seq<Name>, j: nat, es: seq<Export>, u: Use)
    requires u.Word?
    ensures After(slots, es, u) == slots && Destination(plt, slots, es, u) == ValueOf(es, u.name)
    ensures SymbolOf(slots, es, u) == if ValueOf(es, u.name) == 0 then [u.name] else []
    ensures RelocationOf(plt, base, slots, j, es, u)
            == [if ValueOf(es, u.name) == 0 then Rela(u.src - base, 0x1_0000_0000 * j + 6, 0 - base)
                else Rela(u.src - base, 8, ValueOf(es, u.name) - base)]
  {
  }

  /** An instruction that neither the link nor a slot made so far serves: it gets a slot. */
  predicate NeedsSlot(slots: seq<Name>, es: seq<Export>, u: Use) {
    u.Got? || (u.Call? && ValueOf(es, u.name) == 0 && u.name !in slots)
  }

  lemma {:induction false} SlotIffNeeded(slots: seq<Name>, es: seq<Export>, u: Use)
    ensures After(slots, es, u) == if NeedsSlot(slots, es, u) then slots + [u.name] else slots
  {
  }

  /** The symbol a use enters, if any: for a slot, or for a word that the link has no value for. */
  function SymbolOf(slots: seq<Name>, es: seq<Export>, u: Use): seq<Name> {
    if NeedsSlot(slots, es, u) || (u.Word? && ValueOf(es, u.name) == 0) then [u.name] else []
  }

  /** Its relocation, if any, when the next symbol is number j. */
  function RelocationOf(plt: nat, base: nat, slots: seq<Name>, j: nat, es: seq<Export>, u: Use): seq<Rela> {
    if NeedsSlot(slots, es, u) then [SlotRela(plt, base, |slots|, j, if u.Call? then 7 else 6)]
    else if !u.Word? then []
    else if ValueOf(es, u.name) == 0 then [Rela(u.src - base, 0x1_0000_0000 * j + 6, 0 - base)]
    else [Rela(u.src - base, 8, ValueOf(es, u.name) - base)]
  }

  /** The names of the symbol table after a pass: the empty one, the exported ones, those entered. */
  function Symbols(es: seq<Export>, uses: seq<Use>): seq<Name> {
    if uses == [] then [[]] + Names(es)
    else
      var before := uses[..|uses| - 1];
      Symbols(es, before) + SymbolOf(Slots(Requests(es, before)), es, uses[|uses| - 1])
  }

  function Relocations(plt: nat, base: nat, es: seq<Export>, uses: seq<Use>): seq<Rela> {
    if uses == [] then []
    else
      var before := uses[..|uses| - 1];
      Relocations(plt, base, es, before)
      + RelocationOf(plt, base, Slots(Requests(es, before)), |Symbols(es, before)|, es, uses[|uses| - 1])
  }

  lemma {:induction false} NextRelocation(plt: nat, base: nat, es: seq<Export>, uses: seq<Use>, i: nat)
    requires i < |uses|
    ensures var slots, symbols := Slots(Requests(es, uses[..i])), Symbols(es, uses[..i]);
            && Symbols(es, uses[..i + 1]) == symbols + SymbolOf(slots, es, uses[i])
            && Relocations(plt, base, es, uses[..i + 1])
               == Relocations(plt, base, es, uses[..i]) + RelocationOf(plt, base, slots, |symbols|, es, uses[i])
  {
    assert uses[..i + 1][..i] == uses[..i];
  }

  lemma {:induction false} SymbolsRise(es: seq<Export>, uses: seq<Use>, first: seq<Use>)
    requires first <= uses
    ensures Symbols(es, first) <= Symbols(es, uses)
  {
    if |first| < |uses| {
      var before := uses[..|uses| - 1];
      SymbolsRise(es, before, first);
      var more := LastSymbols(es, uses, before);
      StillPrefix(Symbols(es, first), Symbols(es, before), more, Symbols(es, uses));
    } else {
      assert first == uses;
    }
  }

  lemma {:induction false} LastSymbols(es: seq<Export>, uses: seq<Use>, before: seq<Use>) returns (more: seq<Name>)
    requires uses != [] && before == uses[..|uses| - 1]
    ensures Symbols(es, uses) == Symbols(es, before) + more
  {
    more := SymbolOf(Slots(Requests(es, before)), es, uses[|uses| - 1]);
  }

  lemma {:induction false} RelocationsRise(plt: nat, base: nat, es: seq<Export>, uses: seq<Use>, first: seq<Use>)
    requires first <= uses
    ensures Relocations(plt, base, es, first) <= Relocations(plt, base, es, uses)
  {
    if |first| < |uses| {
      var before := uses[..|uses| - 1];
      RelocationsRise(plt, base, es, before, first);
      var more := LastRelocations(plt, base, es, uses, before);
      StillPrefix(Relocations(plt, base, es, first), Relocations(plt, base, es, before), more,
                  Relocations(plt, base, es, uses));
    } else {
      assert first == uses;
    }
  }

  lemma {:induction false} LastRelocations(plt: nat, base: nat, es: seq<Export>, uses: seq<Use>, before: seq<Use>)
    returns (more: seq<Rela>)
    requires uses != [] && before == uses[..|uses| - 1]
    ensures Relocations(plt, base, es, uses) == Relocations(plt, base, es, before) + more
  {
    more := RelocationOf(plt, base, Slots(Requests(es, before)), |Symbols(es, before)|, es, uses[|uses| - 1]);
  }

  lemma {:induction false} StillPrefix<T>(a: seq<T>, b: seq<T>, more: seq<T>, c: seq<T>)
    requires a <= b && c == b + more
    ensures a <= c
  {
  }

  /** What use i has added stands at the ends of what the uses before it have left. */
  lemma {:induction false} AddedByUse(plt: nat, base: nat, es: seq<Export>, uses: seq<Use>, i: nat)
    requires i < |uses|
    ensures var slots, j, n := Slots(Requests(es, uses[..i])), |Symbols(es, uses[..i])|,
                               |Relocations(plt, base, es, uses[..i])|;
            var symbols, relas := SymbolOf(slots, es, uses[i]), RelocationOf(plt, base, slots, j, es, uses[i]);
            && (symbols != [] ==> j < |Symbols(es, uses)| && Symbols(es, uses)[j] == symbols[0])
            && (relas != [] ==>
                  n < |Relocations(plt, base, es, uses)| && Relocations(plt, base, es, uses)[n] == relas[0])
  {
    NextRelocation(plt, base, es, uses, i);
    SymbolsRise(es, uses, uses[..i + 1]);
    RelocationsRise(plt, base, es, uses, uses[..i + 1]);
  }

  /** Relocation x is of a type and against a symbol of that name, and adds nothing to its value. */
  ghost predicate Against(x: Rela, kind: nat, symbols: seq<Name>, name: Name, base: nat) {
    && x.r_info % 0x1_0000_0000 == kind && x.r_info / 0x1_0000_0000 < |symbols|
    && symbols[x.r_info / 0x1_0000_0000] == name && x.r_addend == 0 - base
  }

  /**
   The relocation a data word gets: for an exported name with a value one of type 8 (relative) without
   symbol, for any other one of type 6 (GLOB_DAT) against the symbol of that name.
   */
  ghost predicate WordRelocated(x: Rela, u: Use, es: seq<Export>, base: nat, symbols: seq<Name>) {
    u.Word? ==>
      && x.r_offset == u.src - base
      && (if ValueOf(es, u.name) != 0 then x.r_info == 8 && x.r_addend == ValueOf(es, u.name) - base
          else Against(x, 6, symbols, u.name, base))
  }

  /** The relocations that a data word gets, its symbol named through the tables themselves. */
  ghost predicate WordAnswered(
    relas: seq<Rela>, dynsym: seq<Sym>, dynstr: seq<uint8>, es: seq<Export>, u: Use, base: nat)
  {
    u.Word? ==> exists n :: 0 <= n < |relas| && Answers(relas[n], dynsym, dynstr, es, u, base)
  }

  ghost predicate Answers(x: Rela, dynsym: seq<Sym>, dynstr: seq<uint8>, es: seq<Export>, u: Use, base: nat)
    requires u.Word?
  {
    && x.r_offset == u.src - base
    && (if ValueOf(es, u.name) != 0 then x.r_info == 8 && x.r_addend == ValueOf(es, u.name) - base
        else
          var j := x.r_info / 0x1_0000_0000;
          && x.r_info % 0x1_0000_0000 == 6 && x.r_addend == 0 - base
          && j < |dynsym| && CString(dynstr, dynsym[j].st_name) == u.name)
  }

  /** Every data word has its relocation. */
  lemma {:induction false} WordHasRelocation(plt: nat, base: nat, es: seq<Export>, uses: seq<Use>, i: nat)
    returns (n: nat)
    requires i < |uses| && uses[i].Word?
    ensures n < |Relocations(plt, base, es, uses)|
    ensures WordRelocated(Relocations(plt, base, es, uses)[n], uses[i], es, base, Symbols(es, uses))
  {
    n := |Relocations(plt, base, es, uses[..i])|;
    AddedByUse(plt, base, es, uses, i);
    WordReads(Relocations(plt, base, es, uses)[n], uses[i], es, base, Symbols(es, uses), |Symbols(es, uses[..i])|);
  }

  lemma {:induction false} WordReads(x: Rela, u: Use, es: seq<Export>, base: nat, symbols: seq<Name>, j: nat)
    requires u.Word? && ([x] == RelocationOf(0, base, [], j, es, u))
    requires ValueOf(es, u.name) == 0 ==> j < |symbols| && symbols[j] == u.name
    ensures WordRelocated(x, u, es, base, symbols)
  {
    InfoSplits(j, 6);
  }

  /**
   Every slot has its relocation, of type 7 (JUMP_SLOT) for a call and 6 (GLOB_DAT) for a word of the
   slot, against the symbol of the requested name.
   */
  lemma {:induction false} SlotHasRelocation(plt: nat, base: nat, es: seq<Export>, uses: seq<Use>, i: nat)
    returns (n: nat)
    requires i < |uses| && NeedsSlot(Slots(Requests(es, uses[..i])), es, uses[i])
    ensures n < |Relocations(plt, base, es, uses)|
    ensures var x, k := Relocations(plt, base, es, uses)[n], |Slots(Requests(es, uses[..i]))|;
            && x.r_offset == plt + 0x10 * k + 8 - base
            && Against(x, if uses[i].Call? then 7 else 6, Symbols(es, uses), uses[i].name, base)
  {
    n := |Relocations(plt, base, es, uses[..i])|;
    AddedByUse(plt, base, es, uses, i);
    SlotReads(Relocations(plt, base, es, uses)[n], plt, base, |Slots(Requests(es, uses[..i]))|,
              |Symbols(es, uses[..i])|, if uses[i].Call? then 7 else 6, Symbols(es, uses), uses[i].name);
  }

  lemma {:induction false} SlotReads(
    x: Rela, plt: nat, base: nat, k: nat, j: nat, kind: nat, symbols: seq<Name>, name: Name)
    requires x == SlotRela(plt, base, k, j, kind) && kind < 0x1_0000_0000 && j < |symbols| && symbols[j] == name
    ensures x.r_offset == plt + 0x10 * k + 8 - base && Against(x, kind, symbols, name, base)
  {
    InfoSplits(j, kind);
  }

  function Words(uses: seq<Use>): nat {
    if uses == [] then 0 else Words(uses[..|uses| - 1]) + if uses[|uses| - 1].Word? then 1 else 0
  }

  /** There is one relocation for every slot and every data word. */
  lemma {:induction false} RelocationsCounted(plt: nat, base: nat, es: seq<Export>, uses: seq<Use>)
    ensures |Relocations(plt, base, es, uses)| == |Slots(Requests(es, uses))| + Words(uses)
  {
    if uses != [] {
      var n := |uses| - 1;
      RelocationsCounted(plt, base, es, uses[..n]);
      assert uses[..n + 1] == uses;
      UsesStep(es, uses, n);
      SlotIffNeeded(Slots(Requests(es, uses[..n])), es, uses[n]);
    }
  }

  /** Two characters do not wrap around. */
  lemma {:induction false} HashOfTwo(s: Name)
    requires |s| == 2
    ensures GnuHash(s) == 33 * (177573 + s[0] as nat) + s[1] as nat
  {
    var t := s[..1];
    assert t[..0] == [] && GnuHash(t[..0]) == 5381;
    assert GnuHash(t) == (33 * 5381 + t[0] as nat) % 0x1_0000_0000;
    assert GnuHash(s) == (33 * GnuHash(t) + s[1] as nat) % 0x1_0000_0000;
  }

  lemma {:induction false} HashesCollide(b: Name, c: Name)
    requires b == [0x42, 0x62] && c == [0x43, 0x41]
    ensures GnuHash(b) == GnuHash(c) >= 2
  {
    HashOfTwo(b);
    HashOfTwo(c);
  }

  /** The filter of one name accepts its hash. */
  lemma {:induction false} OneName(b: Name, filter: seq<Bits>)
    requires filter == FilterOf(BLOOM_SIZE, BLOOM_SHIFT, [b])
    ensures Accepts(filter, BLOOM_SHIFT, GnuHash(b))
  {
    var blank := FilterOf(BLOOM_SIZE, BLOOM_SHIFT, []);
    FilterAppended(BLOOM_SIZE, BLOOM_SHIFT, [], b);
    assert [] + [b] == [b];
    SetAccepts(blank, BLOOM_SHIFT, GnuHash(b), 0);
  }

  /** "Bb" and "CA" have one hash: with only the first exported, looking the second up does not end in the table. */
  lemma {:induction false} CollidingNameNeverStops(
    words: seq<nat>, names: seq<Name>, b: Name, c: Name, filter: seq<Bits>)
    requires b == [0x42, 0x62] && c == [0x43, 0x41] && filter == FilterOf(BLOOM_SIZE, BLOOM_SHIFT, [b])
    requires Represents(words, BUCKETS, SYMOFFSET, [b]) && Named([b], SYMOFFSET, names)
    ensures Walks(words, BUCKETS, filter, BLOOM_SHIFT, c)
    ensures forall k :: 0 <= k < |words| - BUCKETS ==> !Stops(words, BUCKETS, SYMOFFSET, names, c, k)
  {
    HashesCollide(b, c);
    OneName(b, filter);
    assert words[0] == Head([b], BUCKETS, SYMOFFSET, 0);
    WalkEndsIffPresent(words, BUCKETS, SYMOFFSET, [b], names, c);
  }

  /** Room for the uses from one on, one symbol, relocation and string each. */
  function UsesSize(uses: seq<Use>, n: nat): nat
    requires n <= |uses|
  {
    if n == 0 then 0 else UsesSize(uses, n - 1) + |uses[n - 1].name| + 1
  }

  lemma {:induction false} UsesSizeRises(uses: seq<Use>, m: nat, n: nat)
    requires m <= n <= |uses|
    ensures UsesSize(uses, m) <= UsesSize(uses, n)
    decreases n
  {
    if m < n { UsesSizeRises(uses, m, n - 1); }
  }

  lemma {:induction false} NamesSizeAppended(es: seq<Export>, e: Export)
    ensures NamesSize(es + [e]) == NamesSize(es) + |e.name| + 1
    ensures Names(es + [e]) == Names(es) + [e.name]
  {
    assert (es + [e])[..|es|] == es;
  }

  lemma {:induction false} NamesSizeRises(es: seq<Export>, n: nat)
    requires n <= |es|
    ensures NamesSize(es[..n]) <= NamesSize(es)
  {
    if n < |es| {
      assert es[..|es| - 1][..n] == es[..n];
      NamesSizeRises(es[..|es| - 1], n);
    } else {
      assert es[..n] == es;
    }
  }
}

module ElfLink {
  import opened Machine
  import opened Hashes
  import opened GnuSpec
  import opened GnuIndex
  import opened ElfDynamicSpec
  import opened ElfDynamic
  import opened ElfLinkSpec

  /** The GNU hash is an index of the exported symbols of the symbol table. */
  ghost predicate Coupled(t: Tables, g: GnuHashTable)
    reads t, t.memo, t.memo.Repr, t.got, t.dynstr, t.dynsym, t.rela, g, g.filter, g.words
  {
    && t.Valid() && g.Valid() && {g, g.filter, g.words} !! t.Repr()
    && g.symoffset == SYMOFFSET && g.log == Names(t.exports)
  }

  /** The lookup of a name in the index ends. */
  ghost predicate CanFind(g: GnuHashTable, name: Name)
    requires g.Valid()
    reads g, g.filter, g.words
  {
    name in g.log || !Walks(g.words[..], g.nbuckets, g.filter[..], g.shift, name)
  }

  lemma {:induction false} ExportsNamed(dynsym: seq<Sym>, symNames: seq<Name>, es: seq<Export>)
    requires ExportsOk(dynsym, symNames, es)
    ensures Named(Names(es), SYMOFFSET, symNames)
    ensures forall k :: 0 <= k < |es| ==> dynsym[1 + k].st_value == es[k].value
  {
    forall k | 0 <= k < |es| ensures symNames[1 + k] == es[k].name && dynsym[1 + k].st_value == es[k].value {
      assert ExportAt(dynsym, symNames, es, k);
    }
  }

  /** The value of a symbol found by name: that of the first export of the name, 0 if there is none. */
  method FindValue(t: Tables, g: GnuHashTable, name: Name) returns (value: nat)
    requires Coupled(t, g) && CanFind(g, name)
    ensures value == ValueOf(t.exports, name)
  {
    ExportsNamed(t.dynsym[..], t.symNames, t.exports);
    var i := g.FindSym2(name, t.dynstr[..], t.dynsym[..], t.strSize, t.symNames);
    value := t.dynsym[i].st_value;
  }

  /** One exported symbol, in all tables. */
  method AddExportSymbol(t: Tables, g: GnuHashTable, e: Export)
    requires Coupled(t, g) && |t.symNames| == |t.exports| + 1 && IsName(e.name) && GnuHash(e.name) >= 2
    requires t.strSize + |e.name| < t.dynstr.Length && t.symNum + 1 < CAPACITY
    requires g.nbuckets + |g.log| < g.words.Length
    modifies t`strSize, t`symNum, t`symNames, t`exports, t.dynstr, t.dynsym, g`log, g.filter, g.words
    ensures Coupled(t, g) && t.exports == old(t.exports) + [e] && t.symNames == old(t.symNames) + [e.name]
    ensures t.strSize == old(t.strSize) + |e.name| + 1
    ensures g.filter[..] == Set(old(g.filter[..]), g.shift, GnuHash(e.name))
  {
    NamesSizeAppended(t.exports, e);
    t.AddExported(e);
    g.Enter(e.name, t.symNum - 1);
  }

  /** The filter is that of the exported symbols. */
  ghost predicate FilterIs(g: GnuHashTable, names: seq<Name>)
    reads g, g.filter
  {
    g.shift == 5 && g.filter[..] == FilterOf(2, 5, names)
  }

  /** Symbol i of a list. */
  method AddExportNext(t: Tables, g: GnuHashTable, es: seq<Export>, i: nat, ghost next: nat, ghost start: nat)
    requires Entered(t, g, es, i, start) && i < |es| && next == i + 1
    requires ExportsFit(es, start, t.dynstr.Length) && g.nbuckets + |es| <= g.words.Length
    modifies t`strSize, t`symNum, t`symNames, t`exports, t.dynstr, t.dynsym, g`log, g.filter, g.words
    ensures Entered(t, g, es, next, start)
  {
    NextExport(es, i);
    AddExportSymbol(t, g, es[i]);
  }

  /** The first i symbols of a list are entered, for a string table that was filled up to start. */
  ghost predicate Entered(t: Tables, g: GnuHashTable, es: seq<Export>, i: nat, start: nat)
    reads t, t.memo, t.memo.Repr, t.got, t.dynstr, t.dynsym, t.rela, g, g.filter, g.words
  {
    && i <= |es| && Coupled(t, g) && t.exports == es[..i] && t.symNames == [[]] + Names(es[..i])
    && FilterIs(g, Names(es[..i])) && t.strSize == start + NamesSize(es[..i])
  }

  /** The exported symbols of all objects, in order. */
  method AddExports(t: Tables, g: GnuHashTable, es: seq<Export>, ghost start: nat)
    requires Entered(t, g, es, 0, start)
    requires ExportsFit(es, start, t.dynstr.Length) && g.nbuckets + |es| <= g.words.Length
    modifies t`strSize, t`symNum, t`symNames, t`exports, t.dynstr, t.dynsym, g`log, g.filter, g.words
    ensures Entered(t, g, es, |es|, start)
  {
    var i := 0;
    while i < |es|
      invariant Entered(t, g, es, i, start)
    {
      AddExportNext(t, g, es, i, i + 1, start);
      i := i + 1;
    }
  }

  lemma {:induction false} NextExport(es: seq<Export>, i: nat)
    requires i < |es|
    ensures es[..i + 1] == es[..i] + [es[i]] && es[i] in es
    ensures [[]] + Names(es[..i + 1]) == [[]] + Names(es[..i]) + [es[i].name]
    ensures NamesSize(es[..i + 1]) == NamesSize(es[..i]) + |es[i].name| + 1 <= NamesSize(es)
    ensures FilterOf(BLOOM_SIZE, BLOOM_SHIFT, Names(es[..i + 1]))
            == Set(FilterOf(BLOOM_SIZE, BLOOM_SHIFT, Names(es[..i])), BLOOM_SHIFT, GnuHash(es[i].name))
  {
    var first: seq<Name> := [[]];
    assert es[..i + 1] == es[..i] + [es[i]];
    assert first + (Names(es[..i]) + [es[i].name]) == first + Names(es[..i]) + [es[i].name];
    NamesSizeAppended(es[..i], es[i]);
    NamesSizeRises(es, i + 1);
    FilterAppended(BLOOM_SIZE, BLOOM_SHIFT, Names(es[..i]), es[i].name);
  }

  // ---------- the relocation pass ----------

  /** The counters after the first n uses, for a string table that was filled up to start. */
  ghost predicate Within(t: Tables, start: nat, uses: seq<Use>, n: nat)
    requires n <= |uses|
    reads t
  {
    && |t.slots| <= n && |t.symNames| <= n + 1 + |t.exports| && |t.relas| <= n
    && t.strSize <= start + UsesSize(uses, n)
  }

  /** A word outside the slots, at or behind the image base. */
  ghost predicate Outside(u: Use, plt: nat, base: nat) {
    u.Word? ==> base <= u.src && forall k: nat :: k < CAPACITY ==> u.src - base != SlotWord(plt, base, k)
  }

  ghost predicate RoomFor(t: Tables, start: nat, uses: seq<Use>)
    reads t
  {
    |t.exports| + |uses| + 1 < CAPACITY && start + UsesSize(uses, |uses|) < t.dynstr.Length
  }

  /** An import; the index of exported symbols stays. */
  method Import(t: Tables, g: GnuHashTable, name: Name, kind: nat, check: bool) returns (r: nat)
    requires Coupled(t, g) && IsName(name) && kind < 0x1_0000_0000
    requires t.gotNum + 1 < CAPACITY && t.symNum + 1 < CAPACITY && t.relaNum + 1 < CAPACITY
    requires t.strSize + |name| < t.dynstr.Length
    modifies t.Repr()
    ensures Coupled(t, g) && fresh(t.Repr() - old(t.Repr())) && t.exports == old(t.exports) && t.libs == old(t.libs)
    ensures t.slots == Next(old(t.slots), Request(name, check))
    ensures r == t.plt + SLOT * Answer(old(t.slots), Request(name, check))
    ensures t.strSize <= old(t.strSize) + |name| + 1
    ensures t.slots == old(t.slots) ==> t.symNames == old(t.symNames) && t.relas == old(t.relas)
    ensures t.slots != old(t.slots) ==>
              && t.symNames == old(t.symNames) + [name]
              && t.relas == old(t.relas) + [SlotRela(t.plt, t.base, |old(t.slots)|, |old(t.symNames)|, kind)]
  {
    r := t.AddDynamicEntry(name, kind, check);
  }

  /** What a use makes of slots, symbols and relocations. */
  ghost predicate Used(t: Tables, u: Use, slots: seq<Name>, symNames: seq<Name>, relas: seq<Rela>)
    reads t
  {
    && t.slots == After(slots, t.exports, u)
    && t.symNames == symNames + SymbolOf(slots, t.exports, u)
    && t.relas == relas + RelocationOf(t.plt, t.base, slots, |symNames|, t.exports, u)
  }

  /** A data word without a value in the link: a relocation against the imported symbol. */
  method ImportWord(t: Tables, g: GnuHashTable, u: Use)
    requires Coupled(t, g) && u.Word? && IsName(u.name) && Outside(u, t.plt, t.base) && ValueOf(t.exports, u.name) == 0
    requires t.symNum + 1 < CAPACITY && t.relaNum + 1 < CAPACITY && t.strSize + |u.name| < t.dynstr.Length
    modifies t`strSize, t`symNum, t`symNames, t`relaNum, t`relas, t.dynstr, t.dynsym, t.rela
    ensures Coupled(t, g) && Used(t, u, old(t.slots), old(t.symNames), old(t.relas))
    ensures t.strSize == old(t.strSize) + |u.name| + 1
  {
    WordUse(t.plt, t.base, t.slots, |t.symNames|, t.exports, u);
    t.AddDynamicEntry2(u.src, u.name);
  }

  /** One with a value, which is put there relative to the base. */
  method OwnWord(t: Tables, g: GnuHashTable, u: Use, value: nat)
    requires Coupled(t, g) && u.Word? && Outside(u, t.plt, t.base) && t.relaNum + 1 < CAPACITY
    requires value == ValueOf(t.exports, u.name) != 0
    modifies t`relaNum, t`relas, t.rela
    ensures Coupled(t, g) && Used(t, u, old(t.slots), old(t.symNames), old(t.relas))
  {
    WordUse(t.plt, t.base, t.slots, |t.symNames|, t.exports, u);
    t.AddRelative(u.src, value);
  }

  /** A data word; the index of exported symbols stays. */
  method ResolveWord(t: Tables, g: GnuHashTable, u: Use, value: nat)
    requires Coupled(t, g) && u.Word? && IsName(u.name) && Outside(u, t.plt, t.base)
    requires value == ValueOf(t.exports, u.name)
    requires t.symNum + 1 < CAPACITY && t.relaNum + 1 < CAPACITY && t.strSize + |u.name| < t.dynstr.Length
    modifies t`strSize, t`symNum, t`symNames, t`relaNum, t`relas, t.dynstr, t.dynsym, t.rela
    ensures Coupled(t, g) && Used(t, u, old(t.slots), old(t.symNames), old(t.relas))
    ensures t.strSize <= old(t.strSize) + |u.name| + 1
  {
    if value == 0 {
      ImportWord(t, g, u);
    } else {
      OwnWord(t, g, u, value);
    }
  }

  /** The address for an instruction: an exported function itself, or a slot. */
  method ResolveCode(t: Tables, g: GnuHashTable, u: Use, value: nat) returns (dst: nat)
    requires Coupled(t, g) && !u.Word? && IsName(u.name) && value == ValueOf(t.exports, u.name)
    requires t.gotNum + 1 < CAPACITY && t.symNum + 1 < CAPACITY && t.relaNum + 1 < CAPACITY
    requires t.strSize + |u.name| < t.dynstr.Length
    modifies t.Repr()
    ensures Coupled(t, g) && fresh(t.Repr() - old(t.Repr())) && t.exports == old(t.exports) && t.libs == old(t.libs)
    ensures Used(t, u, old(t.slots), old(t.symNames), old(t.relas))
    ensures dst == Destination(t.plt, old(t.slots), t.exports, u) && t.strSize <= old(t.strSize) + |u.name| + 1
  {
    dst := value;
    SlotIffNeeded(t.slots, t.exports, u);
    if u.Got? {
      dst := Import(t, g, u.name, 6 /* R_X86_64_GLOB_DAT */, false);
      dst := dst + 8;
    } else if value == 0 {
      dst := Import(t, g, u.name, 7 /* R_X86_64_JUMP_SLOT */, true);
    }
  }

  /** resolve_new for a symbol of that value, 0 if it is not in the link, up to the filling of the site. */
  method ResolveFound(t: Tables, g: GnuHashTable, u: Use, value: nat) returns (dst: nat)
    requires Coupled(t, g) && IsName(u.name) && Outside(u, t.plt, t.base) && value == ValueOf(t.exports, u.name)
    requires t.gotNum + 1 < CAPACITY && t.symNum + 1 < CAPACITY && t.relaNum + 1 < CAPACITY
    requires t.strSize + |u.name| < t.dynstr.Length
    modifies t.Repr()
    ensures Coupled(t, g) && fresh(t.Repr() - old(t.Repr())) && t.exports == old(t.exports) && t.libs == old(t.libs)
    ensures Used(t, u, old(t.slots), old(t.symNames), old(t.relas))
    ensures dst == Destination(t.plt, old(t.slots), t.exports, u) && t.strSize <= old(t.strSize) + |u.name| + 1
  {
    if u.Word? {
      WordUse(t.plt, t.base, t.slots, 0, t.exports, u);
      dst := value;
      ResolveWord(t, g, u, value);
    } else {
      dst := ResolveCode(t, g, u, value);
    }
  }

  /** The lookup that decides between the two. */
  method Resolve(t: Tables, g: GnuHashTable, u: Use) returns (dst: nat)
    requires Coupled(t, g) && CanFind(g, u.name) && IsName(u.name) && Outside(u, t.plt, t.base)
    requires t.gotNum + 1 < CAPACITY && t.symNum + 1 < CAPACITY && t.relaNum + 1 < CAPACITY
    requires t.strSize + |u.name| < t.dynstr.Length
    modifies t.Repr()
    ensures Coupled(t, g) && fresh(t.Repr() - old(t.Repr())) && t.exports == old(t.exports) && t.libs == old(t.libs)
    ensures Used(t, u, old(t.slots), old(t.symNames), old(t.relas))
    ensures dst == Destination(t.plt, old(t.slots), t.exports, u) && t.strSize <= old(t.strSize) + |u.name| + 1
  {
    var value := FindValue(t, g, u.name);
    dst := ResolveFound(t, g, u, value);
  }

  /** Names to look up, and words at places where no slot is. */
  ghost predicate UsesOk(uses: seq<Use>, es: seq<Export>, plt: nat, base: nat) {
    forall i :: 0 <= i < |uses| ==> UseOk(uses[i], es, plt, base)
  }

  ghost predicate UseOk(u: Use, es: seq<Export>, plt: nat, base: nat) {
    IsName(u.name) && Resolvable(es, u.name) && Outside(u, plt, base)
  }

  /** A lookup the filter of the exported symbols turns away, or that finds one of them, ends. */
  lemma {:induction false} ResolvableEnds(g: GnuHashTable, es: seq<Export>, name: Name)
    requires g.Valid() && g.log == Names(es) && FilterIs(g, Names(es)) && Resolvable(es, name)
    ensures CanFind(g, name)
  {
  }

  /** Use i of a pass, counted. */
  method ResolveWithin(t: Tables, g: GnuHashTable, uses: seq<Use>, i: nat, ghost next: nat, ghost start: nat)
    returns (dst: nat)
    requires Coupled(t, g) && i < |uses| && next == i + 1
    requires CanFind(g, uses[i].name) && IsName(uses[i].name) && Outside(uses[i], t.plt, t.base)
    requires Within(t, start, uses, i) && RoomFor(t, start, uses)
    modifies t.Repr()
    ensures Coupled(t, g) && fresh(t.Repr() - old(t.Repr())) && t.exports == old(t.exports) && t.libs == old(t.libs)
    ensures Used(t, uses[i], old(t.slots), old(t.symNames), old(t.relas))
    ensures dst == Destination(t.plt, old(t.slots), t.exports, uses[i])
    ensures Within(t, start, uses, next)
  {
    UsesSizeRises(uses, i + 1, |uses|);
    dst := Resolve(t, g, uses[i]);
  }

  /** The tables after a pass over uses. */
  ghost predicate Filled(t: Tables, es: seq<Export>, uses: seq<Use>)
    reads t
  {
    && t.slots == Slots(Requests(es, uses)) && t.symNames == Symbols(es, uses)
    && t.relas == Relocations(t.plt, t.base, es, uses)
  }

  /** And answered. */
  method ResolveNext(
    t: Tables, g: GnuHashTable, uses: seq<Use>, i: nat, ghost next: nat, ghost es: seq<Export>, ghost start: nat,
    before: seq<nat>)
    returns (dsts: seq<nat>)
    requires Coupled(t, g) && FilterIs(g, Names(es)) && t.exports == es && i < |uses| && next == i + 1
    requires UsesOk(uses, es, t.plt, t.base) && Within(t, start, uses, i) && RoomFor(t, start, uses)
    requires Filled(t, es, uses[..i]) && before == Destinations(t.plt, es, uses, i)
    modifies t.Repr()
    ensures Coupled(t, g) && fresh(t.Repr() - old(t.Repr())) && t.exports == es && t.libs == old(t.libs)
    ensures Within(t, start, uses, next) && Filled(t, es, uses[..next])
    ensures dsts == Destinations(t.plt, es, uses, next)
  {
    assert CanFind(g, uses[i].name) && IsName(uses[i].name) && Outside(uses[i], t.plt, t.base) by {
      assert UseOk(uses[i], es, t.plt, t.base);
      ResolvableEnds(g, es, uses[i].name);
    }
    UsesStep(es, uses, i);
    NextRelocation(t.plt, t.base, es, uses, i);
    var dst := ResolveWithin(t, g, uses, i, next, start);
    NextDestination(t.plt, es, uses, i, dst);
    dsts := before + [dst];
  }

  /** The rest of a pass, from use i on. */
  method ResolveFrom(
    t: Tables, g: GnuHashTable, uses: seq<Use>, i: nat, ghost es: seq<Export>, ghost start: nat, before: seq<nat>)
    returns (dsts: seq<nat>)
    requires Coupled(t, g) && FilterIs(g, Names(es)) && t.exports == es && i <= |uses|
    requires UsesOk(uses, es, t.plt, t.base) && Within(t, start, uses, i) && RoomFor(t, start, uses)
    requires Filled(t, es, uses[..i]) && before == Destinations(t.plt, es, uses, i)
    modifies t.Repr()
    ensures Coupled(t, g) && t.exports == es && t.libs == old(t.libs)
    ensures Filled(t, es, uses[..|uses|]) && dsts == Destinations(t.plt, es, uses, |uses|)
    decreases |uses| - i
  {
    dsts := before;
    if i < |uses| {
      dsts := ResolveNext(t, g, uses, i, i + 1, es, start, before);
      dsts := ResolveFrom(t, g, uses, i + 1, es, start, dsts);
    }
  }

  /** Room for all names of a link. */
  ghost predicate LinkFits(dynlib: seq<Name>, es: seq<Export>, uses: seq<Use>) {
    && (forall l :: l in dynlib ==> IsName(l))
    && (forall e :: e in es ==> IsName(e.name) && GnuHash(e.name) >= 2)
    && |es| + |uses| + 1 < CAPACITY
    && |NeededText(dynlib, |dynlib|)| + NamesSize(es) + UsesSize(uses, |uses|) < CAPACITY
  }

  /** An empty index beside tables without exported symbols. */
  method EmptyIndex(t: Tables) returns (g: GnuHashTable)
    requires t.Valid() && t.exports == []
    ensures Coupled(t, g) && FilterIs(g, []) && fresh({g, g.filter, g.words})
    ensures g.nbuckets == 1 && g.symoffset == 1 && g.words.Length == 1 + CAPACITY
  {
    g := new GnuHashTable(BUCKETS, SYMOFFSET, BLOOM_SIZE, BLOOM_SHIFT, CAPACITY);
  }

  /** Tables with the needed libraries, and an empty index. */
  method EmptyLink(plt: nat, base: nat, dynlib: seq<Name>) returns (t: Tables, g: GnuHashTable)
    requires base <= plt && 0 < plt
    requires (forall l :: l in dynlib ==> IsName(l)) && |NeededText(dynlib, |dynlib|)| < CAPACITY
    ensures Coupled(t, g) && FilterIs(g, []) && fresh(t.Repr()) && fresh({g, g.filter, g.words})
    ensures g.nbuckets == 1 && g.symoffset == 1 && g.words.Length == 1 + CAPACITY
    ensures t.plt == plt && t.base == base && t.libs == Needed(dynlib) && t.dynstr.Length == CAPACITY
    ensures t.exports == [] && t.symNames == [[]] && t.slots == [] && t.relas == []
    ensures t.strSize <= |NeededText(dynlib, |dynlib|)|
  {
    t := NeedingTables(plt, base, dynlib);
    g := EmptyIndex(t);
  }

  /** The exported symbols, as a change of the tables as a whole. */
  method EnterExports(t: Tables, g: GnuHashTable, es: seq<Export>)
    requires Coupled(t, g) && t.exports == [] && t.symNames == [[]] && FilterIs(g, [])
    requires ExportsFit(es, t.strSize, t.dynstr.Length) && g.nbuckets + |es| <= g.words.Length
    modifies t.Repr(), g, g.filter, g.words
    ensures Coupled(t, g) && t.exports == es && t.symNames == [[]] + Names(es) && FilterIs(g, Names(es))
    ensures t.strSize == old(t.strSize) + NamesSize(es) && t.Repr() == old(t.Repr())
    ensures t.slots == old(t.slots) && t.relas == old(t.relas) && t.libs == old(t.libs)
  {
    assert es[..0] == [] && [[]] + Names([]) == [[]] && es[..|es|] == es;
    AddExports(t, g, es, t.strSize);
  }

  /** Tables with the needed libraries and the exported symbols, and the index of the latter. */
  method ExportingTables(plt: nat, base: nat, dynlib: seq<Name>, es: seq<Export>, ghost uses: seq<Use>)
    returns (t: Tables, g: GnuHashTable)
    requires base <= plt && 0 < plt && LinkFits(dynlib, es, uses)
    ensures Coupled(t, g) && FilterIs(g, Names(es)) && t.exports == es && t.libs == Needed(dynlib)
    ensures fresh(t.Repr()) && t.plt == plt && t.base == base && g.nbuckets == 1 && g.symoffset == 1
    ensures Filled(t, es, []) && Within(t, t.strSize, uses, 0) && RoomFor(t, t.strSize, uses)
  {
    t, g := EmptyLink(plt, base, dynlib);
    EnterExports(t, g, es);
  }

  /** The relocation pass and the DT_NEEDED entries. */
  method Finish(t: Tables, g: GnuHashTable, uses: seq<Use>, ghost es: seq<Export>, ghost start: nat)
    returns (dsts: seq<nat>, values: seq<nat>)
    requires Coupled(t, g) && FilterIs(g, Names(es)) && t.exports == es && Filled(t, es, [])
    requires UsesOk(uses, es, t.plt, t.base) && Within(t, start, uses, 0) && RoomFor(t, start, uses)
    modifies t.Repr()
    ensures Coupled(t, g) && t.exports == es && t.libs == old(t.libs)
    ensures Filled(t, es, uses) && dsts == Destinations(t.plt, es, uses, |uses|)
    ensures |values| == |t.libs| && forall k :: 0 <= k < |t.libs| ==> CString(t.dynstr[..], values[k]) == t.libs[k]
  {
    assert uses[..0] == [] && uses[..|uses|] == uses;
    dsts := ResolveFrom(t, g, uses, 0, es, start, []);
    values := t.DtNeeded();
  }

  /** In the tables after a pass every data word is answered. */
  lemma {:induction false} WordsAnswered(t: Tables, es: seq<Export>, uses: seq<Use>)
    requires t.Valid() && Filled(t, es, uses)
    ensures t.relaNum == |t.slots| + Words(uses)
    ensures forall i :: 0 <= i < |uses| ==>
              WordAnswered(t.rela[..t.relaNum], t.dynsym[..], t.dynstr[..], es, uses[i], t.base)
  {
    RelocationsCounted(t.plt, t.base, es, uses);
    forall i | 0 <= i < |uses|
      ensures WordAnswered(t.rela[..t.relaNum], t.dynsym[..], t.dynstr[..], es, uses[i], t.base)
    {
      if uses[i].Word? {
        var n := WordHasRelocation(t.plt, t.base, es, uses, i);
        NamedAnswers(t.relas[n], t.dynsym[..], t.dynstr[..], t.strSize, es, uses[i], t.base, t.symNames);
      }
    }
  }

  lemma {:induction false} NamedAnswers(
    x: Rela, dynsym: seq<Sym>, dynstr: seq<uint8>, size: nat, es: seq<Export>, u: Use, base: nat, symNames: seq<Name>)
    requires u.Word? && WordRelocated(x, u, es, base, symNames) && StringsOk(dynstr, size, dynsym, symNames)
    ensures Answers(x, dynsym, dynstr, es, u, base)
  {
    if ValueOf(es, u.name) == 0 {
      assert NamedBy(dynstr, size, dynsym[x.r_info / 0x1_0000_0000], u.name);
    }
  }

  /**
   The dynamic part of a link: fresh tables, the needed libraries, the exported symbols, the
   relocation pass, and the DT_NEEDED entries written at the end.
   */
  method LinkDynamic(plt: nat, base: nat, dynlib: seq<Name>, es: seq<Export>, uses: seq<Use>)
    returns (t: Tables, g: GnuHashTable, dsts: seq<nat>, values: seq<nat>)
    requires base <= plt && 0 < plt && LinkFits(dynlib, es, uses) && UsesOk(uses, es, plt, base)
    ensures Coupled(t, g) && t.exports == es && t.plt == plt && t.base == base && Filled(t, es, uses)
    ensures g.nbuckets == 1 && g.symoffset == 1 && FilterIs(g, Names(es))
    ensures t.relaNum == |t.slots| + Words(uses)
    ensures forall i :: 0 <= i < |uses| ==>
              WordAnswered(t.rela[..t.relaNum], t.dynsym[..], t.dynstr[..], es, uses[i], base)
    ensures dsts == Destinations(plt, es, uses, |uses|)
    ensures |values| == |Needed(dynlib)|
    ensures forall k :: 0 <= k < |values| ==> CString(t.dynstr[..], values[k]) == Needed(dynlib)[k]
  {
    t, g := ExportingTables(plt, base, dynlib, es, uses);
    dsts, values := Finish(t, g, uses, es, t.strSize);
    WordsAnswered(t, es, uses);
  }
}
