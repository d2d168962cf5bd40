/**
 The COFF relocation pass over all kinds of symbols: static ones, names the link exports, looked
 up through the hash table in the export directory, and names that DLLs provide.
 */
module CoffCallSpec {
  import opened Machine
  import opened LittleEndian
  import opened RelocSpec
  import opened CoffImportSpec
  import S = SysvSpec
  import E = CoffExportSpec

  // ---------- exported names ----------

  function ExportNames(es: seq<E.Export>): (s: seq<Name>)
    ensures |s| == |es| && forall i :: 0 <= i < |es| ==> s[i] == es[i].name
  {
    seq(|es|, i requires 0 <= i < |es| => es[i].name)
  }

  /** The address a name is found at: that of its first export at an index other than 0; 0 without one. */
  function ExportAddress(es: seq<E.Export>, name: Name): nat {
    var i := S.FirstIndex(S.ExportLog(ExportNames(es)), name);
    if 0 < i < |es| then es[i].address else 0
  }

  lemma {:induction false} FirstExportFound(es: seq<E.Export>, name: Name, i: nat)
    requires 1 <= i < |es| && es[i].name == name && forall j :: 1 <= j < i ==> es[j].name != name
    ensures ExportAddress(es, name) == es[i].address
  {
    S.ExportFoundIffNotFirst(ExportNames(es), name);
  }

  /** Only the first export, or none, is found nowhere. */
  lemma {:induction false} OthersNotFound(es: seq<E.Export>, name: Name)
    requires forall i :: 1 <= i < |es| ==> es[i].name != name
    ensures ExportAddress(es, name) == 0
  {
    S.ExportFoundIffNotFirst(ExportNames(es), name);
  }

  /** A directory at address va whose tables at offsets f and n hold the addresses and names. */
  ghost predicate ExportsStand(d: seq<uint8>, va: nat, f: nat, n: nat, es: seq<E.Export>) {
    && S.NamesRead(d, va, n, ExportNames(es))
    && forall i :: 0 <= i < |es| ==> f + 4 * i + 4 <= |d| && LeAt(d, f + 4 * i, 4) == es[i].address
  }

  /** Its tables lie where its header says. */
  lemma {:induction false} DirectoryStands(
    d: seq<uint8>, outfile: Name, es: seq<E.Export>, va: nat, f: nat, n: nat, o: nat)
    requires E.ReadsThroughHeader(d, va, outfile, es, f, n, o)
    ensures ExportsStand(d, va, f, n, es)
  {
    forall i | 0 <= i < |es| ensures S.NameReads(d, va, n, i, ExportNames(es)[i]) {
      assert E.ExportedAs(d, va, o, f, n, i, es[i]);
    }
    forall i | 0 <= i < |es| ensures f + 4 * i + 4 <= |d| && LeAt(d, f + 4 * i, 4) == es[i].address {
      assert E.ExportedAs(d, va, o, f, n, i, es[i]);
    }
  }

  /** The names of a list under their indices. */
  lemma {:induction false} LogNamed(names: seq<Name>)
    ensures S.Named(S.ExportLog(names), names) && S.Distinct(S.ExportLog(names))
  {
  }

  lemma {:induction false} LogAppended(names: seq<Name>, i: nat)
    requires i < |names|
    ensures S.ExportLog(names[..i]) + [S.Entry(names[i], i)] == S.ExportLog(names[..i + 1])
    ensures S.Distinct(S.ExportLog(names[..i]) + [S.Entry(names[i], i)])
  {
    LogNamed(names[..i + 1]);
  }

  // ---------- sites ----------

  /** What a relocation record names: a static symbol, an external name, or something it skips. */
  datatype Target = Static(address: nat) | External(name: Name) | Skipped

  /** A record of some section: file offset and address of the word. */
  datatype Site = Site(offset: nat, src: nat, kind: nat, target: Target)

  /** The names a site asks the DLLs for. */
  function Asked(es: seq<E.Export>, s: Site): seq<Name> {
    if s.target.External? && ExportAddress(es, s.target.name) == 0 then [s.target.name] else []
  }

  function AskedBy(es: seq<E.Export>, sites: seq<Site>): seq<Name> {
    if sites == [] then [] else AskedBy(es, sites[..|sites| - 1]) + Asked(es, sites[|sites| - 1])
  }

  /** The address a site is filled with, for the imports rs and a .plt at p; None where nothing is written. */
  function DstOf(es: seq<E.Export>, table: seq<Import>, p: nat, rs: seq<Import>, s: Site): Option<nat> {
    match s.target
    case Static(address) => Some(address)
    case External(name) =>
      if ExportAddress(es, name) != 0 then Some(ExportAddress(es, name)) else AnswerAfter(table, p, rs, name)
    case Skipped => None
  }

  /** The relocation of a site; one of no kind where nothing is written. */
  function RelocAt(dst: Option<nat>, s: Site): Reloc {
    match dst
    case None => Reloc(s.offset, 0, 0, s.src % 0x1_0000_0000)
    case Some(a) => Reloc(s.offset, s.kind, a % 0x1_0000_0000, s.src % 0x1_0000_0000)
  }

  function Relocs(es: seq<E.Export>, table: seq<Import>, p: nat, rs: seq<Import>, sites: seq<Site>): (r: seq<Reloc>)
    ensures |r| == |sites|
    ensures forall k :: 0 <= k < |r| ==> r[k] == RelocAt(DstOf(es, table, p, rs, sites[k]), sites[k])
  {
    seq(|sites|, k requires 0 <= k < |sites| => RelocAt(DstOf(es, table, p, rs, sites[k]), sites[k]))
  }

  lemma {:induction false} AskedGrow(es: seq<E.Export>, sites: seq<Site>, i: nat, j: nat)
    requires i <= j <= |sites|
    ensures AskedBy(es, sites[..i]) <= AskedBy(es, sites[..j])
    decreases j
  {
    if i < j {
      AskedGrow(es, sites, i, j - 1);
      assert sites[..j][..j - 1] == sites[..j - 1];
    }
  }

  /** One site more. */
  lemma {:induction false} AskedStep(es: seq<E.Export>, sites: seq<Site>, i: nat)
    requires i < |sites|
    ensures AskedBy(es, sites[..i + 1]) == AskedBy(es, sites[..i]) + Asked(es, sites[i])
    ensures AskedBy(es, sites[..i + 1]) <= AskedBy(es, sites)
  {
    assert sites[..i + 1][..i] == sites[..i];
    assert sites[..|sites|] == sites;
    AskedGrow(es, sites, i + 1, |sites|);
  }

  lemma {:induction false} FirstsGrow(table: seq<Import>, reqs: seq<Name>, n: nat)
    requires n <= |reqs|
    ensures Firsts(table, reqs[..n]) <= Firsts(table, reqs)
  {
    if n < |reqs| {
      assert reqs[..|reqs| - 1][..n] == reqs[..n];
      FirstsGrow(table, reqs[..|reqs| - 1], n);
    } else {
      assert reqs[..n] == reqs;
    }
  }

  /** The answer a request gets when it is made is the one its name has at the end. */
  lemma {:induction false} AnswerIsFinal(table: seq<Import>, p: nat, asked: seq<Name>, reqs: seq<Name>, name: Name)
    requires asked + [name] <= reqs
    ensures AnswerAfter(table, p, Firsts(table, asked + [name]), name)
            == AnswerAfter(table, p, Firsts(table, reqs), name)
  {
    var now := asked + [name];
    if IndexOf(Names(table), name) < |table| {
      AllEncountered(table, now, |asked|);
      assert reqs[..|now|] == now;
      FirstsGrow(table, reqs, |now|);
      EverStays(p, Firsts(table, now), Firsts(table, reqs), name);
    }
  }

  // ---------- where the words lead ----------

  /** Counted from behind the word, the word at a site leads to an address, plus the addend that was there. */
  ghost predicate LeadsTo(image: seq<uint8>, s: Site, addend: nat, address: nat) {
    && s.offset + 4 <= |image|
    && (LeAt(image, s.offset, 4) + s.src + 4) % 0x1_0000_0000 == (address + addend) % 0x1_0000_0000
  }

  lemma {:induction false} AddMultiple(y: int, k: int)
    ensures (y + 0x1_0000_0000 * k) % 0x1_0000_0000 == y % 0x1_0000_0000
  {
  }

  lemma {:induction false} SumModulo(x: int, a: int)
    ensures (x + a % 0x1_0000_0000) % 0x1_0000_0000 == (x + a) % 0x1_0000_0000
  {
    assert x + a == x + a % 0x1_0000_0000 + 0x1_0000_0000 * (a / 0x1_0000_0000);
    AddMultiple(x + a % 0x1_0000_0000, a / 0x1_0000_0000);
  }

  lemma {:induction false} ModuloAdds(w: nat, src: nat, addend: nat, address: nat)
    requires (w + src % 0x1_0000_0000 + 4) % 0x1_0000_0000 == (address % 0x1_0000_0000 + addend) % 0x1_0000_0000
    ensures (w + src + 4) % 0x1_0000_0000 == (address + addend) % 0x1_0000_0000
  {
    SumModulo(w + 4, src);
    SumModulo(addend, address);
  }

  /** The relative word of a site leads where the site was resolved to, whatever the other sites are. */
  lemma {:induction false} CallLeads(
    d: seq<uint8>, es: seq<E.Export>, table: seq<Import>, p: nat, rs: seq<Import>, sites: seq<Site>, base: nat, k: nat,
    address: nat)
    requires var all := Relocs(es, table, p, rs, sites); AllInRange(all, |d|) && Disjoint(all)
    requires k < |sites| && sites[k].kind in {REL32, REL32_SSPAN}
    requires DstOf(es, table, p, rs, sites[k]) == Some(address)
    ensures sites[k].offset + 4 <= |d|
    ensures LeadsTo(FillAll(d, Relocs(es, table, p, rs, sites), base), sites[k], LeAt(d, sites[k].offset, 4), address)
  {
    var all, s := Relocs(es, table, p, rs, sites), sites[k];
    RelativeWordReaches(d, all, base, k);
    ModuloAdds(LeAt(FillAll(d, all, base), s.offset, 4), s.src, LeAt(d, s.offset, 4), address);
  }

  /** What stands at a site that was resolved to an address, by the number of its type. */
  ghost predicate Resolved(was: seq<uint8>, now: seq<uint8>, s: Site, base: nat, address: nat)
    requires |was| == |now|
  {
    var o := s.offset;
    && (s.kind == 1 ==> o + 8 <= |was| && LeAt(now, o, 8) == LongSum(LeAt(was, o, 8), address, base))
    && (s.kind == 2 ==> o + 4 <= |was| && LeAt(now, o, 4) == (LeAt(was, o, 4) + address + base) % 0x1_0000_0000)
    && (s.kind == 3 ==> o + 4 <= |was| && LeAt(now, o, 4) == (LeAt(was, o, 4) + address) % 0x1_0000_0000)
    && (s.kind in {4, 0x14} ==> o + 4 <= |was| && LeadsTo(now, s, LeAt(was, o, 4), address))
  }

  lemma {:induction false} LongHolds(d: seq<uint8>, all: seq<Reloc>, base: nat, k: nat, s: Site, address: nat)
    requires AllInRange(all, |d|) && Disjoint(all) && k < |all| && s.kind == 1
    requires all[k] == RelocAt(Some(address), s) && s.offset + 8 <= |d|
    ensures LeAt(FillAll(d, all, base), s.offset, 8) == LongSum(LeAt(d, s.offset, 8), address, base)
  {
    LongWordHolds(d, all, base, k, LeAt(d, s.offset, 8));
    SumModulo(base, address);
  }

  lemma {:induction false} ShortHolds(d: seq<uint8>, all: seq<Reloc>, base: nat, k: nat, s: Site, address: nat)
    requires AllInRange(all, |d|) && Disjoint(all) && k < |all| && s.kind in {2, 3}
    requires all[k] == RelocAt(Some(address), s)
    ensures Resolved(d, FillAll(d, all, base), s, base, address)
  {
    ShortWordHolds(d, all, base, k);
    SumModulo(LeAt(d, s.offset, 4) + base, address);
    SumModulo(LeAt(d, s.offset, 4), address);
  }

  lemma {:induction false} WordResolved(
    d: seq<uint8>, es: seq<E.Export>, table: seq<Import>, p: nat, rs: seq<Import>, sites: seq<Site>, base: nat, k: nat,
    address: nat)
    requires var all := Relocs(es, table, p, rs, sites); AllInRange(all, |d|) && Disjoint(all)
    requires k < |sites| && DstOf(es, table, p, rs, sites[k]) == Some(address)
    ensures Resolved(d, FillAll(d, Relocs(es, table, p, rs, sites), base), sites[k], base, address)
  {
    var all, s := Relocs(es, table, p, rs, sites), sites[k];
    assert all[k] in all;
    if s.kind == 1 {
      LongHolds(d, all, base, k, s, address);
    } else if s.kind in {2, 3} {
      ShortHolds(d, all, base, k, s, address);
    } else if s.kind in {4, 0x14} {
      CallLeads(d, es, table, p, rs, sites, base, k, address);
    }
  }

  /** A site of a static symbol ends up with the symbol's address. */
  lemma {:induction false} StaticSite(
    d: seq<uint8>, es: seq<E.Export>, table: seq<Import>, p: nat, rs: seq<Import>, sites: seq<Site>, base: nat, k: nat)
    requires var all := Relocs(es, table, p, rs, sites); AllInRange(all, |d|) && Disjoint(all)
    requires k < |sites| && sites[k].target.Static?
    ensures Resolved(d, FillAll(d, Relocs(es, table, p, rs, sites), base), sites[k], base, sites[k].target.address)
  {
    WordResolved(d, es, table, p, rs, sites, base, k, sites[k].target.address);
  }

  /** A site of an exported name ends up with the address of the first export at an index other than 0. */
  lemma {:induction false} ExportedSite(
    d: seq<uint8>, es: seq<E.Export>, table: seq<Import>, p: nat, rs: seq<Import>, sites: seq<Site>, base: nat, k: nat,
    i: nat)
    requires var all := Relocs(es, table, p, rs, sites); AllInRange(all, |d|) && Disjoint(all)
    requires k < |sites| && 1 <= i < |es| && es[i].address != 0 && forall j :: 1 <= j < i ==> es[j].name != es[i].name
    requires sites[k].target == External(es[i].name)
    ensures Resolved(d, FillAll(d, Relocs(es, table, p, rs, sites), base), sites[k], base, es[i].address)
  {
    FirstExportFound(es, es[i].name, i);
    WordResolved(d, es, table, p, rs, sites, base, k, es[i].address);
  }
}

module CoffCalls {
  import opened Machine
  import opened LittleEndian
  import opened RelocSpec
  import opened CoffImportSpec
  import opened CoffImports
  import opened SysvIndex
  import opened CoffCallSpec
  import S = SysvSpec
  import E = CoffExportSpec
  import X = CoffExport
  import R = Reloc

  // ---------- exported names ----------

  /** The hash table that add_export fills, with every name under its number. */
  method IndexExports(es: seq<E.Export>, h: HashTable)
    requires h.Valid() && h.log == [] && 2 + h.tab[0] + |es| <= h.tab.Length
    modifies h`log, h.tab
    ensures h.Valid() && h.log == S.ExportLog(ExportNames(es))
  {
    ghost var names, nb := ExportNames(es), h.tab[0];
    var i := 0;
    while i < |es|
      invariant i <= |es| && h.Valid() && h.log == S.ExportLog(names[..i]) && h.tab[0] == nb
    {
      LogAppended(names, i);
      h.Insert(es[i].name, i);
      i := i + 1;
    }
    assert names[..i] == names;
  }

  /** What add_export leaves for lookups: the directory's bytes, where its tables are, and the hash table. */
  class Exports {
    const bytes: seq<uint8>
    const va: nat
    const functions: nat      // offset of the table of addresses
    const names: nat          // offset of the table of name addresses
    const index: HashTable
    ghost const es: seq<E.Export>

    ghost predicate Valid()
      reads index, index.tab
    {
      index.Valid() && index.log == S.ExportLog(ExportNames(es)) && ExportsStand(bytes, va, functions, names, es)
    }

    constructor (bytes: seq<uint8>, va: nat, functions: nat, names: nat, index: HashTable, ghost es: seq<E.Export>)
      requires index.Valid() && index.log == S.ExportLog(ExportNames(es))
      requires ExportsStand(bytes, va, functions, names, es)
      ensures Valid() && this.es == es && this.index == index && this.bytes == bytes
      ensures this.functions == functions && this.names == names
    {
      this.bytes, this.va, this.functions, this.names, this.index, this.es := bytes, va, functions, names, index, es;
    }

    /** sysv_lookup_for_coff: the address word of the index found, 0 for none. */
    method Lookup(name: Name) returns (address: nat)
      requires Valid()
      ensures address == ExportAddress(es, name)
    {
      LogNamed(ExportNames(es));
      var i := index.Lookup(name, bytes, va, names, ExportNames(es));
      IndexInRange(ExportNames(es), name);
      if i == 0 {
        return 0;
      }
      address := LeAt(bytes, functions + 4 * i, 4);
    }
  }

  lemma {:induction false} IndexInRange(names: seq<Name>, name: Name)
    ensures S.FirstIndex(S.ExportLog(names), name) < |names| || S.FirstIndex(S.ExportLog(names), name) == 0
  {
    S.ExportFoundIffNotFirst(names, name);
    S.FirstIndexZeroIffAbsent(S.ExportLog(names), name);
    if S.FirstIndex(S.ExportLog(names), name) != 0 {
      FirstIndexOfEntry(S.ExportLog(names), name);
    }
  }

  lemma {:induction false} FirstIndexOfEntry(log: seq<S.Entry>, name: Name)
    requires S.FirstIndex(log, name) != 0
    ensures exists e :: e in log && e.index == S.FirstIndex(log, name)
  {
    if !(log[0].name == name && log[0].index != 0) {
      FirstIndexOfEntry(log[1..], name);
      var e :| e in log[1..] && e.index == S.FirstIndex(log[1..], name);
      assert e in log;
    }
  }

  /** add_export: the bytes, which a loader reads through their header, and where the tables are. */
  method WriteExports(outfile: Name, es: seq<E.Export>, va: nat, length: nat, count: nat)
    returns (bytes: seq<uint8>, functions: nat, names: nat, ghost ordinals: nat)
    requires es != [] && count == |es| && length == E.CountedLength(outfile, es, |es|) && IsName(outfile)
    requires E.Fits(es, va + E.StringsOffset(outfile, |es|) + |E.Strings(es, |es|)|)
    ensures |bytes| == length && E.ReadsThroughHeader(bytes, va, outfile, es, functions, names, ordinals)
  {
    var parts := X.AddExport(outfile, es, va, length, count);
    bytes := E.Bytes(parts);
    functions, names := E.FunctionsOffset(outfile, count), E.NamesOffset(outfile, count);
    ghost var f, n;
    f, n, ordinals := E.DirectoryExports(bytes, outfile, es, va);
  }

  /** add_export with the hash table: what a loader and what a lookup needs. */
  method ExportSymbols(outfile: Name, es: seq<E.Export>, va: nat, length: nat, count: nat)
    returns (exports: Exports, ghost ordinals: nat)
    requires es != [] && count == |es| <= 148 && length == E.CountedLength(outfile, es, |es|) && IsName(outfile)
    requires E.Fits(es, va + E.StringsOffset(outfile, |es|) + |E.Strings(es, |es|)|)
    ensures exports.Valid() && exports.es == es && |exports.bytes| == length
    ensures E.ReadsThroughHeader(exports.bytes, va, outfile, es, exports.functions, exports.names, ordinals)
    ensures fresh(exports) && fresh(exports.index) && fresh(exports.index.tab)
  {
    var bytes, functions, names;
    bytes, functions, names, ordinals := WriteExports(outfile, es, va, length, count);
    var h := new HashTable(100, 250);
    IndexExports(es, h);
    DirectoryStands(bytes, outfile, es, va, functions, names, ordinals);
    exports := new Exports(bytes, va, functions, names, h, es);
  }

  // ---------- the pass ----------

  /** __coff_resolve up to the filling. */
  method ResolveSite(
    importer: Importer, exports: Exports, s: Site, ghost table: seq<Import>, ghost asked: seq<Name>,
    ghost reqs: seq<Name>)
    returns (dst: Option<nat>)
    requires importer.Valid() && table == TableOf(importer.symbols) && importer.firsts == Firsts(table, asked)
    requires exports.Valid() && asked + Asked(exports.es, s) <= reqs
    modifies importer, importer.symbols
    ensures importer.Valid() && importer.firsts == Firsts(table, asked + Asked(exports.es, s))
    ensures dst == DstOf(exports.es, table, importer.base, Firsts(table, reqs), s)
  {
    assert asked + [] == asked;
    match s.target
    case Static(address) => dst := Some(address);
    case Skipped => dst := None;
    case External(name) =>
      var found := exports.Lookup(name);
      if found != 0 {
        return Some(found);
      }
      AnswerIsFinal(table, importer.base, asked, reqs, name);
      assert (asked + [name])[..|asked|] == asked;
      dst := importer.Resolve(name);
  }

  lemma {:induction false} NothingFilled(d: seq<uint8>, r: Reloc, base: nat)
    requires InRange(r, |d|) && r.kind == 0
    ensures Fill(d, r, base) == d
  {
    assert Le(NewWord(d, r, base), 0) == [];
  }

  /** One record: the site is filled with what its symbol resolves to. */
  method RelocateSite(
    importer: Importer, exports: Exports, image: array<uint8>, s: Site, base: nat,
    ghost table: seq<Import>, ghost asked: seq<Name>, ghost reqs: seq<Name>, ghost r: Reloc)
    requires importer.Valid() && table == TableOf(importer.symbols) && importer.firsts == Firsts(table, asked)
    requires exports.Valid() && asked + Asked(exports.es, s) <= reqs
    requires r == RelocAt(DstOf(exports.es, table, importer.base, Firsts(table, reqs), s), s)
    requires InRange(r, image.Length)
    modifies importer, importer.symbols, image
    ensures importer.Valid() && importer.firsts == Firsts(table, asked + Asked(exports.es, s))
    ensures image[..] == Fill(old(image[..]), r, base)
  {
    var dst := ResolveSite(importer, exports, s, table, asked, reqs);
    if dst == None {
      NothingFilled(image[..], r, base);
    } else {
      R.FillAddress(image, RelocAt(dst, s), base);
    }
  }

  lemma {:induction false} NextFill(d: seq<uint8>, all: seq<Reloc>, base: nat, k: nat)
    requires k < |all| && AllInRange(all, |d|)
    ensures InRange(all[k], |d|) && AllInRange(all[..k], |d|) && AllInRange(all[..k + 1], |d|)
    ensures FillAll(d, all[..k + 1], base) == Fill(FillAll(d, all[..k], base), all[k], base)
  {
    assert all[..k + 1][..k] == all[..k] && all[k] in all;
  }

  /** Site k of a pass. */
  method RelocateNext(
    importer: Importer, exports: Exports, image: array<uint8>, sites: seq<Site>, k: nat, base: nat,
    ghost table: seq<Import>, ghost rs: seq<Import>, ghost all: seq<Reloc>, ghost was: seq<uint8>)
    requires importer.Valid() && table == TableOf(importer.symbols) && exports.Valid() && k < |sites|
    requires rs == Firsts(table, AskedBy(exports.es, sites))
    requires all == Relocs(exports.es, table, importer.base, rs, sites) && AllInRange(all, |was|)
    requires importer.firsts == Firsts(table, AskedBy(exports.es, sites[..k])) && image.Length == |was|
    requires image[..] == FillAll(was, all[..k], base)
    modifies importer, importer.symbols, image
    ensures importer.Valid() && exports.Valid()
    ensures importer.firsts == Firsts(table, AskedBy(exports.es, sites[..k + 1]))
    ensures image[..] == FillAll(was, all[..k + 1], base)
  {
    AskedStep(exports.es, sites, k);
    NextFill(was, all, base, k);
    RelocateSite(importer, exports, image, sites[k], base, table,
                 AskedBy(exports.es, sites[..k]), AskedBy(exports.es, sites), all[k]);
  }

  /** The whole pass: every site of every section, in order. */
  method RelocateAll(
    importer: Importer, exports: Exports, image: array<uint8>, sites: seq<Site>, base: nat,
    ghost table: seq<Import>, ghost rs: seq<Import>, ghost all: seq<Reloc>)
    requires importer.Valid() && table == TableOf(importer.symbols) && importer.firsts == [] && exports.Valid()
    requires rs == Firsts(table, AskedBy(exports.es, sites))
    requires all == Relocs(exports.es, table, importer.base, rs, sites) && AllInRange(all, image.Length)
    modifies importer, importer.symbols, image
    ensures importer.Valid() && importer.firsts == rs
    ensures image[..] == FillAll(old(image[..]), all, base)
  {
    ghost var was := image[..];
    var k := 0;
    while k < |sites|
      invariant k <= |sites| && importer.Valid() && exports.Valid()
      invariant importer.firsts == Firsts(table, AskedBy(exports.es, sites[..k]))
      invariant image[..] == FillAll(was, all[..k], base)
    {
      RelocateNext(importer, exports, image, sites, k, base, table, rs, all, was);
      k := k + 1;
    }
    assert sites[..k] == sites && all[..k] == all;
  }
}
