/**
 The whole COFF image: the import side of a link placed behind the sections, and found again in
 the file by its addresses.
 */
module CoffImageSpec {
  import opened Machine
  import opened LittleEndian
  import opened CoffImportSpec
  import opened CoffDirectorySpec
  import opened RelocSpec
  import opened CoffCallSpec
  import opened LayoutSpec
  import CoffExportSpec

  /** The bytes of .plt: six for every stub. */
  function StubBytes(stubs: seq<Stub>): (s: seq<uint8>)
    ensures |s| == 6 * |stubs|
  {
    if stubs == [] then [] else Le(stubs[0].code, 2) + (Le(stubs[0].data, 4) + StubBytes(stubs[1..]))
  }

  /** Six bytes at an offset: ff 25, an indirect jump, and the stub's operand. */
  ghost predicate StubReads(d: seq<uint8>, o: nat, s: Stub) {
    o + 6 <= |d| && d[o] == 0xff && d[o + 1] == 0x25 && LeAt(d, o + 2, 4) == s.data
  }

  lemma {:induction false} JumpBytes()
    ensures Le(0x25ff, 2) == [0xff, 0x25]
  {
    assert Le(0x25, 1) == [0x25] + Le(0, 0);
  }

  lemma {:induction false} FirstStubReads(d: seq<uint8>, o: nat, stubs: seq<Stub>)
    requires stubs != [] && Holds(d, o, StubBytes(stubs)) && StubFits(stubs[0])
    ensures StubReads(d, o, stubs[0]) && Holds(d, o + 6, StubBytes(stubs[1..]))
  {
    var s, more := stubs[0], StubBytes(stubs[1..]);
    HoldsSplit(d, o, Le(s.code, 2), Le(s.data, 4) + more);
    HoldsSplit(d, o + 2, Le(s.data, 4), more);
    JumpBytes();
    assert d[o + 0] == Le(s.code, 2)[0] && d[o + 1] == Le(s.code, 2)[1];
    WordSizes(s.data);
    LeReadsBack(d, o + 2, s.data, 4);
  }

  /** Every stub reads back at its place. */
  lemma {:induction false} StubsReadBack(d: seq<uint8>, o: nat, stubs: seq<Stub>, k: nat)
    requires k < |stubs| && Holds(d, o, StubBytes(stubs)) && StubsFit(stubs)
    ensures StubReads(d, o + 6 * k, stubs[k])
    decreases k
  {
    FirstStubReads(d, o, stubs);
    if k > 0 { StubsReadBack(d, o + 6, stubs[1..], k - 1); }
  }

  /** Request i is that of site k. */
  lemma {:induction false} RequestOfSite(es: seq<CoffExportSpec.Export>, sites: seq<Site>, k: nat) returns (i: nat)
    requires k < |sites| && Asked(es, sites[k]) != []
    ensures i < |AskedBy(es, sites)| && AskedBy(es, sites)[i] == sites[k].target.name
  {
    var before, name := AskedBy(es, sites[..k]), sites[k].target.name;
    i := |before|;
    AskedStep(es, sites, k);
    assert (before + [name])[i] == name;
  }

  /** The word of a site leads to the stub of slot j, and the stub jumps through the slot of that name. */
  ghost predicate Calls(
    image: seq<uint8>, s: Site, addend: nat, d: seq<uint8>, stubs: seq<Stub>, wide: bool, va: nat, p: nat, base: nat,
    j: nat, name: Name)
  {
    LeadsTo(image, s, addend, SlotAddress(p, j)) && SlotLeads(d, stubs, wide, va, p, base, j, name)
  }

  /**
   In the finished image, with imports first met grouped by DLL, the relative word at every site
   of an imported name leads, plus its addend, to the stub that jumps through that name's slot.
   */
  lemma {:induction false} CallReachesName(
    image: seq<uint8>, es: seq<CoffExportSpec.Export>, table: seq<Import>, sites: seq<Site>, reqs: seq<Name>,
    rs: seq<Import>, all: seq<Reloc>, wide: bool, va: nat, p: nat, base: nat, d: seq<uint8>, stubs: seq<Stub>, k: nat)
    returns (j: nat)
    requires reqs == AskedBy(es, sites) && rs == Firsts(table, reqs) && all == Relocs(es, table, p, rs, sites)
    requires Linked(table, reqs, rs, wide, va, p, base, Answers(table, p, reqs), d, stubs) && Contiguous(rs)
    requires AllInRange(all, |image|) && Disjoint(all) && k < |sites| && sites[k].kind in {REL32, REL32_SSPAN}
    requires Asked(es, sites[k]) != [] && IndexOf(Names(table), sites[k].target.name) < |table|
    ensures sites[k].offset + 4 <= |image|
    ensures Calls(FillAll(image, all, base), sites[k], LeAt(image, sites[k].offset, 4),
                  d, stubs, wide, va, p, base, j, sites[k].target.name)
  {
    var name := sites[k].target.name;
    var i := RequestOfSite(es, sites, k);
    var answer := AnswerAfter(table, p, rs, name);
    AnswersAreFinal(table, p, reqs);
    assert Reaches(d, stubs, wide, va, p, base, answer, name);
    j :| answer.value == SlotAddress(p, j) && SlotLeads(d, stubs, wide, va, p, base, j, name);
    CallLeads(image, es, table, p, rs, sites, base, k, answer.value);
  }

  /** Where the byte at an address stands in the file. */
  function FileOffset(header: nat, va: nat): nat
    requires va >= 0x1000
  {
    header + (va - 0x1000)
  }

  /** The import directory of the list stands in the file, at the offset its address gives. */
  ghost predicate DirectoryInFile(
    file: seq<uint8>, header: nat, va: nat, idata: seq<uint8>, wide: bool, groups: seq<Group>)
  {
    && va >= 0x1000 && FileOffset(header, va) + |idata| <= |file|
    && file[FileOffset(header, va)..FileOffset(header, va) + |idata|] == idata && LoadsAs(idata, va, wide, groups)
  }

  /** The address from which an indirect jump at address at takes its target, by the operand in its last four bytes. */
  function Jumped(wide: bool, at: nat, operand: nat, base: nat): nat {
    if wide then (at + 6 + operand) % 0x1_0000_0000 else (operand - base) % 0x1_0000_0000
  }

  /**
   In the file, six bytes stand at the offset of the stub's address: ff 25, an indirect jump, and an
   operand that leads to a slot of the directory behind which a given name stands.
   */
  ghost predicate JumpsToName(
    file: seq<uint8>, header: nat, at: nat, wide: bool, base: nat, va: nat, idata: seq<uint8>, name: Name)
  {
    && at >= 0x1000 && FileOffset(header, at) + 6 <= |file|
    && file[FileOffset(header, at)] == 0xff && file[FileOffset(header, at) + 1] == 0x25
    && var slot := Jumped(wide, at, LeAt(file, FileOffset(header, at) + 2, 4), base);
       slot >= va && NameBehind(idata, va, slot - va, wide, name)
  }

  /** All stubs, in the order of the list. */
  ghost predicate JumpsInFile(
    file: seq<uint8>, header: nat, p: nat, wide: bool, base: nat, va: nat, idata: seq<uint8>, names: seq<Name>)
  {
    forall k :: 0 <= k < |names| ==>
      JumpsToName(file, header, SlotAddress(p, k), wide, base, va, idata, names[k])
  }

  lemma {:induction false} StubJumps(
    file: seq<uint8>, header: nat, at: nat, s: Stub, wide: bool, base: nat, va: nat, idata: seq<uint8>, name: Name)
    requires at >= 0x1000 && StubReads(file, FileOffset(header, at), s)
    requires Leads(idata, va, wide, s, at, base, name)
    ensures JumpsToName(file, header, at, wide, base, va, idata, name)
  {
  }

  lemma {:induction false} StubsStand(
    file: seq<uint8>, header: nat, p: nat, stubs: seq<Stub>, wide: bool, base: nat, va: nat, idata: seq<uint8>,
    names: seq<Name>)
    requires p >= 0x1000 && StubsFit(stubs) && AllLead(idata, stubs, names, wide, va, p, base)
    requires var o := FileOffset(header, p); o + 6 * |stubs| <= |file| && file[o..o + 6 * |stubs|] == StubBytes(stubs)
    ensures JumpsInFile(file, header, p, wide, base, va, idata, names)
  {
    var o, s := FileOffset(header, p), StubBytes(stubs);
    forall i | 0 <= i < |s| ensures file[o + i] == s[i] {
      assert file[o..o + |s|][i] == s[i];
    }
    forall k | 0 <= k < |names|
      ensures JumpsToName(file, header, SlotAddress(p, k), wide, base, va, idata, names[k])
    {
      assert SlotLeads(idata, stubs, wide, va, p, base, k, names[k]);
      StubsReadBack(file, o, stubs, k);
      StubJumps(file, header, SlotAddress(p, k), stubs[k], wide, base, va, idata, names[k]);
    }
  }

  /** What the file promises, by the header size the linker computes. */
  ghost predicate ImageLoads(
    file: seq<uint8>, shdrNum: nat, pe32: bool, wide: bool, va: nat, p: nat, base: nat, idata: seq<uint8>,
    groups: seq<Group>)
  {
    shdrNum <= (if pe32 then 5 else 4) ==>
      && DirectoryInFile(file, HeaderSize(shdrNum, pe32), va, idata, wide, groups)
      && JumpsInFile(file, HeaderSize(shdrNum, pe32), p, wide, base, va, idata, Flat(groups))
  }

  /** The file's stub of a slot that leads to a name jumps to that name. */
  lemma {:induction false} CalledStubJumps(
    file: seq<uint8>, shdrNum: nat, pe32: bool, wide: bool, va: nat, p: nat, base: nat, idata: seq<uint8>,
    groups: seq<Group>, stubs: seq<Stub>, j: nat, name: Name)
    requires shdrNum <= (if pe32 then 5 else 4) && j < |Flat(groups)|
    requires ImageLoads(file, shdrNum, pe32, wide, va, p, base, idata, groups)
    requires AllLead(idata, stubs, Flat(groups), wide, va, p, base)
    requires SlotLeads(idata, stubs, wide, va, p, base, j, name)
    ensures JumpsToName(file, HeaderSize(shdrNum, pe32), SlotAddress(p, j), wide, base, va, idata, name)
  {
    assert SlotLeads(idata, stubs, wide, va, p, base, j, Flat(groups)[j]);
    LeadsToOne(idata, stubs, wide, va, p, base, j, Flat(groups)[j], name);
  }
}

module CoffImage {
  import opened Machine
  import opened RelocSpec
  import opened CoffCallSpec
  import opened CoffCalls
  import opened CoffImportSpec
  import opened CoffImports
  import opened CoffDirectorySpec
  import CoffDirectory
  import opened LayoutSpec
  import opened Layout
  import opened CoffImageSpec

  /** The addresses of the two appended sections. */
  lemma {:induction false} AppendedAddresses(
    cs: seq<Container>, all: seq<Container>, plt: seq<uint8>, idata: seq<uint8>, p: nat)
    requires |all| == |cs| + 2 && ContentsOf(all) == ContentsOf(cs) + [[plt], [idata]] && Placed(all, |all|)
    requires p == FIRST_ADDRESS + Start(ContentsOf(cs), |cs|)
    ensures all[|cs|].sections == [plt] && all[|cs|].addresses == [p]
    ensures all[|cs| + 1].sections == [idata] && all[|cs| + 1].addresses == [p + |plt|]
  {
    var n := |cs|;
    assert ContentsOf(all)[n] == [plt] && ContentsOf(all)[n + 1] == [idata];
    assert PlacedOne(all, n) && PlacedOne(all, n + 1);
    StartAppended(ContentsOf(cs), [[plt], [idata]], n);
    Linker.OneSection([plt], p);
    Linker.OneSection([idata], p + |plt|);
    assert Start(ContentsOf(all), n + 1) == Start(ContentsOf(all), n) + |plt|;
  }

  /** The end of add_import and the emission: both sections stand at the offsets their addresses give. */
  method EmitImports(linker: Linker, cs: seq<Container>, plt: seq<uint8>, idata: seq<uint8>, headers: seq<uint8>)
    returns (file: seq<uint8>)
    requires Layout.Different(cs) && Placed(cs, |cs|) && |headers| <= FILE_ALIGNMENT
    requires linker.virtualAddressOffset == FIRST_ADDRESS + Start(ContentsOf(cs), |cs|)
    modifies linker`virtualAddressOffset
    ensures var p := FIRST_ADDRESS + Start(ContentsOf(cs), |cs|);
            StandsAt(file, plt, FILE_ALIGNMENT, p) && StandsAt(file, idata, FILE_ALIGNMENT, p + |plt|)
  {
    ghost var n, p := |cs|, linker.virtualAddressOffset;
    var all := linker.AppendImports(cs, plt, idata);
    file := Linker.Emit(headers, all);
    AppendedAddresses(cs, all, plt, idata, p);
    PlacedStands(file, headers + Zeros(FILE_ALIGNMENT - |headers|), all, n, 0);
    PlacedStands(file, headers + Zeros(FILE_ALIGNMENT - |headers|), all, n + 1, 0);
  }

  /** What stands at its address loads from the file, and jumps there. */
  lemma {:induction false} ImportsInFile(
    file: seq<uint8>, idata: seq<uint8>, stubs: seq<Stub>, p: nat, va: nat, wide: bool, base: nat, groups: seq<Group>)
    requires StandsAt(file, idata, FILE_ALIGNMENT, va) && LoadsAs(idata, va, wide, groups)
    requires StandsAt(file, StubBytes(stubs), FILE_ALIGNMENT, p) && StubsFit(stubs)
    requires AllLead(idata, stubs, Flat(groups), wide, va, p, base)
    ensures DirectoryInFile(file, FILE_ALIGNMENT, va, idata, wide, groups)
            && JumpsInFile(file, FILE_ALIGNMENT, p, wide, base, va, idata, Flat(groups))
  {
    StubsStand(file, FILE_ALIGNMENT, p, stubs, wide, base, va, idata, Flat(groups));
  }

  /** The first traversal. */
  method PlaceSections(cs: seq<Container>) returns (linker: Linker)
    requires Layout.Different(cs) && (exists c :: 0 <= c < |cs| && cs[c].sections != [])
    requires forall c :: 0 <= c < |cs| ==> cs[c].addresses == [] && cs[c].size == 0
    modifies cs
    ensures fresh(linker) && Placed(cs, |cs|)
    ensures linker.virtualAddressOffset == linker.pltOffset == FIRST_ADDRESS + Start(ContentsOf(cs), |cs|)
  {
    linker := new Linker();
    linker.SetAddresses(cs);
  }

  /** The import side, which leaves the sections where they are. */
  method LinkBehind(
    cs: seq<Container>, symbols: seq<Candidate>, p: nat, exports: Exports, image: array<uint8>, sites: seq<Site>,
    wide: bool, base: nat, ghost table: seq<Import>, ghost reqs: seq<Name>, ghost rs: seq<Import>,
    ghost all: seq<Reloc>)
    returns (va: nat, bytes: seq<uint8>, stubs: seq<Stub>)
    requires table == TableOf(symbols) && exports.Valid() && Placed(cs, |cs|)
    requires reqs == AskedBy(exports.es, sites) && rs == Firsts(table, reqs)
    requires p > 0 && Distinct(Names(table)) && NamesOnly(table) && ImportsFit(rs, p, wide)
    requires all == Relocs(exports.es, table, p, rs, sites) && AllInRange(all, image.Length)
    requires forall s :: s in symbols ==> s.ever == 0
    modifies symbols, image
    ensures Placed(cs, |cs|) && va == SlotAddress(p, |rs|) && |stubs| == |rs| && StubsFit(stubs)
    ensures image[..] == FillAll(old(image[..]), all, base)
    ensures LoadsAs(bytes, va, wide, Grouped(rs)) && |bytes| == CountedLength(rs)
    ensures Linked(table, reqs, rs, wide, va, p, base, Answers(table, p, reqs), bytes, stubs)
  {
    va, bytes, stubs := CoffDirectory.LinkImports(symbols, p, exports, image, sites, wide, base, table, reqs, rs, all);
  }

  /** The second traversal, with the import sections appended. */
  method EmitBehind(
    linker: Linker, cs: seq<Container>, va: nat, stubs: seq<Stub>, idata: seq<uint8>, headers: seq<uint8>,
    ghost shdrNum: nat, ghost pe32: bool, ghost wide: bool, ghost base: nat, ghost p: nat, ghost groups: seq<Group>)
    returns (file: seq<uint8>)
    requires Layout.Different(cs) && Placed(cs, |cs|) && |headers| <= FILE_ALIGNMENT
    requires linker.virtualAddressOffset == p == FIRST_ADDRESS + Start(ContentsOf(cs), |cs|)
    requires va == SlotAddress(p, |stubs|) && StubsFit(stubs) && LoadsAs(idata, va, wide, groups)
    requires AllLead(idata, stubs, Flat(groups), wide, va, p, base)
    modifies linker`virtualAddressOffset
    ensures ImageLoads(file, shdrNum, pe32, wide, va, p, base, idata, groups)
  {
    file := EmitImports(linker, cs, StubBytes(stubs), idata, headers);
    ImportsInFile(file, idata, stubs, p, va, wide, base, groups);
    HeadersFitIff(shdrNum, pe32);
  }

  /** Everything behind the first traversal. */
  method LinkPlaced(
    linker: Linker, cs: seq<Container>, symbols: seq<Candidate>, exports: Exports, image: array<uint8>,
    sites: seq<Site>, wide: bool, base: nat, headers: seq<uint8>, ghost shdrNum: nat, ghost pe32: bool,
    ghost table: seq<Import>, ghost reqs: seq<Name>, ghost rs: seq<Import>, ghost p: nat, ghost all: seq<Reloc>)
    returns (va: nat, file: seq<uint8>, idata: seq<uint8>, stubs: seq<Stub>)
    requires Layout.Different(cs) && Placed(cs, |cs|) && |headers| <= FILE_ALIGNMENT
    requires linker.virtualAddressOffset == linker.pltOffset == p == FIRST_ADDRESS + Start(ContentsOf(cs), |cs|)
    requires table == TableOf(symbols) && exports.Valid()
    requires reqs == AskedBy(exports.es, sites) && rs == Firsts(table, reqs)
    requires Distinct(Names(table)) && NamesOnly(table) && ImportsFit(rs, p, wide)
    requires all == Relocs(exports.es, table, p, rs, sites) && AllInRange(all, image.Length)
    requires forall s :: s in symbols ==> s.ever == 0
    modifies linker`virtualAddressOffset, symbols, image
    ensures va == SlotAddress(p, |rs|) && |stubs| == |rs|
    ensures image[..] == FillAll(old(image[..]), all, base)
    ensures Linked(table, reqs, rs, wide, va, p, base, Answers(table, p, reqs), idata, stubs)
    ensures |idata| == CountedLength(rs) && ImageLoads(file, shdrNum, pe32, wide, va, p, base, idata, Grouped(rs))
  {
    va, idata, stubs := LinkBehind(cs, symbols, linker.pltOffset, exports, image, sites, wide, base,
                                   table, reqs, rs, all);
    file := EmitBehind(linker, cs, va, stubs, idata, headers, shdrNum, pe32, wide, base, p, Grouped(rs));
  }

  /**
   A whole COFF link with imports: sections placed, sites filled, the import sections behind the
   others, and everything written. With the header size the linker computes for few section
   headers, the directory that loads as the imports met stands in the file at header size +
   (va - 0x1000), and every stub is six bytes that jump through the slot of the function at its
   place. The size of the headers and the width of the thunks follow from different settings, pe32 and wide.
   */
  method LinkCoff(
    cs: seq<Container>, symbols: seq<Candidate>, exports: Exports, image: array<uint8>, sites: seq<Site>,
    pe32: bool, wide: bool, base: nat, headers: seq<uint8>, shdrNum: nat,
    ghost table: seq<Import>, ghost reqs: seq<Name>, ghost rs: seq<Import>, ghost p: nat, ghost all: seq<Reloc>)
    returns (va: nat, file: seq<uint8>, idata: seq<uint8>, stubs: seq<Stub>)
    requires Layout.Different(cs) && (exists c :: 0 <= c < |cs| && cs[c].sections != [])
    requires forall c :: 0 <= c < |cs| ==> cs[c].addresses == [] && cs[c].size == 0
    requires table == TableOf(symbols) && exports.Valid() && p == FIRST_ADDRESS + Start(ContentsOf(cs), |cs|)
    requires reqs == AskedBy(exports.es, sites) && rs == Firsts(table, reqs)
    requires Distinct(Names(table)) && NamesOnly(table) && ImportsFit(rs, p, wide)
    requires all == Relocs(exports.es, table, p, rs, sites) && AllInRange(all, image.Length)
    requires (forall s :: s in symbols ==> s.ever == 0) && |headers| <= FILE_ALIGNMENT
    modifies cs, symbols, image
    ensures va == SlotAddress(p, |rs|) && |stubs| == |rs|
    ensures image[..] == FillAll(old(image[..]), all, base)
    ensures Linked(table, reqs, rs, wide, va, p, base, Answers(table, p, reqs), idata, stubs)
    ensures |idata| == CountedLength(rs) && ImageLoads(file, shdrNum, pe32, wide, va, p, base, idata, Grouped(rs))
  {
    var linker := PlaceSections(cs);
    va, file, idata, stubs := LinkPlaced(linker, cs, symbols, exports, image, sites, wide, base, headers,
                                         shdrNum, pe32, table, reqs, rs, p, all);
  }
}
