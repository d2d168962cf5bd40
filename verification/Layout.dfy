/**
 Image layout: addresses are handed out in one traversal of the section lists, the
 .plt and .idata sections come behind them, and the bytes are written in a second
 traversal.
 */
module LayoutSpec {
  import opened Machine

  /** The data of the sections, container by container. */
  type Contents = seq<seq<seq<uint8>>>

  /** Bytes of the first k sections of a container. */
  function Before(c: seq<seq<uint8>>, k: nat): nat
    requires k <= |c|
  {
    if k == 0 then 0 else Before(c, k - 1) + |c[k - 1]|
  }

  /** Bytes of the first n containers. */
  function Start(cs: Contents, n: nat): nat
    requires n <= |cs|
  {
    if n == 0 then 0 else Start(cs, n - 1) + Before(cs[n - 1], |cs[n - 1]|)
  }

  /** Where section k of container c lies, counted from the first section. */
  function Offset(cs: Contents, c: nat, k: nat): nat
    requires c < |cs| && k <= |cs[c]|
  {
    Start(cs, c) + Before(cs[c], k)
  }

  /** The bytes of the first k sections of a container, one behind the other. */
  function Joined(c: seq<seq<uint8>>, k: nat): (s: seq<uint8>)
    requires k <= |c|
    ensures |s| == Before(c, k)
  {
    if k == 0 then [] else Joined(c, k - 1) + c[k - 1]
  }

  /** The bytes of the first n containers. */
  function AllBytes(cs: Contents, n: nat): (s: seq<uint8>)
    requires n <= |cs|
    ensures |s| == Start(cs, n)
  {
    if n == 0 then [] else AllBytes(cs, n - 1) + Joined(cs[n - 1], |cs[n - 1]|)
  }

  lemma {:induction false} BeforeRises(c: seq<seq<uint8>>, j: nat, k: nat)
    requires j <= k <= |c|
    ensures Before(c, j) <= Before(c, k)
    decreases k
  {
    if j < k { BeforeRises(c, j, k - 1); }
  }

  lemma {:induction false} StartRises(cs: Contents, m: nat, n: nat)
    requires m <= n <= |cs|
    ensures Start(cs, m) <= Start(cs, n)
    decreases n
  {
    if m < n { StartRises(cs, m, n - 1); }
  }

  /** Ranges follow each other in traversal order: an earlier section ends before a later one begins. */
  lemma {:induction false} RangesApart(cs: Contents, c: nat, k: nat, d: nat, j: nat)
    requires c < |cs| && k < |cs[c]| && d < |cs| && j < |cs[d]| && (c < d || (c == d && k < j))
    ensures Offset(cs, c, k) + |cs[c][k]| <= Offset(cs, d, j)
  {
    if c == d {
      BeforeRises(cs[c], k + 1, j);
    } else {
      BeforeRises(cs[c], k + 1, |cs[c]|);
      StartRises(cs, c + 1, d);
    }
  }

  /** There is no gap: the next section of the traversal begins where this one ends. */
  lemma {:induction false} RangesMeet(cs: Contents, c: nat, k: nat)
    requires c < |cs| && k < |cs[c]|
    ensures Offset(cs, c, k) + |cs[c][k]| == Offset(cs, c, k + 1)
    ensures k + 1 == |cs[c]| && c + 1 < |cs| ==> Offset(cs, c, k + 1) == Offset(cs, c + 1, 0)
  {
  }

  lemma {:induction false} JoinedHolds(c: seq<seq<uint8>>, k: nat, n: nat)
    requires k < n <= |c|
    ensures Before(c, k) + |c[k]| <= Before(c, n)
    ensures Joined(c, n)[Before(c, k)..Before(c, k) + |c[k]|] == c[k]
    decreases n
  {
    if k + 1 < n {
      JoinedHolds(c, k, n - 1);
      SliceOfPrefix(Joined(c, n - 1), c[n - 1], Before(c, k), Before(c, k) + |c[k]|);
    } else {
      assert (Joined(c, k) + c[k])[|Joined(c, k)|..] == c[k];
    }
  }

  lemma {:induction false} SliceOfPrefix(a: seq<uint8>, b: seq<uint8>, lo: nat, hi: nat)
    requires lo <= hi <= |a|
    ensures (a + b)[lo..hi] == a[lo..hi]
  {
  }

  lemma {:induction false} SliceBehind(a: seq<uint8>, b: seq<uint8>, lo: nat, hi: nat)
    requires lo <= hi <= |b|
    ensures (a + b)[|a| + lo..|a| + hi] == b[lo..hi]
  {
  }

  /** In the joined bytes every section lies at its offset. */
  lemma {:induction false} BytesHold(cs: Contents, c: nat, k: nat, n: nat)
    requires c < n <= |cs| && k < |cs[c]|
    ensures Offset(cs, c, k) + |cs[c][k]| <= Start(cs, n)
    ensures AllBytes(cs, n)[Offset(cs, c, k)..Offset(cs, c, k) + |cs[c][k]|] == cs[c][k]
    decreases n
  {
    if c + 1 < n {
      BytesHold(cs, c, k, n - 1);
      SliceOfPrefix(AllBytes(cs, n - 1), Joined(cs[n - 1], |cs[n - 1]|), Offset(cs, c, k),
          Offset(cs, c, k) + |cs[c][k]|);
    } else {
      JoinedHolds(cs[c], k, |cs[c]|);
      SliceBehind(AllBytes(cs, c), Joined(cs[c], |cs[c]|), Before(cs[c], k), Before(cs[c], k) + |cs[c][k]|);
    }
  }

  /** More containers at the end leave the places of the others. */
  lemma {:induction false} StartAppended(cs: Contents, more: Contents, n: nat)
    requires n <= |cs|
    ensures Start(cs + more, n) == Start(cs, n)
  {
    if n > 0 { StartAppended(cs, more, n - 1); }
  }

  // ---------- the headers ----------

  const FILE_ALIGNMENT: nat := 0x200
  const FIRST_ADDRESS: nat := 0x1000

  /** get_header_size: the headers rounded up; those of a 32-bit image are 0x10 bytes shorter. */
  function HeaderSize(sections: nat, pe32: bool): (h: nat)
    ensures h % 0x200 == 0
  {
    var h := 64 + 4 + 20 + 240 + 40 * sections - if pe32 then 0x10 else 0;
    (h + 0x1ff) / 0x200 * 0x200
  }

  /** The headers end at the place where the raw data is written exactly if the section headers are few. */
  lemma {:induction false} HeadersFitIff(sections: nat, pe32: bool)
    ensures HeaderSize(sections, pe32) == 0x200 <==> sections <= if pe32 then 5 else 4
  {
  }

  /** The header size is the least multiple of 0x200 that holds the headers, byte for byte. */
  lemma {:induction false} HeadersCovered(sections: nat, pe32: bool, headers: nat)
    requires headers == (if pe32 then 312 else 328) + 40 * sections
    ensures headers <= HeaderSize(sections, pe32) < headers + 0x200 && HeaderSize(sections, pe32) % 0x200 == 0
  {
  }

  /** The addresses of the first n sections of a container that begins at base. */
  function Addresses(c: seq<seq<uint8>>, base: nat, n: nat): (s: seq<nat>)
    requires n <= |c|
    ensures |s| == n
  {
    if n == 0 then [] else Addresses(c, base, n - 1) + [base + Before(c, n - 1)]
  }

  lemma {:induction false} AddressAt(c: seq<seq<uint8>>, base: nat, n: nat, k: nat)
    requires k < n <= |c|
    ensures Addresses(c, base, n)[k] == base + Before(c, k)
    decreases n
  {
    if k < n - 1 { AddressAt(c, base, n - 1, k); }
  }
}

module Layout {
  import opened Machine
  import opened LayoutSpec

  /**
   A section container. In chain order: the data of its sections, their addresses, and what their
   section headers hold, a name and an address.
   */
  class Container {
    const sections: seq<seq<uint8>>
    const names: seq<Name>
    var addresses: seq<nat>
    var announced: seq<nat>
    var size: nat
    var virtualAddress: nat

    constructor (names: seq<Name>, sections: seq<seq<uint8>>)
      ensures this.names == names && this.sections == sections
      ensures addresses == [] && announced == [] && size == 0 && virtualAddress == 0
    {
      this.names, this.sections, addresses, announced, size, virtualAddress := names, sections, [], [], 0, 0;
    }
  }

  function ContentsOf(cs: seq<Container>): (c: Contents)
    ensures |c| == |cs| && forall i :: 0 <= i < |c| ==> c[i] == cs[i].sections
  {
    seq(|cs|, i requires 0 <= i < |cs| => cs[i].sections)
  }

  ghost predicate Different(cs: seq<Container>) {
    forall i, j :: 0 <= i < j < |cs| ==> cs[i] != cs[j]
  }

  /** Every section of the first n containers has the address of the layout. */
  ghost predicate Placed(cs: seq<Container>, n: nat)
    requires n <= |cs|
    reads cs
  {
    forall c :: 0 <= c < n ==> PlacedOne(cs, c)
  }

  ghost predicate PlacedOne(cs: seq<Container>, c: nat)
    requires c < |cs|
    reads cs
  {
    cs[c].addresses == Addresses(cs[c].sections, FIRST_ADDRESS + Start(ContentsOf(cs), c), |cs[c].sections|)
  }

  /** The section headers of the first n containers announce the addresses of the sections. */
  ghost predicate Announced(cs: seq<Container>, n: nat)
    requires n <= |cs|
    reads cs
  {
    forall c :: 0 <= c < n && cs[c].sections != [] ==> cs[c].announced == cs[c].addresses
  }

  /** The size fields of the first n containers are what their sections take. */
  ghost predicate Sized(cs: seq<Container>, n: nat)
    requires n <= |cs|
    reads cs
  {
    forall c :: 0 <= c < n ==> cs[c].size == Before(cs[c].sections, |cs[c].sections|)
  }

  /** The size fields of the first n containers, summed up. */
  ghost function SizeSum(cs: seq<Container>, n: nat): nat
    requires n <= |cs|
    reads cs
  {
    if n == 0 then 0 else SizeSum(cs, n - 1) + cs[n - 1].size
  }

  lemma {:induction false} SizedSum(cs: seq<Container>, n: nat)
    requires n <= |cs| && Sized(cs, n)
    ensures SizeSum(cs, n) == Start(ContentsOf(cs), n)
  {
    if n > 0 { SizedSum(cs, n - 1); }
  }

  lemma {:induction false} SizeSumPrefix(cs: seq<Container>, all: seq<Container>, n: nat)
    requires n <= |cs| <= |all| && all[..|cs|] == cs
    ensures SizeSum(all, n) == SizeSum(cs, n)
  {
    if n > 0 {
      SizeSumPrefix(cs, all, n - 1);
      assert all[n - 1] == all[..|cs|][n - 1];
    }
  }

  const PLT: Name := [0x2e, 0x70, 0x6c, 0x74]
  const IDATA: Name := [0x2e, 0x69, 0x64, 0x61, 0x74, 0x61]

  lemma {:induction false} SectionNames()
    ensures PLT == Ascii(".plt") && IDATA == Ascii(".idata")
  {
  }

  // ---------- the image directory ----------

  /** The address the last of the first n section headers of that name holds; before if there is none. */
  function EntryIn(names: seq<Name>, announced: seq<nat>, name: Name, n: nat, before: nat): nat
    requires n <= |names| == |announced|
  {
    if n == 0 then before
    else if names[n - 1] == name then announced[n - 1]
    else EntryIn(names, announced, name, n - 1, before)
  }

  /** Every section has a header. */
  ghost predicate Headed(cs: seq<Container>)
    reads cs
  {
    forall c :: 0 <= c < |cs| ==> |cs[c].names| == |cs[c].announced| == |cs[c].addresses| == |cs[c].sections|
  }

  /** The same over the first n containers. */
  ghost function Entry(cs: seq<Container>, name: Name, n: nat): nat
    requires n <= |cs| && Headed(cs)
    reads cs
  {
    if n == 0 then 0
    else EntryIn(cs[n - 1].names, cs[n - 1].announced, name, |cs[n - 1].names|, Entry(cs, name, n - 1))
  }

  /** set_image_directory_entry, for the sections of one name. */
  method ImageDirectoryEntry(cs: seq<Container>, name: Name) returns (address: nat)
    requires Headed(cs)
    ensures address == Entry(cs, name, |cs|)
  {
    address := 0;
    var c := 0;
    while c < |cs|
      invariant c <= |cs| && address == Entry(cs, name, c)
    {
      ghost var before := address;
      var k := 0;
      while k < |cs[c].sections|
        invariant k <= |cs[c].sections| && address == EntryIn(cs[c].names, cs[c].announced, name, k, before)
      {
        if cs[c].names[k] == name {
          address := cs[c].announced[k];
        }
        k := k + 1;
      }
      c := c + 1;
    }
  }

  /** No section header behind place k of container c has that name. */
  ghost predicate LastOfName(cs: seq<Container>, name: Name, c: nat, k: nat)
    requires c < |cs|
  {
    && k < |cs[c].names| && cs[c].names[k] == name
    && (forall j :: k < j < |cs[c].names| ==> cs[c].names[j] != name)
    && (forall d :: c < d < |cs| ==> name !in cs[d].names)
  }

  lemma {:induction false} EntryInAt(names: seq<Name>, announced: seq<nat>, name: Name, n: nat, before: nat, k: nat)
    requires k < n <= |names| == |announced| && names[k] == name && forall j :: k < j < n ==> names[j] != name
    ensures EntryIn(names, announced, name, n, before) == announced[k]
  {
    if k < n - 1 { EntryInAt(names, announced, name, n - 1, before, k); }
  }

  lemma {:induction false} EntryInNone(names: seq<Name>, announced: seq<nat>, name: Name, n: nat, before: nat)
    requires n <= |names| == |announced| && name !in names
    ensures EntryIn(names, announced, name, n, before) == before
  {
    if n > 0 { EntryInNone(names, announced, name, n - 1, before); }
  }

  /** The entry is what the last section header of the name announces. */
  lemma {:induction false} EntryAt(cs: seq<Container>, name: Name, c: nat, k: nat, n: nat)
    requires Headed(cs) && c < n <= |cs| && LastOfName(cs, name, c, k)
    ensures Entry(cs, name, n) == cs[c].announced[k]
  {
    var sc := cs[n - 1];
    if c == n - 1 {
      EntryInAt(sc.names, sc.announced, name, |sc.names|, Entry(cs, name, n - 1), k);
    } else {
      EntryAt(cs, name, c, k, n - 1);
      EntryInNone(sc.names, sc.announced, name, |sc.names|, Entry(cs, name, n - 1));
    }
  }

  /**
   An image directory entry is the address of its section exactly if the section was there when
   the addresses were handed out; a section added later is announced at address 0.
   */
  lemma {:induction false} EntryRightIff(cs: seq<Container>, traversed: nat, name: Name, c: nat, k: nat)
    requires Headed(cs) && Placed(cs, |cs|) && traversed <= |cs| && Announced(cs, traversed)
    requires forall d :: traversed <= d < |cs| ==> cs[d].announced == [0]
    requires c < |cs| && LastOfName(cs, name, c, k)
    ensures Entry(cs, name, |cs|) == cs[c].addresses[k] <==> c < traversed
    ensures c >= traversed ==> Entry(cs, name, |cs|) == 0
  {
    EntryAt(cs, name, c, k, |cs|);
    assert PlacedOne(cs, c);
    AddressAt(cs[c].sections, FIRST_ADDRESS + Start(ContentsOf(cs), c), |cs[c].sections|, k);
  }

  class Linker {
    var virtualAddressOffset: nat
    var pltOffset: nat

    constructor ()
      ensures virtualAddressOffset == 0x1000 && pltOffset == 0
    {
      virtualAddressOffset, pltOffset := FIRST_ADDRESS, 0;
    }

    /** __z__link__coff_set_virtual_address, for one container. */
    method SetVirtualAddress(sc: Container)
      requires sc.addresses == []
      modifies this`virtualAddressOffset, this`pltOffset, sc
      ensures sc.addresses == Addresses(sc.sections, old(virtualAddressOffset), |sc.sections|)
      ensures sc.sections != [] ==> sc.announced == sc.addresses
      ensures virtualAddressOffset == old(virtualAddressOffset) + Before(sc.sections, |sc.sections|)
      ensures sc.sections != [] ==> pltOffset == virtualAddressOffset && sc.virtualAddress == old(virtualAddressOffset)
      ensures sc.sections == [] ==> pltOffset == old(pltOffset)
      ensures sc.size == if sc.sections == [] then old(sc.size) else Before(sc.sections, |sc.sections|)
    {
      if sc.sections == [] {
        return;
      }
      sc.size, sc.announced := 0, [];
      var k := 0;
      while k < |sc.sections|
        invariant k <= |sc.sections| && sc.size == Before(sc.sections, k)
        invariant virtualAddressOffset == old(virtualAddressOffset) && pltOffset == old(pltOffset)
        invariant sc.addresses == sc.announced == Addresses(sc.sections, virtualAddressOffset, k)
      {
        sc.addresses := sc.addresses + [virtualAddressOffset + sc.size];
        sc.announced := sc.announced + [virtualAddressOffset + sc.size];
        sc.size := sc.size + |sc.sections[k]|;
        k := k + 1;
      }
      sc.virtualAddress := virtualAddressOffset;
      virtualAddressOffset := virtualAddressOffset + sc.size;
      pltOffset := virtualAddressOffset;
    }

    /** Some container is not empty. */
    ghost predicate AnySection(cs: seq<Container>, n: nat)
      requires n <= |cs|
    {
      exists c :: 0 <= c < n && cs[c].sections != []
    }

    /** One step of the traversal that hands out the addresses. */
    method PlaceContainer(cs: seq<Container>, c: nat)
      requires Different(cs) && c < |cs| && Placed(cs, c) && Sized(cs, c) && cs[c].addresses == [] && cs[c].size == 0
      requires Announced(cs, c)
      requires virtualAddressOffset == FIRST_ADDRESS + Start(ContentsOf(cs), c)
      requires AnySection(cs, c) ==> pltOffset == virtualAddressOffset
      modifies this`virtualAddressOffset, this`pltOffset, cs[c]
      ensures Placed(cs, c + 1) && Sized(cs, c + 1) && Announced(cs, c + 1)
      ensures virtualAddressOffset == FIRST_ADDRESS + Start(ContentsOf(cs), c + 1)
      ensures AnySection(cs, c + 1) ==> pltOffset == virtualAddressOffset
    {
      ghost var sections, start := cs[c].sections, Start(ContentsOf(cs), c);
      SetVirtualAddress(cs[c]);
      forall d | 0 <= d < c ensures PlacedOne(cs, d) {
        assert old(PlacedOne(cs, d));
      }
      assert Start(ContentsOf(cs), c + 1) == start + Before(sections, |sections|);
      assert PlacedOne(cs, c);
    }

    /** The traversal that hands out all addresses. */
    method SetAddresses(cs: seq<Container>)
      requires Different(cs) && virtualAddressOffset == FIRST_ADDRESS
      requires forall c :: 0 <= c < |cs| ==> cs[c].addresses == [] && cs[c].size == 0
      modifies this`virtualAddressOffset, this`pltOffset, cs
      ensures Placed(cs, |cs|) && Sized(cs, |cs|) && Announced(cs, |cs|)
      ensures virtualAddressOffset == FIRST_ADDRESS + Start(ContentsOf(cs), |cs|)
      ensures AnySection(cs, |cs|) ==> pltOffset == virtualAddressOffset
    {
      var c := 0;
      while c < |cs|
        invariant c <= |cs| && virtualAddressOffset == FIRST_ADDRESS + Start(ContentsOf(cs), c)
        invariant Placed(cs, c) && Sized(cs, c) && Announced(cs, c)
                  && forall d :: c <= d < |cs| ==> cs[d].addresses == [] && cs[d].size == 0
        invariant AnySection(cs, c) ==> pltOffset == virtualAddressOffset
      {
        PlaceContainer(cs, c);
        c := c + 1;
      }
    }

    /**
     add_coff_section: a container with one section at a given address. The section header is
     fresh memory, and its address is not written.
     */
    static method AddSection(name: Name, data: seq<uint8>, address: nat) returns (sc: Container)
      ensures fresh(sc) && sc.names == [name] && sc.sections == [data] && sc.addresses == [address]
      ensures sc.size == 0 && sc.announced == [0] && sc.virtualAddress == address
    {
      sc := new Container([name], [data]);
      sc.addresses := [address];
      sc.announced := [0];
      sc.virtualAddress := address;
    }

    /** One section where the others end, and the end of the addresses behind it. */
    method AppendSection(cs: seq<Container>, name: Name, data: seq<uint8>) returns (all: seq<Container>)
      requires Different(cs) && Placed(cs, |cs|)
      requires virtualAddressOffset == FIRST_ADDRESS + Start(ContentsOf(cs), |cs|)
      modifies this`virtualAddressOffset
      ensures |all| == |cs| + 1 && all[..|cs|] == cs && Different(all) && fresh(all[|cs|])
      ensures all[|cs|].size == 0 && all[|cs|].names == [name] && all[|cs|].announced == [0]
      ensures ContentsOf(all) == ContentsOf(cs) + [[data]] && Placed(all, |all|)
      ensures virtualAddressOffset == FIRST_ADDRESS + Start(ContentsOf(all), |all|)
    {
      var sc := AddSection(name, data, virtualAddressOffset);
      virtualAddressOffset := virtualAddressOffset + |data|;
      AppendedSection(cs, sc, data);
      all := cs + [sc];
    }

    /** The end of add_import: .plt where the sections end, .idata where .plt ends. */
    method AppendImports(cs: seq<Container>, plt: seq<uint8>, idata: seq<uint8>) returns (all: seq<Container>)
      requires Different(cs) && Placed(cs, |cs|)
      requires virtualAddressOffset == FIRST_ADDRESS + Start(ContentsOf(cs), |cs|)
      modifies this`virtualAddressOffset
      ensures |all| == |cs| + 2 && all[..|cs|] == cs && all[|cs|].size == 0 && all[|cs| + 1].size == 0
      ensures ContentsOf(all) == ContentsOf(cs) + [[plt], [idata]] && Placed(all, |all|)
      ensures all[|cs|].names == [Ascii(".plt")] && all[|cs|].announced == [0]
      ensures all[|cs| + 1].names == [Ascii(".idata")] && all[|cs| + 1].announced == [0]
    {
      SectionNames();
      var behind := AppendSection(cs, PLT, plt);
      all := AppendSection(behind, IDATA, idata);
      assert all[|cs|] == behind[|cs|] && all[..|cs|] == behind[..|cs|];
    }

    /** A container with one section where the others end keeps the layout. */
    lemma {:induction false} AppendedSection(cs: seq<Container>, sc: Container, data: seq<uint8>)
      requires Placed(cs, |cs|) && sc.sections == [data]
      requires sc.addresses == [FIRST_ADDRESS + Start(ContentsOf(cs), |cs|)]
      ensures ContentsOf(cs + [sc]) == ContentsOf(cs) + [[data]]
      ensures Placed(cs + [sc], |cs| + 1)
      ensures Start(ContentsOf(cs + [sc]), |cs| + 1) == Start(ContentsOf(cs), |cs|) + |data|
    {
      var all, n := cs + [sc], |cs|;
      assert ContentsOf(all) == ContentsOf(cs) + [[data]];
      StartAppended(ContentsOf(cs), [[data]], n);
      OneSection([data], FIRST_ADDRESS + Start(ContentsOf(cs), n));
      forall c | 0 <= c < n + 1 ensures PlacedOne(all, c) {
        if c < n {
          StartAppended(ContentsOf(cs), [[data]], c);
          assert PlacedOne(cs, c);
        }
      }
    }

    static lemma {:induction false} OneSection(c: seq<seq<uint8>>, base: nat)
      requires |c| == 1
      ensures Addresses(c, base, 1) == [base] && Before(c, 1) == |c[0]|
    {
      assert Addresses(c, base, 0) == [] && Before(c, 0) == 0;
    }

    /** get_out_size: the headers and the size fields of all containers. */
    static method GetOutSize(cs: seq<Container>, header: nat) returns (size: nat)
      ensures size == header + SizeSum(cs, |cs|)
    {
      size := 0;
      var c := 0;
      while c < |cs|
        invariant c <= |cs| && size == SizeSum(cs, c)
      {
        size := size + cs[c].size;
        c := c + 1;
      }
      size := size + header;
    }

    /** write_raw_data, for one container. */
    static method WriteRawData(file: seq<uint8>, sc: Container) returns (r: seq<uint8>)
      ensures r == file + Joined(sc.sections, |sc.sections|)
    {
      r := file;
      var k := 0;
      assert file + [] == file;
      while k < |sc.sections|
        invariant k <= |sc.sections| && r == file + Joined(sc.sections, k)
      {
        if |sc.sections[k]| > 0 {
          r := r + sc.sections[k];
        }
        assert file + Joined(sc.sections, k) + sc.sections[k] == file + (Joined(sc.sections, k) + sc.sections[k]);
        k := k + 1;
      }
    }

    /** emit_dos behind the headers: a seek to the file alignment, then the second traversal. */
    static method Emit(headers: seq<uint8>, cs: seq<Container>) returns (file: seq<uint8>)
      requires |headers| <= FILE_ALIGNMENT
      ensures file == headers + Zeros(FILE_ALIGNMENT - |headers|) + AllBytes(ContentsOf(cs), |cs|)
    {
      var begin := headers + Zeros(FILE_ALIGNMENT - |headers|);
      file := begin;
      var c := 0;
      ghost var contents := ContentsOf(cs);
      assert begin + [] == begin;
      while c < |cs|
        invariant c <= |cs| && file == begin + AllBytes(contents, c)
      {
        file := WriteRawData(file, cs[c]);
        assert begin + AllBytes(contents, c) + Joined(contents[c], |contents[c]|)
               == begin + (AllBytes(contents, c) + Joined(contents[c], |contents[c]|));
        c := c + 1;
      }
    }
  }

  /** The section stands in the file at the offset the header size and its address give. */
  ghost predicate StandsAt(file: seq<uint8>, data: seq<uint8>, header: nat, va: nat) {
    va >= 0x1000 && header + (va - 0x1000) + |data| <= |file|
    && file[header + (va - 0x1000)..header + (va - 0x1000) + |data|] == data
  }

  /** The two traversals agree: every section stands at the file offset that belongs to its address. */
  lemma {:induction false} TraversalsAgree(file: seq<uint8>, begin: seq<uint8>, cs: Contents, c: nat, k: nat)
    requires c < |cs| && k < |cs[c]|
    requires |begin| == FILE_ALIGNMENT && file == begin + AllBytes(cs, |cs|)
    ensures StandsAt(file, cs[c][k], FILE_ALIGNMENT, Addresses(cs[c], FIRST_ADDRESS + Start(cs, c), |cs[c]|)[k])
  {
    var o, n := Offset(cs, c, k), |cs[c][k]|;
    AddressAt(cs[c], FIRST_ADDRESS + Start(cs, c), |cs[c]|, k);
    BytesHold(cs, c, k, |cs|);
    SliceBehind(begin, AllBytes(cs, |cs|), o, o + n);
  }

  /** Section k of container c stands where its address says. */
  ghost predicate SectionStands(file: seq<uint8>, cs: seq<Container>, header: nat, c: nat, k: nat)
    requires c < |cs| && k < |cs[c].sections|
    reads cs
  {
    |cs[c].addresses| == |cs[c].sections| && StandsAt(file, cs[c].sections[k], header, cs[c].addresses[k])
  }

  /** Every section of every container does. */
  ghost predicate AllStand(file: seq<uint8>, cs: seq<Container>, header: nat)
    reads cs
  {
    forall c, k :: 0 <= c < |cs| && 0 <= k < |cs[c].sections| ==> SectionStands(file, cs, header, c, k)
  }

  lemma {:induction false} PlacedStands(file: seq<uint8>, begin: seq<uint8>, cs: seq<Container>, c: nat, k: nat)
    requires Placed(cs, |cs|) && c < |cs| && k < |cs[c].sections|
    requires |begin| == FILE_ALIGNMENT && file == begin + AllBytes(ContentsOf(cs), |cs|)
    ensures SectionStands(file, cs, FILE_ALIGNMENT, c, k)
  {
    assert PlacedOne(cs, c) && ContentsOf(cs)[c] == cs[c].sections;
    TraversalsAgree(file, begin, ContentsOf(cs), c, k);
  }

  lemma {:induction false} EmittedStand(file: seq<uint8>, begin: seq<uint8>, cs: seq<Container>)
    requires Placed(cs, |cs|)
    requires |begin| == FILE_ALIGNMENT && file == begin + AllBytes(ContentsOf(cs), |cs|)
    ensures AllStand(file, cs, FILE_ALIGNMENT)
  {
    forall c, k | 0 <= c < |cs| && 0 <= k < |cs[c].sections| ensures SectionStands(file, cs, FILE_ALIGNMENT, c, k) {
      PlacedStands(file, begin, cs, c, k);
    }
  }

  /** The two appended containers have no size recorded. */
  lemma {:induction false} Declared(cs: seq<Container>, all: seq<Container>, plt: seq<uint8>, idata: seq<uint8>)
    requires |all| == |cs| + 2 && all[..|cs|] == cs && all[|cs|].size == 0 && all[|cs| + 1].size == 0
    requires Sized(cs, |cs|) && ContentsOf(all) == ContentsOf(cs) + [[plt], [idata]]
    ensures SizeSum(all, |all|) + |plt| + |idata| == Start(ContentsOf(all), |all|)
  {
    var n := |cs|;
    SizedSum(cs, n);
    SizeSumPrefix(cs, all, n);
    assert SizeSum(all, n + 1) == SizeSum(all, n);
    StartAppended(ContentsOf(cs), [[plt], [idata]], n);
    assert Before([plt], 1) == Before([plt], 0) + |plt| && Before([idata], 1) == Before([idata], 0) + |idata|;
    assert Start(ContentsOf(all), n + 1) == Start(ContentsOf(all), n) + |plt|;
  }

  /**
   From the section lists to the file: addresses, .plt and .idata behind them, and the bytes.
   With the header size the linker computes for shdrNum section headers, every section stands
   at header size + (address - 0x1000), as the section header of the image declares. The size
   declared there leaves out .plt and .idata: it is the written size exactly if both are empty.
   */
  method LinkImage(
    cs: seq<Container>, plt: seq<uint8>, idata: seq<uint8>, headers: seq<uint8>, shdrNum: nat, pe32: bool)
    returns (all: seq<Container>, file: seq<uint8>, outSize: nat)
    requires Different(cs) && forall c :: 0 <= c < |cs| ==> cs[c].addresses == [] && cs[c].size == 0
    requires |headers| <= FILE_ALIGNMENT
    modifies cs
    ensures |all| == |cs| + 2 && all[..|cs|] == cs && ContentsOf(all) == ContentsOf(cs) + [[plt], [idata]]
    ensures AllStand(file, all, FILE_ALIGNMENT)
    ensures shdrNum <= (if pe32 then 5 else 4) ==> AllStand(file, all, HeaderSize(shdrNum, pe32))
    ensures outSize + |plt| + |idata| == HeaderSize(shdrNum, pe32) + |file| - FILE_ALIGNMENT
  {
    var linker := new Linker();
    linker.SetAddresses(cs);
    all := linker.AppendImports(cs, plt, idata);
    file := Linker.Emit(headers, all);
    EmittedStand(file, headers + Zeros(FILE_ALIGNMENT - |headers|), all);
    HeadersFitIff(shdrNum, pe32);
    outSize := Linker.GetOutSize(all, HeaderSize(shdrNum, pe32));
    Declared(cs, all, plt, idata);
  }
}
