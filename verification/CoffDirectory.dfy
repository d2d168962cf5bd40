/**
 The bytes of the import directory and of the stubs, how a loader reads them
 (section 6.4 of the Microsoft PE and COFF Specification), and the method that
 writes them.
 */
module CoffDirectorySpec {
  import opened Machine
  import opened LittleEndian
  import opened CoffImportSpec

  datatype Descriptor = Descriptor(
    originalFirstThunk: nat, timeDateStamp: nat, forwarderChain: nat, name: nat, firstThunk: nat)

  const EMPTY: Descriptor := Descriptor(0, 0, 0, 0, 0)

  // ---------- the four parts of the directory ----------

  /** Hint, name and terminator of each function. */
  function HintNames(names: seq<Name>): (s: seq<uint8>)
    ensures |s| == HintNameBytes(names)
  {
    if names == [] then [] else [0, 0] + (names[0] + ([0] + HintNames(names[1..])))
  }

  function Texts(groups: seq<Group>): (s: seq<uint8>)
    ensures |s| == TextBytes(groups)
  {
    if groups == [] then []
    else groups[0].dll + ([0] + (HintNames(groups[0].names) + Texts(groups[1..])))
  }

  /** The thunks of one DLL whose hint/name records start at address at. */
  function ThunkWords(names: seq<Name>, at: nat): (s: seq<nat>)
    ensures |s| == |names|
  {
    if names == [] then [] else [at] + ThunkWords(names[1..], at + 2 + |names[0]| + 1)
  }

  /** Both thunk tables: the strings start at address at, and a zero ends every DLL. */
  function Table(groups: seq<Group>, at: nat): (s: seq<nat>)
    ensures |s| == Thunks(groups)
  {
    if groups == [] then []
    else
      var first := at + |groups[0].dll| + 1;
      ThunkWords(groups[0].names, first) + ([0] + Table(groups[1..], first + HintNameBytes(groups[0].names)))
  }

  /** Descriptors for tables that go on at addresses iat and int and strings that go on at at. */
  function Descriptors(groups: seq<Group>, wide: bool, iat: nat, ilt: nat, at: nat): (s: seq<Descriptor>)
    ensures |s| == |groups|
  {
    if groups == [] then []
    else
      var step := ThunkBytes(wide, |groups[0].names| + 1);
      [Descriptor(ilt, 0, 0, at, iat)]
      + Descriptors(groups[1..], wide, iat + step, ilt + step, at + TextBytes([groups[0]]))
  }

  // ---------- as bytes ----------

  function ThunkLe(wide: bool, v: nat): (s: seq<uint8>)
    ensures |s| == ThunkBytes(wide, 1)
  {
    Le(v, ThunkBytes(wide, 1))
  }

  function ThunkAt(d: seq<uint8>, o: nat, wide: bool): nat
    requires o + ThunkBytes(wide, 1) <= |d|
  {
    LeAt(d, o, ThunkBytes(wide, 1))
  }

  function TableBytes(wide: bool, words: seq<nat>): (s: seq<uint8>)
    ensures |s| == ThunkBytes(wide, |words|)
  {
    if words == [] then [] else ThunkLe(wide, words[0]) + TableBytes(wide, words[1..])
  }

  /** The five words of a descriptor, in the order of the format. */
  function Field(e: Descriptor, i: nat): nat {
    if i == 0 then e.originalFirstThunk
    else if i == 1 then e.timeDateStamp
    else if i == 2 then e.forwarderChain
    else if i == 3 then e.name
    else e.firstThunk
  }

  /** The last n words of a descriptor. */
  function FieldBytes(e: Descriptor, n: nat): (s: seq<uint8>)
    requires n <= 5
    ensures |s| == 4 * n
  {
    if n == 0 then [] else Le(Field(e, 5 - n), 4) + FieldBytes(e, n - 1)
  }

  function DescriptorAt(d: seq<uint8>, o: nat): Descriptor
    requires o + 20 <= |d|
  {
    Descriptor(LeAt(d, o, 4), LeAt(d, o + 4, 4), LeAt(d, o + 8, 4), LeAt(d, o + 12, 4), LeAt(d, o + 16, 4))
  }

  function DescriptorBytes(ds: seq<Descriptor>): (s: seq<uint8>)
    ensures |s| == 20 * |ds|
  {
    if ds == [] then [] else FieldBytes(ds[0], 5) + DescriptorBytes(ds[1..])
  }

  // ---------- how a loader reads it ----------

  /** From here on the top bit of a thunk is set, which makes it an ordinal and no address. */
  function OrdinalFlag(wide: bool): nat {
    if wide then 0x8000_0000_0000_0000 else 0x8000_0000
  }

  /** Addresses have 32 bits, and the top one of a 32-bit thunk is taken. */
  function AddressLimit(wide: bool): (n: nat)
    ensures n <= 0x1_0000_0000 && n <= OrdinalFlag(wide)
  {
    if wide then 0x1_0000_0000 else 0x8000_0000
  }

  /** A thunk that leads to a hint/name record. */
  predicate IsAddress(w: nat, va: nat, wide: bool) {
    va <= w < OrdinalFlag(wide)
  }

  /**
   The names of the hint/name records that thunks from offset o on lead to, up to a zero thunk. A
   thunk that leads to none, or a table without an end, gives a name with a NUL in it, which no list has.
   */
  function LoadNames(d: seq<uint8>, va: nat, o: nat, wide: bool): seq<Name>
    decreases |d| - o
  {
    if o + ThunkBytes(wide, 1) > |d| then [[0]]
    else if ThunkAt(d, o, wide) == 0 then []
    else if !IsAddress(ThunkAt(d, o, wide), va, wide) then [[0]]
    else [CString(d, ThunkAt(d, o, wide) - va + 2)] + LoadNames(d, va, o + ThunkBytes(wide, 1), wide)
  }

  /** The imports that the descriptors from offset o on describe, by either thunk table, up to an empty one. */
  function LoadGroups(d: seq<uint8>, va: nat, o: nat, wide: bool, original: bool): seq<Group>
    decreases |d| - o
  {
    if o + 20 > |d| then [Group([0], [])]
    else if DescriptorAt(d, o) == Descriptor(0, 0, 0, 0, 0) then []
    else
      var e := DescriptorAt(d, o);
      var table := if original then e.originalFirstThunk else e.firstThunk;
      if table < va || e.name < va then [Group([0], [])]
      else [Group(CString(d, e.name - va), LoadNames(d, va, table - va, wide))]
           + LoadGroups(d, va, o + 20, wide, original)
  }

  // ---------- reading back what was written ----------

  lemma {:induction false} ThunkReadsBack(d: seq<uint8>, o: nat, wide: bool, v: nat)
    requires Holds(d, o, ThunkLe(wide, v)) && v < 0x1_0000_0000
    ensures ThunkAt(d, o, wide) == v
  {
    WordSizes(v);
    LeReadsBack(d, o, v, ThunkBytes(wide, 1));
  }

  predicate Fits32(e: Descriptor) {
    && e.originalFirstThunk < 0x1_0000_0000 && e.timeDateStamp < 0x1_0000_0000 && e.forwarderChain < 0x1_0000_0000
    && e.name < 0x1_0000_0000 && e.firstThunk < 0x1_0000_0000
  }

  lemma {:induction false} FieldReadsBack(d: seq<uint8>, o: nat, e: Descriptor, n: nat)
    requires 0 < n <= 5 && Holds(d, o, FieldBytes(e, n)) && Fits32(e)
    ensures LeAt(d, o, 4) == Field(e, 5 - n) && Holds(d, o + 4, FieldBytes(e, n - 1))
  {
    HoldsSplit(d, o, Le(Field(e, 5 - n), 4), FieldBytes(e, n - 1));
    WordSizes(Field(e, 5 - n));
    LeReadsBack(d, o, Field(e, 5 - n), 4);
  }

  lemma {:induction false} DescriptorReadsBack(d: seq<uint8>, o: nat, e: Descriptor)
    requires Holds(d, o, FieldBytes(e, 5)) && Fits32(e)
    ensures DescriptorAt(d, o) == e
  {
    FieldReadsBack(d, o, e, 5);
    FieldReadsBack(d, o + 4, e, 4);
    FieldReadsBack(d, o + 8, e, 3);
    FieldReadsBack(d, o + 12, e, 2);
    FieldReadsBack(d, o + 16, e, 1);
  }

  lemma {:induction false} StringReadsBack(d: seq<uint8>, o: nat, s: seq<uint8>, more: seq<uint8>)
    requires Holds(d, o, s + ([0] + more)) && IsName(s)
    ensures CString(d, o) == s && Holds(d, o + |s| + 1, more)
  {
    HoldsSplit(d, o, s, [0] + more);
    HoldsSplit(d, o + |s|, [0], more);
    assert d[o + |s| + 0] == [0][0];
    assert d[o..o + |s|] == s;
    WrittenReadsBack(d, o, s);
  }

  predicate AllNames(names: seq<Name>) {
    forall n :: n in names ==> IsName(n)
  }

  predicate WellNamed(groups: seq<Group>) {
    forall g :: g in groups ==> IsName(g.dll) && AllNames(g.names)
  }

  lemma {:induction false} TableSplits(d: seq<uint8>, o: nat, wide: bool, w: nat, rest: seq<nat>)
    requires Holds(d, o, TableBytes(wide, [w] + rest)) && w < 0x1_0000_0000
    ensures o + ThunkBytes(wide, 1) <= |d| && ThunkAt(d, o, wide) == w
    ensures Holds(d, o + ThunkBytes(wide, 1), TableBytes(wide, rest))
  {
    assert ([w] + rest)[1..] == rest;
    HoldsSplit(d, o, ThunkLe(wide, w), TableBytes(wide, rest));
    ThunkReadsBack(d, o, wide, w);
  }

  lemma {:induction false} ThunkWordsUnfold(names: seq<Name>, at: nat, rest: seq<nat>)
    requires names != []
    ensures ThunkWords(names, at) + rest == [at] + (ThunkWords(names[1..], at + 2 + |names[0]| + 1) + rest)
  {
  }

  lemma {:induction false} LoadStep(d: seq<uint8>, va: nat, o: nat, wide: bool)
    requires o + ThunkBytes(wide, 1) <= |d| && va > 0 && IsAddress(ThunkAt(d, o, wide), va, wide)
    ensures LoadNames(d, va, o, wide)
            == [CString(d, ThunkAt(d, o, wide) - va + 2)] + LoadNames(d, va, o + ThunkBytes(wide, 1), wide)
  {
  }

  /** Thunks up to their zero, with the records they lead to, load as the names. */
  lemma {:induction false} NamesLoad(
    d: seq<uint8>, va: nat, o: nat, wide: bool, names: seq<Name>, c: nat, at: nat, rest: seq<nat>)
    requires Holds(d, o, TableBytes(wide, ThunkWords(names, at) + ([0] + rest)))
    requires Holds(d, c, HintNames(names)) && AllNames(names)
    requires va > 0 && at == va + c && at + HintNameBytes(names) < AddressLimit(wide)
    ensures LoadNames(d, va, o, wide) == names
    decreases |names|
  {
    if names == [] {
      assert ThunkWords(names, at) + ([0] + rest) == [0] + rest;
      TableSplits(d, o, wide, 0, rest);
    } else {
      var tail, o2, n := names[1..], o + ThunkBytes(wide, 1), 2 + |names[0]| + 1;
      FirstNameLoads(d, va, o, wide, names, c, at, rest, tail, o2, c + n, at + n);
      NamesLoad(d, va, o2, wide, tail, c + n, at + n, rest);
      assert names == [names[0]] + tail;
    }
  }

  /** One thunk with its record, and where the others stand. */
  lemma {:induction false} FirstNameLoads(
    d: seq<uint8>, va: nat, o: nat, wide: bool, names: seq<Name>, c: nat, at: nat, rest: seq<nat>,
    tail: seq<Name>, o2: nat, c2: nat, at2: nat)
    requires Holds(d, o, TableBytes(wide, ThunkWords(names, at) + ([0] + rest)))
    requires Holds(d, c, HintNames(names)) && AllNames(names) && names != [] && tail == names[1..]
    requires va > 0 && at == va + c && at + HintNameBytes(names) < AddressLimit(wide)
    requires o2 == o + ThunkBytes(wide, 1) && c2 == c + (2 + |names[0]| + 1) && at2 == at + (2 + |names[0]| + 1)
    ensures Holds(d, o2, TableBytes(wide, ThunkWords(tail, at2) + ([0] + rest)))
    ensures Holds(d, c2, HintNames(tail)) && AllNames(tail) && at2 + HintNameBytes(tail) < AddressLimit(wide)
    ensures LoadNames(d, va, o, wide) == [names[0]] + LoadNames(d, va, o2, wide)
  {
    FirstThunkReads(d, o, wide, names, at, rest, tail, o2, at2);
    assert CString(d, c + 2) == names[0] && Holds(d, c2, HintNames(tail)) by { HintReadsBack(d, c, names); }
    ThunkLoads(d, va, o, wide, at, c, names[0], o2);
  }

  lemma {:induction false} FirstThunkReads(
    d: seq<uint8>, o: nat, wide: bool, names: seq<Name>, at: nat, rest: seq<nat>, tail: seq<Name>, o2: nat, at2: nat)
    requires Holds(d, o, TableBytes(wide, ThunkWords(names, at) + ([0] + rest))) && names != [] && tail == names[1..]
    requires o2 == o + ThunkBytes(wide, 1) && at2 == at + (2 + |names[0]| + 1) && at < 0x1_0000_0000
    ensures o2 <= |d| && ThunkAt(d, o, wide) == at
            && Holds(d, o2, TableBytes(wide, ThunkWords(tail, at2) + ([0] + rest)))
  {
    ThunkWordsUnfold(names, at, [0] + rest);
    TableSplits(d, o, wide, at, ThunkWords(tail, at2) + ([0] + rest));
  }

  lemma {:induction false} ThunkLoads(
    d: seq<uint8>, va: nat, o: nat, wide: bool, at: nat, c: nat, name: Name, o2: nat)
    requires o2 == o + ThunkBytes(wide, 1) <= |d| && ThunkAt(d, o, wide) == at == va + c && 0 < at < AddressLimit(wide)
    requires va > 0 && CString(d, c + 2) == name
    ensures LoadNames(d, va, o, wide) == [name] + LoadNames(d, va, o2, wide)
  {
    LoadStep(d, va, o, wide);
  }

  lemma {:induction false} HintReadsBack(d: seq<uint8>, c: nat, names: seq<Name>)
    requires names != [] && Holds(d, c, HintNames(names)) && AllNames(names)
    ensures CString(d, c + 2) == names[0] && Holds(d, c + 2 + |names[0]| + 1, HintNames(names[1..]))
    ensures d[c] == 0 && d[c + 1] == 0
  {
    var more := HintNames(names[1..]);
    HoldsSplit(d, c, [0, 0], names[0] + ([0] + more));
    assert d[c + 0] == [0, 0][0] && d[c + 1] == [0, 0][1];
    StringReadsBack(d, c + 2, names[0], more);
  }

  // ---------- a whole directory ----------

  lemma {:induction false} DescriptorsSplit(d: seq<uint8>, o: nat, e: Descriptor, rest: seq<Descriptor>)
    requires Holds(d, o, DescriptorBytes([e] + rest)) && Fits32(e)
    ensures o + 20 <= |d| && DescriptorAt(d, o) == e && Holds(d, o + 20, DescriptorBytes(rest))
  {
    assert ([e] + rest)[1..] == rest;
    HoldsSplit(d, o, FieldBytes(e, 5), DescriptorBytes(rest));
    DescriptorReadsBack(d, o, e);
  }

  lemma {:induction false} TextsSplit(d: seq<uint8>, c: nat, groups: seq<Group>)
    requires groups != [] && WellNamed(groups) && Holds(d, c, Texts(groups))
    ensures var h := c + |groups[0].dll| + 1;
            CString(d, c) == groups[0].dll && Holds(d, h, HintNames(groups[0].names))
            && Holds(d, h + HintNameBytes(groups[0].names), Texts(groups[1..]))
  {
    var g := groups[0];
    StringReadsBack(d, c, g.dll, HintNames(g.names) + Texts(groups[1..]));
    HoldsSplit(d, c + |g.dll| + 1, HintNames(g.names), Texts(groups[1..]));
  }

  lemma {:induction false} TableSkips(d: seq<uint8>, o: nat, wide: bool, words: seq<nat>, rest: seq<nat>)
    requires Holds(d, o, TableBytes(wide, words + rest))
    ensures Holds(d, o + ThunkBytes(wide, |words|), TableBytes(wide, rest))
  {
    TableBytesAppend(wide, words, rest);
    HoldsSplit(d, o, TableBytes(wide, words), TableBytes(wide, rest));
  }

  lemma {:induction false} TableBytesAppend(wide: bool, a: seq<nat>, b: seq<nat>)
    ensures TableBytes(wide, a + b) == TableBytes(wide, a) + TableBytes(wide, b)
  {
    if a == [] {
      assert a + b == b;
    } else {
      assert (a + b)[1..] == a[1..] + b;
      TableBytesAppend(wide, a[1..], b);
    }
  }

  lemma {:induction false} Regroup(a: seq<nat>, b: seq<nat>, c: seq<nat>)
    ensures a + (b + c) == (a + b) + c
  {
  }

  lemma {:induction false} TableOfFirst(groups: seq<Group>, at: nat)
    requires groups != []
    ensures var g := groups[0];
            Table(groups, at)
            == ThunkWords(g.names, at + |g.dll| + 1)
                + ([0] + Table(groups[1..], at + |g.dll| + 1 + HintNameBytes(g.names)))
  {
  }

  lemma {:induction false} TableUnfold(groups: seq<Group>, at: nat)
    requires groups != []
    ensures var words, more := ThunkWords(groups[0].names, at + |groups[0].dll| + 1),
            Table(groups[1..], at + TextBytes([groups[0]]));
            Table(groups, at) == words + ([0] + more) && Table(groups, at) == (words + [0]) + more
  {
    OneGroup(groups[0]);
    TableOfFirst(groups, at);
    Regroup(ThunkWords(groups[0].names, at + |groups[0].dll| + 1), [0],
        Table(groups[1..], at + TextBytes([groups[0]])));
  }

  lemma {:induction false} GroupBounds(groups: seq<Group>)
    requires groups != [] && WellNamed(groups)
    ensures AllNames(groups[0].names)
    ensures |groups[0].dll| + 1 + HintNameBytes(groups[0].names) <= TextBytes(groups)
  {
  }

  lemma {:induction false} NamesOfGroupLoad(
    d: seq<uint8>, va: nat, o: nat, wide: bool, g: Group, h: nat, first: nat, words: seq<nat>, more: seq<nat>)
    requires words == ThunkWords(g.names, first) + ([0] + more) && Holds(d, o, TableBytes(wide, words))
    requires Holds(d, h, HintNames(g.names)) && AllNames(g.names)
    requires va > 0 && first == va + h && first + HintNameBytes(g.names) < AddressLimit(wide)
    ensures LoadNames(d, va, o, wide) == g.names
  {
    NamesLoad(d, va, o, wide, g.names, h, first, more);
  }

  /** One DLL's part of a thunk table loads as its functions. */
  lemma {:induction false} GroupLoads(d: seq<uint8>, va: nat, o: nat, wide: bool, groups: seq<Group>, c: nat, at: nat)
    requires groups != [] && WellNamed(groups) && Holds(d, o, TableBytes(wide, Table(groups, at)))
    requires Holds(d, c, Texts(groups)) && va > 0 && at == va + c && at + TextBytes(groups) < AddressLimit(wide)
    ensures LoadNames(d, va, o, wide) == groups[0].names
  {
    var g := groups[0];
    var h, first, words := c + |g.dll| + 1, at + |g.dll| + 1, Table(groups, at);
    var more := FirstWords(groups, at, first, words);
    assert Holds(d, h, HintNames(g.names)) by { TextsSplit(d, c, groups); }
    assert AllNames(g.names) && first + HintNameBytes(g.names) < AddressLimit(wide) by { GroupBounds(groups); }
    NamesOfGroupLoad(d, va, o, wide, g, h, first, words, more);
  }

  lemma {:induction false} FirstWords(groups: seq<Group>, at: nat, first: nat, words: seq<nat>) returns (more: seq<nat>)
    requires groups != [] && first == at + |groups[0].dll| + 1 && words == Table(groups, at)
    ensures words == ThunkWords(groups[0].names, first) + ([0] + more)
  {
    more := Table(groups[1..], at + TextBytes([groups[0]]));
    TableUnfold(groups, at);
  }

  lemma {:induction false} NextTable(d: seq<uint8>, at: nat, o: nat, wide: bool, groups: seq<Group>)
    requires groups != [] && Holds(d, o, TableBytes(wide, Table(groups, at)))
    ensures Holds(d, o + ThunkBytes(wide, |groups[0].names| + 1),
                  TableBytes(wide, Table(groups[1..], at + TextBytes([groups[0]]))))
  {
    TableUnfold(groups, at);
    TableSkips(d, o, wide, ThunkWords(groups[0].names, at + |groups[0].dll| + 1) + [0],
               Table(groups[1..], at + TextBytes([groups[0]])));
  }

  lemma {:induction false} OneGroup(g: Group)
    ensures TextBytes([g]) == |g.dll| + 1 + HintNameBytes(g.names)
  {
    assert TextBytes([g]) == |g.dll| + 1 + HintNameBytes(g.names) + TextBytes([]);
  }

  lemma {:induction false} NextDescriptor(
    d: seq<uint8>, o: nat, wide: bool, groups: seq<Group>, iat: nat, ilt: nat, at: nat)
    requires groups != [] && Holds(d, o, DescriptorBytes(Descriptors(groups, wide, iat, ilt, at) + [EMPTY]))
    requires iat < 0x1_0000_0000 && ilt < 0x1_0000_0000 && at < 0x1_0000_0000
    ensures o + 20 <= |d| && DescriptorAt(d, o) == Descriptor(ilt, 0, 0, at, iat)
    ensures var step := ThunkBytes(wide, |groups[0].names| + 1);
            Holds(d, o + 20, DescriptorBytes(
              Descriptors(groups[1..], wide, iat + step, ilt + step, at + TextBytes([groups[0]])) + [EMPTY]))
  {
    var step := ThunkBytes(wide, |groups[0].names| + 1);
    var rest := Descriptors(groups[1..], wide, iat + step, ilt + step, at + TextBytes([groups[0]])) + [EMPTY];
    assert Descriptors(groups, wide, iat, ilt, at) + [EMPTY] == [Descriptor(ilt, 0, 0, at, iat)] + rest;
    DescriptorsSplit(d, o, Descriptor(ilt, 0, 0, at, iat), rest);
  }

  lemma {:induction false} NextText(d: seq<uint8>, c: nat, groups: seq<Group>)
    requires groups != [] && WellNamed(groups) && Holds(d, c, Texts(groups))
    ensures CString(d, c) == groups[0].dll && Holds(d, c + TextBytes([groups[0]]), Texts(groups[1..]))
    ensures TextBytes(groups) == TextBytes([groups[0]]) + TextBytes(groups[1..])
  {
    OneGroup(groups[0]);
    TextsSplit(d, c, groups);
  }

  // Each part, read back on its own.

  ghost predicate DescriptorsRead(d: seq<uint8>, o: nat, wide: bool, groups: seq<Group>, iat: nat, ilt: nat, at: nat)
    decreases |groups|
  {
    && o + 20 <= |d|
    && if groups == [] then DescriptorAt(d, o) == EMPTY
       else
         && DescriptorAt(d, o) == Descriptor(ilt, 0, 0, at, iat)
         && DescriptorsRead(d, o + 20, wide, groups[1..], iat + ThunkBytes(wide, |groups[0].names| + 1),
                            ilt + ThunkBytes(wide, |groups[0].names| + 1), at + TextBytes([groups[0]]))
  }

  ghost predicate TableRead(d: seq<uint8>, va: nat, o: nat, wide: bool, groups: seq<Group>)
    decreases |groups|
  {
    groups != [] ==>
      && LoadNames(d, va, o, wide) == groups[0].names
      && TableRead(d, va, o + ThunkBytes(wide, |groups[0].names| + 1), wide, groups[1..])
  }

  ghost predicate TextsRead(d: seq<uint8>, c: nat, groups: seq<Group>)
    decreases |groups|
  {
    groups != [] ==> CString(d, c) == groups[0].dll && TextsRead(d, c + TextBytes([groups[0]]), groups[1..])
  }

  /** The three parts of a list stay below the limits of their words. */
  ghost predicate AddressesFit(groups: seq<Group>, wide: bool, iat: nat, ilt: nat, at: nat) {
    && iat + ThunkBytes(wide, Thunks(groups)) < 0x1_0000_0000 && ilt + ThunkBytes(wide, Thunks(groups)) < 0x1_0000_0000
    && at + TextBytes(groups) < AddressLimit(wide)
  }

  lemma {:induction false} AddressesFitOn(
    groups: seq<Group>, wide: bool, iat: nat, ilt: nat, at: nat, step: nat, text: nat, tail: seq<Group>)
    requires groups != [] && tail == groups[1..] && AddressesFit(groups, wide, iat, ilt, at)
    requires step == ThunkBytes(wide, |groups[0].names| + 1) && text == TextBytes([groups[0]])
    ensures iat < 0x1_0000_0000 && ilt < 0x1_0000_0000 && at < 0x1_0000_0000
    ensures AddressesFit(tail, wide, iat + step, ilt + step, at + text)
  {
    OneGroup(groups[0]);
  }

  lemma {:induction false} DescriptorsReadBack(
    d: seq<uint8>, o: nat, wide: bool, groups: seq<Group>, iat: nat, ilt: nat, at: nat)
    requires Holds(d, o, DescriptorBytes(Descriptors(groups, wide, iat, ilt, at) + [EMPTY]))
    requires AddressesFit(groups, wide, iat, ilt, at)
    ensures DescriptorsRead(d, o, wide, groups, iat, ilt, at)
    decreases |groups|
  {
    if groups == [] {
      assert Descriptors(groups, wide, iat, ilt, at) + [EMPTY] == [EMPTY] + [];
      DescriptorsSplit(d, o, EMPTY, []);
    } else {
      var step, text := ThunkBytes(wide, |groups[0].names| + 1), TextBytes([groups[0]]);
      AddressesFitOn(groups, wide, iat, ilt, at, step, text, groups[1..]);
      NextDescriptor(d, o, wide, groups, iat, ilt, at);
      DescriptorsReadBack(d, o + 20, wide, groups[1..], iat + step, ilt + step, at + text);
    }
  }

  lemma {:induction false} TextsReadBack(d: seq<uint8>, c: nat, groups: seq<Group>)
    requires WellNamed(groups) && Holds(d, c, Texts(groups))
    ensures TextsRead(d, c, groups)
    decreases |groups|
  {
    if groups != [] {
      NextText(d, c, groups);
      TailWellNamed(groups);
      TextsReadBack(d, c + TextBytes([groups[0]]), groups[1..]);
    }
  }

  lemma {:induction false} TailWellNamed(groups: seq<Group>)
    requires groups != [] && WellNamed(groups)
    ensures WellNamed(groups[1..])
  {
  }

  /** What follows one group of a table, and its strings, at the places where they stand. */
  lemma {:induction false} TableMoves(
    d: seq<uint8>, o: nat, wide: bool, groups: seq<Group>, at: nat, tail: seq<Group>, o2: nat, at2: nat)
    requires groups != [] && tail == groups[1..] && Holds(d, o, TableBytes(wide, Table(groups, at)))
    requires o2 == o + ThunkBytes(wide, |groups[0].names| + 1) && at2 == at + TextBytes([groups[0]])
    ensures Holds(d, o2, TableBytes(wide, Table(tail, at2)))
  {
    NextTable(d, at, o, wide, groups);
  }

  lemma {:induction false} TextMoves(d: seq<uint8>, groups: seq<Group>, c: nat, tail: seq<Group>, c2: nat)
    requires groups != [] && WellNamed(groups) && tail == groups[1..] && Holds(d, c, Texts(groups))
    requires c2 == c + TextBytes([groups[0]])
    ensures WellNamed(tail) && Holds(d, c2, Texts(tail)) && c2 + TextBytes(tail) == c + TextBytes(groups)
  {
    TailWellNamed(groups);
    NextText(d, c, groups);
  }

  lemma {:induction false} TableReadBack(
    d: seq<uint8>, va: nat, o: nat, wide: bool, groups: seq<Group>, c: nat, at: nat)
    requires WellNamed(groups) && Holds(d, o, TableBytes(wide, Table(groups, at))) && Holds(d, c, Texts(groups))
    requires va > 0 && at == va + c && at + TextBytes(groups) < AddressLimit(wide)
    ensures TableRead(d, va, o, wide, groups)
    decreases |groups|
  {
    if groups != [] {
      var step, text, tail := ThunkBytes(wide, |groups[0].names| + 1), TextBytes([groups[0]]), groups[1..];
      var o2, c2, at2 := o + step, c + text, at + text;
      GroupLoads(d, va, o, wide, groups, c, at);
      TableMoves(d, o, wide, groups, at, tail, o2, at2);
      TextMoves(d, groups, c, tail, c2);
      TableReadBack(d, va, o2, wide, tail, c2, at2);
    }
  }

  lemma {:induction false} LoadGroupStep(d: seq<uint8>, va: nat, o: nat, wide: bool, original: bool)
    requires o + 20 <= |d| && va > 0
    requires var e := DescriptorAt(d, o); va <= e.originalFirstThunk && va <= e.firstThunk && va <= e.name
    ensures var e := DescriptorAt(d, o);
            LoadGroups(d, va, o, wide, original)
            == [Group(CString(d, e.name - va),
                      LoadNames(d, va, (if original then e.originalFirstThunk else e.firstThunk) - va, wide))]
               + LoadGroups(d, va, o + 20, wide, original)
  {
  }

  /** The first descriptor loads as the first group. */
  lemma {:induction false} FirstGroupLoads(
    d: seq<uint8>, va: nat, wide: bool, g: Group, original: bool, o: nat, a: nat, b: nat, c: nat)
    requires o + 20 <= |d| && va > 0 && DescriptorAt(d, o) == Descriptor(va + b, 0, 0, va + c, va + a)
    requires LoadNames(d, va, a, wide) == g.names && LoadNames(d, va, b, wide) == g.names && CString(d, c) == g.dll
    ensures LoadGroups(d, va, o, wide, original) == [g] + LoadGroups(d, va, o + 20, wide, original)
  {
    LoadGroupStep(d, va, o, wide, original);
  }

  /** What the reading of the parts says about the first group and about the others. */
  lemma {:induction false} PartsMove(
    d: seq<uint8>, wide: bool, groups: seq<Group>, o: nat, c: nat, iat: nat, ilt: nat, at: nat,
    step: nat, text: nat, tail: seq<Group>)
    requires groups != [] && tail == groups[1..] && DescriptorsRead(d, o, wide, groups, iat, ilt, at)
             && TextsRead(d, c, groups)
    requires step == ThunkBytes(wide, |groups[0].names| + 1) && text == TextBytes([groups[0]])
    ensures o + 20 <= |d| && DescriptorAt(d, o) == Descriptor(ilt, 0, 0, at, iat) && CString(d, c) == groups[0].dll
    ensures DescriptorsRead(d, o + 20, wide, tail, iat + step, ilt + step, at + text) && TextsRead(d, c + text, tail)
  {
  }

  lemma {:induction false} TableMovesOn(
    d: seq<uint8>, va: nat, o: nat, wide: bool, groups: seq<Group>, step: nat, tail: seq<Group>)
    requires groups != [] && tail == groups[1..] && TableRead(d, va, o, wide, groups)
    requires step == ThunkBytes(wide, |groups[0].names| + 1)
    ensures LoadNames(d, va, o, wide) == groups[0].names && TableRead(d, va, o + step, wide, tail)
  {
  }

  /** All parts of a directory read as the list: descriptors at o, tables at a and b, names at c. */
  ghost predicate PartsRead(d: seq<uint8>, va: nat, wide: bool, groups: seq<Group>, o: nat, a: nat, b: nat, c: nat) {
    && DescriptorsRead(d, o, wide, groups, va + a, va + b, va + c)
    && TableRead(d, va, a, wide, groups) && TableRead(d, va, b, wide, groups) && TextsRead(d, c, groups)
  }

  lemma {:induction false} PartsMoveOn(
    d: seq<uint8>, va: nat, wide: bool, groups: seq<Group>, o: nat, a: nat, b: nat, c: nat, step: nat, text: nat,
    tail: seq<Group>)
    requires groups != [] && tail == groups[1..] && PartsRead(d, va, wide, groups, o, a, b, c)
    requires step == ThunkBytes(wide, |groups[0].names| + 1) && text == TextBytes([groups[0]])
    ensures PartsRead(d, va, wide, tail, o + 20, a + step, b + step, c + text)
  {
    PartsMove(d, wide, groups, o, c, va + a, va + b, va + c, step, text, tail);
    TableMovesOn(d, va, a, wide, groups, step, tail);
    TableMovesOn(d, va, b, wide, groups, step, tail);
  }

  /** The parts of the first DLL. */
  lemma {:induction false} FirstPartsRead(
    d: seq<uint8>, va: nat, wide: bool, groups: seq<Group>, o: nat, a: nat, b: nat, c: nat, g: Group)
    requires groups != [] && g == groups[0] && PartsRead(d, va, wide, groups, o, a, b, c)
    ensures o + 20 <= |d| && DescriptorAt(d, o) == Descriptor(va + b, 0, 0, va + c, va + a)
    ensures LoadNames(d, va, a, wide) == g.names && LoadNames(d, va, b, wide) == g.names && CString(d, c) == g.dll
  {
  }

  /** A directory loads as the groups it was written for, by either thunk table. */
  lemma {:induction false} GroupsLoad(
    d: seq<uint8>, va: nat, wide: bool, groups: seq<Group>, original: bool, o: nat, a: nat, b: nat, c: nat)
    requires va > 0 && PartsRead(d, va, wide, groups, o, a, b, c)
    ensures LoadGroups(d, va, o, wide, original) == groups
    decreases |groups|, 1
  {
    if groups != [] {
      OthersLoad(d, va, wide, groups, original, o, a, b, c);
      FirstPartsRead(d, va, wide, groups, o, a, b, c, groups[0]);
      FirstGroupLoads(d, va, wide, groups[0], original, o, a, b, c);
      assert groups == [groups[0]] + groups[1..];
    }
  }

  lemma {:induction false} OthersLoad(
    d: seq<uint8>, va: nat, wide: bool, groups: seq<Group>, original: bool, o: nat, a: nat, b: nat, c: nat)
    requires va > 0 && groups != [] && PartsRead(d, va, wide, groups, o, a, b, c)
    ensures LoadGroups(d, va, o + 20, wide, original) == groups[1..]
    decreases |groups|, 0
  {
    var step, text, tail := ThunkBytes(wide, |groups[0].names| + 1), TextBytes([groups[0]]), groups[1..];
    PartsMoveOn(d, va, wide, groups, o, a, b, c, step, text, tail);
    GroupsLoad(d, va, wide, tail, original, o + 20, a + step, b + step, c + text);
  }

  /** Offsets of the import address table, the import name table and the strings. */
  function IatOffset(groups: seq<Group>): nat {
    20 * (|groups| + 1)
  }

  function IntOffset(groups: seq<Group>, wide: bool): nat {
    IatOffset(groups) + ThunkBytes(wide, Thunks(groups))
  }

  function TextOffset(groups: seq<Group>, wide: bool): nat {
    IntOffset(groups, wide) + ThunkBytes(wide, Thunks(groups))
  }

  /** What the directory buffer holds: its parts one behind the other and unused zeros. */
  datatype Directory = Directory(iid: seq<Descriptor>, iat: seq<nat>, ilt: seq<nat>, text: seq<uint8>)

  function Bytes(r: Directory, wide: bool): seq<uint8> {
    DescriptorBytes(r.iid) + (TableBytes(wide, r.iat) + (TableBytes(wide, r.ilt) + r.text))
  }

  /** The directory of an import list for a section at address va, with slack bytes behind it. */
  function Written(groups: seq<Group>, wide: bool, va: nat, slack: nat): Directory {
    var at := va + TextOffset(groups, wide);
    Directory(Descriptors(groups, wide, va + IatOffset(groups), va + IntOffset(groups, wide), at) + [EMPTY],
              Table(groups, at), Table(groups, at), Texts(groups) + Zeros(slack))
  }

  /** The parts fill the directory exactly. */
  lemma {:induction false} WrittenSize(groups: seq<Group>, wide: bool, va: nat, slack: nat)
    ensures |Bytes(Written(groups, wide, va, slack), wide)| == DirectorySize(groups, wide) + slack
  {
  }

  lemma {:induction false} TextsEnd(groups: seq<Group>, wide: bool)
    ensures TextOffset(groups, wide) + TextBytes(groups) == DirectorySize(groups, wide)
    ensures IatOffset(groups) + ThunkBytes(wide, Thunks(groups)) == IntOffset(groups, wide)
    ensures IntOffset(groups, wide) + ThunkBytes(wide, Thunks(groups)) == TextOffset(groups, wide)
  {
  }

  lemma {:induction false} FourParts(
    a: seq<uint8>, b: seq<uint8>, c: seq<uint8>, e: seq<uint8>, z: seq<uint8>, d: seq<uint8>)
    requires d == a + (b + (c + (e + z)))
    ensures Holds(d, 0, a) && Holds(d, |a|, b) && Holds(d, |a| + |b|, c) && Holds(d, |a| + |b| + |c|, e)
  {
    HoldsSplit(d, 0, a, b + (c + (e + z)));
    HoldsSplit(d, |a|, b, c + (e + z));
    HoldsSplit(d, |a| + |b|, c, e + z);
    HoldsSplit(d, |a| + |b| + |c|, e, z);
  }

  /** The parts of the directory stand one behind the other. */
  ghost predicate PartsStand(d: seq<uint8>, va: nat, wide: bool, groups: seq<Group>, at: nat) {
    && Holds(d, 0, DescriptorBytes(Descriptors(groups, wide, va + IatOffset(groups), va + IntOffset(groups, wide), at)
       + [EMPTY]))
    && Holds(d, IatOffset(groups), TableBytes(wide, Table(groups, at)))
    && Holds(d, IntOffset(groups, wide), TableBytes(wide, Table(groups, at)))
    && Holds(d, TextOffset(groups, wide), Texts(groups))
  }

  lemma {:induction false} WrittenStands(d: seq<uint8>, groups: seq<Group>, wide: bool, va: nat, slack: nat)
    requires d == Bytes(Written(groups, wide, va, slack), wide)
    ensures PartsStand(d, va, wide, groups, va + TextOffset(groups, wide))
  {
    var r := Written(groups, wide, va, slack);
    assert TableBytes(wide, r.ilt) + r.text == TableBytes(wide, r.ilt) + (Texts(groups) + Zeros(slack));
    FourParts(DescriptorBytes(r.iid), TableBytes(wide, r.iat), TableBytes(wide, r.ilt), Texts(groups), Zeros(slack), d);
  }

  /** Every part of the directory reads back as what the import list asks for. */
  ghost predicate Readable(d: seq<uint8>, va: nat, wide: bool, groups: seq<Group>) {
    && DescriptorsRead(d, 0, wide, groups, va + IatOffset(groups), va + IntOffset(groups, wide),
       va + TextOffset(groups, wide))
    && TableRead(d, va, IatOffset(groups), wide, groups)
    && TableRead(d, va, IntOffset(groups, wide), wide, groups)
    && TextsRead(d, TextOffset(groups, wide), groups)
  }

  lemma {:induction false} StandingDescriptorsRead(d: seq<uint8>, va: nat, wide: bool, groups: seq<Group>, at: nat)
    requires PartsStand(d, va, wide, groups, at) && at == va + TextOffset(groups, wide)
             && at + TextBytes(groups) < AddressLimit(wide)
    ensures DescriptorsRead(d, 0, wide, groups, va + IatOffset(groups), va + IntOffset(groups, wide), at)
  {
    TextsEnd(groups, wide);
    DescriptorsReadBack(d, 0, wide, groups, va + IatOffset(groups), va + IntOffset(groups, wide), at);
  }

  lemma {:induction false} StandingTablesRead(d: seq<uint8>, va: nat, wide: bool, groups: seq<Group>, at: nat)
    requires PartsStand(d, va, wide, groups, at)
    requires WellNamed(groups) && va > 0 && at == va + TextOffset(groups, wide)
             && at + TextBytes(groups) < AddressLimit(wide)
    ensures TableRead(d, va, IatOffset(groups), wide, groups) && TableRead(d, va, IntOffset(groups, wide), wide, groups)
  {
    TableReadBack(d, va, IatOffset(groups), wide, groups, TextOffset(groups, wide), at);
    TableReadBack(d, va, IntOffset(groups, wide), wide, groups, TextOffset(groups, wide), at);
  }

  lemma {:induction false} WrittenReads(d: seq<uint8>, groups: seq<Group>, wide: bool, va: nat, slack: nat)
    requires d == Bytes(Written(groups, wide, va, slack), wide)
    requires WellNamed(groups) && va > 0 && va + DirectorySize(groups, wide) < AddressLimit(wide)
    ensures Readable(d, va, wide, groups)
  {
    TextsEnd(groups, wide);
    WrittenStands(d, groups, wide, va, slack);
    StandingReads(d, va, wide, groups, va + TextOffset(groups, wide));
  }

  lemma {:induction false} StandingReads(d: seq<uint8>, va: nat, wide: bool, groups: seq<Group>, at: nat)
    requires PartsStand(d, va, wide, groups, at)
    requires WellNamed(groups) && va > 0 && at == va + TextOffset(groups, wide)
             && at + TextBytes(groups) < AddressLimit(wide)
    ensures Readable(d, va, wide, groups)
  {
    StandingDescriptorsRead(d, va, wide, groups, at);
    StandingTablesRead(d, va, wide, groups, at);
    TextsReadBack(d, TextOffset(groups, wide), groups);
  }

  /**
   Round trip: read by either thunk table, the directory describes the import list, every DLL
   with its functions in order.
   */
  lemma {:induction false} DirectoryLoads(
    d: seq<uint8>, groups: seq<Group>, wide: bool, va: nat, slack: nat, original: bool)
    requires d == Bytes(Written(groups, wide, va, slack), wide)
    requires WellNamed(groups) && va > 0 && va + DirectorySize(groups, wide) < AddressLimit(wide)
    ensures LoadGroups(d, va, 0, wide, original) == groups
  {
    WrittenReads(d, groups, wide, va, slack);
    ReadableLoads(d, va, wide, groups, original);
  }

  lemma {:induction false} ReadableLoads(d: seq<uint8>, va: nat, wide: bool, groups: seq<Group>, original: bool)
    requires Readable(d, va, wide, groups) && va > 0
    ensures LoadGroups(d, va, 0, wide, original) == groups
  {
    var a, b, c := IatOffset(groups), IntOffset(groups, wide), TextOffset(groups, wide);
    GroupsLoad(d, va, wide, groups, original, 0, a, b, c);
  }

  // ---------- the stubs ----------

  /** An indirect jump: two bytes of code and four of data. */
  datatype Stub = Stub(code: nat, data: nat)

  const JUMP: nat := 0x25ff

  /** The stub at address p for the IAT slot at address v: relative in a 64-bit image, absolute in a 32-bit one. */
  function StubFor(wide: bool, v: nat, p: nat, base: nat): Stub {
    Stub(JUMP, if wide then (v - (p + 6)) % 0x1_0000_0000 else (v + base) % 0x1_0000_0000)
  }

  /** The address (without image base) from which the stub at address p takes its target. */
  function SlotRead(s: Stub, wide: bool, p: nat, base: nat): nat {
    if wide then (p + 6 + s.data) % 0x1_0000_0000 else (s.data - base) % 0x1_0000_0000
  }

  lemma {:induction false} StubReadsItsSlot(wide: bool, v: nat, p: nat, base: nat)
    requires v < 0x1_0000_0000
    ensures StubFor(wide, v, p, base).code == 0x25ff && SlotRead(StubFor(wide, v, p, base), wide, p, base) == v
  {
    var m := 0x1_0000_0000;
    if wide {
      assert (p + 6 + (v - (p + 6)) % m) % m == v % m;
    } else {
      assert ((v + base) % m - base) % m == v % m;
    }
  }

  function NameStubs(n: nat, wide: bool, v: nat, p: nat, base: nat): (s: seq<Stub>)
    ensures |s| == n
  {
    if n == 0 then [] else [StubFor(wide, v, p, base)] + NameStubs(n - 1, wide, v + ThunkBytes(wide, 1), p + 6, base)
  }

  /** All stubs: the import address table goes on at address v, the stubs at address p. */
  function Stubs(groups: seq<Group>, wide: bool, v: nat, p: nat, base: nat): (s: seq<Stub>)
    ensures |s| == |Flat(groups)|
  {
    if groups == [] then []
    else
      var n := |groups[0].names|;
      NameStubs(n, wide, v, p, base) + Stubs(groups[1..], wide, v + ThunkBytes(wide, n + 1), p + 6 * n, base)
  }

  /** A jump as six bytes hold it. */
  predicate StubFits(s: Stub) {
    s.code == 0x25ff && s.data < 0x1_0000_0000
  }

  ghost predicate StubsFit(stubs: seq<Stub>) {
    forall s :: s in stubs ==> StubFits(s)
  }

  lemma {:induction false} NameStubsFit(n: nat, wide: bool, v: nat, p: nat, base: nat)
    ensures StubsFit(NameStubs(n, wide, v, p, base))
  {
    if n > 0 { NameStubsFit(n - 1, wide, v + ThunkBytes(wide, 1), p + 6, base); }
  }

  lemma {:induction false} WrittenStubsFit(groups: seq<Group>, wide: bool, v: nat, p: nat, base: nat)
    ensures StubsFit(Stubs(groups, wide, v, p, base))
  {
    if groups != [] {
      var n := |groups[0].names|;
      NameStubsFit(n, wide, v, p, base);
      WrittenStubsFit(groups[1..], wide, v + ThunkBytes(wide, n + 1), p + 6 * n, base);
    }
  }

  lemma {:induction false} NameStubAt(n: nat, wide: bool, v: nat, p: nat, base: nat, j: nat)
    requires j < n
    ensures NameStubs(n, wide, v, p, base)[j] == StubFor(wide, v + ThunkBytes(wide, j), p + 6 * j, base)
  {
    if j > 0 { NameStubAt(n - 1, wide, v + ThunkBytes(wide, 1), p + 6, base, j - 1); }
  }

  /** The name behind the IAT slot at an offset. */
  ghost predicate NameBehind(d: seq<uint8>, va: nat, o: nat, wide: bool, name: Name) {
    && o + ThunkBytes(wide, 1) <= |d|
    && ThunkAt(d, o, wide) >= va
    && CString(d, ThunkAt(d, o, wide) - va + 2) == name
  }

  lemma {:induction false} LoadedNameBehind(d: seq<uint8>, va: nat, o: nat, wide: bool, j: nat, name: Name)
    requires j < |LoadNames(d, va, o, wide)| && LoadNames(d, va, o, wide)[j] == name && IsName(name)
    ensures NameBehind(d, va, o + ThunkBytes(wide, j), wide, name)
    decreases j
  {
    assert 0 < |name| ==> name[0] != 0;
    if j > 0 { LoadedNameBehind(d, va, o + ThunkBytes(wide, 1), wide, j - 1, name); }
  }

  /** A stub is an indirect jump, ff 25 as bytes, through an IAT slot behind which stands a given name. */
  ghost predicate Leads(d: seq<uint8>, va: nat, wide: bool, s: Stub, p: nat, base: nat, name: Name) {
    && s.code == 0x25ff && SlotRead(s, wide, p, base) >= va
    && NameBehind(d, va, SlotRead(s, wide, p, base) - va, wide, name)
  }

  /** The IAT slot of function t of the list, for a table that goes on at address v. */
  function SlotOf(groups: seq<Group>, wide: bool, v: nat, t: nat): nat
    requires t < |Flat(groups)|
  {
    var n := |groups[0].names|;
    if t < n then v + ThunkBytes(wide, t) else SlotOf(groups[1..], wide, v + ThunkBytes(wide, n + 1), t - n)
  }

  lemma {:induction false} SlotInTable(groups: seq<Group>, wide: bool, v: nat, t: nat)
    requires t < |Flat(groups)|
    ensures v <= SlotOf(groups, wide, v, t) <= v + ThunkBytes(wide, Thunks(groups))
    decreases |groups|
  {
    var n := |groups[0].names|;
    if t >= n { SlotInTable(groups[1..], wide, v + ThunkBytes(wide, n + 1), t - n); }
  }

  lemma {:induction false} StubAt(groups: seq<Group>, wide: bool, v: nat, p: nat, base: nat, t: nat)
    requires t < |Flat(groups)|
    ensures Stubs(groups, wide, v, p, base)[t] == StubFor(wide, SlotOf(groups, wide, v, t), p + 6 * t, base)
    decreases |groups|
  {
    var n := |groups[0].names|;
    if t < n {
      NameStubAt(n, wide, v, p, base, t);
    } else {
      StubAt(groups[1..], wide, v + ThunkBytes(wide, n + 1), p + 6 * n, base, t - n);
      assert SlotOf(groups, wide, v, t) == SlotOf(groups[1..], wide, v + ThunkBytes(wide, n + 1), t - n);
    }
  }

  lemma {:induction false} SlotUnfold(groups: seq<Group>, wide: bool, v: nat, t: nat)
    requires t < |Flat(groups)| && t >= |groups[0].names|
    ensures var n := |groups[0].names|;
            && Flat(groups)[t] == Flat(groups[1..])[t - n]
            && SlotOf(groups, wide, v, t) == SlotOf(groups[1..], wide, v + ThunkBytes(wide, n + 1), t - n)
  {
  }

  lemma {:induction false} NameBehindFirst(
    d: seq<uint8>, va: nat, wide: bool, groups: seq<Group>, o: nat, v: nat, t: nat, slot: nat, name: Name)
    requires TableRead(d, va, o, wide, groups) && groups != [] && t < |groups[0].names| && v == va + o
    requires slot == v + ThunkBytes(wide, t) && name == groups[0].names[t] && IsName(name)
    ensures slot >= va && NameBehind(d, va, slot - va, wide, name)
  {
    LoadedNameBehind(d, va, o, wide, t, name);
  }

  lemma {:induction false} NameBehindSlot(
    d: seq<uint8>, va: nat, wide: bool, groups: seq<Group>, o: nat, v: nat, t: nat, slot: nat, name: Name)
    requires TableRead(d, va, o, wide, groups) && t < |Flat(groups)| && v == va + o
    requires slot == SlotOf(groups, wide, v, t) && name == Flat(groups)[t] && IsName(name)
    ensures slot >= va && NameBehind(d, va, slot - va, wide, name)
    decreases |groups|
  {
    var n := |groups[0].names|;
    if t < n {
      NameBehindFirst(d, va, wide, groups, o, v, t, slot, name);
    } else {
      var step := ThunkBytes(wide, n + 1);
      SlotUnfold(groups, wide, v, t);
      TableMovesOn(d, va, o, wide, groups, step, groups[1..]);
      NameBehindSlot(d, va, wide, groups[1..], o + step, v + step, t - n, slot, name);
    }
  }

  lemma {:induction false} StubLeadsToName(
    d: seq<uint8>, va: nat, wide: bool, groups: seq<Group>, o: nat, v: nat, p: nat, base: nat, t: nat, s: Stub,
    at: nat, name: Name)
    requires TableRead(d, va, o, wide, groups) && t < |Flat(groups)| && v == va + o
    requires v + ThunkBytes(wide, Thunks(groups)) < 0x1_0000_0000
    requires s == Stubs(groups, wide, v, p, base)[t] && at == p + 6 * t
    requires name == Flat(groups)[t] && IsName(name)
    ensures Leads(d, va, wide, s, at, base, name)
  {
    StubAt(groups, wide, v, p, base, t);
    SlotInTable(groups, wide, v, t);
    StubReadsItsSlot(wide, SlotOf(groups, wide, v, t), at, base);
    NameBehindSlot(d, va, wide, groups, o, v, t, SlotOf(groups, wide, v, t), name);
  }

  /** Stub t of the list jumps through the IAT slot of function t of the list. */
  lemma {:induction false} StubsFollowList(
    d: seq<uint8>, groups: seq<Group>, wide: bool, va: nat, p: nat, base: nat, t: nat, s: Stub, at: nat, name: Name)
    requires Readable(d, va, wide, groups) && va + DirectorySize(groups, wide) < AddressLimit(wide)
             && t < |Flat(groups)|
    requires s == Stubs(groups, wide, va + IatOffset(groups), p, base)[t] && at == p + 6 * t
    requires name == Flat(groups)[t] && IsName(name)
    ensures Leads(d, va, wide, s, at, base, name)
  {
    StubLeadsToName(d, va, wide, groups, IatOffset(groups), va + IatOffset(groups), p, base, t, s, at, name);
  }

  /** Where slot k of a .plt at address p leads. */
  ghost predicate SlotLeads(
    d: seq<uint8>, stubs: seq<Stub>, wide: bool, va: nat, p: nat, base: nat, k: nat, name: Name)
  {
    k < |stubs| && Leads(d, va, wide, stubs[k], SlotAddress(p, k), base, name)
  }

  /** A slot leads to one name only. */
  lemma {:induction false} LeadsToOne(
    d: seq<uint8>, stubs: seq<Stub>, wide: bool, va: nat, p: nat, base: nat, k: nat, a: Name, b: Name)
    requires SlotLeads(d, stubs, wide, va, p, base, k, a)
    ensures SlotLeads(d, stubs, wide, va, p, base, k, b) <==> a == b
  {
  }

  /** Slot t leads to the t-th name, for all names. */
  ghost predicate AllLead(d: seq<uint8>, stubs: seq<Stub>, names: seq<Name>, wide: bool, va: nat, p: nat, base: nat) {
    forall t :: 0 <= t < |names| ==> SlotLeads(d, stubs, wide, va, p, base, t, names[t])
  }

  lemma {:induction false} ListedIsName(groups: seq<Group>, t: nat)
    requires WellNamed(groups) && t < |Flat(groups)|
    ensures IsName(Flat(groups)[t])
  {
    assert groups[0] in groups;
    var n := |groups[0].names|;
    if t < n {
      assert Flat(groups)[t] == groups[0].names[t] && groups[0].names[t] in groups[0].names;
    } else {
      TailWellNamed(groups);
      ListedIsName(groups[1..], t - n);
    }
  }

  /** In written sections the slots lead to the functions in list order. */
  lemma {:induction false} ListLeads(
    d: seq<uint8>, stubs: seq<Stub>, groups: seq<Group>, wide: bool, va: nat, p: nat, base: nat)
    requires Readable(d, va, wide, groups) && va + DirectorySize(groups, wide) < AddressLimit(wide) && WellNamed(groups)
    requires stubs == Stubs(groups, wide, va + IatOffset(groups), p, base)
    ensures AllLead(d, stubs, Flat(groups), wide, va, p, base)
  {
    forall t | 0 <= t < |Flat(groups)| ensures SlotLeads(d, stubs, wide, va, p, base, t, Flat(groups)[t]) {
      ListedIsName(groups, t);
      StubsFollowList(d, groups, wide, va, p, base, t, stubs[t], SlotAddress(p, t), Flat(groups)[t]);
    }
  }

  lemma {:induction false} LeadToBothIff(
    d: seq<uint8>, stubs: seq<Stub>, flat: seq<Name>, names: seq<Name>, wide: bool, va: nat, p: nat, base: nat)
    requires AllLead(d, stubs, flat, wide, va, p, base) && |flat| == |names|
    ensures AllLead(d, stubs, names, wide, va, p, base) <==> flat == names
  {
    if AllLead(d, stubs, names, wide, va, p, base) {
      forall t | 0 <= t < |flat| ensures flat[t] == names[t] {
        LeadsToOne(d, stubs, wide, va, p, base, t, flat[t], names[t]);
      }
    }
  }

  /**
   The address put at every call site belongs to the stub that jumps through that very name's
   IAT slot, exactly if the imports were first met grouped by DLL.
   */
  lemma {:induction false} SlotsMatchIffContiguous(
    d: seq<uint8>, stubs: seq<Stub>, rs: seq<Import>, wide: bool, va: nat, p: nat, base: nat)
    requires Distinct(Names(rs)) && AllLead(d, stubs, Flat(Grouped(rs)), wide, va, p, base)
    ensures AllLead(d, stubs, Names(rs), wide, va, p, base) <==> Contiguous(rs)
  {
    StubOrderIffContiguous(rs);
    LeadToBothIff(d, stubs, Flat(Grouped(rs)), Names(rs), wide, va, p, base);
  }

  // ---------- the import side as a whole ----------

  predicate NamesOnly(rs: seq<Import>) {
    forall r :: r in rs ==> IsName(r.name) && IsName(r.dll)
  }

  lemma {:induction false} GroupedWellNamed(rs: seq<Import>)
    requires NamesOnly(rs)
    ensures WellNamed(Grouped(rs))
  {
    if rs != [] {
      GroupedWellNamed(rs[..|rs| - 1]);
      PlaceWellNamed(Grouped(rs[..|rs| - 1]), rs[|rs| - 1]);
    }
  }

  lemma {:induction false} PlaceWellNamed(groups: seq<Group>, r: Import)
    requires WellNamed(groups) && IsName(r.name) && IsName(r.dll)
    ensures WellNamed(Place(groups, r))
  {
    var k := GroupAt(groups, r.dll);
    PlaceAt(groups, r);
    if k < |groups| {
      assert groups[k] in groups;
    }
  }

  /** A request that a DLL serves was given the address of a stub that leads to the requested name. */
  ghost predicate Reaches(
    d: seq<uint8>, stubs: seq<Stub>, wide: bool, va: nat, p: nat, base: nat, answer: Option<nat>, name: Name)
  {
    answer.Some? ==>
      exists k {:trigger SlotLeads(d, stubs, wide, va, p, base, k, name)} ::
        0 <= k && answer.value == SlotAddress(p, k) && SlotLeads(d, stubs, wide, va, p, base, k, name)
  }

  lemma {:induction false} AnswerReaches(
    d: seq<uint8>, stubs: seq<Stub>, table: seq<Import>, reqs: seq<Name>, wide: bool, va: nat, p: nat, base: nat,
    i: nat)
    requires i < |reqs| && AllLead(d, stubs, Names(Firsts(table, reqs)), wide, va, p, base)
    ensures Reaches(d, stubs, wide, va, p, base, AnswerAfter(table, p, Firsts(table, reqs), reqs[i]), reqs[i])
  {
    var rs := Firsts(table, reqs);
    if IndexOf(Names(table), reqs[i]) < |table| {
      AllEncountered(table, reqs, i);
      var k := IndexOf(Names(rs), reqs[i]);
      assert SlotLeads(d, stubs, wide, va, p, base, k, Names(rs)[k]);
    }
  }

  lemma {:induction false} FirstsNamed(table: seq<Import>, reqs: seq<Name>)
    requires NamesOnly(table)
    ensures NamesOnly(Firsts(table, reqs)) && WellNamed(Grouped(Firsts(table, reqs)))
  {
    GroupedWellNamed(Firsts(table, reqs));
  }

  /** The directory loads as the list, by either thunk table. */
  ghost predicate LoadsAs(bytes: seq<uint8>, va: nat, wide: bool, groups: seq<Group>) {
    forall original :: LoadGroups(bytes, va, 0, wide, original) == groups
  }

  lemma {:induction false} ReadableLoadsEitherWay(d: seq<uint8>, va: nat, wide: bool, groups: seq<Group>)
    requires Readable(d, va, wide, groups) && va > 0
    ensures LoadsAs(d, va, wide, groups)
  {
    ReadableLoads(d, va, wide, groups, true);
    ReadableLoads(d, va, wide, groups, false);
  }

  lemma {:induction false} AllReach(
    bytes: seq<uint8>, stubs: seq<Stub>, table: seq<Import>, reqs: seq<Name>, rs: seq<Import>,
    answers: seq<Option<nat>>,
    wide: bool, va: nat, p: nat, base: nat)
    requires rs == Firsts(table, reqs) && Contiguous(rs) && AllLead(bytes, stubs, Flat(Grouped(rs)), wide, va, p, base)
    requires |answers| == |reqs| && forall i :: 0 <= i < |reqs| ==> answers[i] == AnswerAfter(table, p, rs, reqs[i])
    ensures forall i :: 0 <= i < |reqs| ==> Reaches(bytes, stubs, wide, va, p, base, answers[i], reqs[i])
  {
    SlotsMatchIffContiguous(bytes, stubs, rs, wide, va, p, base);
    forall i | 0 <= i < |reqs| ensures Reaches(bytes, stubs, wide, va, p, base, answers[i], reqs[i]) {
      AnswerReaches(bytes, stubs, table, reqs, wide, va, p, base, i);
    }
  }

  /** The imports a run meets leave room for the stubs and the directory behind address p. */
  ghost predicate ImportsFit(rs: seq<Import>, p: nat, wide: bool) {
    rs != [] && p > 0 && p + 6 * |rs| + CountedLength(rs) < AddressLimit(wide)
  }

  /** What the import side promises for a run of requests. */
  ghost predicate Linked(
    table: seq<Import>, reqs: seq<Name>, rs: seq<Import>, wide: bool, va: nat, p: nat, base: nat,
    answers: seq<Option<nat>>, bytes: seq<uint8>, stubs: seq<Stub>)
  {
    && |answers| == |reqs| && (forall i :: 0 <= i < |reqs| ==> answers[i] == AnswerAfter(table, p, rs, reqs[i]))
    && |bytes| == CountedLength(rs)
    && LoadsAs(bytes, va, wide, Grouped(rs)) && AllLead(bytes, stubs, Flat(Grouped(rs)), wide, va, p, base)
    && (Contiguous(rs) ==> forall i ::
       0 <= i < |reqs| ==> Reaches(bytes, stubs, wide, va, p, base, answers[i], reqs[i]))
  }

  lemma {:induction false} ImportsLinked(
    table: seq<Import>, reqs: seq<Name>, rs: seq<Import>, wide: bool, va: nat, p: nat, base: nat,
    answers: seq<Option<nat>>, bytes: seq<uint8>, stubs: seq<Stub>)
    requires rs == Firsts(table, reqs) && CountedLength(rs) == |bytes| && LoadsAs(bytes, va, wide, Grouped(rs))
    requires AllLead(bytes, stubs, Flat(Grouped(rs)), wide, va, p, base)
    requires |answers| == |reqs| && forall i :: 0 <= i < |reqs| ==> answers[i] == AnswerAfter(table, p, rs, reqs[i])
    ensures Linked(table, reqs, rs, wide, va, p, base, answers, bytes, stubs)
  {
    if Contiguous(rs) {
      AllReach(bytes, stubs, table, reqs, rs, answers, wide, va, p, base);
    }
  }
}

module CoffDirectory {
  import opened Machine
  import opened RelocSpec
  import opened CoffImportSpec
  import opened CoffImports
  import opened CoffDirectorySpec
  import opened CoffCallSpec
  import opened CoffCalls

  /** The part of a buffer in front of the cursor is final: with what is still to come it makes the whole. */
  ghost predicate OnTrack<T(!new)>(whole: seq<T>, a: seq<T>, i: nat, rest: seq<T>) {
    |whole| == |a| && i <= |a| && whole == a[..i] + rest
  }

  lemma {:induction false} TrackGoesOn<T(!new)>(whole: seq<T>, a: seq<T>, b: seq<T>, i: nat, x: T, rest: seq<T>)
    requires OnTrack(whole, a, i, [x] + rest) && i < |a| == |b| && b == a[..i] + [x] + a[i + 1..]
    ensures OnTrack(whole, b, i + 1, rest)
  {
    assert b[..i + 1] == a[..i] + [x];
    assert a[..i] + ([x] + rest) == a[..i] + [x] + rest;
  }

  method Put<T(!new)>(a: array<T>, i: nat, x: T, ghost whole: seq<T>, ghost rest: seq<T>)
    requires OnTrack(whole, a[..], i, [x] + rest)
    modifies a
    ensures OnTrack(whole, a[..], i + 1, rest) && a[i + 1..] == old(a[i + 1..])
  {
    ghost var was := a[..];
    assert |was[..i] + ([x] + rest)| == i + 1 + |rest|;
    a[i] := x;
    TrackGoesOn(whole, was, a[..], i, x, rest);
  }

  /** The strings, with nothing but zeros behind the cursor. */
  ghost predicate StringTrack(whole: seq<uint8>, a: seq<uint8>, i: nat, rest: seq<uint8>) {
    OnTrack(whole, a, i, rest) && forall j :: i <= j < |a| ==> a[j] == 0
  }

  method PutByte(a: array<uint8>, i: nat, x: uint8, ghost whole: seq<uint8>, ghost rest: seq<uint8>)
    requires StringTrack(whole, a[..], i, [x] + rest)
    modifies a
    ensures StringTrack(whole, a[..], i + 1, rest)
  {
    ghost var was := a[..];
    Put(a, i, x, whole, rest);
    forall j | i + 1 <= j < a.Length ensures a[j] == 0 {
      assert a[j] == a[i + 1..][j - (i + 1)] == was[j];
    }
  }

  /** strcpy, without the terminator. */
  method PutBytes(
    a: array<uint8>, i: nat, s: seq<uint8>, ghost whole: seq<uint8>, ghost rest: seq<uint8>)
    returns (e: nat)
    requires StringTrack(whole, a[..], i, s + rest)
    modifies a
    ensures e == i + |s| && StringTrack(whole, a[..], e, rest)
  {
    var j := 0;
    assert s[0..] == s;
    while j < |s|
      invariant j <= |s| && StringTrack(whole, a[..], i + j, s[j..] + rest)
    {
      assert s[j..] + rest == [s[j]] + (s[j + 1..] + rest);
      PutByte(a, i + j, s[j], whole, s[j + 1..] + rest);
      j := j + 1;
    }
    e := i + j;
    assert s[j..] + rest == rest;
  }

  // ---------- the first pass ----------

  /** A table in which every thunk holds the section's address. */
  function Blank(groups: seq<Group>, va: nat): (s: seq<nat>)
    ensures |s| == Thunks(groups)
  {
    if groups == [] then [] else Fill(|groups[0].names|, va) + ([0] + Blank(groups[1..], va))
  }

  function Fill(n: nat, va: nat): (s: seq<nat>)
    ensures |s| == n
  {
    if n == 0 then [] else [va] + Fill(n - 1, va)
  }

  /** iterate_import on a table of zeros. */
  method IterateImport(groups: seq<Group>, va: nat, a: array<nat>)
    requires a.Length == Thunks(groups) && forall i :: 0 <= i < a.Length ==> a[i] == 0
    modifies a
    ensures a[..] == Blank(groups, va)
  {
    ghost var whole := Blank(groups, va);
    var e, i := 0, 0;
    assert groups[0..] == groups;
    while e < |groups|
      invariant e <= |groups| && OnTrack(whole, a[..], i, Blank(groups[e..], va))
      invariant forall j :: i <= j < a.Length ==> a[j] == 0
    {
      assert groups[e..][1..] == groups[e + 1..];
      var n := 0;
      ghost var more := [0] + Blank(groups[e + 1..], va);
      while n < |groups[e].names|
        invariant n <= |groups[e].names| && OnTrack(whole, a[..], i, Fill(|groups[e].names| - n, va) + more)
        invariant forall j :: i <= j < a.Length ==> a[j] == 0
      {
        ghost var rest := Fill(|groups[e].names| - n - 1, va) + more;
        assert Fill(|groups[e].names| - n, va) + more == [va] + rest;
        Put(a, i, va, whole, rest);
        n, i := n + 1, i + 1;
      }
      SkipZero(whole, a[..], i, Blank(groups[e + 1..], va));
      e, i := e + 1, i + 1;
    }
    assert a[..i] + [] == a[..];
  }

  /** A zero that is there already. */
  lemma {:induction false} SkipZero(whole: seq<nat>, a: seq<nat>, i: nat, rest: seq<nat>)
    requires OnTrack(whole, a, i, Fill(0, 0) + ([0] + rest)) && (i < |a| ==> a[i] == 0)
    ensures OnTrack(whole, a, i + 1, rest)
  {
    assert Fill(0, 0) + ([0] + rest) == [0] + rest;
    assert |a[..i] + ([0] + rest)| == i + 1 + |rest|;
    assert a == a[..i] + [0] + a[i + 1..];
    TrackGoesOn(whole, a, a, i, 0, rest);
  }

  // ---------- the second pass: one function ----------

  /** A thunk table up to the functions of one DLL that are still to be fixed; the rest holds va throughout. */
  ghost predicate ThunkTrack(
    whole: seq<nat>, a: seq<nat>, t: nat, names: seq<Name>, at: nat, rest: seq<nat>, va: nat, blank: seq<nat>)
  {
    OnTrack(whole, a, t, ThunkWords(names, at) + rest) && a[t..] == Fill(|names|, va) + blank
  }

  lemma {:induction false} ThunkAhead(
    whole: seq<nat>, a: seq<nat>, t: nat, names: seq<Name>, at: nat, rest: seq<nat>, va: nat, blank: seq<nat>)
    requires names != [] && ThunkTrack(whole, a, t, names, at, rest, va, blank)
    ensures t < |a| && a[t] == va
    ensures OnTrack(whole, a, t, [at] + (ThunkWords(names[1..], at + 2 + |names[0]| + 1) + rest))
    ensures a[t + 1..] == Fill(|names| - 1, va) + blank
  {
    ThunkWordsUnfold(names, at, rest);
    assert a[t..][0] == va && a[t..][1..] == Fill(|names| - 1, va) + blank;
  }

  /** The address of a hint/name record, added to the section address that the thunk holds. */
  method FixThunk(
    a: array<nat>, t: nat, off: nat, ghost whole: seq<nat>, ghost names: seq<Name>, ghost rest: seq<nat>,
    ghost va: nat, ghost blank: seq<nat>, ghost at: nat, ghost next: nat)
    requires names != [] && ThunkTrack(whole, a[..], t, names, at, rest, va, blank)
    requires at == va + off && next == at + 2 + |names[0]| + 1
    modifies a
    ensures ThunkTrack(whole, a[..], t + 1, names[1..], next, rest, va, blank)
  {
    ThunkAhead(whole, a[..], t, names, at, rest, va, blank);
    assert a[..][t] == a[t] && a[..][t + 1..] == a[t + 1..];
    Put(a, t, a[t] + off, whole, ThunkWords(names[1..], next) + rest);
    assert a[..][t + 1..] == a[t + 1..];
  }

  method FixThunks(
    iat: array<nat>, ilt: array<nat>, t: nat, off: nat, ghost whole: seq<nat>, ghost names: seq<Name>,
    ghost rest: seq<nat>, ghost va: nat, ghost blank: seq<nat>, ghost at: nat, ghost next: nat)
    requires iat != ilt && names != [] && at == va + off && next == at + 2 + |names[0]| + 1
    requires ThunkTrack(whole, iat[..], t, names, at, rest, va, blank)
    requires ThunkTrack(whole, ilt[..], t, names, at, rest, va, blank)
    modifies iat, ilt
    ensures ThunkTrack(whole, iat[..], t + 1, names[1..], next, rest, va, blank)
    ensures ThunkTrack(whole, ilt[..], t + 1, names[1..], next, rest, va, blank)
  {
    FixThunk(iat, t, off, whole, names, rest, va, blank, at, next);
    FixThunk(ilt, t, off, whole, names, rest, va, blank, at, next);
  }

  ghost predicate TextTrack(whole: seq<uint8>, a: seq<uint8>, c: nat, names: seq<Name>, rest: seq<uint8>) {
    StringTrack(whole, a, c, HintNames(names) + rest)
  }

  /** Hint, name and terminator. */
  method PutHintName(a: array<uint8>, c: nat, ghost whole: seq<uint8>, names: seq<Name>, ghost rest: seq<uint8>)
    returns (e: nat)
    requires names != [] && TextTrack(whole, a[..], c, names, rest)
    modifies a
    ensures e == c + 2 + |names[0]| + 1 && TextTrack(whole, a[..], e, names[1..], rest)
  {
    ghost var tail := HintNames(names[1..]) + rest;
    HintUnfold(names, rest);
    e := PutBytes(a, c, [0, 0], whole, names[0] + ([0] + tail));
    e := PutBytes(a, e, names[0], whole, [0] + tail);
    PutByte(a, e, 0, whole, tail);
    e := e + 1;
  }

  lemma {:induction false} HintUnfold(names: seq<Name>, rest: seq<uint8>)
    requires names != []
    ensures HintNames(names) + rest == [0, 0] + (names[0] + ([0] + (HintNames(names[1..]) + rest)))
  {
    var n, h := names[0], HintNames(names[1..]);
    assert [0] + h + rest == [0] + (h + rest);
    assert n + ([0] + h) + rest == n + ([0] + h + rest);
    assert [0, 0] + (n + ([0] + h)) + rest == [0, 0] + (n + ([0] + h) + rest);
  }

  ghost predicate StubTrack(
    whole: seq<Stub>, a: seq<Stub>, s: nat, n: nat, wide: bool, v: nat, p: nat, base: nat, rest: seq<Stub>)
  {
    OnTrack(whole, a, s, NameStubs(n, wide, v, p, base) + rest)
  }

  /** The jump through the slot at address v, placed at address p. */
  method PutStub(
    a: array<Stub>, s: nat, wide: bool, v: nat, p: nat, base: nat,
    ghost whole: seq<Stub>, ghost n: nat, ghost rest: seq<Stub>, ghost nextV: nat, ghost nextP: nat)
    requires n > 0 && StubTrack(whole, a[..], s, n, wide, v, p, base, rest)
    requires nextV == v + ThunkBytes(wide, 1) && nextP == p + 6
    modifies a
    ensures StubTrack(whole, a[..], s + 1, n - 1, wide, nextV, nextP, base, rest)
  {
    ghost var tail := NameStubs(n - 1, wide, nextV, nextP, base) + rest;
    assert NameStubs(n, wide, v, p, base) + rest == [StubFor(wide, v, p, base)] + tail;
    Put(a, s, StubFor(wide, v, p, base), whole, tail);
  }

  // ---------- the functions of one DLL ----------

  /** Where the cursors stand: thunk t, string byte c, stub s. */
  datatype Cursors = Cursors(t: nat, c: nat, s: nat)

  /** What is constant while the directory is written. */
  datatype Frame = Frame(wide: bool, va: nat, iat: nat, ilt: nat, text: nat, plt: nat, base: nat)

  /** What the four buffers are to hold in the end. */
  datatype Wholes = Wholes(table: seq<nat>, text: seq<uint8>, stubs: seq<Stub>)

  /** What follows the functions of the current DLL. */
  datatype Rests = Rests(table: seq<nat>, blank: seq<nat>, text: seq<uint8>, stubs: seq<Stub>)

  function SlotAt(f: Frame, t: nat): nat {
    f.va + f.iat + ThunkBytes(f.wide, t)
  }

  function StubAddress(f: Frame, s: nat): nat {
    f.plt + 6 * s
  }

  function StringAddress(f: Frame, c: nat): nat {
    f.va + f.text + c
  }

  ghost predicate NamesTrack(
    f: Frame, w: Wholes, r: Rests, iat: seq<nat>, ilt: seq<nat>, text: seq<uint8>, plt: seq<Stub>, u: Cursors,
    names: seq<Name>)
  {
    && SlotsTrack(f, w, r, iat, ilt, plt, u, names)
    && TextTrack(w.text, text, u.c, names, r.text)
  }

  lemma {:induction false} NextAddresses(f: Frame, u: Cursors, next: Cursors, n: nat)
    requires next == Cursors(u.t + 1, u.c + 2 + n + 1, u.s + 1)
    ensures StringAddress(f, u.c) == f.va + (f.text + u.c)
    ensures StringAddress(f, next.c) == StringAddress(f, u.c) + 2 + n + 1
    ensures SlotAt(f, next.t) == SlotAt(f, u.t) + ThunkBytes(f.wide, 1)
    ensures StubAddress(f, next.s) == StubAddress(f, u.s) + 6
  {
  }

  /** The tables and stubs; the strings are followed by TextTrack. */
  ghost predicate SlotsTrack(
    f: Frame, w: Wholes, r: Rests, iat: seq<nat>, ilt: seq<nat>, plt: seq<Stub>, u: Cursors, names: seq<Name>)
  {
    && ThunkTrack(w.table, iat, u.t, names, StringAddress(f, u.c), r.table, f.va, r.blank)
    && ThunkTrack(w.table, ilt, u.t, names, StringAddress(f, u.c), r.table, f.va, r.blank)
    && StubTrack(w.stubs, plt, u.s, |names|, f.wide, SlotAt(f, u.t), StubAddress(f, u.s), f.base, r.stubs)
  }

  /** The stub and both thunks of one function. */
  method WriteSlots(
    f: Frame, ghost w: Wholes, ghost r: Rests,
    iat: array<nat>, ilt: array<nat>, plt: array<Stub>, u: Cursors, names: seq<Name>, ghost next: Cursors)
    requires names != [] && SlotsTrack(f, w, r, iat[..], ilt[..], plt[..], u, names) && iat != ilt
    requires next == Cursors(u.t + 1, u.c + 2 + |names[0]| + 1, u.s + 1)
    modifies iat, ilt, plt
    ensures SlotsTrack(f, w, r, iat[..], ilt[..], plt[..], next, names[1..])
  {
    NextAddresses(f, u, next, |names[0]|);
    PutStub(plt, u.s, f.wide, SlotAt(f, u.t), StubAddress(f, u.s), f.base, w.stubs, |names|, r.stubs,
            SlotAt(f, next.t), StubAddress(f, next.s));
    FixThunks(iat, ilt, u.t, f.text + u.c, w.table, names, r.table, f.va, r.blank,
              StringAddress(f, u.c), StringAddress(f, next.c));
  }

  /** The stub, both thunks and the hint/name record of one function. */
  method WriteName(
    f: Frame, ghost w: Wholes, ghost r: Rests,
    iat: array<nat>, ilt: array<nat>, text: array<uint8>, plt: array<Stub>, u: Cursors, names: seq<Name>)
    returns (next: Cursors)
    requires names != [] && NamesTrack(f, w, r, iat[..], ilt[..], text[..], plt[..], u, names)
    requires iat != ilt
    modifies iat, ilt, text, plt
    ensures next == Cursors(u.t + 1, u.c + 2 + |names[0]| + 1, u.s + 1)
    ensures NamesTrack(f, w, r, iat[..], ilt[..], text[..], plt[..], next, names[1..])
  {
    next := Cursors(u.t + 1, u.c + 2 + |names[0]| + 1, u.s + 1);
    WriteSlots(f, w, r, iat, ilt, plt, u, names, next);
    WriteRecord(f, w, r, iat, ilt, text, plt, u, names, next);
  }

  /** The hint/name record of one function whose stub and thunks are in place. */
  method WriteRecord(
    f: Frame, ghost w: Wholes, ghost r: Rests,
    iat: array<nat>, ilt: array<nat>, text: array<uint8>, plt: array<Stub>, u: Cursors, names: seq<Name>,
    ghost next: Cursors)
    requires names != [] && SlotsTrack(f, w, r, iat[..], ilt[..], plt[..], next, names[1..])
    requires TextTrack(w.text, text[..], u.c, names, r.text)
    requires next.c == u.c + 2 + |names[0]| + 1
    modifies text
    ensures NamesTrack(f, w, r, iat[..], ilt[..], text[..], plt[..], next, names[1..])
  {
    ghost var a, b, s := iat[..], ilt[..], plt[..];
    var c := PutHintName(text, u.c, w.text, names, r.text);
    assert iat[..] == a && ilt[..] == b && plt[..] == s;
    Joined(f, w, r, a, b, text[..], s, next, names[1..]);
  }

  lemma {:induction false} Joined(
    f: Frame, w: Wholes, r: Rests, iat: seq<nat>, ilt: seq<nat>, text: seq<uint8>, plt: seq<Stub>, u: Cursors,
    names: seq<Name>)
    requires SlotsTrack(f, w, r, iat, ilt, plt, u, names) && TextTrack(w.text, text, u.c, names, r.text)
    ensures NamesTrack(f, w, r, iat, ilt, text, plt, u, names)
  {
  }

  method WriteNames(
    f: Frame, ghost w: Wholes, ghost r: Rests,
    iat: array<nat>, ilt: array<nat>, text: array<uint8>, plt: array<Stub>, u: Cursors, names: seq<Name>)
    returns (next: Cursors)
    requires NamesTrack(f, w, r, iat[..], ilt[..], text[..], plt[..], u, names)
    requires iat != ilt
    modifies iat, ilt, text, plt
    ensures NamesTrack(f, w, r, iat[..], ilt[..], text[..], plt[..], next, [])
    ensures next == Cursors(u.t + |names|, u.c + HintNameBytes(names), u.s + |names|)
  {
    var j := 0;
    next := u;
    assert names[0..] == names;
    while j < |names|
      invariant j <= |names|
      invariant NamesTrack(f, w, r, iat[..], ilt[..], text[..], plt[..], next, names[j..])
      invariant next.t == u.t + j && next.s == u.s + j
      invariant next.c + HintNameBytes(names[j..]) == u.c + HintNameBytes(names)
    {
      assert names[j..][1..] == names[j + 1..];
      next := WriteName(f, w, r, iat, ilt, text, plt, next, names[j..]);
      j := j + 1;
    }
  }

  // ---------- the second pass: one DLL ----------

  ghost predicate TableTrack(whole: seq<nat>, a: seq<nat>, t: nat, groups: seq<Group>, at: nat, va: nat) {
    OnTrack(whole, a, t, Table(groups, at)) && a[t..] == Blank(groups, va)
  }

  lemma {:induction false} EnterTable(
    whole: seq<nat>, a: seq<nat>, t: nat, groups: seq<Group>, at: nat, va: nat, first: nat, next: nat)
    requires groups != [] && TableTrack(whole, a, t, groups, at, va)
    requires first == at + |groups[0].dll| + 1 && next == first + HintNameBytes(groups[0].names)
    ensures ThunkTrack(whole, a, t, groups[0].names, first, [0] + Table(groups[1..], next), va,
            [0] + Blank(groups[1..], va))
  {
    TableOfFirst(groups, at);
  }

  lemma {:induction false} LeaveTable(
    whole: seq<nat>, a: seq<nat>, t: nat, groups: seq<Group>, at: nat, va: nat, last: nat)
    requires ThunkTrack(whole, a, t, [], last, [0] + Table(groups, at), va, [0] + Blank(groups, va))
    ensures TableTrack(whole, a, t + 1, groups, at, va)
  {
    assert ThunkWords([], last) + ([0] + Table(groups, at)) == [0] + Table(groups, at);
    assert a[t..] == [0] + Blank(groups, va);
    assert a[t..][0] == 0 && a[t..][1..] == a[t + 1..];
    SkipZero(whole, a, t, Table(groups, at));
  }

  lemma {:induction false} EnterStubs(
    whole: seq<Stub>, a: seq<Stub>, s: nat, groups: seq<Group>, wide: bool, v: nat, p: nat, base: nat, nextV: nat,
    nextP: nat)
    requires groups != [] && OnTrack(whole, a, s, Stubs(groups, wide, v, p, base))
    requires nextV == v + ThunkBytes(wide, |groups[0].names| + 1) && nextP == p + 6 * |groups[0].names|
    ensures StubTrack(whole, a, s, |groups[0].names|, wide, v, p, base, Stubs(groups[1..], wide, nextV, nextP, base))
  {
  }

  lemma {:induction false} LeaveStubs(
    whole: seq<Stub>, a: seq<Stub>, s: nat, wide: bool, v: nat, p: nat, base: nat, rest: seq<Stub>)
    requires StubTrack(whole, a, s, 0, wide, v, p, base, rest)
    ensures OnTrack(whole, a, s, rest)
  {
    assert NameStubs(0, wide, v, p, base) + rest == rest;
  }

  /** The DLL's name and terminator. */
  method PutDll(
    a: array<uint8>, c: nat, ghost whole: seq<uint8>, groups: seq<Group>, ghost z: seq<uint8>)
    returns (e: nat)
    requires groups != [] && StringTrack(whole, a[..], c, Texts(groups) + z)
    modifies a
    ensures e == c + |groups[0].dll| + 1 && TextTrack(whole, a[..], e, groups[0].names, Texts(groups[1..]) + z)
  {
    ghost var tail := HintNames(groups[0].names) + (Texts(groups[1..]) + z);
    DllUnfold(groups, z);
    e := PutBytes(a, c, groups[0].dll, whole, [0] + tail);
    PutByte(a, e, 0, whole, tail);
    e := e + 1;
  }

  lemma {:induction false} DllUnfold(groups: seq<Group>, z: seq<uint8>)
    requires groups != []
    ensures Texts(groups) + z == groups[0].dll + ([0] + (HintNames(groups[0].names) + (Texts(groups[1..]) + z)))
  {
    var n, h, x := groups[0].dll, HintNames(groups[0].names), Texts(groups[1..]);
    assert h + x + z == h + (x + z);
    assert [0] + (h + x) + z == [0] + (h + x + z);
    assert n + ([0] + (h + x)) + z == n + ([0] + (h + x) + z);
  }

  lemma {:induction false} LeaveText(whole: seq<uint8>, a: seq<uint8>, c: nat, rest: seq<uint8>)
    requires TextTrack(whole, a, c, [], rest)
    ensures StringTrack(whole, a, c, rest)
  {
    assert HintNames([]) + rest == rest;
  }

  function NameTableAt(f: Frame, t: nat): nat {
    f.va + f.ilt + ThunkBytes(f.wide, t)
  }

  /** The descriptors; those still to be fixed hold the section address in their three words. */
  ghost predicate DescriptorTrack(
    whole: seq<Descriptor>, a: seq<Descriptor>, e: nat, groups: seq<Group>, wide: bool, v: nat, x: nat, at: nat,
    va: nat)
  {
    && OnTrack(whole, a, e, Descriptors(groups, wide, v, x, at) + [EMPTY])
    && |a| > 0 && a[|a| - 1] == EMPTY
    && forall i :: e <= i < |a| - 1 ==> a[i] == Descriptor(va, 0, 0, va, va)
  }

  /** Adds the offsets of the DLL's thunks and name to its descriptor. */
  method FixDescriptor(
    a: array<Descriptor>, e: nat, iat: nat, ilt: nat, name: nat,
    ghost whole: seq<Descriptor>, ghost groups: seq<Group>, ghost wide: bool, ghost va: nat,
    ghost v: nat, ghost x: nat, ghost at: nat, ghost nextV: nat, ghost nextX: nat, ghost nextAt: nat)
    requires groups != [] && DescriptorTrack(whole, a[..], e, groups, wide, v, x, at, va)
    requires v == va + iat && x == va + ilt && at == va + name
    requires nextV == v + ThunkBytes(wide, |groups[0].names| + 1)
    requires nextX == x + ThunkBytes(wide, |groups[0].names| + 1)
    requires nextAt == at + TextBytes([groups[0]])
    modifies a
    ensures DescriptorTrack(whole, a[..], e + 1, groups[1..], wide, nextV, nextX, nextAt, va)
  {
    ghost var rest := Descriptors(groups[1..], wide, nextV, nextX, nextAt) + [EMPTY];
    DescriptorsUnfold(groups, wide, v, x, at, rest);
    RoomForOne(whole, a[..], e, Descriptor(x, 0, 0, at, v), rest);
    var d := a[e];
    assert a[..][e] == d;
    Put(a, e, Descriptor(d.originalFirstThunk + ilt, d.timeDateStamp, d.forwarderChain, d.name + name,
        d.firstThunk + iat),
        whole, rest);
    forall i | e + 1 <= i < a.Length ensures a[i] == old(a[i]) {
      assert a[i] == a[e + 1..][i - (e + 1)] == old(a[e + 1..])[i - (e + 1)];
    }
  }

  lemma {:induction false} DescriptorsUnfold(
    groups: seq<Group>, wide: bool, v: nat, x: nat, at: nat, rest: seq<Descriptor>)
    requires groups != []
    requires var step := ThunkBytes(wide, |groups[0].names| + 1);
             rest == Descriptors(groups[1..], wide, v + step, x + step, at + TextBytes([groups[0]])) + [EMPTY]
    ensures Descriptors(groups, wide, v, x, at) + [EMPTY] == [Descriptor(x, 0, 0, at, v)] + rest
  {
  }

  lemma {:induction false} RoomForOne<T(!new)>(whole: seq<T>, a: seq<T>, i: nat, x: T, rest: seq<T>)
    requires OnTrack(whole, a, i, [x] + rest)
    ensures i + 1 + |rest| == |a|
  {
    assert |a[..i] + ([x] + rest)| == i + 1 + |rest|;
  }

  // ---------- the whole second pass ----------

  ghost predicate GroupsTrack(
    f: Frame, w: Wholes, z: seq<uint8>,
    iat: seq<nat>, ilt: seq<nat>, text: seq<uint8>, plt: seq<Stub>, u: Cursors, groups: seq<Group>)
  {
    && TableTrack(w.table, iat, u.t, groups, StringAddress(f, u.c), f.va)
    && TableTrack(w.table, ilt, u.t, groups, StringAddress(f, u.c), f.va)
    && StringTrack(w.text, text, u.c, Texts(groups) + z)
    && OnTrack(w.stubs, plt, u.s, Stubs(groups, f.wide, SlotAt(f, u.t), StubAddress(f, u.s), f.base))
  }

  /** The cursors behind one DLL. */
  function Behind(u: Cursors, g: Group): Cursors {
    Cursors(u.t + |g.names| + 1, u.c + |g.dll| + 1 + HintNameBytes(g.names), u.s + |g.names|)
  }

  function RestsOf(f: Frame, z: seq<uint8>, groups: seq<Group>, next: Cursors): Rests {
    Rests([0] + Table(groups, StringAddress(f, next.c)), [0] + Blank(groups, f.va), Texts(groups) + z,
          Stubs(groups, f.wide, SlotAt(f, next.t), StubAddress(f, next.s), f.base))
  }

  lemma {:induction false} EnterTracks(
    f: Frame, w: Wholes, z: seq<uint8>,
    iat: seq<nat>, ilt: seq<nat>, text: seq<uint8>, plt: seq<Stub>, u: Cursors, groups: seq<Group>, inside: Cursors)
    requires groups != [] && inside == Cursors(u.t, u.c + |groups[0].dll| + 1, u.s)
    requires TableTrack(w.table, iat, u.t, groups, StringAddress(f, u.c), f.va)
    requires TableTrack(w.table, ilt, u.t, groups, StringAddress(f, u.c), f.va)
    requires TextTrack(w.text, text, inside.c, groups[0].names, Texts(groups[1..]) + z)
    requires OnTrack(w.stubs, plt, u.s, Stubs(groups, f.wide, SlotAt(f, u.t), StubAddress(f, u.s), f.base))
    ensures NamesTrack(f, w, RestsOf(f, z, groups[1..], Behind(u, groups[0])), iat, ilt, text, plt, inside,
            groups[0].names)
  {
    var next := Behind(u, groups[0]);
    EnterTable(w.table, iat, u.t, groups, StringAddress(f, u.c), f.va, StringAddress(f, inside.c),
        StringAddress(f, next.c));
    EnterTable(w.table, ilt, u.t, groups, StringAddress(f, u.c), f.va, StringAddress(f, inside.c),
        StringAddress(f, next.c));
    EnterStubs(w.stubs, plt, u.s, groups, f.wide, SlotAt(f, u.t), StubAddress(f, u.s), f.base,
               SlotAt(f, next.t), StubAddress(f, next.s));
  }

  /** Entering a DLL: its name is written, its functions come next. */
  method EnterGroup(
    f: Frame, ghost w: Wholes, ghost z: seq<uint8>,
    iat: array<nat>, ilt: array<nat>, text: array<uint8>, plt: array<Stub>, u: Cursors, groups: seq<Group>)
    returns (inside: Cursors)
    requires groups != [] && GroupsTrack(f, w, z, iat[..], ilt[..], text[..], plt[..], u, groups)
    modifies text
    ensures inside == Cursors(u.t, u.c + |groups[0].dll| + 1, u.s)
    ensures NamesTrack(f, w, RestsOf(f, z, groups[1..], Behind(u, groups[0])), iat[..], ilt[..], text[..], plt[..],
            inside, groups[0].names)
  {
    var c := PutDll(text, u.c, w.text, groups, z);
    inside := Cursors(u.t, c, u.s);
    EnterTracks(f, w, z, iat[..], ilt[..], text[..], plt[..], u, groups, inside);
  }

  /** Leaving a DLL: the zero thunks behind its functions are there already. */
  lemma {:induction false} LeaveGroup(
    f: Frame, w: Wholes, z: seq<uint8>,
    iat: seq<nat>, ilt: seq<nat>, text: seq<uint8>, plt: seq<Stub>, out: Cursors, next: Cursors, groups: seq<Group>)
    requires next == Cursors(out.t + 1, out.c, out.s)
    requires NamesTrack(f, w, RestsOf(f, z, groups, next), iat, ilt, text, plt, out, [])
    ensures GroupsTrack(f, w, z, iat, ilt, text, plt, next, groups)
  {
    LeaveTable(w.table, iat, out.t, groups, StringAddress(f, next.c), f.va, StringAddress(f, out.c));
    LeaveTable(w.table, ilt, out.t, groups, StringAddress(f, next.c), f.va, StringAddress(f, out.c));
    LeaveText(w.text, text, out.c, Texts(groups) + z);
    LeaveStubs(w.stubs, plt, out.s, f.wide, SlotAt(f, out.t), StubAddress(f, out.s), f.base,
               Stubs(groups, f.wide, SlotAt(f, next.t), StubAddress(f, next.s), f.base));
  }

  method WriteGroup(
    f: Frame, ghost w: Wholes, ghost z: seq<uint8>,
    iat: array<nat>, ilt: array<nat>, text: array<uint8>, plt: array<Stub>, u: Cursors, groups: seq<Group>)
    returns (next: Cursors)
    requires groups != [] && GroupsTrack(f, w, z, iat[..], ilt[..], text[..], plt[..], u, groups)
    requires iat != ilt
    modifies iat, ilt, text, plt
    ensures next == Behind(u, groups[0])
    ensures GroupsTrack(f, w, z, iat[..], ilt[..], text[..], plt[..], next, groups[1..])
  {
    var g := groups[0];
    ghost var r := RestsOf(f, z, groups[1..], Behind(u, g));
    var inside := EnterGroup(f, w, z, iat, ilt, text, plt, u, groups);
    var out := WriteNames(f, w, r, iat, ilt, text, plt, inside, g.names);
    LeaveGroup(f, w, z, iat[..], ilt[..], text[..], plt[..], out, Behind(u, g), groups[1..]);
    next := Cursors(out.t + 1, out.c, out.s);
  }

  lemma {:induction false} StartTrack<T(!new)>(whole: seq<T>, a: seq<T>)
    requires |whole| == |a|
    ensures OnTrack(whole, a, 0, whole)
  {
    assert a[..0] + whole == whole;
  }

  lemma {:induction false} EndTrack<T(!new)>(whole: seq<T>, a: seq<T>, i: nat)
    requires OnTrack(whole, a, i, [])
    ensures a == whole
  {
    assert |a[..i] + []| == i && a[..i] + [] == a[..i];
  }

  lemma {:induction false} EndStrings(whole: seq<uint8>, a: seq<uint8>, i: nat, z: seq<uint8>)
    requires StringTrack(whole, a, i, Texts([]) + z) && forall j :: 0 <= j < |z| ==> z[j] == 0
    ensures a == whole
  {
    assert Texts([]) + z == z;
    assert |a[..i] + z| == i + |z|;
    assert a[i..] == z;
    assert a == a[..i] + a[i..];
  }

  /** First pass over the descriptors. */
  method BlankDescriptors(n: nat, va: nat) returns (iid: array<Descriptor>)
    ensures fresh(iid) && iid.Length == n + 1 && iid[n] == EMPTY
    ensures forall i :: 0 <= i < n ==> iid[i] == Descriptor(va, 0, 0, va, va)
  {
    iid := new Descriptor[n + 1](_ => EMPTY);
    var e := 0;
    while e < n
      invariant e <= n && iid[n] == EMPTY && forall i :: 0 <= i < e ==> iid[i] == Descriptor(va, 0, 0, va, va)
    {
      iid[e] := Descriptor(va, 0, 0, va, va);
      e := e + 1;
    }
  }

  ghost predicate AllTrack(
    f: Frame, wi: seq<Descriptor>, w: Wholes, z: seq<uint8>,
    iid: seq<Descriptor>, iat: seq<nat>, ilt: seq<nat>, text: seq<uint8>, plt: seq<Stub>,
    e: nat, u: Cursors, groups: seq<Group>)
  {
    && DescriptorTrack(wi, iid, e, groups, f.wide, SlotAt(f, u.t), NameTableAt(f, u.t), StringAddress(f, u.c), f.va)
    && GroupsTrack(f, w, z, iat, ilt, text, plt, u, groups)
  }

  /** One descriptor, then the strings, thunks and stubs of its DLL. */
  method WriteOne(
    f: Frame, ghost wi: seq<Descriptor>, ghost w: Wholes, ghost z: seq<uint8>,
    iid: array<Descriptor>, iat: array<nat>, ilt: array<nat>, text: array<uint8>, plt: array<Stub>,
    e: nat, c: Cursors, groups: seq<Group>)
    returns (next: Cursors)
    requires groups != [] && iat != ilt
    requires AllTrack(f, wi, w, z, iid[..], iat[..], ilt[..], text[..], plt[..], e, c, groups)
    modifies iid, iat, ilt, text, plt
    ensures AllTrack(f, wi, w, z, iid[..], iat[..], ilt[..], text[..], plt[..], e + 1, next, groups[1..])
  {
    ghost var after := Behind(c, groups[0]);
    next := WriteGroup(f, w, z, iat, ilt, text, plt, c, groups);
    NextInFrame(f, c, groups[0]);
    FixDescriptor(iid, e, f.iat + ThunkBytes(f.wide, c.t), f.ilt + ThunkBytes(f.wide, c.t), f.text + c.c,
                  wi, groups, f.wide, f.va, SlotAt(f, c.t), NameTableAt(f, c.t), StringAddress(f, c.c),
                      SlotAt(f, after.t), NameTableAt(f, after.t), StringAddress(f, after.c));
  }

  /** Until the list ends. */
  method WriteGroups(
    f: Frame, ghost wi: seq<Descriptor>, ghost w: Wholes, ghost z: seq<uint8>,
    iid: array<Descriptor>, iat: array<nat>, ilt: array<nat>, text: array<uint8>, plt: array<Stub>, groups: seq<Group>)
    returns (ghost u: Cursors)
    requires iat != ilt
    requires AllTrack(f, wi, w, z, iid[..], iat[..], ilt[..], text[..], plt[..], 0, Cursors(0, 0, 0), groups)
    modifies iid, iat, ilt, text, plt
    ensures AllTrack(f, wi, w, z, iid[..], iat[..], ilt[..], text[..], plt[..], |groups|, u, [])
  {
    var e, c := 0, Cursors(0, 0, 0);
    assert groups[0..] == groups;
    while e < |groups|
      invariant e <= |groups|
      invariant AllTrack(f, wi, w, z, iid[..], iat[..], ilt[..], text[..], plt[..], e, c, groups[e..])
    {
      assert groups[e..][1..] == groups[e + 1..];
      c := WriteOne(f, wi, w, z, iid, iat, ilt, text, plt, e, c, groups[e..]);
      e := e + 1;
    }
    u := c;
    assert groups[e..] == [];
  }

  lemma {:induction false} NextInFrame(f: Frame, c: Cursors, g: Group)
    ensures SlotAt(f, Behind(c, g).t) == SlotAt(f, c.t) + ThunkBytes(f.wide, |g.names| + 1)
    ensures NameTableAt(f, Behind(c, g).t) == NameTableAt(f, c.t) + ThunkBytes(f.wide, |g.names| + 1)
    ensures StringAddress(f, Behind(c, g).c) == StringAddress(f, c.c) + TextBytes([g])
    ensures SlotAt(f, c.t) == f.va + (f.iat + ThunkBytes(f.wide, c.t))
    ensures NameTableAt(f, c.t) == f.va + (f.ilt + ThunkBytes(f.wide, c.t))
    ensures StringAddress(f, c.c) == f.va + (f.text + c.c)
  {
    OneGroup(g);
  }

  /** The buffers as they are before the second pass, with what they are to hold in the end. */
  lemma {:induction false} Start(
    f: Frame, z: seq<uint8>, iid: seq<Descriptor>, table: seq<nat>, text: seq<uint8>, plt: seq<Stub>,
    groups: seq<Group>)
    requires |iid| == |groups| + 1 && iid[|groups|] == EMPTY
    requires forall i :: 0 <= i < |groups| ==> iid[i] == Descriptor(f.va, 0, 0, f.va, f.va)
    requires table == Blank(groups, f.va) && |plt| == |Flat(groups)|
    requires |text| == TextBytes(groups) + |z| && forall i :: 0 <= i < |text| ==> text[i] == 0
    ensures var w := Wholes(Table(groups, StringAddress(f, 0)), Texts(groups) + z,
                            Stubs(groups, f.wide, SlotAt(f, 0), StubAddress(f, 0), f.base));
            var wi := Descriptors(groups, f.wide, SlotAt(f, 0), NameTableAt(f, 0), StringAddress(f, 0)) + [EMPTY];
            AllTrack(f, wi, w, z, iid, table, table, text, plt, 0, Cursors(0, 0, 0), groups)
  {
    var w := Wholes(Table(groups, StringAddress(f, 0)), Texts(groups) + z,
                    Stubs(groups, f.wide, SlotAt(f, 0), StubAddress(f, 0), f.base));
    StartTrack(Descriptors(groups, f.wide, SlotAt(f, 0), NameTableAt(f, 0), StringAddress(f, 0)) + [EMPTY], iid);
    StartTrack(w.table, table);
    StartTrack(w.text, text);
    StartTrack(w.stubs, plt);
    assert table[0..] == table;
  }

  lemma {:induction false} Finish(
    f: Frame, wi: seq<Descriptor>, w: Wholes, z: seq<uint8>,
    iid: seq<Descriptor>, iat: seq<nat>, ilt: seq<nat>, text: seq<uint8>, plt: seq<Stub>, e: nat, u: Cursors)
    requires AllTrack(f, wi, w, z, iid, iat, ilt, text, plt, e, u, []) && forall j :: 0 <= j < |z| ==> z[j] == 0
    ensures iid == wi && iat == w.table && ilt == w.table && text == w.text && plt == w.stubs
  {
    EndTrack(w.table, iat, u.t);
    EndTrack(w.table, ilt, u.t);
    EndTrack(w.stubs, plt, u.s);
    EndStrings(w.text, text, u.c, z);
    assert [] + [EMPTY] == [EMPTY];
    RoomForOne(wi, iid, e, EMPTY, []);
    assert iid == iid[..e] + [EMPTY];
  }

  function FrameOf(groups: seq<Group>, wide: bool, pltVa: nat, va: nat, base: nat): Frame {
    Frame(wide, va, IatOffset(groups), IntOffset(groups, wide), TextOffset(groups, wide), pltVa, base)
  }

  function WholesOf(f: Frame, groups: seq<Group>, z: seq<uint8>): Wholes {
    Wholes(Table(groups, StringAddress(f, 0)), Texts(groups) + z,
        Stubs(groups, f.wide, SlotAt(f, 0), StubAddress(f, 0), f.base))
  }

  function DescriptorsOf(f: Frame, groups: seq<Group>): seq<Descriptor> {
    Descriptors(groups, f.wide, SlotAt(f, 0), NameTableAt(f, 0), StringAddress(f, 0)) + [EMPTY]
  }

  /** These are the parts of the directory. */
  lemma {:induction false} WholesAreWritten(groups: seq<Group>, wide: bool, pltVa: nat, va: nat, base: nat, slack: nat)
    ensures var f := FrameOf(groups, wide, pltVa, va, base);
            var w := WholesOf(f, groups, Zeros(slack));
            && Directory(DescriptorsOf(f, groups), w.table, w.table, w.text) == Written(groups, wide, va, slack)
            && w.stubs == Stubs(groups, wide, va + IatOffset(groups), pltVa, base)
  {
    var f := FrameOf(groups, wide, pltVa, va, base);
    assert SlotAt(f, 0) == va + IatOffset(groups) && NameTableAt(f, 0) == va + IntOffset(groups, wide);
    assert StringAddress(f, 0) == va + TextOffset(groups, wide) && StubAddress(f, 0) == pltVa;
  }

  /** Allocation, the blank descriptors and both blank tables. */
  method FirstPass(f: Frame, ghost z: seq<uint8>, groups: seq<Group>, textSize: nat, pltSize: nat)
    returns (iid: array<Descriptor>, iat: array<nat>, ilt: array<nat>, text: array<uint8>, plt: array<Stub>)
    requires textSize == TextBytes(groups) + |z| && pltSize == 6 * |Flat(groups)|
    ensures fresh(iid) && fresh(iat) && fresh(ilt) && fresh(text) && fresh(plt) && iat != ilt
    ensures AllTrack(f, DescriptorsOf(f, groups), WholesOf(f, groups, z), z,
                     iid[..], iat[..], ilt[..], text[..], plt[..], 0, Cursors(0, 0, 0), groups)
  {
    iid := BlankDescriptors(|groups|, f.va);
    iat := new nat[Thunks(groups)](_ => 0);
    ilt := new nat[Thunks(groups)](_ => 0);
    text := new uint8[textSize](_ => 0);
    plt := new Stub[pltSize / 6](_ => Stub(0, 0));
    IterateImport(groups, f.va, iat);
    IterateImport(groups, f.va, ilt);
    assert iat[..] == ilt[..];
    Start(f, z, iid[..], iat[..], text[..], plt[..], groups);
  }

  /** Both passes over the list, for the frame of a list that takes length bytes by the count kept so far. */
  method WriteParts(groups: seq<Group>, wide: bool, pltVa: nat, pltOffset: nat, length: nat, base: nat)
    returns (d: Directory, plt: seq<Stub>)
    requires groups != [] && pltOffset == pltVa + 6 * |Flat(groups)| && DirectorySize(groups, wide) <= length
    ensures d == Written(groups, wide, pltOffset, length - DirectorySize(groups, wide))
    ensures plt == Stubs(groups, wide, pltOffset + IatOffset(groups), pltVa, base)
  {
    ghost var slack := length - DirectorySize(groups, wide);
    TextsEnd(groups, wide);
    var f := FrameOf(groups, wide, pltVa, pltOffset, base);
    var iid, iat, ilt, text, stubs := FirstPass(f, Zeros(slack), groups, length - f.text, pltOffset - pltVa);
    ghost var u := WriteGroups(f, DescriptorsOf(f, groups), WholesOf(f, groups, Zeros(slack)), Zeros(slack),
                               iid, iat, ilt, text, stubs, groups);
    Finish(f, DescriptorsOf(f, groups), WholesOf(f, groups, Zeros(slack)), Zeros(slack),
           iid[..], iat[..], ilt[..], text[..], stubs[..], |groups|, u);
    WholesAreWritten(groups, wide, pltVa, pltOffset, base, slack);
    d, plt := Directory(iid[..], iat[..], ilt[..], text[..]), stubs[..];
  }

  /**
   add_import for a list that takes length bytes by the count kept so far: the .plt section goes
   to address pltVa, the .idata section right behind it.
   */
  method AddImport(groups: seq<Group>, wide: bool, pltVa: nat, pltOffset: nat, length: nat, base: nat)
    returns (d: Directory, plt: seq<Stub>)
    requires groups != [] && pltOffset == pltVa + 6 * |Flat(groups)| && DirectorySize(groups, wide) <= length
    ensures d == Written(groups, wide, pltOffset, length - DirectorySize(groups, wide))
    ensures |Bytes(d, wide)| == length && StubsFit(plt) && |plt| == |Flat(groups)|
    ensures plt == Stubs(groups, wide, pltOffset + IatOffset(groups), pltVa, base)
  {
    d, plt := WriteParts(groups, wide, pltVa, pltOffset, length, base);
    WrittenSize(groups, wide, pltOffset, length - DirectorySize(groups, wide));
    StubsOfListFit(plt, groups, wide, pltOffset + IatOffset(groups), pltVa, base);
  }

  /** The same, the directory as bytes. */
  method AddImportBytes(groups: seq<Group>, wide: bool, pltVa: nat, pltOffset: nat, length: nat, base: nat)
    returns (bytes: seq<uint8>, plt: seq<Stub>)
    requires groups != [] && pltOffset == pltVa + 6 * |Flat(groups)| && DirectorySize(groups, wide) <= length
    ensures bytes == Bytes(Written(groups, wide, pltOffset, length - DirectorySize(groups, wide)), wide)
    ensures |bytes| == length && StubsFit(plt) && |plt| == |Flat(groups)|
    ensures plt == Stubs(groups, wide, pltOffset + IatOffset(groups), pltVa, base)
  {
    var d;
    d, plt := AddImport(groups, wide, pltVa, pltOffset, length, base);
    bytes := Bytes(d, wide);
  }

  lemma {:induction false} StubsOfListFit(
    plt: seq<Stub>, groups: seq<Group>, wide: bool, v: nat, p: nat, base: nat)
    requires plt == Stubs(groups, wide, v, p, base)
    ensures StubsFit(plt) && |plt| == |Flat(groups)|
  {
    WrittenStubsFit(groups, wide, v, p, base);
  }

  /** Both sections, and what can be read from them. */
  method WriteSections(groups: seq<Group>, wide: bool, pltVa: nat, pltOffset: nat, length: nat, base: nat)
    returns (bytes: seq<uint8>, plt: seq<Stub>)
    requires groups != [] && pltOffset == pltVa + 6 * |Flat(groups)| && DirectorySize(groups, wide) <= length
    requires WellNamed(groups) && pltOffset > 0 && pltOffset + length < AddressLimit(wide)
    ensures |plt| == |Flat(groups)| && StubsFit(plt)
    ensures |bytes| == length && LoadsAs(bytes, pltOffset, wide, groups)
    ensures AllLead(bytes, plt, Flat(groups), wide, pltOffset, pltVa, base)
  {
    bytes, plt := AddImportBytes(groups, wide, pltVa, pltOffset, length, base);
    WrittenReads(bytes, groups, wide, pltOffset, length - DirectorySize(groups, wide));
    ReadableLoadsEitherWay(bytes, pltOffset, wide, groups);
    ListLeads(bytes, plt, groups, wide, pltOffset, pltVa, base);
  }

  /** The relocation pass: the sites filled, and what it leaves for add_import. */
  method ResolveImports(
    symbols: seq<Candidate>, p: nat, exports: Exports, image: array<uint8>, sites: seq<Site>, base: nat,
    ghost table: seq<Import>, ghost rs: seq<Import>, ghost all: seq<Reloc>)
    returns (groups: seq<Group>, va: nat, length: nat)
    requires table == TableOf(symbols) && exports.Valid() && rs == Firsts(table, AskedBy(exports.es, sites))
    requires p > 0 && Distinct(Names(table)) && forall s :: s in symbols ==> s.ever == 0
    requires all == Relocs(exports.es, table, p, rs, sites) && AllInRange(all, image.Length)
    modifies symbols, image
    ensures groups == Grouped(rs) && va == SlotAddress(p, |rs|) && length == CountedLength(rs) && Distinct(Names(rs))
    ensures image[..] == FillAll(old(image[..]), all, base)
  {
    var importer := new Importer(symbols, p);
    RelocateAll(importer, exports, image, sites, base, table, rs, all);
    groups, va, length := importer.imports, importer.pltOffset, importer.directoryLen;
  }

  /**
   From the relocation pass to the written sections: the sites are filled, the directory loads as
   the imports met, grouped by DLL, and if they were met grouped by DLL, every answer leads to its name.
   */
  method LinkImports(
    symbols: seq<Candidate>, p: nat, exports: Exports, image: array<uint8>, sites: seq<Site>, wide: bool, base: nat,
    ghost table: seq<Import>, ghost reqs: seq<Name>, ghost rs: seq<Import>, ghost all: seq<Reloc>)
    returns (va: nat, bytes: seq<uint8>, plt: seq<Stub>)
    requires table == TableOf(symbols) && exports.Valid()
    requires reqs == AskedBy(exports.es, sites) && rs == Firsts(table, reqs)
    requires p > 0 && Distinct(Names(table)) && NamesOnly(table) && ImportsFit(rs, p, wide)
    requires all == Relocs(exports.es, table, p, rs, sites) && AllInRange(all, image.Length)
    requires forall s :: s in symbols ==> s.ever == 0
    modifies symbols, image
    ensures va == SlotAddress(p, |rs|) && |plt| == |rs|
    ensures StubsFit(plt) && image[..] == FillAll(old(image[..]), all, base)
    ensures Linked(table, reqs, rs, wide, va, p, base, Answers(table, p, reqs), bytes, plt)
  {
    var groups, length;
    groups, va, length := ResolveImports(symbols, p, exports, image, sites, base, table, rs, all);
    FirstsNamed(table, reqs);
    ListOfRun(rs, groups);
    bytes, plt := WriteSections(groups, wide, p, va, length, base);
    AnswersAreFinal(table, p, reqs);
    ImportsLinked(table, reqs, rs, wide, va, p, base, Answers(table, p, reqs), bytes, plt);
  }

  lemma {:induction false} ListOfRun(rs: seq<Import>, groups: seq<Group>)
    requires rs != [] && Distinct(Names(rs)) && groups == Grouped(rs)
    ensures groups != [] && |Flat(groups)| == |rs|
    ensures DirectorySize(groups, true) <= CountedLength(rs) && DirectorySize(groups, false) <= CountedLength(rs)
  {
    StubOrderIffContiguous(rs);
    CountIsSize(rs);
  }
}
