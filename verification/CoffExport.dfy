/**
 The export directory of a PE image (section 6.3 of the Microsoft PE and COFF
 Specification): its size counted one symbol at a time while reading, its tables and
 strings written with parallel cursors later.
 */
module CoffExportSpec {
  import opened Machine
  import opened LittleEndian

  /** An exported symbol and its address. */
  datatype Export = Export(name: Name, address: nat)

  // ---------- the count ----------

  /** What one symbol adds to export_directory_len. */
  function Growth(length: nat, outfile: Name, e: Export): nat {
    (if length == 0 then 40 + |outfile| + 1 else 0) + 4 + 4 + 2 + |e.name| + 1
  }

  function CountedLength(outfile: Name, es: seq<Export>, n: nat): nat
    requires n <= |es|
  {
    if n == 0 then 0
    else CountedLength(outfile, es, n - 1) + Growth(CountedLength(outfile, es, n - 1), outfile, es[n - 1])
  }

  // ---------- the directory ----------

  /** The header: where the file name and the three tables are, and how many entries they have. */
  datatype Header = Header(name: nat, count: nat, functions: nat, names: nat, ordinals: nat)

  /** Names with their terminators. */
  function Strings(es: seq<Export>, n: nat): (s: seq<uint8>)
    requires n <= |es|
  {
    if n == 0 then [] else Strings(es, n - 1) + (es[n - 1].name + [0])
  }

  function OrdinalsOffset(outfile: Name): nat {
    40 + |outfile| + 1
  }

  function FunctionsOffset(outfile: Name, n: nat): nat {
    OrdinalsOffset(outfile) + 2 * n
  }

  function NamesOffset(outfile: Name, n: nat): nat {
    FunctionsOffset(outfile, n) + 4 * n
  }

  function StringsOffset(outfile: Name, n: nat): nat {
    NamesOffset(outfile, n) + 4 * n
  }

  function HeaderOf(outfile: Name, n: nat, va: nat): Header {
    Header(va + 40, n, va + FunctionsOffset(outfile, n), va + NamesOffset(outfile, n), va + OrdinalsOffset(outfile))
  }

  /** The counter kept while reading is the size of the directory. */
  lemma {:induction false} CountIsSize(outfile: Name, es: seq<Export>, n: nat)
    requires 0 < n <= |es|
    ensures CountedLength(outfile, es, n) == StringsOffset(outfile, n) + |Strings(es, n)|
  {
    if n == 1 {
      assert Strings(es, 0) == [] && CountedLength(outfile, es, 0) == 0;
    } else {
      CountIsSize(outfile, es, n - 1);
    }
  }

  // ---------- as bytes ----------

  /** Words of two or four bytes. */
  function Scaled(w: nat, i: nat): nat {
    if w == 2 then 2 * i else 4 * i
  }

  function WordBytes(ws: seq<nat>, w: nat): (s: seq<uint8>)
    requires w == 2 || w == 4
    ensures |s| == Scaled(w, |ws|)
  {
    if ws == [] then [] else WordBytes(ws[..|ws| - 1], w) + Le(ws[|ws| - 1], w)
  }

  function HeaderBytes(h: Header): (s: seq<uint8>)
    ensures |s| == 40
  {
    Le(0, 12) + (Le(h.name, 4) + (Le(0, 4) + (Le(h.count, 4) + (Le(h.count, 4)
    + (Le(h.functions, 4) + (Le(h.names, 4) + Le(h.ordinals, 4)))))))
  }

  function Ordinals(n: nat): (s: seq<nat>)
    ensures |s| == n && forall i :: 0 <= i < n ==> s[i] == i
  {
    seq(n, i => i)
  }

  function Functions(es: seq<Export>): (s: seq<nat>)
    ensures |s| == |es| && forall i :: 0 <= i < |es| ==> s[i] == es[i].address
  {
    seq(|es|, i requires 0 <= i < |es| => es[i].address)
  }

  /** Where the names stand, for strings that begin at address at. */
  function NameAddresses(es: seq<Export>, at: nat): (s: seq<nat>)
    ensures |s| == |es| && forall i {:trigger s[i]} :: 0 <= i < |es| ==> s[i] == at + |Strings(es, i)|
  {
    seq(|es|, i requires 0 <= i < |es| => at + |Strings(es, i)|)
  }

  /** The parts of the directory, one behind the other. */
  datatype Directory = Directory(header: Header, outfile: Name, ordinals: seq<nat>, functions: seq<nat>,
      names: seq<nat>, strings: seq<uint8>)

  function Bytes(d: Directory): seq<uint8> {
    HeaderBytes(d.header) + (d.outfile + ([0] + (WordBytes(d.ordinals, 2)
    + (WordBytes(d.functions, 4) + (WordBytes(d.names, 4) + d.strings)))))
  }

  function Written(outfile: Name, es: seq<Export>, va: nat): Directory {
    Directory(HeaderOf(outfile, |es|, va), outfile, Ordinals(|es|), Functions(es),
              NameAddresses(es, va + StringsOffset(outfile, |es|)), Strings(es, |es|))
  }

  lemma {:induction false} WrittenSize(outfile: Name, es: seq<Export>, va: nat)
    requires es != []
    ensures |Bytes(Written(outfile, es, va))| == CountedLength(outfile, es, |es|)
  {
    CountIsSize(outfile, es, |es|);
  }

  // ---------- reading it back ----------

  lemma {:induction false} WordReadsBack(d: seq<uint8>, o: nat, ws: seq<nat>, w: nat, i: nat)
    requires (w == 2 || w == 4) && Holds(d, o, WordBytes(ws, w)) && i < |ws| && ws[i] < Pow256(w)
    ensures o + Scaled(w, i) + w <= |d| && LeAt(d, o + Scaled(w, i), w) == ws[i]
  {
    var p := ws[..|ws| - 1];
    HoldsSplit(d, o, WordBytes(p, w), Le(ws[|ws| - 1], w));
    if i < |p| {
      WordReadsBack(d, o, p, w, i);
    } else {
      LeReadsBack(d, o + Scaled(w, i), ws[i], w);
    }
  }

  /** What stands at index i of tables at offsets o, f and n. */
  ghost predicate ExportedAs(d: seq<uint8>, va: nat, o: nat, f: nat, n: nat, i: nat, e: Export) {
    && o + 2 * i + 2 <= |d| && LeAt(d, o + 2 * i, 2) == i
    && f + 4 * i + 4 <= |d| && LeAt(d, f + 4 * i, 4) == e.address
    && n + 4 * i + 4 <= |d| && LeAt(d, n + 4 * i, 4) >= va && CString(d, LeAt(d, n + 4 * i, 4) - va) == e.name
  }

  /** The header's words at their places in the format. */
  ghost predicate Announces(d: seq<uint8>, h: Header) {
    && |d| >= 40 && d[..12] == Zeros(12) && LeAt(d, 16, 4) == 0
    && LeAt(d, 12, 4) == h.name && LeAt(d, 20, 4) == h.count && LeAt(d, 24, 4) == h.count
    && LeAt(d, 28, 4) == h.functions && LeAt(d, 32, 4) == h.names && LeAt(d, 36, 4) == h.ordinals
  }

  lemma {:induction false} NextWord(d: seq<uint8>, o: nat, v: nat, rest: seq<uint8>)
    requires Holds(d, o, Le(v, 4) + rest) && v < 0x1_0000_0000
    ensures o + 4 <= |d| && LeAt(d, o, 4) == v && Holds(d, o + 4, rest)
  {
    HoldsSplit(d, o, Le(v, 4), rest);
    WordSizes(v);
    LeReadsBack(d, o, v, 4);
  }

  lemma {:induction false} LeOfZero(n: nat)
    ensures Le(0, n) == Zeros(n)
  {
    if n > 0 {
      LeOfZero(n - 1);
      assert Zeros(n) == [0] + Zeros(n - 1);
    }
  }

  lemma {:induction false} FirstZeros(d: seq<uint8>, rest: seq<uint8>)
    requires Holds(d, 0, Le(0, 12) + rest)
    ensures |d| >= 12 && d[..12] == Zeros(12) && Holds(d, 12, rest)
  {
    HoldsSplit(d, 0, Le(0, 12), rest);
    LeOfZero(12);
    forall i | 0 <= i < 12 ensures d[i] == 0 { assert d[0 + i] == Le(0, 12)[i]; }
  }

  lemma {:induction false} HeaderReads(d: seq<uint8>, h: Header)
    requires Holds(d, 0, HeaderBytes(h))
    requires h.name < 0x1_0000_0000 && h.count < 0x1_0000_0000 && h.functions < 0x1_0000_0000
    requires h.names < 0x1_0000_0000 && h.ordinals < 0x1_0000_0000
    ensures Announces(d, h)
  {
    var f, n, o := Le(h.functions, 4), Le(h.names, 4), Le(h.ordinals, 4);
    FirstZeros(d, Le(h.name, 4) + (Le(0, 4) + (Le(h.count, 4) + (Le(h.count, 4) + (f + (n + o))))));
    NextWord(d, 12, h.name, Le(0, 4) + (Le(h.count, 4) + (Le(h.count, 4) + (f + (n + o)))));
    NextWord(d, 16, 0, Le(h.count, 4) + (Le(h.count, 4) + (f + (n + o))));
    NextWord(d, 20, h.count, Le(h.count, 4) + (f + (n + o)));
    NextWord(d, 24, h.count, f + (n + o));
    NextWord(d, 28, h.functions, n + o);
    NextWord(d, 32, h.names, o);
    WordSizes(h.ordinals);
    LeReadsBack(d, 36, h.ordinals, 4);
  }

  lemma {:induction false} StringsHold(d: seq<uint8>, c: nat, es: seq<Export>, n: nat, i: nat)
    requires i < n <= |es| && Holds(d, c, Strings(es, n)) && IsName(es[i].name)
    ensures CString(d, c + |Strings(es, i)|) == es[i].name
  {
    HoldsSplit(d, c, Strings(es, n - 1), es[n - 1].name + [0]);
    if i < n - 1 {
      StringsHold(d, c, es, n - 1, i);
    } else {
      var o, s := c + |Strings(es, i)|, es[i].name;
      HoldsSplit(d, o, s, [0]);
      assert d[o + |s| + 0] == [0][0];
      assert d[o..o + |s|] == s;
      WrittenReadsBack(d, o, s);
    }
  }

  /** The five parts behind the header, split off one after the other. */
  ghost predicate PartsStand(d: seq<uint8>, outfile: Name, es: seq<Export>, at: nat) {
    && Holds(d, OrdinalsOffset(outfile), WordBytes(Ordinals(|es|), 2))
    && Holds(d, FunctionsOffset(outfile, |es|), WordBytes(Functions(es), 4))
    && Holds(d, NamesOffset(outfile, |es|), WordBytes(NameAddresses(es, at), 4))
    && Holds(d, StringsOffset(outfile, |es|), Strings(es, |es|))
  }

  lemma {:induction false} FourHold(
    d: seq<uint8>, x: nat, y: nat, z: nat, u: nat, o: seq<uint8>, a: seq<uint8>, n: seq<uint8>, s: seq<uint8>)
    requires Holds(d, x, o + (a + (n + s))) && y == x + |o| && z == y + |a| && u == z + |n|
    ensures Holds(d, x, o) && Holds(d, y, a) && Holds(d, z, n) && Holds(d, u, s)
  {
    HoldsSplit(d, x, o, a + (n + s));
    HoldsSplit(d, y, a, n + s);
    HoldsSplit(d, z, n, s);
  }

  lemma {:induction false} Frame(d: seq<uint8>, h: seq<uint8>, f: seq<uint8>, rest: seq<uint8>)
    requires d == h + (f + ([0] + rest))
    ensures Holds(d, 0, h) && Holds(d, |h|, f + [0]) && Holds(d, |h| + |f| + 1, rest)
  {
    HoldsSplit(d, 0, h, f + ([0] + rest));
    assert f + ([0] + rest) == (f + [0]) + rest;
    HoldsSplit(d, |h|, f + [0], rest);
  }

  lemma {:induction false} WrittenStands(d: seq<uint8>, outfile: Name, es: seq<Export>, va: nat)
    requires d == Bytes(Written(outfile, es, va))
    ensures PartsStand(d, outfile, es, va + StringsOffset(outfile, |es|))
    ensures Holds(d, 0, HeaderBytes(HeaderOf(outfile, |es|, va))) && Holds(d, 40, outfile + [0])
  {
    var w := Written(outfile, es, va);
    Frame(d, HeaderBytes(w.header), outfile,
             WordBytes(w.ordinals, 2) + (WordBytes(w.functions, 4) + (WordBytes(w.names, 4) + w.strings)));
    FourHold(d, OrdinalsOffset(outfile), FunctionsOffset(outfile, |es|), NamesOffset(outfile, |es|),
             StringsOffset(outfile, |es|), WordBytes(Ordinals(|es|), 2), WordBytes(Functions(es), 4),
             WordBytes(NameAddresses(es, va + StringsOffset(outfile, |es|)), 4), Strings(es, |es|));
  }

  lemma {:induction false} SmallWords()
    ensures Pow256(2) == 0x1_0000 && Pow256(4) == 0x1_0000_0000
  {
    assert Pow256(2) == 0x1_0000;
  }

  predicate Fits(es: seq<Export>, end: nat) {
    && |es| <= 0x1_0000 && end < 0x1_0000_0000
    && forall e :: e in es ==> IsName(e.name) && e.address < 0x1_0000_0000
  }

  /**
   Every exported symbol is found at its index: its name, its ordinal and its address, at the
   places the header announces.
   */
  lemma {:induction false} ExportsRead(d: seq<uint8>, outfile: Name, es: seq<Export>, va: nat, i: nat)
    requires PartsStand(d, outfile, es, va + StringsOffset(outfile, |es|)) && i < |es|
    requires Fits(es, va + StringsOffset(outfile, |es|) + |Strings(es, |es|)|)
    ensures ExportedAs(d, va, OrdinalsOffset(outfile), FunctionsOffset(outfile, |es|), NamesOffset(outfile, |es|), i,
            es[i])
  {
    FitsAt(es, va + StringsOffset(outfile, |es|) + |Strings(es, |es|)|, i);
    ReadsAt(d, va, OrdinalsOffset(outfile), FunctionsOffset(outfile, |es|),
            NamesOffset(outfile, |es|), StringsOffset(outfile, |es|), es, i);
  }

  lemma {:induction false} ReadsAt(d: seq<uint8>, va: nat, o: nat, f: nat, n: nat, c: nat, es: seq<Export>, i: nat)
    requires Holds(d, o, WordBytes(Ordinals(|es|), 2)) && Holds(d, f, WordBytes(Functions(es), 4))
    requires Holds(d, n, WordBytes(NameAddresses(es, va + c), 4)) && Holds(d, c, Strings(es, |es|))
    requires i < |es| <= 0x1_0000 && va + c + |Strings(es, |es|)| < 0x1_0000_0000
    requires IsName(es[i].name) && es[i].address < 0x1_0000_0000
    ensures ExportedAs(d, va, o, f, n, i, es[i])
  {
    OrdinalReads(d, o, |es|, i);
    FunctionReads(d, f, es, i);
    NameReads(d, n, es, va, c, i);
  }

  lemma {:induction false} FitsAt(es: seq<Export>, end: nat, i: nat)
    requires Fits(es, end) && i < |es|
    ensures IsName(es[i].name) && es[i].address < 0x1_0000_0000
  {
    assert es[i] in es;
  }

  lemma {:induction false} OrdinalReads(d: seq<uint8>, o: nat, n: nat, i: nat)
    requires Holds(d, o, WordBytes(Ordinals(n), 2)) && i < n <= 0x1_0000
    ensures o + 2 * i + 2 <= |d| && LeAt(d, o + 2 * i, 2) == i
  {
    SmallWords();
    WordReadsBack(d, o, Ordinals(n), 2, i);
  }

  lemma {:induction false} FunctionReads(d: seq<uint8>, o: nat, es: seq<Export>, i: nat)
    requires Holds(d, o, WordBytes(Functions(es), 4)) && i < |es| && es[i].address < 0x1_0000_0000
    ensures o + 4 * i + 4 <= |d| && LeAt(d, o + 4 * i, 4) == es[i].address
  {
    SmallWords();
    WordReadsBack(d, o, Functions(es), 4, i);
  }

  lemma {:induction false} NameReads(d: seq<uint8>, o: nat, es: seq<Export>, va: nat, c: nat, i: nat)
    requires Holds(d, o, WordBytes(NameAddresses(es, va + c), 4)) && Holds(d, c, Strings(es, |es|))
    requires i < |es| && IsName(es[i].name) && va + c + |Strings(es, |es|)| < 0x1_0000_0000
    ensures o + 4 * i + 4 <= |d| && LeAt(d, o + 4 * i, 4) >= va && CString(d, LeAt(d, o + 4 * i, 4) - va) == es[i].name
  {
    SmallWords();
    StringsRise(es, i, |es|);
    WordReadsBack(d, o, NameAddresses(es, va + c), 4, i);
    StringsHold(d, c, es, |es|, i);
  }

  lemma {:induction false} StringsRise(es: seq<Export>, m: nat, n: nat)
    requires m <= n <= |es|
    ensures |Strings(es, m)| <= |Strings(es, n)|
    decreases n
  {
    if m < n { StringsRise(es, m, n - 1); }
  }

  /**
   What a loader finds, taking everything from the bytes: flags, time, version and ordinal base 0; the
   name behind the address at 12; the counts at 20 and 24; and through the addresses at 28, 32 and 36,
   which are f, n and o counted from the section's, the address, the name and the ordinal of every symbol.
   */
  ghost predicate ReadsThroughHeader(
    d: seq<uint8>, va: nat, outfile: Name, es: seq<Export>, f: nat, n: nat, o: nat)
  {
    && |d| >= 40 && d[..12] == Zeros(12) && LeAt(d, 16, 4) == 0
    && LeAt(d, 12, 4) >= va && CString(d, LeAt(d, 12, 4) - va) == outfile
    && LeAt(d, 20, 4) == LeAt(d, 24, 4) == |es|
    && LeAt(d, 28, 4) == va + f && LeAt(d, 32, 4) == va + n && LeAt(d, 36, 4) == va + o
    && TablesRead(d, va, o, f, n, es)
  }

  ghost predicate TablesRead(d: seq<uint8>, va: nat, o: nat, f: nat, n: nat, es: seq<Export>) {
    forall i :: 0 <= i < |es| ==> ExportedAs(d, va, o, f, n, i, es[i])
  }

  /**
   The bytes of the directory, read through its header alone, give the file name and every symbol at
   its index. The counter has reserved exactly these bytes.
   */
  lemma {:induction false} DirectoryExports(d: seq<uint8>, outfile: Name, es: seq<Export>, va: nat)
    returns (f: nat, n: nat, o: nat)
    requires es != [] && IsName(outfile) && d == Bytes(Written(outfile, es, va))
    requires Fits(es, va + StringsOffset(outfile, |es|) + |Strings(es, |es|)|)
    ensures |d| == CountedLength(outfile, es, |es|) && ReadsThroughHeader(d, va, outfile, es, f, n, o)
    ensures f == FunctionsOffset(outfile, |es|) && n == NamesOffset(outfile, |es|)
  {
    o, f, n := OrdinalsOffset(outfile), FunctionsOffset(outfile, |es|), NamesOffset(outfile, |es|);
    WrittenSize(outfile, es, va);
    WrittenStands(d, outfile, es, va);
    HeaderReads(d, HeaderOf(outfile, |es|, va));
    FileNameReads(d, outfile);
    AllExportsRead(d, outfile, es, va);
    AnnouncedReads(d, va, outfile, es, HeaderOf(outfile, |es|, va), f, n, o);
  }

  lemma {:induction false} AnnouncedReads(
    d: seq<uint8>, va: nat, outfile: Name, es: seq<Export>, h: Header, f: nat, n: nat, o: nat)
    requires Announces(d, h) && h == Header(va + 40, |es|, va + f, va + n, va + o)
    requires CString(d, 40) == outfile && TablesRead(d, va, o, f, n, es)
    ensures ReadsThroughHeader(d, va, outfile, es, f, n, o)
  {
  }

  lemma {:induction false} AllExportsRead(d: seq<uint8>, outfile: Name, es: seq<Export>, va: nat)
    requires PartsStand(d, outfile, es, va + StringsOffset(outfile, |es|))
    requires Fits(es, va + StringsOffset(outfile, |es|) + |Strings(es, |es|)|)
    ensures TablesRead(d, va, OrdinalsOffset(outfile), FunctionsOffset(outfile, |es|), NamesOffset(outfile, |es|), es)
  {
    forall i | 0 <= i < |es|
      ensures ExportedAs(d, va, OrdinalsOffset(outfile), FunctionsOffset(outfile, |es|), NamesOffset(outfile, |es|),
              i, es[i])
    {
      ExportsRead(d, outfile, es, va, i);
    }
  }

  lemma {:induction false} FileNameReads(d: seq<uint8>, outfile: Name)
    requires Holds(d, 40, outfile + [0]) && IsName(outfile)
    ensures CString(d, 40) == outfile
  {
    HoldsSplit(d, 40, outfile, [0]);
    assert d[40 + |outfile| + 0] == [0][0];
    assert d[40..40 + |outfile|] == outfile;
    WrittenReadsBack(d, 40, outfile);
  }
}

module CoffExport {
  import opened Machine
  import opened CoffExportSpec

  /** The counting in the symbol table callback, over all exported symbols. */
  method CountExports(outfile: Name, es: seq<Export>) returns (length: nat, count: nat)
    ensures length == CountedLength(outfile, es, |es|) && count == |es|
  {
    length, count := 0, 0;
    while count < |es|
      invariant count <= |es| && length == CountedLength(outfile, es, count)
    {
      if length == 0 {
        length := 40 + |outfile| + 1;
      }
      length := length + 4 + 4 + 2 + |es[count].name| + 1;
      count := count + 1;
    }
  }

  /** strcpy at the string cursor. */
  method PutString(a: array<uint8>, c: nat, s: Name)
    requires c + |s| + 1 <= a.Length
    modifies a
    ensures a[..c + |s| + 1] == old(a[..c]) + (s + [0])
  {
    var j := 0;
    while j < |s|
      invariant j <= |s| && a[..c + j] == old(a[..c]) + s[..j]
    {
      a[c + j] := s[j];
      assert a[..c + j + 1] == a[..c + j] + [s[j]];
      j := j + 1;
    }
    a[c + j] := 0;
    assert a[..c + j + 1] == a[..c + j] + [0];
    assert s[..j] == s;
  }

  /** The entries of the first i symbols are in the tables. */
  ghost predicate Entered(ordinals: seq<nat>, functions: seq<nat>, names: seq<nat>, es: seq<Export>, at: nat, i: nat) {
    && i <= |es| && i <= |ordinals| && i <= |functions| && i <= |names|
    && (forall j :: 0 <= j < i ==> ordinals[j] == j)
    && (forall j :: 0 <= j < i ==> functions[j] == es[j].address)
    && (forall j {:trigger names[j]} :: 0 <= j < i ==> names[j] == at + |Strings(es, j)|)
  }

  lemma {:induction false} AllEntered(
    ordinals: seq<nat>, functions: seq<nat>, names: seq<nat>, es: seq<Export>, at: nat)
    requires |ordinals| == |functions| == |names| == |es| && Entered(ordinals, functions, names, es, at, |es|)
    ensures ordinals == Ordinals(|es|) && functions == Functions(es) && names == NameAddresses(es, at)
  {
  }

  method PutEntry(
    ordinals: array<nat>, functions: array<nat>, names: array<nat>, es: seq<Export>, at: nat, i: nat, c: nat)
    requires ordinals != functions && ordinals != names && functions != names
    requires i < |es| == ordinals.Length == functions.Length == names.Length && c == |Strings(es, i)|
    requires Entered(ordinals[..], functions[..], names[..], es, at, i)
    modifies ordinals, functions, names
    ensures Entered(ordinals[..], functions[..], names[..], es, at, i + 1)
  {
    names[i] := at + c;
    functions[i] := es[i].address;
    ordinals[i] := i;
  }

  /** The loop over all exported symbols, with one cursor per table and one for the strings. */
  method WriteTables(es: seq<Export>, at: nat, size: nat)
    returns (ordinals: seq<nat>, functions: seq<nat>, names: seq<nat>, strings: seq<uint8>)
    requires size == |Strings(es, |es|)|
    ensures ordinals == Ordinals(|es|) && functions == Functions(es) && names == NameAddresses(es, at)
    ensures strings == Strings(es, |es|)
  {
    var o, f, n := new nat[|es|], new nat[|es|], new nat[|es|];
    var s := new uint8[size];
    var i, c := 0, 0;
    while i < |es|
      invariant Entered(o[..], f[..], n[..], es, at, i)
      invariant c == |Strings(es, i)| <= s.Length && s[..c] == Strings(es, i)
    {
      StringsRise(es, i + 1, |es|);
      PutEntry(o, f, n, es, at, i, c);
      PutString(s, c, es[i].name);
      c, i := c + |es[i].name| + 1, i + 1;
    }
    AllEntered(o[..], f[..], n[..], es, at);
    ordinals, functions, names, strings := o[..], f[..], n[..], s[..c];
  }

  /** add_export, in the length and count kept while reading. */
  method AddExport(outfile: Name, es: seq<Export>, va: nat, length: nat, count: nat) returns (d: Directory)
    requires es != [] && count == |es| && length == CountedLength(outfile, es, |es|)
    ensures d == Written(outfile, es, va) && |Bytes(d)| == length
    ensures var at := va + 40 + |outfile| + 1;
            d.header == Header(va + 40, |es|, at + 2 * |es|, at + 2 * |es| + 4 * |es|, at)
  {
    CountIsSize(outfile, es, |es|);
    WrittenSize(outfile, es, va);
    var o := StringsOffset(outfile, count);
    var ordinals, functions, names, strings := WriteTables(es, va + o, length - o);
    d := Directory(HeaderOf(outfile, count, va), outfile, ordinals, functions, names, strings);
  }
}
