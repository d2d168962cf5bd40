/**
 callgen: a scan of machine code for near calls to known functions, the table of
 caller and callees it fills, and the reader that turns the table into edges.
 */
module CallTableSpec {
  import opened Machine
  import L = LittleEndian

  /** A function the scan can recognise; plt is its 32-bit slot address, name its string offset. */
  datatype Sym = Sym(name: nat, plt: nat, value: nat, size: nat)

  /**
   Functions with code, and those in the procedure linkage table, in memory order. The linkage
   table grows downwards, so plt[0] is the function entered last.
   */
  datatype Workspace = Workspace(f: seq<Sym>, plt: seq<Sym>)

  const NOT_FOUND: nat := 0xffff_ffff
  const NEAR_CALL: uint8 := 0xe8

  // ---------- recognising a call ----------

  predicate IsAt(s: Sym, addr: nat) {
    s.value == addr || s.plt == addr % 0x1_0000_0000
  }

  /** The name of the first function from entry k on that is at an address. */
  function Forward(f: seq<Sym>, addr: nat, k: nat): nat
    requires k <= |f|
    decreases |f| - k
  {
    if k == |f| then NOT_FOUND else if IsAt(f[k], addr) then f[k].name else Forward(f, addr, k + 1)
  }

  /** The same from entry k - 1 down; the search stops at entry 0 without comparing it. */
  function Backward(p: seq<Sym>, addr: nat, k: nat): nat
    requires k <= |p|
  {
    if k <= 1 then NOT_FOUND else if IsAt(p[k - 1], addr) then p[k - 1].name else Backward(p, addr, k - 1)
  }

  predicate AnyAt(f: seq<Sym>, addr: nat, k: nat)
    requires k <= |f|
    decreases |f| - k
  {
    k < |f| && (IsAt(f[k], addr) || AnyAt(f, addr, k + 1))
  }

  /** What a search gives: a name, or no word about it, because it has left the tables. */
  datatype Answer = Name(name: nat) | RunsOff

  /**
   iterate_f_on_symt. The backward search starts below an empty linkage table, whose end it
   cannot meet: it goes on into the memory below, where other entries and zeros decide.
   */
  function Lookup(w: Workspace, addr: nat): Answer {
    if AnyAt(w.f, addr, 0) then Name(Forward(w.f, addr, 0))
    else if w.plt == [] then RunsOff
    else Name(Backward(w.plt, addr, |w.plt|))
  }

  /** A workspace in which every search stays inside the tables. */
  type Searchable = w: Workspace | w.plt != [] witness Workspace([], [Sym(0, 0, 0, 0)])

  /** The name found for an address. */
  function NameAt(w: Searchable, addr: nat): nat {
    Lookup(w, addr).name
  }

  lemma {:induction false} BackwardSkips(p: seq<Sym>, addr: nat, k: nat, n: nat)
    requires k < n <= |p| && forall j :: k < j < n ==> !IsAt(p[j], addr)
    ensures Backward(p, addr, n) == Backward(p, addr, k + 1)
  {
    if n > k + 1 { BackwardSkips(p, addr, k, n - 1); }
  }

  /**
   An address that is met first at entry k of the linkage table is found exactly if that entry
   is not the one entered last.
   */
  lemma {:induction false} FoundIffNotLastEntered(w: Workspace, addr: nat, k: nat)
    requires !AnyAt(w.f, addr, 0) && k < |w.plt| && IsAt(w.plt[k], addr) && w.plt[k].name != NOT_FOUND
    requires forall j :: k < j < |w.plt| ==> !IsAt(w.plt[j], addr)
    ensures Lookup(w, addr) == Name(w.plt[k].name) <==> k != 0
    ensures k == 0 ==> Lookup(w, addr) == Name(NOT_FOUND)
  {
    BackwardSkips(w.plt, addr, k, |w.plt|);
  }

  /** A search stays inside the tables exactly if a function with code is there or the linkage table is not empty. */
  lemma {:induction false} SearchStaysIff(w: Workspace, addr: nat)
    ensures Lookup(w, addr).Name? <==> w.plt != [] || exists k :: 0 <= k < |w.f| && IsAt(w.f[k], addr)
  {
    AnyAtIff(w.f, addr, 0);
  }

  lemma {:induction false} AnyAtIff(f: seq<Sym>, addr: nat, k: nat)
    requires k <= |f|
    ensures AnyAt(f, addr, k) <==> exists j :: k <= j < |f| && IsAt(f[j], addr)
    decreases |f| - k
  {
    if k < |f| { AnyAtIff(f, addr, k + 1); }
  }

  /** With one function in the linkage table, a call to it has no name. */
  lemma {:induction false} OnlyImportNotFound(s: Sym)
    ensures NameAt(Workspace([], [s]), s.value) == NOT_FOUND
  {
  }

  /** Memory behind the mapped text reads as zero. */
  function ByteAt(mem: seq<uint8>, p: nat): uint8 {
    if p < |mem| then mem[p] else 0
  }

  function OperandAt(mem: seq<uint8>, p: nat): nat {
    ByteAt(mem, p) as nat + 0x100 * ByteAt(mem, p + 1) as nat + 0x1_0000 * ByteAt(mem, p + 2) as nat
    + 0x100_0000 * ByteAt(mem, p + 3) as nat
  }

  /** Where a near call at p goes: the operand is a signed distance from behind it, in 64-bit addresses. */
  function Target(mem: seq<uint8>, p: nat): nat {
    var o := OperandAt(mem, p + 1);
    (p + 5 + if o < 0x8000_0000 then o else o - 0x1_0000_0000) % 0x1_0000_0000_0000_0000
  }

  predicate Recognised(w: Searchable, mem: seq<uint8>, p: nat) {
    ByteAt(mem, p) == NEAR_CALL && NameAt(w, Target(mem, p)) != NOT_FOUND
  }

  // ---------- the scan ----------

  /** The sites of recognised calls from ip up to end, each taken with its operand. */
  function Sites(w: Searchable, mem: seq<uint8>, ip: nat, end: nat): seq<nat>
    decreases end - ip
  {
    if ip >= end then []
    else if Recognised(w, mem, ip) then [ip] + Sites(w, mem, ip + 5, end)
    else Sites(w, mem, ip + 1, end)
  }

  /** The names the scan emits. */
  function Scan(w: Searchable, mem: seq<uint8>, ip: nat, end: nat): seq<nat>
    decreases end - ip
  {
    if ip >= end then []
    else if Recognised(w, mem, ip) then [NameAt(w, Target(mem, ip))] + Scan(w, mem, ip + 5, end)
    else Scan(w, mem, ip + 1, end)
  }

  /**
   The scan emits one name for every site, the name of the function called there; sites are
   recognised calls inside the function and never overlap.
   */
  lemma {:induction false} SitesAreCalls(w: Searchable, mem: seq<uint8>, ip: nat, end: nat)
    ensures var s, names := Sites(w, mem, ip, end), Scan(w, mem, ip, end);
            && |names| == |s|
            && (forall k :: 0 <= k < |s| ==>
                  ip <= s[k] < end && Recognised(w, mem, s[k]) && names[k] == NameAt(w, Target(mem, s[k])))
            && (forall j, k :: 0 <= j < k < |s| ==> s[j] + 5 <= s[k])
    decreases end - ip
  {
    if ip < end {
      SitesAreCalls(w, mem, if Recognised(w, mem, ip) then ip + 5 else ip + 1, end);
    }
  }

  /** No recognised call is missed: it is a site, or it lies inside the operand of one. */
  lemma {:induction false} NoCallMissed(w: Searchable, mem: seq<uint8>, ip: nat, end: nat, p: nat) returns (k: nat)
    requires ip <= p < end && Recognised(w, mem, p)
    ensures k < |Sites(w, mem, ip, end)| && Sites(w, mem, ip, end)[k] <= p < Sites(w, mem, ip, end)[k] + 5
    decreases end - ip
  {
    if Recognised(w, mem, ip) {
      if p < ip + 5 {
        k := 0;
      } else {
        k := NoCallMissed(w, mem, ip + 5, end, p);
        k := k + 1;
      }
    } else {
      k := NoCallMissed(w, mem, ip + 1, end, p);
    }
  }

  // ---------- what the scan finds in the bytes ----------

  /**
   The bytes e8 and a signed 32-bit distance d stand at p, zeros being read behind the memory, and lead,
   counted from behind them in 64 bits, to an address.
   */
  ghost predicate CallsTo(mem: seq<uint8>, p: nat, d: int, addr: nat) {
    && p < |mem| && -0x8000_0000 <= d < 0x8000_0000 && addr == (p + 5 + d) % 0x1_0000_0000_0000_0000
    && mem[p] == 0xe8 && (mem + Zeros(4))[p + 1..p + 5] == L.Le(d % 0x1_0000_0000, 4)
  }

  lemma {:induction false} OperandReads(mem: seq<uint8>, p: nat, v: nat)
    requires p < |mem| && v < 0x1_0000_0000 && (mem + Zeros(4))[p + 1..p + 5] == L.Le(v, 4)
    ensures OperandAt(mem, p + 1) == v
  {
    var t := mem + Zeros(4);
    var s := t[p + 1..p + 5];
    assert L.Holds(s, 0, L.Le(v, 4));
    L.WordSizes(v);
    L.LeReadsBack(s, 0, v, 4);
    assert L.LeAt(s, 3, 1) == s[3] as nat && L.LeAt(s, 2, 2) == s[2] as nat + 0x100 * L.LeAt(s, 3, 1);
    assert L.LeAt(s, 0, 4) == s[0] as nat + 0x100 * (s[1] as nat + 0x100 * L.LeAt(s, 2, 2));
    assert s[0] == t[p + 1] && s[1] == t[p + 2] && s[2] == t[p + 3] && s[3] == t[p + 4];
    assert forall q :: p < q <= p + 4 ==> t[q] == ByteAt(mem, q);
  }

  /** Forwards as backwards, the target is the address the bytes lead to. */
  lemma {:induction false} TargetOfCall(mem: seq<uint8>, p: nat, d: int, addr: nat)
    requires CallsTo(mem, p, d, addr)
    ensures Target(mem, p) == addr
  {
    var o := if d >= 0 then d else d + 0x1_0000_0000;
    SignedWord(d);
    OperandReads(mem, p, o);
  }

  lemma {:induction false} SignedWord(d: int)
    requires -0x8000_0000 <= d < 0x8000_0000
    ensures d % 0x1_0000_0000 == if d >= 0 then d else d + 0x1_0000_0000
  {
  }

  /** A near call of a function that the search knows: recognised, under that name. */
  lemma {:induction false} CallRecognised(w: Searchable, mem: seq<uint8>, p: nat, d: int, addr: nat)
    requires CallsTo(mem, p, d, addr)
    ensures Recognised(w, mem, p) <==> NameAt(w, addr) != 0xffff_ffff
    ensures NameAt(w, Target(mem, p)) == NameAt(w, addr)
  {
    TargetOfCall(mem, p, d, addr);
  }

  /** The name emitted for a site is the one the search gives for the address its bytes call. */
  lemma {:induction false} EmittedNameIsCalled(
    w: Searchable, mem: seq<uint8>, ip: nat, end: nat, k: nat, d: int, addr: nat)
    requires k < |Sites(w, mem, ip, end)| && CallsTo(mem, Sites(w, mem, ip, end)[k], d, addr)
    ensures k < |Scan(w, mem, ip, end)| && Scan(w, mem, ip, end)[k] == NameAt(w, addr) != 0xffff_ffff
  {
    SitesAreCalls(w, mem, ip, end);
    CallRecognised(w, mem, Sites(w, mem, ip, end)[k], d, addr);
  }

  /** Every call in the bytes of a function that the search knows is a site, or it lies in the operand of one. */
  lemma {:induction false} CallIsSite(
    w: Searchable, mem: seq<uint8>, ip: nat, end: nat, p: nat, d: int, addr: nat)
    returns (k: nat)
    requires ip <= p < end && CallsTo(mem, p, d, addr) && NameAt(w, addr) != 0xffff_ffff
    ensures var s := Sites(w, mem, ip, end); k < |s| && s[k] <= p < s[k] + 5
    ensures var s, names := Sites(w, mem, ip, end), Scan(w, mem, ip, end);
            s[k] == p ==> k < |names| && names[k] == NameAt(w, addr)
  {
    CallRecognised(w, mem, p, d, addr);
    k := NoCallMissed(w, mem, ip, end, p);
    SitesAreCalls(w, mem, ip, end);
  }

  /** A function is found by its address or, in the low half of the address, by that of its linkage slot. */
  lemma {:induction false} FunctionFound(w: Searchable, addr: nat, k: nat)
    requires k < |w.f| && (w.f[k].value == addr || w.f[k].plt == addr % 0x1_0000_0000)
    requires forall j :: 0 <= j < k ==> w.f[j].value != addr && w.f[j].plt != addr % 0x1_0000_0000
    ensures NameAt(w, addr) == w.f[k].name
  {
    AnyAtIff(w.f, addr, 0);
    assert IsAt(w.f[k], addr);
    ForwardSkips(w.f, addr, 0, k);
  }

  lemma {:induction false} ForwardSkips(f: seq<Sym>, addr: nat, k: nat, n: nat)
    requires k <= n < |f| && forall j :: k <= j < n ==> !IsAt(f[j], addr)
    ensures Forward(f, addr, k) == Forward(f, addr, n)
    decreases n - k
  {
    if k < n { ForwardSkips(f, addr, k + 1, n); }
  }

  // ---------- the table ----------

  /** A caller with its callees. */
  datatype Record = Record(addr: nat, name: nat, callees: seq<nat>)

  /** -count & 3: words up to the next cell of four. */
  function Pad(n: nat): (p: nat)
    ensures p < 4 && (n + p) % 4 == 0
  {
    (4 - n % 4) % 4
  }

  /** The header cell: address in two words, name, number of callees. */
  function Header(r: Record): (s: seq<nat>)
    ensures |s| == 4 && s[2] == r.name && s[3] == |r.callees|
  {
    [r.addr % 0x1_0000_0000, r.addr / 0x1_0000_0000, r.name, |r.callees|]
  }

  function EncodeRecord(r: Record): (s: seq<nat>)
    ensures |s| == 4 + |r.callees| + Pad(|r.callees|) && |s| % 4 == 0
  {
    Header(r) + (r.callees + Repeat<nat>(0, Pad(|r.callees|)))
  }

  function Encode(rs: seq<Record>): (s: seq<nat>)
    ensures |s| % 4 == 0
  {
    if rs == [] then [] else EncodeRecord(rs[0]) + Encode(rs[1..])
  }

  datatype Edge = Edge(caller: nat, callee: nat)

  function EdgesOf(caller: nat, callees: seq<nat>): (es: seq<Edge>)
    ensures |es| == |callees| && forall k :: 0 <= k < |es| ==> es[k] == Edge(caller, callees[k])
  {
    seq(|callees|, k requires 0 <= k < |callees| => Edge(caller, callees[k]))
  }

  /** Words of the cells that hold n callees: (n + 3) / 4 cells. */
  function CellWords(n: nat): nat {
    (n + 3) / 4 * 4
  }

  /** emit_call_graph: a cell is a header; one that counts callees is followed by their cells. */
  function Edges(s: seq<nat>): seq<Edge>
    decreases |s|
  {
    if |s| < 4 then []
    else if s[3] == 0 then Edges(s[4..])
    else if 4 + CellWords(s[3]) > |s| then []
    else EdgesOf(s[2], s[4..4 + s[3]]) + Edges(s[4 + CellWords(s[3])..])
  }

  function AllEdges(rs: seq<Record>): seq<Edge> {
    if rs == [] then [] else EdgesOf(rs[0].name, rs[0].callees) + AllEdges(rs[1..])
  }

  lemma {:induction false} PadFillsCells(n: nat)
    ensures n + Pad(n) == CellWords(n)
  {
  }

  /** A zero tail holds no edges. */
  lemma {:induction false} NoEdgesInZeros(z: seq<nat>)
    requires forall i :: 0 <= i < |z| ==> z[i] == 0
    ensures Edges(z) == []
    decreases |z|
  {
    if |z| >= 4 { NoEdgesInZeros(z[4..]); }
  }

  lemma {:induction false} RecordDecodes(r: Record, rest: seq<nat>)
    ensures Edges(EncodeRecord(r) + rest) == EdgesOf(r.name, r.callees) + Edges(rest)
  {
    var s, n := EncodeRecord(r) + rest, |r.callees|;
    PadFillsCells(n);
    assert s[2] == Header(r)[2] && s[3] == Header(r)[3];
    assert s[4..4 + n] == r.callees;
    assert s[4 + CellWords(n)..] == rest;
    if n == 0 {
      assert EdgesOf(r.name, r.callees) + Edges(rest) == Edges(rest);
    }
  }

  /** Reading the table with its zero tail gives exactly the caller/callee edges encoded, in order. */
  lemma {:induction false} TableDecodes(rs: seq<Record>, z: seq<nat>)
    requires forall i :: 0 <= i < |z| ==> z[i] == 0
    ensures Edges(Encode(rs) + z) == AllEdges(rs)
  {
    if rs == [] {
      assert Encode(rs) + z == z;
      NoEdgesInZeros(z);
    } else {
      TableDecodes(rs[1..], z);
      RecordDecodes(rs[0], Encode(rs[1..]) + z);
      assert Encode(rs) + z == EncodeRecord(rs[0]) + (Encode(rs[1..]) + z);
    }
  }

  /** The record of a function: what the scan of its code emits. */
  function RecordOf(w: Searchable, mem: seq<uint8>, s: Sym): Record {
    Record(s.value, s.name, Scan(w, mem, s.value, s.value + s.size))
  }

  /** Records of the first n functions; those without an address are left out. */
  function Records(w: Searchable, mem: seq<uint8>, n: nat): seq<Record>
    requires n <= |w.f|
  {
    if n == 0 then []
    else Records(w, mem, n - 1) + if w.f[n - 1].value != 0 then [RecordOf(w, mem, w.f[n - 1])] else []
  }

  lemma {:induction false} LastEdges(rs: seq<Record>, r: Record)
    ensures AllEdges(rs + [r]) == AllEdges(rs) + EdgesOf(r.name, r.callees)
  {
    var last := EdgesOf(r.name, r.callees);
    if rs == [] {
      assert rs + [r] == [r] && AllEdges([]) == [];
      assert AllEdges([r]) == last + AllEdges([]);
    } else {
      var first := EdgesOf(rs[0].name, rs[0].callees);
      LastEdges(rs[1..], r);
      assert (rs + [r])[1..] == rs[1..] + [r];
      assert first + (AllEdges(rs[1..]) + last) == first + AllEdges(rs[1..]) + last;
    }
  }

  /** The edges of a function's record are among those of the graph. */
  lemma {:induction false} EdgesOfFunction(w: Searchable, mem: seq<uint8>, f: nat, n: nat, r: Record, e: Edge)
    requires f < n <= |w.f| && w.f[f].value != 0
    requires r == RecordOf(w, mem, w.f[f]) && e in EdgesOf(r.name, r.callees)
    ensures e in AllEdges(Records(w, mem, n))
    decreases n
  {
    if w.f[n - 1].value != 0 {
      LastEdges(Records(w, mem, n - 1), RecordOf(w, mem, w.f[n - 1]));
    } else {
      assert Records(w, mem, n - 1) + [] == Records(w, mem, n - 1);
    }
    if f < n - 1 {
      EdgesOfFunction(w, mem, f, n - 1, r, e);
    }
  }

  /**
   The bytes at p of a function with an address call an address that the search knows, and the scan does
   not take them for the operand of a call before them.
   */
  ghost predicate CallInFunction(w: Searchable, mem: seq<uint8>, f: nat, p: nat, d: int, addr: nat) {
    && f < |w.f| && w.f[f].value != 0 && w.f[f].value <= p < w.f[f].value + w.f[f].size
    && CallsTo(mem, p, d, addr) && NameAt(w, addr) != 0xffff_ffff && !InOperand(SitesOf(w, mem, f), p)
  }

  /** The sites of function f. */
  function SitesOf(w: Searchable, mem: seq<uint8>, f: nat): seq<nat>
    requires f < |w.f|
  {
    Sites(w, mem, w.f[f].value, w.f[f].value + w.f[f].size)
  }

  ghost predicate InOperand(sites: seq<nat>, p: nat) {
    exists s :: s in sites && s < p < s + 5
  }

  /** Every such call, forwards or backwards, has its edge in the graph. */
  lemma {:induction false} CallHasEdge(w: Searchable, mem: seq<uint8>, f: nat, p: nat, d: int, addr: nat)
    requires CallInFunction(w, mem, f, p, d, addr)
    ensures Edge(w.f[f].name, NameAt(w, addr)) in AllEdges(Records(w, mem, |w.f|))
  {
    var k := CallIsSite(w, mem, w.f[f].value, w.f[f].value + w.f[f].size, p, d, addr);
    assert SitesOf(w, mem, f)[k] in SitesOf(w, mem, f);
    var r := RecordOf(w, mem, w.f[f]);
    assert EdgesOf(r.name, r.callees)[k] == Edge(w.f[f].name, NameAt(w, addr));
    EdgesOfFunction(w, mem, f, |w.f|, r, Edge(w.f[f].name, NameAt(w, addr)));
  }

  /** An edge of function f: one of its sites holds the byte e8 and calls the function of that name. */
  ghost predicate EdgeOfSite(w: Searchable, mem: seq<uint8>, e: Edge, f: nat, p: nat) {
    && f < |w.f| && w.f[f].value != 0 && e == Edge(w.f[f].name, NameAt(w, Target(mem, p)))
    && w.f[f].value <= p < w.f[f].value + w.f[f].size && ByteAt(mem, p) == 0xe8 && e.callee != 0xffff_ffff
  }

  lemma {:induction false} EdgeOfRecord(w: Searchable, mem: seq<uint8>, f: nat, e: Edge, es: seq<Edge>)
    returns (p: nat)
    requires f < |w.f| && w.f[f].value != 0 && e in es
    requires es == EdgesOf(w.f[f].name, Scan(w, mem, w.f[f].value, w.f[f].value + w.f[f].size))
    ensures EdgeOfSite(w, mem, e, f, p)
  {
    SitesAreCalls(w, mem, w.f[f].value, w.f[f].value + w.f[f].size);
    var k :| 0 <= k < |es| && es[k] == e;
    p := SitesOf(w, mem, f)[k];
  }

  /** The graph has no other edges. */
  lemma {:induction false} EdgeIsCall(w: Searchable, mem: seq<uint8>, n: nat, e: Edge) returns (f: nat, p: nat)
    requires n <= |w.f| && e in AllEdges(Records(w, mem, n))
    ensures EdgeOfSite(w, mem, e, f, p)
  {
    var s := w.f[n - 1];
    if s.value != 0 {
      var r := RecordOf(w, mem, s);
      var es := EdgesOf(r.name, r.callees);
      LastEdges(Records(w, mem, n - 1), r);
      if e in es {
        p := EdgeOfRecord(w, mem, n - 1, e, es);
        return n - 1, p;
      }
    } else {
      assert Records(w, mem, n - 1) + [] == Records(w, mem, n - 1);
    }
    f, p := EdgeIsCall(w, mem, n - 1, e);
  }

  lemma {:induction false} EncodeAppended(rs: seq<Record>, r: Record)
    ensures Encode(rs + [r]) == Encode(rs) + EncodeRecord(r)
  {
    if rs == [] {
      assert rs + [r] == [r];
      assert Encode([r]) == EncodeRecord(r) + Encode([]);
    } else {
      EncodeAppended(rs[1..], r);
      assert (rs + [r])[1..] == rs[1..] + [r];
      assert EncodeRecord(rs[0]) + (Encode(rs[1..]) + EncodeRecord(r))
             == EncodeRecord(rs[0]) + Encode(rs[1..]) + EncodeRecord(r);
    }
  }

  lemma {:induction false} EncodeStep(w: Searchable, mem: seq<uint8>, k: nat)
    requires k < |w.f|
    ensures Encode(Records(w, mem, k + 1))
            == Encode(Records(w, mem, k)) + if w.f[k].value != 0 then EncodeRecord(RecordOf(w, mem, w.f[k])) else []
  {
    EncodeAppended(Records(w, mem, k), RecordOf(w, mem, w.f[k]));
    assert Records(w, mem, k) + [] == Records(w, mem, k);
  }

  lemma {:induction false} EncodeGrows(w: Searchable, mem: seq<uint8>, n: nat)
    requires n <= |w.f|
    ensures |Encode(Records(w, mem, n))| <= |Encode(Records(w, mem, |w.f|))|
    decreases |w.f| - n
  {
    if n < |w.f| {
      EncodeGrows(w, mem, n + 1);
      EncodeStep(w, mem, n);
    }
  }
}

module CallTable {
  import opened Machine
  import opened CallTableSpec

  /**
   Functions forwards, then the linkage table backwards, up to but not including its first entry.
   Below an empty one the search is given up.
   */
  method FindName(w: Workspace, addr: nat) returns (a: Answer)
    ensures a == Lookup(w, addr)
  {
    var k: nat := 0;
    while k < |w.f|
      invariant k <= |w.f|
      invariant AnyAt(w.f, addr, k) == AnyAt(w.f, addr, 0)
      invariant Forward(w.f, addr, k) == Forward(w.f, addr, 0)
    {
      if IsAt(w.f[k], addr) {
        return Answer.Name(w.f[k].name);
      }
      k := k + 1;
    }
    if w.plt == [] {
      return RunsOff;
    }
    k := |w.plt| - 1;
    while k != 0
      invariant k < |w.plt| && Backward(w.plt, addr, k + 1) == Backward(w.plt, addr, |w.plt|)
    {
      if IsAt(w.plt[k], addr) {
        return Answer.Name(w.plt[k].name);
      }
      k := k - 1;
    }
    a := Answer.Name(NOT_FOUND);
  }

  /** What the table holds up to a place, and nothing behind it. */
  ghost predicate Holds(out: seq<nat>, p: nat, done: seq<nat>) {
    p <= |out| && out[..p] == done && forall i :: p <= i < |out| ==> out[i] == 0
  }

  method PutWord(out: array<nat>, p: nat, v: nat, ghost done: seq<nat>)
    requires p < out.Length && Holds(out[..], p, done)
    modifies out
    ensures Holds(out[..], p + 1, done + [v])
  {
    out[p] := v;
    assert out[..p + 1] == out[..p] + [v];
  }

  /** Skipping words that are zero already. */
  lemma {:induction false} SkipZeros(out: seq<nat>, p: nat, done: seq<nat>, n: nat)
    requires Holds(out, p, done) && p + n <= |out|
    ensures Holds(out, p + n, done + Repeat<nat>(0, n))
  {
    assert out[..p + n] == out[..p] + out[p..p + n];
  }

  /** The callees of one function, from word p on. */
  method ScanInto(w: Searchable, mem: seq<uint8>, begin: nat, end: nat, out: array<nat>, p: nat, ghost done: seq<nat>)
    returns (count: nat)
    requires Holds(out[..], p, done) && p + |Scan(w, mem, begin, end)| <= out.Length
    modifies out
    ensures count == |Scan(w, mem, begin, end)|
    ensures Holds(out[..], p + count, done + Scan(w, mem, begin, end))
  {
    ghost var all := Scan(w, mem, begin, end);
    var ip := begin;
    count := 0;
    assert all[..0] == [] && done + [] == done;
    while ip < end
      invariant count <= |all| && all == all[..count] + Scan(w, mem, ip, end)
      invariant Holds(out[..], p + count, done + all[..count])
      decreases end - ip
    {
      if ByteAt(mem, ip) == NEAR_CALL {
        var found := FindName(w, Target(mem, ip));
        var name := found.name;
        if name != NOT_FOUND {
          NextCallee(all, count, name, Scan(w, mem, ip + 5, end), done);
          PutWord(out, p + count, name, done + all[..count]);
          count, ip := count + 1, ip + 5;
        } else {
          ip := ip + 1;
        }
      } else {
        ip := ip + 1;
      }
    }
    assert all[..count] + [] == all[..count];
  }

  lemma {:induction false} NextCallee(all: seq<nat>, n: nat, name: nat, rest: seq<nat>, done: seq<nat>)
    requires n <= |all| && all == all[..n] + ([name] + rest)
    ensures n < |all| && all[..n + 1] == all[..n] + [name] && all == all[..n + 1] + rest
    ensures done + all[..n + 1] == done + all[..n] + [name]
  {
    assert |all| == n + 1 + |rest|;
    assert all[n] == (all[..n] + ([name] + rest))[n];
    assert all[..n + 1] == all[..n] + [name];
    assert all[..n] + ([name] + rest) == all[..n] + [name] + rest;
  }

  /** The count goes back into the last word of the header. */
  lemma {:induction false} Patched(
    was: seq<nat>, out: seq<nat>, p: nat, q: nat, before: seq<nat>, more: seq<nat>, count: nat)
    requires 0 < p <= q && |before| == p - 1 && Holds(was, q, before + [0] + more) && out == was[p - 1 := count]
    ensures Holds(out, q, before + [count] + more)
  {
    assert out[..q] == was[..q][p - 1 := count];
  }

  /** parse_binary: callees from word p on, padding, and the count in the word before p. */
  method ParseBinary(
    w: Searchable, mem: seq<uint8>, begin: nat, end: nat, out: array<nat>, p: nat, ghost before: seq<nat>)
    returns (q: nat)
    requires p > 0 && p % 4 == 0 && |before| == p - 1 && Holds(out[..], p, before + [0])
    requires var n := |Scan(w, mem, begin, end)|; p + n + Pad(n) <= out.Length
    modifies out
    ensures var names := Scan(w, mem, begin, end);
            q == p + |names| + Pad(|names|) && q % 4 == 0
            && Holds(out[..], q, before + [|names|] + (names + Repeat<nat>(0, Pad(|names|))))
  {
    ghost var names := Scan(w, mem, begin, end);
    var count := ScanInto(w, mem, begin, end, out, p, before + [0]);
    SkipZeros(out[..], p + count, before + [0] + names, Pad(count));
    q := p + count + Pad(count);
    assert before + [0] + names + Repeat<nat>(0, Pad(count)) == before + [0] + (names + Repeat<nat>(0, Pad(count)));
    ghost var was := out[..];
    out[p - 1] := count;
    Patched(was, out[..], p, q, before, names + Repeat<nat>(0, Pad(count)), count);
  }

  /** The header cell of one function and what its code calls. */
  method WriteRecord(
    w: Searchable, mem: seq<uint8>, s: Sym, out: array<nat>, p: nat, ghost done: seq<nat>)
    returns (q: nat)
    requires p % 4 == 0 && Holds(out[..], p, done) && p + |EncodeRecord(RecordOf(w, mem, s))| <= out.Length
    modifies out
    ensures q == p + |EncodeRecord(RecordOf(w, mem, s))| && q % 4 == 0
    ensures Holds(out[..], q, done + EncodeRecord(RecordOf(w, mem, s)))
  {
    var lo, hi := s.value % 0x1_0000_0000, s.value / 0x1_0000_0000;
    PutWord(out, p, lo, done);
    PutWord(out, p + 1, hi, done + [lo]);
    PutWord(out, p + 2, s.name, done + [lo] + [hi]);
    ghost var before := done + [lo] + [hi] + [s.name];
    SkipZeros(out[..], p + 3, before, 1);
    assert Repeat<nat>(0, 1) == [0];
    q := ParseBinary(w, mem, s.value, s.value + s.size, out, p + 4, before);
    RecordWords(done, RecordOf(w, mem, s));
  }

  lemma {:induction false} RecordWords(done: seq<nat>, r: Record)
    ensures done + [r.addr % 0x1_0000_0000] + [r.addr / 0x1_0000_0000] + [r.name] + [|r.callees|]
            + (r.callees + Repeat<nat>(0, Pad(|r.callees|)))
            == done + EncodeRecord(r)
  {
  }

  /** iterate_on_func on a zeroed table with room for all records. */
  method IterateOnFunc(w: Searchable, mem: seq<uint8>, out: array<nat>) returns (p: nat)
    requires forall i :: 0 <= i < out.Length ==> out[i] == 0
    requires |Encode(Records(w, mem, |w.f|))| <= out.Length
    modifies out
    ensures Holds(out[..], p, Encode(Records(w, mem, |w.f|)))
  {
    p := 0;
    var k := 0;
    assert out[..0] == [];
    ghost var done := Encode(Records(w, mem, 0));
    while k < |w.f|
      invariant k <= |w.f| && done == Encode(Records(w, mem, k)) && p == |done|
      invariant Holds(out[..], p, done)
    {
      p, done := EmitFunc(w, mem, k, out, p, done);
      k := k + 1;
    }
  }

  /** The record of function k; one without an address has none. */
  method EmitFunc(w: Searchable, mem: seq<uint8>, k: nat, out: array<nat>, p: nat, ghost done: seq<nat>)
    returns (q: nat, ghost more: seq<nat>)
    requires k < |w.f| && done == Encode(Records(w, mem, k)) && p == |done| && Holds(out[..], p, done)
    requires |Encode(Records(w, mem, |w.f|))| <= out.Length
    modifies out
    ensures more == Encode(Records(w, mem, k + 1)) && q == |more| && Holds(out[..], q, more)
  {
    q, more := p, Encode(Records(w, mem, k + 1));
    EncodeGrows(w, mem, k + 1);
    EncodeStep(w, mem, k);
    if w.f[k].value != 0 {
      q := WriteRecord(w, mem, w.f[k], out, p, done);
    }
  }

  /** emit_call_graph over a table of whole cells. */
  method EmitCallGraph(table: seq<nat>) returns (edges: seq<Edge>)
    ensures edges == Edges(table)
  {
    edges := [];
    var cp := 0;
    ghost var all, s := Edges(table), table;   // s is the table from cp on
    while cp + 4 <= |table|
      invariant cp <= |table| && s == table[cp..] && all == edges + Edges(s)
      decreases |table| - cp
    {
      var name, len := table[cp + 2], table[cp + 3];
      cp := cp + 4;
      if len == 0 {
        ghost var rest := s[4..];
        EmptyCell(all, edges, s, rest);
        s := rest;
      } else {
        var cells := CellWords(len);
        if cp + cells > |table| {
          CutCell(all, edges, s);
          return;
        }
        CellsFit(len);
        ghost var rest := s[4 + cells..];
        var some := EmitEdges(name, table, cp, len, s[4..4 + len]);
        FullCell(all, edges, s, len, cells, some, rest);
        edges, cp, s := edges + some, cp + cells, rest;
      }
    }
    NoCell(all, edges, s);
  }

  lemma {:induction false} CellsFit(n: nat)
    ensures n <= CellWords(n)
  {
  }

  lemma {:induction false} EmptyCell(all: seq<Edge>, edges: seq<Edge>, s: seq<nat>, rest: seq<nat>)
    requires |s| >= 4 && s[3] == 0 && rest == s[4..] && all == edges + Edges(s)
    ensures all == edges + Edges(rest)
  {
  }

  /** A count that runs off the table ends the reading. */
  lemma {:induction false} CutCell(all: seq<Edge>, edges: seq<Edge>, s: seq<nat>)
    requires |s| >= 4 && s[3] != 0 && 4 + CellWords(s[3]) > |s| && all == edges + Edges(s)
    ensures all == edges
  {
  }

  lemma {:induction false} NoCell(all: seq<Edge>, edges: seq<Edge>, s: seq<nat>)
    requires |s| < 4 && all == edges + Edges(s)
    ensures all == edges
  {
  }

  lemma {:induction false} FullCell(
    all: seq<Edge>, edges: seq<Edge>, s: seq<nat>, len: nat, cells: nat, some: seq<Edge>, rest: seq<nat>)
    requires |s| >= 4 && len == s[3] != 0 && cells == CellWords(len) && 4 + len <= 4 + cells <= |s|
    requires some == EdgesOf(s[2], s[4..4 + len]) && rest == s[4 + cells..] && all == edges + Edges(s)
    ensures all == edges + some + Edges(rest)
  {
    assert edges + (some + Edges(rest)) == edges + some + Edges(rest);
  }

  /** The edges of one record. */
  method EmitEdges(name: nat, table: seq<nat>, p: nat, len: nat, ghost callees: seq<nat>) returns (edges: seq<Edge>)
    requires p + len <= |table| && callees == table[p..p + len]
    ensures edges == EdgesOf(name, callees)
  {
    edges := [];
    var k := 0;
    while k < len
      invariant k <= len && edges == EdgesOf(name, table[p..p + k])
    {
      edges := edges + [Edge(name, table[p + k])];
      k := k + 1;
    }
  }

  /** The graph is what the scans found: every function's recognised calls, in order. */
  method CallGraph(w: Searchable, mem: seq<uint8>, out: array<nat>) returns (edges: seq<Edge>)
    requires out.Length % 4 == 0 && forall i :: 0 <= i < out.Length ==> out[i] == 0
    requires |Encode(Records(w, mem, |w.f|))| <= out.Length
    modifies out
    ensures edges == AllEdges(Records(w, mem, |w.f|))
    ensures forall f: nat, p: nat, d: int, addr: nat :: CallInFunction(w, mem, f, p, d, addr) ==>
              Edge(w.f[f].name, NameAt(w, addr)) in edges
    ensures forall e :: e in edges ==> exists f: nat, p: nat :: EdgeOfSite(w, mem, e, f, p)
  {
    var p := IterateOnFunc(w, mem, out);
    edges := EmitCallGraph(out[..]);
    TableDecodes(Records(w, mem, |w.f|), out[p..]);
    assert out[..] == out[..p] + out[p..];
    GraphIsCalls(w, mem, edges);
  }

  lemma {:induction false} GraphIsCalls(w: Searchable, mem: seq<uint8>, edges: seq<Edge>)
    requires edges == AllEdges(Records(w, mem, |w.f|))
    ensures forall f: nat, p: nat, d: int, addr: nat :: CallInFunction(w, mem, f, p, d, addr) ==>
              Edge(w.f[f].name, NameAt(w, addr)) in edges
    ensures forall e :: e in edges ==> exists f: nat, p: nat :: EdgeOfSite(w, mem, e, f, p)
  {
    forall f: nat, p: nat, d: int, addr: nat | CallInFunction(w, mem, f, p, d, addr)
      ensures Edge(w.f[f].name, NameAt(w, addr)) in edges
    {
      CallHasEdge(w, mem, f, p, d, addr);
    }
    forall e | e in edges ensures exists f: nat, p: nat :: EdgeOfSite(w, mem, e, f, p) {
      var f, p := EdgeIsCall(w, mem, |w.f|, e);
    }
  }
}
