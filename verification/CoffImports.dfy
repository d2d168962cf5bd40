/**
 The import side of a PE image: names resolved to PLT slots while relocating, the
 import list grouped by DLL, the byte count kept one import at a time, and the
 import directory written from the list at the end.
 */
module CoffImportSpec {
  import opened Machine

  /** A function name and the DLL that provides it. */
  datatype Import = Import(name: Name, dll: Name)

  /** One entry of the outer list: a DLL with the functions imported from it. */
  datatype Group = Group(dll: Name, names: seq<Name>)

  // ---------- first encounters ----------

  function Names(rs: seq<Import>): (names: seq<Name>)
    ensures |names| == |rs| && forall i :: 0 <= i < |rs| ==> names[i] == rs[i].name
  {
    seq(|rs|, i requires 0 <= i < |rs| => rs[i].name)
  }

  predicate Distinct(names: seq<Name>) {
    forall i, j :: 0 <= i < j < |names| ==> names[i] != names[j]
  }

  /** The imports a run of requests adds, in encounter order; table is what the DLLs provide. */
  function Firsts(table: seq<Import>, reqs: seq<Name>): (rs: seq<Import>)
    ensures Distinct(Names(rs))
    ensures forall r :: r in rs ==> r in table
  {
    if reqs == [] then []
    else
      var rs := Firsts(table, reqs[..|reqs| - 1]);
      Encounter(table, rs, reqs[|reqs| - 1])
  }

  function Encounter(table: seq<Import>, rs: seq<Import>, name: Name): (r: seq<Import>)
    requires Distinct(Names(rs)) && forall r :: r in rs ==> r in table
    ensures Distinct(Names(r)) && forall x :: x in r ==> x in table
    ensures rs <= r
  {
    var i := IndexOf(Names(table), name);
    if i == |table| || IndexOf(Names(rs), name) < |rs| then rs else rs + [table[i]]
  }

  /** Where the slot of import k lies; each takes the six bytes of a stub. */
  function SlotAddress(base: nat, k: nat): nat {
    base + 6 * k
  }

  // ---------- grouping by DLL ----------

  /** The list after one more function of a DLL. */
  function Place(groups: seq<Group>, r: Import): (p: seq<Group>)
    ensures |p| > 0
  {
    if groups == [] then [Group(r.dll, [r.name])]
    else if groups[0].dll == r.dll then [Group(r.dll, groups[0].names + [r.name])] + groups[1..]
    else [groups[0]] + Place(groups[1..], r)
  }

  function Grouped(rs: seq<Import>): seq<Group> {
    if rs == [] then [] else Place(Grouped(rs[..|rs| - 1]), rs[|rs| - 1])
  }

  /** The functions in list order: the order of the thunks and of the stubs. */
  function Flat(groups: seq<Group>): seq<Name> {
    if groups == [] then [] else groups[0].names + Flat(groups[1..])
  }

  /** The functions of one DLL, in encounter order. */
  function NamesOf(rs: seq<Import>, dll: Name): seq<Name> {
    if rs == [] then []
    else NamesOf(rs[..|rs| - 1], dll) + if rs[|rs| - 1].dll == dll then [rs[|rs| - 1].name] else []
  }

  /** The DLLs in the order in which they were first met. */
  function Dlls(rs: seq<Import>): seq<Name> {
    if rs == [] then []
    else
      var ds := Dlls(rs[..|rs| - 1]);
      if rs[|rs| - 1].dll in ds then ds else ds + [rs[|rs| - 1].dll]
  }

  function DllsOf(groups: seq<Group>): (ds: seq<Name>)
    ensures |ds| == |groups| && forall i :: 0 <= i < |ds| ==> ds[i] == groups[i].dll
  {
    seq(|groups|, i requires 0 <= i < |groups| => groups[i].dll)
  }

  /** Where among the groups a DLL stands. */
  function GroupAt(groups: seq<Group>, dll: Name): (k: nat)
    ensures k <= |groups|
    ensures k < |groups| ==> groups[k].dll == dll
    ensures forall j :: 0 <= j < k ==> groups[j].dll != dll
  {
    if groups == [] then 0 else if groups[0].dll == dll then 0 else 1 + GroupAt(groups[1..], dll)
  }

  lemma {:induction false} PlaceAt(groups: seq<Group>, r: Import)
    ensures var k := GroupAt(groups, r.dll);
            Place(groups, r) == if k == |groups| then groups + [Group(r.dll, [r.name])]
                                else groups[k := Group(r.dll, groups[k].names + [r.name])]
  {
    if groups != [] && groups[0].dll != r.dll {
      PlaceAt(groups[1..], r);
      var k := GroupAt(groups[1..], r.dll);
      assert groups == [groups[0]] + groups[1..];
    }
  }

  /** The groups are the DLLs in order of first encounter, each with its functions in encounter order. */
  ghost predicate Stable(groups: seq<Group>, rs: seq<Import>) {
    && DllsOf(groups) == Dlls(rs)
    && (forall i, j :: 0 <= i < j < |groups| ==> groups[i].dll != groups[j].dll)
    && (forall i :: 0 <= i < |groups| ==> groups[i].names != [] && groups[i].names == NamesOf(rs, groups[i].dll))
    && (forall r :: r in rs ==> r.dll in DllsOf(groups))
  }

  /** The list built one import at a time is the stable grouping of the encounters. */
  lemma {:induction false} GroupedIsStable(rs: seq<Import>)
    ensures Stable(Grouped(rs), rs)
  {
    if rs != [] {
      GroupedIsStable(rs[..|rs| - 1]);
      PlaceKeepsStable(Grouped(rs[..|rs| - 1]), rs, rs[|rs| - 1]);
    }
  }

  lemma {:induction false} PlaceKeepsStable(groups: seq<Group>, rs: seq<Import>, r: Import)
    requires rs != [] && r == rs[|rs| - 1] && Stable(groups, rs[..|rs| - 1])
    ensures Stable(Place(groups, r), rs)
  {
    var prefix := rs[..|rs| - 1];
    assert rs == prefix + [r];
    PlaceAt(groups, r);
    if GroupAt(groups, r.dll) == |groups| {
      PlaceNewStable(groups, prefix, rs, r);
    } else {
      PlaceOldStable(groups, prefix, rs, r);
    }
  }

  lemma {:induction false} PlaceNewStable(groups: seq<Group>, prefix: seq<Import>, rs: seq<Import>, r: Import)
    requires rs == prefix + [r] && rs[..|rs| - 1] == prefix && Stable(groups, prefix)
    requires GroupAt(groups, r.dll) == |groups| && Place(groups, r) == groups + [Group(r.dll, [r.name])]
    ensures Stable(Place(groups, r), rs)
  {
    var next := Place(groups, r);
    assert r.dll !in DllsOf(groups);
    assert DllsOf(next) == DllsOf(groups) + [r.dll];
    NoneOf(prefix, r.dll);
  }

  lemma {:induction false} PlaceOldStable(groups: seq<Group>, prefix: seq<Import>, rs: seq<Import>, r: Import)
    requires rs == prefix + [r] && rs[..|rs| - 1] == prefix && Stable(groups, prefix)
    requires var k := GroupAt(groups, r.dll);
             k < |groups| && Place(groups, r) == groups[k := Group(r.dll, groups[k].names + [r.name])]
    ensures Stable(Place(groups, r), rs)
  {
    assert DllsOf(groups)[GroupAt(groups, r.dll)] == r.dll;
    assert DllsOf(Place(groups, r)) == DllsOf(groups);
  }

  lemma {:induction false} NoneOf(rs: seq<Import>, dll: Name)
    requires forall r :: r in rs ==> r.dll != dll
    ensures NamesOf(rs, dll) == []
  {
    if rs != [] { NoneOf(rs[..|rs| - 1], dll); }
  }

  // ---------- stub order ----------

  /** Encounters of one DLL are not interrupted by another. */
  ghost predicate Contiguous(rs: seq<Import>) {
    forall i, j, k :: 0 <= i < j < k < |rs| && rs[i].dll == rs[k].dll ==> rs[j].dll == rs[k].dll
  }

  /** Where among the flat names a new function of a DLL goes. */
  function InsertAt(groups: seq<Group>, dll: Name): (x: nat)
    ensures x <= |Flat(groups)|
  {
    if groups == [] then 0
    else |groups[0].names| + if groups[0].dll == dll then 0 else InsertAt(groups[1..], dll)
  }

  function Insert(f: seq<Name>, x: nat, c: Name): seq<Name>
    requires x <= |f|
  {
    f[..x] + [c] + f[x..]
  }

  lemma {:induction false} PlaceInserts(groups: seq<Group>, r: Import)
    ensures Flat(Place(groups, r)) == Insert(Flat(groups), InsertAt(groups, r.dll), r.name)
  {
    if groups == [] {
      assert Flat(Place(groups, r)) == [r.name] + Flat([]);
    } else {
      var rest := groups[1..];
      assert groups == [groups[0]] + rest;
      if groups[0].dll == r.dll {
        assert ([Group(r.dll, groups[0].names + [r.name])] + rest)[1..] == rest;
      } else {
        PlaceInserts(rest, r);
        assert ([groups[0]] + Place(rest, r))[1..] == Place(rest, r);
        InsertBehind(groups[0].names, Flat(rest), InsertAt(rest, r.dll), r.name);
      }
    }
  }

  lemma {:induction false} InsertBehind(a: seq<Name>, f: seq<Name>, x: nat, c: Name)
    requires x <= |f|
    ensures a + Insert(f, x, c) == Insert(a + f, |a| + x, c)
  {
    assert (a + f)[..|a| + x] == a + f[..x];
    assert (a + f)[|a| + x..] == f[x..];
  }

  lemma {:induction false} InsertIsAppend(f: seq<Name>, n: seq<Name>, x: nat, c: Name)
    requires x <= |f| == |n| && c !in n
    ensures Insert(f, x, c) == n + [c] <==> f == n && x == |f|
  {
    if Insert(f, x, c) == n + [c] {
      assert Insert(f, x, c)[x] == c == (n + [c])[x];
      assert f[..x] == f && f[x..] == [];
      assert (f + [c])[..|f|] == f && (n + [c])[..|n|] == n;
      assert Insert(f, x, c) == f + [c];
    }
    if f == n && x == |f| { assert f[..x] == f && f[x..] == []; }
  }

  lemma {:induction false} EndsOnlyInLast(groups: seq<Group>, dll: Name)
    requires forall i :: 0 <= i < |groups| ==> groups[i].names != []
    ensures InsertAt(groups, dll) == |Flat(groups)| <==> GroupAt(groups, dll) + 1 >= |groups|
  {
    if groups != [] {
      EndsOnlyInLast(groups[1..], dll);
      if |groups| > 1 { assert groups[1..][0].names != []; }
    }
  }

  lemma {:induction false} UninterruptedAt(rs: seq<Import>, i: nat)
    requires Contiguous(rs) && i + 1 < |rs| && rs[i].dll == rs[|rs| - 1].dll
    ensures rs[|rs| - 2].dll == rs[|rs| - 1].dll
  {
  }

  lemma {:induction false} ContiguousStep(p: seq<Import>, r: Import)
    requires Contiguous(p)
    ensures Contiguous(p + [r])
            <==> (p != [] ==> p[|p| - 1].dll == r.dll || forall i :: 0 <= i < |p| ==> p[i].dll != r.dll)
  {
    var rs := p + [r];
    if p != [] && p[|p| - 1].dll != r.dll && Contiguous(rs) {
      forall i | 0 <= i < |p| ensures p[i].dll != r.dll {
        if rs[i].dll == rs[|p|].dll { UninterruptedAt(rs, i); }
      }
    }
  }

  lemma {:induction false} ContiguousPrefix(p: seq<Import>, r: Import)
    requires Contiguous(p + [r])
    ensures Contiguous(p)
  {
    forall i, j, k | 0 <= i < j < k < |p| && p[i].dll == p[k].dll ensures p[j].dll == p[k].dll {
      assert (p + [r])[i] == p[i] && (p + [r])[j] == p[j] && (p + [r])[k] == p[k];
    }
  }

  lemma {:induction false} NamesSplit(p: seq<Import>, r: Import)
    requires Distinct(Names(p + [r]))
    ensures Names(p + [r]) == Names(p) + [r.name] && Distinct(Names(p)) && r.name !in Names(p)
  {
    assert Names(p + [r]) == Names(p) + [r.name];
    forall i | 0 <= i < |p| ensures Names(p)[i] != r.name {
      assert Names(p + [r])[i] != Names(p + [r])[|p|];
    }
    forall i, j | 0 <= i < j < |p| ensures Names(p)[i] != Names(p)[j] {
      assert Names(p + [r])[i] != Names(p + [r])[j];
    }
  }

  /**
   The stubs come in encounter order, so that the slot handed out for a name is the stub
   of that very name, exactly if the encounters are grouped by DLL.
   */
  lemma {:induction false} StubOrderIffContiguous(rs: seq<Import>)
    requires Distinct(Names(rs))
    ensures |Flat(Grouped(rs))| == |rs|
    ensures Flat(Grouped(rs)) == Names(rs) <==> Contiguous(rs)
    ensures rs != [] && Contiguous(rs) ==> Grouped(rs) != [] && Grouped(rs)[|Grouped(rs)| - 1].dll == rs[|rs| - 1].dll
  {
    if rs != [] {
      var p, r := rs[..|rs| - 1], rs[|rs| - 1];
      assert rs == p + [r];
      NamesSplit(p, r);
      StubOrderIffContiguous(p);
      var groups := Grouped(p);
      GroupedIsStable(p);
      PlaceInserts(groups, r);
      InsertIsAppend(Flat(groups), Names(p), InsertAt(groups, r.dll), r.name);
      EndsOnlyInLast(groups, r.dll);
      PlaceAt(groups, r);
      if Contiguous(p) {
        ContiguousStep(p, r);
        LastOrNew(p, groups, r);
      } else if Contiguous(rs) {
        ContiguousPrefix(p, r);
      }
    }
  }

  lemma {:induction false} LastOrNew(p: seq<Import>, groups: seq<Group>, r: Import)
    requires Stable(groups, p)
    requires p == [] ==> groups == []
    requires p != [] ==> groups != [] && groups[|groups| - 1].dll == p[|p| - 1].dll
    ensures GroupAt(groups, r.dll) + 1 >= |groups|
            <==> (p != [] ==> p[|p| - 1].dll == r.dll || forall i :: 0 <= i < |p| ==> p[i].dll != r.dll)
  {
    var k := GroupAt(groups, r.dll);
    if p != [] {
      if k < |groups| {
        DllMet(p, groups, k);
      } else {
        forall i | 0 <= i < |p| ensures p[i].dll != r.dll {
          assert p[i] in p;
          assert p[i].dll in DllsOf(groups);
        }
      }
    }
  }

  lemma {:induction false} DllMet(p: seq<Import>, groups: seq<Group>, k: nat)
    requires Stable(groups, p) && k < |groups|
    ensures exists i :: 0 <= i < |p| && p[i].dll == groups[k].dll
  {
    if forall i :: 0 <= i < |p| ==> p[i].dll != groups[k].dll {
      NoneOf(p, groups[k].dll);
    }
  }

  /** Two DLLs met in turn: the second slot goes to the stub of the third name. */
  lemma {:induction false} InterleavedStubsDiffer(a: Name, b: Name, c: Name, x: Name, y: Name)
    requires x != y && b != c
    ensures var rs := [Import(a, x), Import(b, y), Import(c, x)];
            Flat(Grouped(rs)) == [a, c, b] && Flat(Grouped(rs))[1] != Names(rs)[1]
  {
    var rs := [Import(a, x), Import(b, y), Import(c, x)];
    var one, two := [Group(x, [a])], [Group(x, [a]), Group(y, [b])];
    assert rs[..2][..1][..0] == [];
    assert rs[..2][..1] == [rs[0]] && Grouped(rs[..2][..1]) == one;
    PlaceAt(one, rs[1]);
    assert Grouped(rs[..2]) == two;
    PlaceAt(two, rs[2]);
    assert [a] + [c] == [a, c];
    var groups := [Group(x, [a, c]), Group(y, [b])];
    assert Grouped(rs) == groups;
    assert groups[1..] == [Group(y, [b])] && groups[1..][1..] == [];
    assert Flat(groups) == [a, c] + ([b] + Flat([]));
  }

  // ---------- sizes ----------

  /** n thunks: eight bytes each in a 64-bit image, four in a 32-bit one. */
  function ThunkBytes(wide: bool, n: nat): nat {
    if wide then 8 * n else 4 * n
  }

  /** Thunks of one table: a function each and a zero behind every DLL. */
  function Thunks(groups: seq<Group>): nat {
    if groups == [] then 0 else |groups[0].names| + 1 + Thunks(groups[1..])
  }

  /** Hint, name and terminator of each function. */
  function HintNameBytes(names: seq<Name>): nat {
    if names == [] then 0 else 2 + |names[0]| + 1 + HintNameBytes(names[1..])
  }

  function TextBytes(groups: seq<Group>): nat {
    if groups == [] then 0 else |groups[0].dll| + 1 + HintNameBytes(groups[0].names) + TextBytes(groups[1..])
  }

  /** Descriptors with the empty one behind them, the two thunk tables and the strings. */
  function DirectorySize(groups: seq<Group>, wide: bool): nat {
    20 * (|groups| + 1) + 2 * ThunkBytes(wide, Thunks(groups)) + TextBytes(groups)
  }

  /** What one import adds to the count; the thunks are counted with eight bytes in either format. */
  function Growth(isNew: bool, length: nat, r: Import): nat {
    (if isNew then (if length == 0 then 20 else 0) + 20 + 1 + |r.dll| + 16 else 0) + 16 + 2 + |r.name| + 1
  }

  predicate IsNew(groups: seq<Group>, dll: Name) {
    GroupAt(groups, dll) == |groups|
  }

  /** import_directory_len after the imports rs. */
  function CountedLength(rs: seq<Import>): nat {
    if rs == [] then 0
    else
      var p, r := rs[..|rs| - 1], rs[|rs| - 1];
      CountedLength(p) + Growth(IsNew(Grouped(p), r.dll), CountedLength(p), r)
  }

  lemma {:induction false} HintNameAppended(names: seq<Name>, name: Name)
    ensures HintNameBytes(names + [name]) == HintNameBytes(names) + 2 + |name| + 1
  {
    if names == [] {
      assert HintNameBytes([name]) == 2 + |name| + 1 + HintNameBytes([]);
    } else {
      HintNameAppended(names[1..], name);
      assert (names + [name])[1..] == names[1..] + [name];
    }
  }

  lemma {:induction false} PlaceGrows(groups: seq<Group>, r: Import)
    ensures var p, n := Place(groups, r), if IsNew(groups, r.dll) then 1 else 0;
            |p| == |groups| + n && Thunks(p) == Thunks(groups) + 1 + n
            && TextBytes(p) == TextBytes(groups) + 2 + |r.name| + 1 + n * (|r.dll| + 1)
  {
    if groups == [] {
      NewGroupBytes(r);
    } else if groups[0].dll == r.dll {
      HintNameAppended(groups[0].names, r.name);
      assert Place(groups, r)[1..] == groups[1..];
    } else {
      PlaceGrows(groups[1..], r);
      assert Place(groups, r)[1..] == Place(groups[1..], r);
    }
  }

  lemma {:induction false} NewGroupBytes(r: Import)
    ensures Thunks([Group(r.dll, [r.name])]) == 2
    ensures TextBytes([Group(r.dll, [r.name])]) == |r.dll| + 1 + 2 + |r.name| + 1
  {
    var g := Group(r.dll, [r.name]);
    assert Thunks([g]) == |g.names| + 1 + Thunks([]);
    assert HintNameBytes([r.name]) == 2 + |r.name| + 1 + HintNameBytes([]);
    assert TextBytes([g]) == |r.dll| + 1 + HintNameBytes([r.name]) + TextBytes([]);
  }

  /**
   The count kept one import at a time is the size of the directory in a 64-bit image; in a
   32-bit image it is too large by eight bytes for every pair of thunks.
   */
  lemma {:induction false} CountIsSize(rs: seq<Import>)
    requires rs != []
    ensures CountedLength(rs) == DirectorySize(Grouped(rs), true)
    ensures CountedLength(rs) == DirectorySize(Grouped(rs), false) + 8 * Thunks(Grouped(rs))
  {
    var p, r := rs[..|rs| - 1], rs[|rs| - 1];
    PlaceGrows(Grouped(p), r);
    if p == [] {
      assert IsNew(Grouped(p), r.dll) && Thunks(Grouped(p)) == 0 && TextBytes(Grouped(p)) == 0;
    } else {
      CountIsSize(p);
    }
  }

  // ---------- what a run answers ----------

  /** The address put for a name once rs have been imported; 0 while it has none. */
  function Ever(base: nat, rs: seq<Import>, name: Name): nat {
    var k := IndexOf(Names(rs), name);
    if k < |rs| then SlotAddress(base, k) else 0
  }

  lemma {:induction false} IndexOfPrefix(a: seq<Name>, b: seq<Name>, name: Name)
    requires a <= b && IndexOf(a, name) < |a|
    ensures IndexOf(b, name) == IndexOf(a, name)
  {
    if a[0] != name { IndexOfPrefix(a[1..], b[1..], name); }
  }

  /** A name keeps its slot while more imports come. */
  lemma {:induction false} EverStays(base: nat, rs: seq<Import>, more: seq<Import>, name: Name)
    requires rs <= more && IndexOf(Names(rs), name) < |rs|
    ensures Ever(base, more, name) == Ever(base, rs, name)
  {
    assert Names(rs) <= Names(more);
    IndexOfPrefix(Names(rs), Names(more), name);
  }

  /** A new import takes the next slot and leaves the others. */
  lemma {:induction false} EverAppended(base: nat, rs: seq<Import>, r: Import, name: Name)
    requires IndexOf(Names(rs), r.name) == |rs|
    ensures Ever(base, rs + [r], name) == if name == r.name then SlotAddress(base, |rs|) else Ever(base, rs, name)
  {
    assert Names(rs + [r]) == Names(rs) + [r.name];
    if IndexOf(Names(rs), name) < |rs| {
      IndexOfPrefix(Names(rs), Names(rs) + [r.name], name);
    } else {
      forall j | 0 <= j < |rs| ensures Names(rs)[j] != name {}
      AppendedLast(Names(rs), r.name, name);
    }
  }

  lemma {:induction false} NotYet(base: nat, rs: seq<Import>, name: Name)
    requires base > 0
    ensures Ever(base, rs, name) == 0 <==> IndexOf(Names(rs), name) == |rs|
  {
  }

  lemma {:induction false} AppendedLast(names: seq<Name>, last: Name, name: Name)
    requires forall j :: 0 <= j < |names| ==> names[j] != name
    ensures IndexOf(names + [last], name) == if name == last then |names| else |names| + 1
  {
    var all := names + [last];
    var k := IndexOf(all, name);
    if name == last { assert all[|names|] == name; }
    assert forall j :: 0 <= j < |names| ==> all[j] == names[j];
  }

  /** The answer to a request; None where no DLL provides the name. */
  function AnswerAfter(table: seq<Import>, base: nat, rs: seq<Import>, name: Name): Option<nat> {
    if IndexOf(Names(table), name) == |table| then None else Some(Ever(base, rs, name))
  }

  /** The answers of a run of requests. */
  function Answers(table: seq<Import>, base: nat, reqs: seq<Name>): seq<Option<nat>> {
    if reqs == [] then []
    else Answers(table, base, reqs[..|reqs| - 1]) + [AnswerAfter(table, base, Firsts(table, reqs), reqs[|reqs| - 1])]
  }

  /** Every request is answered with the slot its name has at the end of the run. */
  lemma {:induction false} AnswersAreFinal(table: seq<Import>, base: nat, reqs: seq<Name>)
    ensures |Answers(table, base, reqs)| == |reqs|
    ensures forall i :: 0 <= i < |reqs| ==>
              Answers(table, base, reqs)[i] == AnswerAfter(table, base, Firsts(table, reqs), reqs[i])
  {
    if reqs != [] {
      var p := reqs[..|reqs| - 1];
      AnswersAreFinal(table, base, p);
      forall i | 0 <= i < |p|
        ensures AnswerAfter(table, base, Firsts(table, p), p[i]) == AnswerAfter(table, base, Firsts(table, reqs), p[i])
      {
        AnswerStays(table, base, p, reqs, i);
      }
    }
  }

  lemma {:induction false} AnswerStays(table: seq<Import>, base: nat, p: seq<Name>, reqs: seq<Name>, i: nat)
    requires reqs != [] && p == reqs[..|reqs| - 1] && i < |p|
    ensures AnswerAfter(table, base, Firsts(table, p), p[i]) == AnswerAfter(table, base, Firsts(table, reqs), p[i])
  {
    if IndexOf(Names(table), p[i]) < |table| {
      AllEncountered(table, p, i);
      EverStays(base, Firsts(table, p), Firsts(table, reqs), p[i]);
    }
  }

  lemma {:induction false} AllEncountered(table: seq<Import>, reqs: seq<Name>, i: nat)
    requires i < |reqs| && IndexOf(Names(table), reqs[i]) < |table|
    ensures IndexOf(Names(Firsts(table, reqs)), reqs[i]) < |Firsts(table, reqs)|
  {
    var p := reqs[..|reqs| - 1];
    if i == |p| {
      Encountered(table, Firsts(table, p), reqs[i]);
    } else {
      AllEncountered(table, p, i);
      assert Names(Firsts(table, p)) <= Names(Firsts(table, reqs));
      IndexOfPrefix(Names(Firsts(table, p)), Names(Firsts(table, reqs)), reqs[i]);
    }
  }

  lemma {:induction false} Encountered(table: seq<Import>, rs: seq<Import>, name: Name)
    requires Distinct(Names(rs)) && (forall r :: r in rs ==> r in table) && IndexOf(Names(table), name) < |table|
    ensures IndexOf(Names(Encounter(table, rs, name)), name) < |Encounter(table, rs, name)|
  {
    var next := Encounter(table, rs, name);
    if IndexOf(Names(rs), name) == |rs| {
      assert Names(next)[|rs|] == name;
    }
  }
}

module CoffImports {
  import opened Machine
  import opened Hashes
  import opened CoffImportSpec

  const BUCKETS: nat := 10

  /** A name some DLL provides; ever is the slot handed out for it, 0 before the first use. */
  class Candidate {
    const name: Name
    const dll: Name
    var ever: nat

    constructor (name: Name, dll: Name)
      ensures this.name == name && this.dll == dll && ever == 0
    {
      this.name, this.dll, ever := name, dll, 0;
    }
  }

  function TableOf(symbols: seq<Candidate>): (t: seq<Import>)
    ensures |t| == |symbols|
    ensures forall i :: 0 <= i < |t| ==> t[i] == Import(symbols[i].name, symbols[i].dll)
  {
    seq(|symbols|, i requires 0 <= i < |symbols| => Import(symbols[i].name, symbols[i].dll))
  }

  /** The places of the names that hash to bucket b, oldest first. */
  function InBucket(names: seq<Name>, b: nat): seq<nat> {
    if names == [] then []
    else InBucket(names[..|names| - 1], b)
         + if ElfHash(names[|names| - 1]) % 10 == b then [|names| - 1] else []
  }

  lemma {:induction false} InBucketAppended(names: seq<Name>, name: Name, b: nat)
    ensures InBucket(names + [name], b) == InBucket(names, b) + if ElfHash(name) % 10 == b then [|names|] else []
  {
    assert (names + [name])[..|names|] == names;
  }

  /** A bucket holds exactly the places of its names. */
  lemma {:induction false} BucketMembers(names: seq<Name>, b: nat)
    ensures forall i: nat :: i in InBucket(names, b) <==> i < |names| && ElfHash(names[i]) % 10 == b
  {
    if names != [] {
      var p, n := names[..|names| - 1], |names| - 1;
      BucketMembers(p, b);
      forall i: nat ensures i in InBucket(names, b) <==> i < |names| && ElfHash(names[i]) % 10 == b {
        assert i < n ==> p[i] == names[i];
      }
    }
  }

  /** In order. */
  lemma {:induction false} BucketSorted(names: seq<Name>, b: nat)
    ensures forall j, k :: 0 <= j < k < |InBucket(names, b)| ==> InBucket(names, b)[j] < InBucket(names, b)[k]
    ensures forall j :: 0 <= j < |InBucket(names, b)| ==> InBucket(names, b)[j] < |names|
  {
    if names != [] { BucketSorted(names[..|names| - 1], b); }
  }

  /** What a search of the whole list gives, told by its place. */
  lemma {:induction false} PlaceOf(names: seq<Name>, name: Name, i: nat)
    requires i <= |names| && (i < |names| ==> names[i] == name) && forall j :: 0 <= j < i ==> names[j] != name
    ensures IndexOf(names, name) == i
  {
  }

  /** The first match in a bucket is the first in the list; without one the list has none. */
  lemma {:induction false} BucketFinds(names: seq<Name>, name: Name, k: nat)
    requires var c := InBucket(names, ElfHash(name) % 10);
             k <= |c| && (forall j :: 0 <= j < |c| ==> c[j] < |names|)
             && (forall j :: 0 <= j < k ==> names[c[j]] != name) && (k < |c| ==> names[c[k]] == name)
    ensures var c := InBucket(names, ElfHash(name) % 10);
            IndexOf(names, name) == if k < |c| then c[k] else |names|
  {
    var c := InBucket(names, ElfHash(name) % 10);
    BucketMembers(names, ElfHash(name) % 10);
    BucketSorted(names, ElfHash(name) % 10);
    var i := if k < |c| then c[k] else |names|;
    forall j: nat | j < i ensures names[j] != name {
      if j in c {
        var m :| 0 <= m < |c| && c[m] == j;
        assert m < k;
      }
    }
    PlaceOf(names, name, i);
  }

  /** alloc_dynamic_symbol for every name of a DLL, one behind the other. */
  method Register(symbols: seq<Candidate>) returns (buckets: seq<seq<nat>>)
    ensures |buckets| == BUCKETS
    ensures forall b :: 0 <= b < BUCKETS ==> buckets[b] == InBucket(Names(TableOf(symbols)), b)
  {
    ghost var names := Names(TableOf(symbols));
    buckets := seq(BUCKETS, _ => []);
    var i := 0;
    while i < |symbols|
      invariant i <= |symbols| && |buckets| == BUCKETS
      invariant forall b :: 0 <= b < BUCKETS ==> buckets[b] == InBucket(names[..i], b)
    {
      var h := ComputeElfHash(symbols[i].name);
      assert names[..i + 1] == names[..i] + [symbols[i].name];
      forall b | 0 <= b < BUCKETS
        ensures InBucket(names[..i + 1], b) == InBucket(names[..i], b) + if h % 10 == b then [i] else []
      {
        InBucketAppended(names[..i], symbols[i].name, b);
      }
      buckets := buckets[h % 10 := buckets[h % 10] + [i]];
      i := i + 1;
    }
    assert names[..i] == names;
  }

  lemma {:induction false} FirstsAppended(table: seq<Import>, rs: seq<Import>, r: Import)
    requires Distinct(Names(rs)) && (forall x :: x in rs ==> x in table) && r in table
    requires IndexOf(Names(rs), r.name) == |rs|
    ensures Distinct(Names(rs + [r])) && forall x :: x in rs + [r] ==> x in table
    ensures Grouped(rs + [r]) == Place(Grouped(rs), r)
    ensures CountedLength(rs + [r]) == CountedLength(rs) + Growth(IsNew(Grouped(rs), r.dll), CountedLength(rs), r)
  {
    assert (rs + [r])[..|rs|] == rs;
    assert Names(rs + [r]) == Names(rs) + [r.name];
  }

  lemma {:induction false} EverAll(symbols: seq<Candidate>, base: nat, rs: seq<Import>, i: nat)
    requires Distinct(Names(TableOf(symbols))) && i < |symbols|
    requires IndexOf(Names(rs), symbols[i].name) == |rs|
    ensures forall j :: 0 <= j < |symbols| ==>
              Ever(base, rs + [TableOf(symbols)[i]], symbols[j].name)
              == if j == i then SlotAddress(base, |rs|) else Ever(base, rs, symbols[j].name)
  {
    forall j | 0 <= j < |symbols|
      ensures Ever(base, rs + [TableOf(symbols)[i]], symbols[j].name)
              == if j == i then SlotAddress(base, |rs|) else Ever(base, rs, symbols[j].name)
    {
      EverAppended(base, rs, TableOf(symbols)[i], symbols[j].name);
      assert Names(TableOf(symbols))[j] == symbols[j].name && Names(TableOf(symbols))[i] == symbols[i].name;
    }
  }

  /** The link state that resolving external symbols advances. */
  class Importer {
    const symbols: seq<Candidate>
    const buckets: seq<seq<nat>>      // DLLHashTable: places in symbols
    var pltOffset: nat
    var directoryLen: nat
    var imports: seq<Group>
    ghost const base: nat
    ghost var firsts: seq<Import>

    /** Every candidate remembers the slot its name has among the imports rs. */
    ghost predicate Remembered(rs: seq<Import>)
      reads symbols
    {
      forall i :: 0 <= i < |symbols| ==> symbols[i].ever == Ever(base, rs, symbols[i].name)
    }

    /** The imports rs are candidates, each once. */
    ghost predicate Drawn(rs: seq<Import>) {
      base > 0 && Distinct(Names(TableOf(symbols))) && Distinct(Names(rs))
          && forall r :: r in rs ==> r in TableOf(symbols)
    }

    /** Slot cursor, list and count are those of the imports rs. */
    ghost predicate Counted(rs: seq<Import>)
      reads this
    {
      pltOffset == SlotAddress(base, |rs|) && imports == Grouped(rs) && directoryLen == CountedLength(rs)
    }

    /** The hash table holds the candidates. */
    ghost predicate Bucketed() {
      |buckets| == BUCKETS && forall b :: 0 <= b < BUCKETS ==> buckets[b] == InBucket(Names(TableOf(symbols)), b)
    }

    ghost predicate Valid()
      reads this, symbols
    {
      Bucketed() && Drawn(firsts) && Counted(firsts) && Remembered(firsts)
    }

    /** symbols are the names the DLLs provide, each once, none of them used yet. */
    constructor (symbols: seq<Candidate>, base: nat)
      requires base > 0 && Distinct(Names(TableOf(symbols)))
      requires forall s :: s in symbols ==> s.ever == 0
      ensures Valid() && this.symbols == symbols && this.base == base && firsts == []
    {
      var table := Register(symbols);
      this.symbols, this.base, this.buckets := symbols, base, table;
      pltOffset, directoryLen, imports := base, 0, [];
      firsts := [];
    }

    /** lookup_dynamic_symbol, without the slot memo: the walk over one bucket. */
    method Find(name: Name) returns (i: nat)
      requires Bucketed()
      ensures i == IndexOf(Names(TableOf(symbols)), name)
    {
      ghost var names := Names(TableOf(symbols));
      var h := ComputeElfHash(name);
      var chain := buckets[h % 10];
      BucketSorted(names, h % 10);
      var k := 0;
      while k < |chain| && symbols[chain[k]].name != name
        invariant k <= |chain| && forall j :: 0 <= j < k ==> names[chain[j]] != name
      {
        k := k + 1;
      }
      BucketFinds(names, name, k);
      i := if k < |chain| then chain[k] else |symbols|;
    }

    /** add_dynamic_resolved_entry. */
    method AddResolved(r: Import) returns (isNew: bool)
      requires Stable(imports, firsts)
      modifies this`imports
      ensures imports == Place(old(imports), r) && isNew == IsNew(old(imports), r.dll)
    {
      PlaceAt(imports, r);
      var e: nat, found: nat := 0, |imports|;
      while e < |imports|
        invariant e <= |imports|
        invariant found == |imports| || (found < e && imports[found].dll == r.dll)
        invariant found == |imports| ==> forall j :: 0 <= j < e ==> imports[j].dll != r.dll
      {
        if imports[e].dll == r.dll {
          found := e;
        }
        e := e + 1;
      }
      isNew := found == |imports|;
      if isNew {
        imports := imports + [Group(r.dll, [r.name])];
      } else {
        imports := imports[found := Group(r.dll, imports[found].names + [r.name])];
      }
    }

    /** The memo of a name met for the first time. */
    method Remember(i: nat, ghost next: seq<Import>)
      requires i < |symbols| && Drawn(firsts) && Remembered(firsts) && pltOffset == SlotAddress(base, |firsts|)
      requires symbols[i].ever == 0 && next == firsts + [TableOf(symbols)[i]]
      modifies symbols[i]
      ensures Remembered(next)
    {
      NotYet(base, firsts, symbols[i].name);
      EverAll(symbols, base, firsts, i);
      symbols[i].ever := pltOffset;
    }

    /** The next slot, one more entry in the list, more bytes. */
    method Count(r: Import, ghost next: seq<Import>)
      requires Counted(firsts) && next == firsts + [r] && Grouped(next) == Place(Grouped(firsts), r)
      requires CountedLength(next)
               == CountedLength(firsts) + Growth(IsNew(Grouped(firsts), r.dll), CountedLength(firsts), r)
      modifies this`pltOffset, this`imports, this`directoryLen
      ensures Counted(next)
    {
      pltOffset := pltOffset + 6;
      GroupedIsStable(firsts);
      var isNew := AddResolved(r);
      directoryLen := directoryLen + Growth(isNew, directoryLen, r);
    }

    /** A name met for the first time gets the slot the cursor stands on. */
    method AddFirst(i: nat) returns (dst: nat)
      requires Valid() && i < |symbols| && symbols[i].ever == 0
      modifies this, symbols[i]
      ensures Valid() && firsts == old(firsts) + [TableOf(symbols)[i]]
      ensures dst == Ever(base, firsts, symbols[i].name)
    {
      ghost var r := TableOf(symbols)[i];
      ghost var next := firsts + [r];
      NotYet(base, firsts, symbols[i].name);
      FirstsAppended(TableOf(symbols), firsts, r);
      dst := pltOffset;
      Remember(i, next);
      Count(Import(symbols[i].name, symbols[i].dll), next);
      firsts := next;
      assert symbols[i].ever == Ever(base, next, symbols[i].name);
    }

    /** __coff_resolve for an external name that no object defines. */
    method Resolve(name: Name) returns (dst: Option<nat>)
      requires Valid()
      modifies this, symbols
      ensures Valid() && firsts == Encounter(TableOf(symbols), old(firsts), name)
      ensures dst == AnswerAfter(TableOf(symbols), base, firsts, name)
    {
      var i := Find(name);
      if i == |symbols| {
        return None;
      }
      if symbols[i].ever != 0 {
        return Some(symbols[i].ever);
      }
      NotYet(base, firsts, name);
      var at := AddFirst(i);
      dst := Some(at);
    }
  }
}
