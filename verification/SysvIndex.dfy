/**
 The DT_HASH table: a word array holding nbucket, nchain, the buckets and one
 threaded array of chains, kept in step with the plain list of insertions.
 Index 0 is both "no entry" and "end of chain".
 */
module SysvSpec {
  import opened Machine
  import opened LittleEndian
  import opened Hashes

  datatype Entry = Entry(name: Name, index: nat)

  function Bucket(name: Name, nb: nat): (b: nat)
    requires nb > 0
    ensures b < nb
  {
    SysvState(name) % 0x1000_0000 % nb
  }

  /** What an insertion adds to the chain of bucket b; index 0 is never stored. */
  function Link(e: Entry, nb: nat, b: nat): seq<nat>
    requires nb > 0
  {
    if Bucket(e.name, nb) == b && e.index != 0 then [e.index] else []
  }

  /** The indices that hash to bucket b, in insertion order. */
  function ChainOf(log: seq<Entry>, nb: nat, b: nat): seq<nat>
    requires nb > 0
  {
    if log == [] then [] else ChainOf(log[..|log| - 1], nb, b) + Link(log[|log| - 1], nb, b)
  }

  /** The answer a linear search of the list gives: the first index stored under the name, 0 if there is none. */
  function FirstIndex(log: seq<Entry>, name: Name): nat {
    if log == [] then 0
    else if log[0].name == name && log[0].index != 0 then log[0].index
    else FirstIndex(log[1..], name)
  }

  lemma {:induction false} FirstIndexZeroIffAbsent(log: seq<Entry>, name: Name)
    ensures FirstIndex(log, name) == 0 <==> forall e :: e in log && e.name == name ==> e.index == 0
  {
    if log != [] {
      FirstIndexZeroIffAbsent(log[1..], name);
      assert log == [log[0]] + log[1..];
    }
  }

  /** No index but 0 is inserted twice. */
  ghost predicate Distinct(log: seq<Entry>) {
    forall i, j :: 0 <= i < j < |log| && log[i].index != 0 ==> log[i].index != log[j].index
  }

  function Cell(tab: seq<nat>, nb: nat, i: nat): nat
    requires 2 + nb + i < |tab|
  {
    tab[2 + nb + i]
  }

  /** The word of the k-th index holds the next one, or 0 at the end. */
  ghost predicate Follows(tab: seq<nat>, nb: nat, chain: seq<nat>, k: nat)
    requires k < |chain|
  {
    && chain[k] != 0 && 2 + nb + chain[k] < |tab|
    && Cell(tab, nb, chain[k]) == if k + 1 < |chain| then chain[k + 1] else 0
  }

  /** Bucket word and chain words thread exactly the given list, ending at 0. */
  ghost predicate Threads(tab: seq<nat>, nb: nat, b: nat, chain: seq<nat>)
    requires b < nb && 2 + nb <= |tab|
  {
    && tab[2 + b] == (if chain == [] then 0 else chain[0])
    && forall k :: 0 <= k < |chain| ==> Follows(tab, nb, chain, k)
  }

  /** The table represents the list of insertions. */
  ghost predicate Represents(tab: seq<nat>, log: seq<Entry>) {
    && |tab| >= 2 && tab[0] > 0 && 2 + tab[0] < |tab|
    && Distinct(log)
    && (forall b :: 0 <= b < tab[0] ==> Threads(tab, tab[0], b, ChainOf(log, tab[0], b)))
    && (forall i :: 0 < i < |tab| - 2 - tab[0] && (forall e :: e in log ==> e.index != i) ==> Cell(tab, tab[0], i) == 0)
  }

  // ---------- chains are disjoint and acyclic ----------

  lemma {:induction false} ChainMembers(log: seq<Entry>, nb: nat, b: nat, i: nat)
    requires nb > 0
    ensures i in ChainOf(log, nb, b) <==> exists e :: e in log && e.index == i && i != 0 && Bucket(e.name, nb) == b
  {
    if log != [] {
      var pre, last := log[..|log| - 1], log[|log| - 1];
      ChainMembers(pre, nb, b, i);
      assert log == pre + [last];
      if e :| e in log && e.index == i && i != 0 && Bucket(e.name, nb) == b {
        assert e in pre || e == last;
      }
    }
  }

  /** Within one bucket no index repeats, so a chain of the table has no cycle. */
  lemma {:induction false} ChainAcyclic(log: seq<Entry>, nb: nat, b: nat)
    requires nb > 0 && Distinct(log)
    ensures forall j, k :: 0 <= j < k < |ChainOf(log, nb, b)| ==> ChainOf(log, nb, b)[j] != ChainOf(log, nb, b)[k]
  {
    if log != [] {
      var pre, last := log[..|log| - 1], log[|log| - 1];
      ChainAcyclic(pre, nb, b);
      ChainMembers(pre, nb, b, last.index);
    }
  }

  lemma {:induction false} ChainsDisjoint(log: seq<Entry>, nb: nat, b: nat, c: nat, i: nat)
    requires nb > 0 && Distinct(log) && b != c
    ensures !(i in ChainOf(log, nb, b) && i in ChainOf(log, nb, c))
  {
    ChainMembers(log, nb, b, i);
    ChainMembers(log, nb, c, i);
  }

  // ---------- searching a chain is searching the list ----------

  /** What the lookup loop computes on a chain. */
  function FirstNamed(chain: seq<nat>, names: seq<Name>, name: Name): nat
  {
    if chain == [] then 0 else if chain[0] < |names| && names[chain[0]] == name then chain[0]
        else FirstNamed(chain[1..], names, name)
  }

  /** The string table agrees with the list of insertions. */
  ghost predicate Named(log: seq<Entry>, names: seq<Name>) {
    forall e :: e in log && e.index != 0 ==> e.index < |names| && names[e.index] == e.name
  }

  /** Entry i of the table of name addresses at offset n of a directory at address va. */
  ghost predicate NameReads(d: seq<uint8>, va: nat, n: nat, i: nat, name: Name) {
    n + 4 * i + 4 <= |d| && LeAt(d, n + 4 * i, 4) >= va && CString(d, LeAt(d, n + 4 * i, 4) - va) == name
  }

  ghost predicate NamesRead(d: seq<uint8>, va: nat, n: nat, names: seq<Name>) {
    forall i :: 0 <= i < |names| ==> NameReads(d, va, n, i, names[i])
  }

  lemma {:induction false} ChainIsNamed(log: seq<Entry>, nb: nat, b: nat, names: seq<Name>)
    requires nb > 0 && Named(log, names)
    ensures forall i :: i in ChainOf(log, nb, b) ==> i != 0 && i < |names|
  {
    forall i | i in ChainOf(log, nb, b) ensures i != 0 && i < |names| { ChainMembers(log, nb, b, i); }
  }

  lemma {:induction false} SearchStep(chain: seq<nat>, k: nat, names: seq<Name>, name: Name)
    requires k < |chain| && chain[k] < |names|
    ensures FirstNamed(chain[k..], names, name)
            == if names[chain[k]] == name then chain[k] else FirstNamed(chain[k + 1..], names, name)
  {
    assert chain[k..][1..] == chain[k + 1..];
  }

  lemma {:induction false} ChainOfLast(log: seq<Entry>, pre: seq<Entry>, e: Entry, nb: nat, b: nat)
    requires nb > 0 && log == pre + [e]
    ensures ChainOf(log, nb, b) == ChainOf(pre, nb, b) + Link(e, nb, b)
  {
    assert log[..|log| - 1] == pre;
  }

  lemma {:induction false} Regroup(a: seq<nat>, b: seq<nat>, c: seq<nat>)
    ensures (a + b) + c == a + (b + c)
  {
  }

  lemma {:induction false} ChainFront(e: Entry, log: seq<Entry>, nb: nat, b: nat)
    requires nb > 0
    ensures ChainOf([e] + log, nb, b) == Link(e, nb, b) + ChainOf(log, nb, b)
  {
    if log == [] {
      ChainOfLast([e] + log, [], e, nb, b);
      assert [] + Link(e, nb, b) == Link(e, nb, b) + [];
    } else {
      var pre, last := log[..|log| - 1], log[|log| - 1];
      ChainFront(e, pre, nb, b);
      ChainOfLast(log, pre, last, nb, b);
      ChainOfLast([e] + log, [e] + pre, last, nb, b);
      Regroup(Link(e, nb, b), ChainOf(pre, nb, b), Link(last, nb, b));
    }
  }

  lemma {:induction false} ChainSearchIsListSearch(log: seq<Entry>, nb: nat, names: seq<Name>, name: Name)
    requires nb > 0 && Named(log, names)
    ensures FirstNamed(ChainOf(log, nb, Bucket(name, nb)), names, name) == FirstIndex(log, name)
  {
    if log != [] {
      var e, tail, b := log[0], log[1..], Bucket(name, nb);
      assert log == [e] + tail;
      ChainSearchIsListSearch(tail, nb, names, name);
      ChainFront(e, tail, nb, b);
      FirstNamedFront(e, ChainOf(tail, nb, b), nb, names, name);
    }
  }

  lemma {:induction false} FirstNamedFront(e: Entry, rest: seq<nat>, nb: nat, names: seq<Name>, name: Name)
    requires nb > 0 && (e.index != 0 ==> e.index < |names| && names[e.index] == e.name)
    ensures var front := if Bucket(e.name, nb) == Bucket(name, nb) && e.index != 0 then [e.index] else [];
            FirstNamed(front + rest, names, name)
            == if e.name == name && e.index != 0 then e.index else FirstNamed(rest, names, name)
  {
    if Bucket(e.name, nb) == Bucket(name, nb) && e.index != 0 {
      assert ([e.index] + rest)[1..] == rest;
    } else {
      assert [] + rest == rest;
    }
  }

  // ---------- the export table numbers its names from 0 ----------

  /** add_export inserts its i-th name under index i. */
  function ExportLog(names: seq<Name>): (log: seq<Entry>)
    ensures |log| == |names|
  {
    seq(|names|, i requires 0 <= i < |names| => Entry(names[i], i))
  }

  lemma {:induction false} FirstIndexFrom(log: seq<Entry>, name: Name, k: nat)
    requires k < |log| && log[k].name == name && log[k].index != 0
    requires forall i :: 0 <= i < k ==> log[i].name != name || log[i].index == 0
    ensures FirstIndex(log, name) == log[k].index
  {
    if k > 0 {
      assert log[1..][k - 1] == log[k] && (log[0].name != name || log[0].index == 0);
      forall i | 0 <= i < k - 1 ensures log[1..][i].name != name || log[1..][i].index == 0 {
        assert log[1..][i] == log[i + 1];
      }
      FirstIndexFrom(log[1..], name, k - 1);
    }
  }

  /**
   An exported name is found, at its first position other than 0, exactly when it
   has such a position: the export numbered 0 on its own is invisible.
   */
  lemma {:induction false} ExportFoundIffNotFirst(names: seq<Name>, name: Name)
    ensures FirstIndex(ExportLog(names), name) != 0 <==> exists i :: 1 <= i < |names| && names[i] == name
    ensures forall i :: 1 <= i < |names| && names[i] == name && (forall j :: 1 <= j < i ==> names[j] != name)
              ==> FirstIndex(ExportLog(names), name) == i
  {
    var log := ExportLog(names);
    FirstIndexZeroIffAbsent(log, name);
    if FirstIndex(log, name) != 0 {
      var e :| e in log && e.name == name && e.index != 0;
      assert names[e.index] == name;
    }
    if i :| 1 <= i < |names| && names[i] == name {
      assert log[i] in log && log[i].index == i;
    }
    forall i | 1 <= i < |names| && names[i] == name && (forall j :: 1 <= j < i ==> names[j] != name)
      ensures FirstIndex(log, name) == i
    {
      FirstIndexFrom(log, name, i);
    }
  }

  /** Of two exports, "f" and "g", only the second is found. */
  lemma {:induction false} FirstExportNotFound()
    ensures FirstIndex(ExportLog([[0x66], [0x67]]), [0x66]) == 0
    ensures FirstIndex(ExportLog([[0x66], [0x67]]), [0x67]) == 1
  {
    var names: seq<Name> := [[0x66], [0x67]];
    ExportFoundIffNotFirst(names, [0x66]);
    ExportFoundIffNotFirst(names, [0x67]);
  }

  // ---------- one insertion ----------

  /** Appending index i to the chain it hashes to: one word is written, at the chain's end. */
  function Appended(tab: seq<nat>, nb: nat, b: nat, chain: seq<nat>, i: nat): (r: seq<nat>)
    requires b < nb && 2 + nb <= |tab| && (chain == [] || 2 + nb + chain[|chain| - 1] < |tab|)
    ensures |r| == |tab|
  {
    if chain == [] then tab[2 + b := i] else tab[2 + nb + chain[|chain| - 1] := i]
  }

  lemma {:induction false} AppendThreads(tab: seq<nat>, nb: nat, b: nat, chain: seq<nat>, i: nat)
    requires b < nb && 2 + nb <= |tab| && Threads(tab, nb, b, chain)
    requires i != 0 && 2 + nb + i < |tab| && Cell(tab, nb, i) == 0
    requires forall j, k :: 0 <= j < k < |chain| ==> chain[j] != chain[k]
    requires i !in chain
    ensures chain == [] || 2 + nb + chain[|chain| - 1] < |tab|
    ensures Threads(Appended(tab, nb, b, chain, i), nb, b, chain + [i])
  {
    if chain != [] { assert Follows(tab, nb, chain, |chain| - 1); }
    var r := Appended(tab, nb, b, chain, i);
    forall k | 0 <= k < |chain| + 1 ensures Follows(r, nb, chain + [i], k) {
      assert k < |chain| ==> Follows(tab, nb, chain, k);
    }
  }

  lemma {:induction false} AppendKeepsOthers(
    tab: seq<nat>, nb: nat, b: nat, chain: seq<nat>, i: nat, c: nat, other: seq<nat>)
    requires b < nb && c < nb && b != c && 2 + nb <= |tab|
    requires Threads(tab, nb, b, chain) && Threads(tab, nb, c, other)
    requires forall j :: j in chain ==> j !in other
    ensures chain == [] || 2 + nb + chain[|chain| - 1] < |tab|
    ensures Threads(Appended(tab, nb, b, chain, i), nb, c, other)
  {
    if chain != [] {
      assert Follows(tab, nb, chain, |chain| - 1) && chain[|chain| - 1] in chain;
    }
    var r := Appended(tab, nb, b, chain, i);
    forall k | 0 <= k < |other| ensures Follows(r, nb, other, k) {
      assert Follows(tab, nb, other, k) && other[k] in other;
    }
  }

  /** Following a chain word: the next index, or 0 exactly at the end. */
  lemma {:induction false} ChainWord(tab: seq<nat>, nb: nat, b: nat, chain: seq<nat>, k: nat)
    requires b < nb && 2 + nb <= |tab| && Threads(tab, nb, b, chain) && k < |chain|
    ensures 2 + nb + chain[k] < |tab|
    ensures if k + 1 < |chain| then Cell(tab, nb, chain[k]) == chain[k + 1] && chain[k + 1] != 0
            else Cell(tab, nb, chain[k]) == 0
  {
    assert Follows(tab, nb, chain, k);
    assert k + 1 < |chain| ==> Follows(tab, nb, chain, k + 1);
  }

  /** A bucket word is 0 exactly when its chain is empty; otherwise the last index is in range. */
  lemma {:induction false} ChainEnds(tab: seq<nat>, nb: nat, b: nat, chain: seq<nat>)
    requires b < nb && 2 + nb <= |tab| && Threads(tab, nb, b, chain)
    ensures chain == [] <==> tab[2 + b] == 0
    ensures chain == [] || 2 + nb + chain[|chain| - 1] < |tab|
  {
    if chain != [] {
      assert Follows(tab, nb, chain, 0) && Follows(tab, nb, chain, |chain| - 1);
    }
  }

  lemma {:induction false} AppendRepresents(tab: seq<nat>, log: seq<Entry>, e: Entry)
    requires Represents(tab, log) && Distinct(log + [e])
    requires e.index != 0 && 2 + tab[0] + e.index < |tab|
    ensures var nb := tab[0];
            var b := Bucket(e.name, nb);
            var chain := ChainOf(log, nb, b);
            && (chain == [] || 2 + nb + chain[|chain| - 1] < |tab|)
            && Represents(Appended(tab, nb, b, chain, e.index), log + [e])
  {
    var nb := tab[0];
    var b := Bucket(e.name, nb);
    var chain := ChainOf(log, nb, b);
    assert Threads(tab, nb, b, chain);
    ChainEnds(tab, nb, b, chain);
    var r, l := Appended(tab, nb, b, chain, e.index), log + [e];
    assert l[..|log|] == log;
    forall c | 0 <= c < nb ensures Threads(r, nb, c, ChainOf(l, nb, c)) {
      InsertKeepsThreads(tab, log, e, c);
    }
    UnusedStayZero(tab, log, e);
  }

  lemma {:induction false} UnusedStayZero(tab: seq<nat>, log: seq<Entry>, e: Entry)
    requires Represents(tab, log) && e.index != 0 && 2 + tab[0] + e.index < |tab|
    requires var chain := ChainOf(log, tab[0], Bucket(e.name, tab[0]));
             chain == [] || 2 + tab[0] + chain[|chain| - 1] < |tab|
    ensures var nb, b := tab[0], Bucket(e.name, tab[0]);
            var r := Appended(tab, nb, b, ChainOf(log, nb, b), e.index);
            forall i :: 0 < i < |r| - 2 - nb && (forall d :: d in log + [e] ==> d.index != i) ==> Cell(r, nb, i) == 0
  {
    var nb, b := tab[0], Bucket(e.name, tab[0]);
    var chain := ChainOf(log, nb, b);
    var r := Appended(tab, nb, b, chain, e.index);
    forall i | 0 < i < |r| - 2 - nb && (forall d :: d in log + [e] ==> d.index != i) ensures Cell(r, nb, i) == 0 {
      assert forall d :: d in log ==> d in log + [e];
      ChainMembers(log, nb, b, i);
      assert Cell(tab, nb, i) == 0;
      assert chain != [] ==> chain[|chain| - 1] in chain;
    }
  }

  lemma {:induction false} InsertKeepsThreads(tab: seq<nat>, log: seq<Entry>, e: Entry, c: nat)
    requires Represents(tab, log) && Distinct(log + [e]) && c < tab[0]
    requires e.index != 0 && 2 + tab[0] + e.index < |tab|
    ensures var nb := tab[0];
            var b := Bucket(e.name, nb);
            var chain := ChainOf(log, nb, b);
            && (chain == [] || 2 + nb + chain[|chain| - 1] < |tab|)
            && Threads(Appended(tab, nb, b, chain, e.index), nb, c, ChainOf(log + [e], nb, c))
  {
    var nb := tab[0];
    var b := Bucket(e.name, nb);
    var chain := ChainOf(log, nb, b);
    assert Threads(tab, nb, b, chain) && Threads(tab, nb, c, ChainOf(log, nb, c));
    assert (log + [e])[..|log|] == log;
    NewIndexIsFresh(log, e);
    if c == b {
      ChainAcyclic(log, nb, b);
      ChainMembers(log, nb, b, e.index);
      AppendThreads(tab, nb, b, chain, e.index);
    } else {
      forall j | j in chain ensures j !in ChainOf(log, nb, c) { ChainsDisjoint(log, nb, b, c, j); }
      AppendKeepsOthers(tab, nb, b, chain, e.index, c, ChainOf(log, nb, c));
      assert ChainOf(log + [e], nb, c) == ChainOf(log, nb, c);
    }
  }

  /** The word nchain and insertions of index 0 have no bearing on the chains. */
  lemma {:induction false} CounterAndZero(tab: seq<nat>, log: seq<Entry>, n: nat, e: Entry)
    requires Represents(tab, log)
    ensures Represents(tab[1 := n], log)
    ensures e.index == 0 && Distinct(log + [e]) ==> Represents(tab, log + [e])
  {
    var r, nb := tab[1 := n], tab[0];
    forall b | 0 <= b < nb ensures Threads(r, nb, b, ChainOf(log, nb, b)) {
      var chain := ChainOf(log, nb, b);
      assert Threads(tab, nb, b, chain);
      forall k | 0 <= k < |chain| ensures Follows(r, nb, chain, k) { assert Follows(tab, nb, chain, k); }
    }
    forall i | 0 < i < |tab| - 2 - nb && (forall d :: d in log ==> d.index != i) ensures Cell(r, nb, i) == 0 {
      assert Cell(tab, nb, i) == 0;
    }
    if e.index == 0 && Distinct(log + [e]) {
      var l := log + [e];
      assert l[..|log|] == log;
      forall b | 0 <= b < nb ensures Threads(tab, nb, b, ChainOf(l, nb, b)) {
        assert ChainOf(l, nb, b) == ChainOf(log, nb, b);
      }
      assert forall d :: d in log ==> d in l;
    }
  }

  lemma {:induction false} ZeroChangesNothing(tab: seq<nat>, log: seq<Entry>, b: nat)
    requires Represents(tab, log) && b < tab[0]
    ensures var chain := ChainOf(log, tab[0], b);
            && (chain == [] || 2 + tab[0] + chain[|chain| - 1] < |tab|)
            && Appended(tab, tab[0], b, chain, 0) == tab
  {
    var chain := ChainOf(log, tab[0], b);
    assert Threads(tab, tab[0], b, chain);
    if chain != [] {
      ChainWord(tab, tab[0], b, chain, |chain| - 1);
    }
  }

  lemma {:induction false} NewIndexIsFresh(log: seq<Entry>, e: Entry)
    requires Distinct(log + [e]) && e.index != 0
    ensures forall d :: d in log ==> d.index != e.index
  {
    var l := log + [e];
    forall d | d in log ensures d.index != e.index {
      var i :| 0 <= i < |log| && log[i] == d;
      assert l[i] == d && l[|log|] == e;
    }
  }
}

module SysvIndex {
  import opened Machine
  import opened LittleEndian
  import opened Hashes
  import opened SysvSpec

  class HashTable {
    var tab: array<nat>
    ghost var log: seq<Entry>

    ghost predicate Valid()
      reads this, tab
    {
      Represents(tab[..], log)
    }

    /** A zeroed allocation with its bucket count written. */
    constructor (nb: nat, words: nat)
      requires nb > 0 && 2 + nb < words
      ensures Valid() && log == [] && fresh(tab) && tab.Length == words && tab[0] == nb
    {
      tab := new nat[words](_ => 0);
      log := [];
      new;
      tab[0] := nb;
    }

    /** check_dt_hash_collision: walks to the end of the chain and threads the index there. */
    method Thread(b: nat, i: nat, ghost chain: seq<nat>)
      requires 2 <= tab.Length && b < tab[0] && 2 + tab[0] < tab.Length && Threads(tab[..], tab[0], b, chain)
      modifies tab
      ensures chain == [] || 2 + old(tab[0]) + chain[|chain| - 1] < tab.Length
      ensures tab[..] == Appended(old(tab[..]), old(tab[0]), b, chain, i)
    {
      var nb := tab[0];
      ghost var t := tab[..];
      ChainEnds(t, nb, b, chain);
      if tab[2 + b] != 0 {
        var p := 2 + nb + tab[2 + b];
        ghost var k := 0;
        ChainWord(t, nb, b, chain, k);
        while tab[p] != 0
          invariant tab[..] == t && k < |chain| && p == 2 + nb + chain[k] && p < tab.Length
          decreases |chain| - k
        {
          ChainWord(t, nb, b, chain, k);
          ChainWord(t, nb, b, chain, k + 1);
          p, k := 2 + nb + tab[p], k + 1;
        }
        ChainWord(t, nb, b, chain, k);
        tab[p] := i;
      } else {
        tab[2 + b] := i;
      }
    }

    /** add_dt_hash_entry.  Index 0 leaves every bucket and chain as it was. */
    method Insert(name: Name, i: nat)
      requires Valid() && Distinct(log + [Entry(name, i)]) && 2 + tab[0] + i < tab.Length
      modifies this`log, tab
      ensures Valid() && log == old(log) + [Entry(name, i)] && tab[0] == old(tab[0])
      ensures i == 0 ==> tab[2..] == old(tab[2..])
    {
      var h := ComputeSysvHash(name);
      var b := h % tab[0];
      ghost var before := tab[..];
      CounterAndZero(before, log, tab[1] + 1, Entry(name, i));
      tab[1] := tab[1] + 1;
      ghost var t := tab[..];
      assert t == before[1 := before[1] + 1];
      assert Threads(t, tab[0], b, ChainOf(log, tab[0], b));
      Thread(b, i, ChainOf(log, tab[0], b));
      if i == 0 {
        ZeroChangesNothing(t, log, b);
        CounterAndZero(t, log, 0, Entry(name, i));
        assert tab[2..] == t[2..];
      } else {
        AppendRepresents(t, log, Entry(name, i));
      }
      log := log + [Entry(name, i)];
    }

    /** strcmp with the i-th name of the directory. */
    static method IsNamed(name: Name, d: seq<uint8>, va: nat, n: nat, i: nat, ghost names: seq<Name>)
      returns (same: bool)
      requires NamesRead(d, va, n, names) && i < |names|
      ensures same <==> names[i] == name
    {
      assert NameReads(d, va, n, i, names[i]);
      same := CString(d, LeAt(d, n + 4 * i, 4) - va) == name;
    }

    /** The walk over one bucket. */
    method Walk(b: nat, name: Name, d: seq<uint8>, va: nat, n: nat, ghost chain: seq<nat>, ghost names: seq<Name>)
      returns (i: nat)
      requires 2 <= tab.Length && b < tab[0] && 2 + tab[0] <= tab.Length && Threads(tab[..], tab[0], b, chain)
      requires NamesRead(d, va, n, names) && forall i :: i in chain ==> i != 0 && i < |names|
      ensures i == FirstNamed(chain, names, name)
    {
      var nb := tab[0];
      ghost var t, k := tab[..], 0;
      ChainEnds(t, nb, b, chain);
      assert chain[0..] == chain;
      i := tab[2 + b];
      while i != 0
        invariant k <= |chain| && i == (if k < |chain| then chain[k] else 0) && (i == 0 <==> k == |chain|)
        invariant FirstNamed(chain[k..], names, name) == FirstNamed(chain, names, name)
        decreases |chain| - k
      {
        assert chain[k] in chain;
        SearchStep(chain, k, names, name);
        ChainWord(t, nb, b, chain, k);
        var same := IsNamed(name, d, va, n, i, names);
        if same {
          return;
        }
        i, k := tab[2 + nb + i], k + 1;
      }
    }

    /**
     The search of sysv_lookup_for_coff, with the names read from the directory: it terminates with
     the answer of a linear search of everything inserted.
     */
    method Lookup(name: Name, d: seq<uint8>, va: nat, n: nat, ghost names: seq<Name>) returns (i: nat)
      requires Valid() && Named(log, names) && NamesRead(d, va, n, names)
      ensures i == FirstIndex(log, name)
    {
      var h := ComputeSysvHash(name);
      var b := h % tab[0];
      ghost var chain := ChainOf(log, tab[0], b);
      assert Threads(tab[..], tab[0], b, chain);
      ChainIsNamed(log, tab[0], b, names);
      ChainSearchIsListSearch(log, tab[0], names, name);
      i := Walk(b, name, d, va, n, chain, names);
    }
  }
}
