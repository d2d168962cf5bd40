/**
 The section lists: every section stands in the list of a container and in the
 list of an object file at once. The module before the classes says what the lists
 contain as functions of the log of allocations, and how a section's place is
 packed into sixteen bits and found again.
 */
module SectionSpec {
  import opened Machine

  /** An allocation: the section, the container it went to and the object file it went to. */
  datatype Entry<T> = Entry(node: T, con: nat, obj: nat)

  /** The sections of container c in allocation order. */
  function InContainer<T>(log: seq<Entry<T>>, c: nat): seq<T> {
    if log == [] then []
    else InContainer(log[..|log| - 1], c) + if log[|log| - 1].con == c then [log[|log| - 1].node] else []
  }

  /** The sections of object o in allocation order. */
  function InObject<T>(log: seq<Entry<T>>, o: nat): seq<T> {
    if log == [] then []
    else InObject(log[..|log| - 1], o) + if log[|log| - 1].obj == o then [log[|log| - 1].node] else []
  }

  /** What a walk over the first n containers visits. */
  function ByContainer<T>(log: seq<Entry<T>>, n: nat): seq<T> {
    if n == 0 then [] else ByContainer(log, n - 1) + InContainer(log, n - 1)
  }

  /** What a walk over the first n objects visits. */
  function ByObject<T>(log: seq<Entry<T>>, n: nat): seq<T> {
    if n == 0 then [] else ByObject(log, n - 1) + InObject(log, n - 1)
  }

  function Nodes<T>(log: seq<Entry<T>>): (s: seq<T>)
    ensures |s| == |log| && forall i :: 0 <= i < |s| ==> s[i] == log[i].node
  {
    seq(|log|, i requires 0 <= i < |log| => log[i].node)
  }

  lemma {:induction false} InContainerAppended<T>(log: seq<Entry<T>>, e: Entry<T>, c: nat)
    ensures InContainer(log + [e], c) == if e.con == c then InContainer(log, c) + [e.node] else InContainer(log, c)
  {
    assert (log + [e])[..|log|] == log;
  }

  lemma {:induction false} InObjectAppended<T>(log: seq<Entry<T>>, e: Entry<T>, o: nat)
    ensures InObject(log + [e], o) == if e.obj == o then InObject(log, o) + [e.node] else InObject(log, o)
  {
    assert (log + [e])[..|log|] == log;
  }

  lemma {:induction false} JoinedMultiset<T>(a: seq<T>, b: seq<T>)
    ensures multiset(a + b) == multiset(a) + multiset(b)
  {
  }

  /** x, if its number k is below n. */
  function OneBelow<T>(k: nat, n: nat, x: T): multiset<T> {
    if k < n then multiset{x} else multiset{}
  }

  /** A walk over n lists gains x, if the list numbered k is among them, and nothing else. */
  predicate Gains<T(==)>(now: seq<T>, was: seq<T>, k: nat, n: nat, x: T) {
    multiset(now) == multiset(was) + OneBelow(k, n, x)
  }

  /** One element more in a walk so far, or in what is joined to it. */
  lemma {:induction false} JoinedOneMore<T>(
    was: seq<T>, now: seq<T>, part: seq<T>, more: seq<T>, before: seq<T>, after: seq<T>,
    k: nat, n: nat, next: nat, x: T)
    requires Gains(now, was, k, n, x) && more == (if k == n then part + [x] else part) && next == n + 1
    requires before == was + part && after == now + more
    ensures Gains(after, before, k, next, x)
  {
    JoinedMultiset(now, more);
    JoinedMultiset(was, part);
    if k == n { JoinedMultiset(part, [x]); }
  }

  lemma {:induction false} NothingGained<T>(was: seq<T>, now: seq<T>, k: nat, n: nat, x: T)
    requires was == now == [] && n == 0
    ensures Gains(now, was, k, n, x)
  {
  }

  lemma {:induction false} NextContainerGains<T>(
    log: seq<Entry<T>>, more: seq<Entry<T>>, e: Entry<T>, m: nat, n: nat)
    requires more == log + [e] && n == m + 1 && Gains(ByContainer(more, m), ByContainer(log, m), e.con, m, e.node)
    ensures Gains(ByContainer(more, n), ByContainer(log, n), e.con, n, e.node)
  {
    InContainerAppended(log, e, m);
    JoinedOneMore(ByContainer(log, m), ByContainer(more, m), InContainer(log, m), InContainer(more, m),
                  ByContainer(log, n), ByContainer(more, n), e.con, m, n, e.node);
  }

  lemma {:induction false} ByContainerAppended<T>(log: seq<Entry<T>>, more: seq<Entry<T>>, e: Entry<T>, n: nat)
    requires more == log + [e]
    ensures Gains(ByContainer(more, n), ByContainer(log, n), e.con, n, e.node)
  {
    if n == 0 {
      NothingGained(ByContainer(log, n), ByContainer(more, n), e.con, n, e.node);
    } else {
      ByContainerAppended(log, more, e, n - 1);
      NextContainerGains(log, more, e, n - 1, n);
    }
  }

  lemma {:induction false} NextObjectGains<T>(
    log: seq<Entry<T>>, more: seq<Entry<T>>, e: Entry<T>, m: nat, n: nat)
    requires more == log + [e] && n == m + 1 && Gains(ByObject(more, m), ByObject(log, m), e.obj, m, e.node)
    ensures Gains(ByObject(more, n), ByObject(log, n), e.obj, n, e.node)
  {
    InObjectAppended(log, e, m);
    JoinedOneMore(ByObject(log, m), ByObject(more, m), InObject(log, m), InObject(more, m),
                  ByObject(log, n), ByObject(more, n), e.obj, m, n, e.node);
  }

  lemma {:induction false} ByObjectAppended<T>(log: seq<Entry<T>>, more: seq<Entry<T>>, e: Entry<T>, n: nat)
    requires more == log + [e]
    ensures Gains(ByObject(more, n), ByObject(log, n), e.obj, n, e.node)
  {
    if n == 0 {
      NothingGained(ByObject(log, n), ByObject(more, n), e.obj, n, e.node);
    } else {
      ByObjectAppended(log, more, e, n - 1);
      NextObjectGains(log, more, e, n - 1, n);
    }
  }

  /** A walk that gains what the list of all sections gains still holds the same sections. */
  lemma {:induction false} SameGain<T>(was: seq<T>, now: seq<T>, nodes: seq<T>, more: seq<T>, k: nat, n: nat, x: T)
    requires multiset(was) == multiset(nodes) && Gains(now, was, k, n, x) && k < n && more == nodes + [x]
    ensures multiset(now) == multiset(more)
  {
    JoinedMultiset(nodes, [x]);
  }

  lemma {:induction false} ByNothing<T>(n: nat)
    ensures ByContainer<T>([], n) == [] && ByObject<T>([], n) == []
  {
    if n > 0 { ByNothing<T>(n - 1); }
  }

  /** Both walks visit every section exactly once. */
  lemma {:induction false} WalksVisitAllOnce<T>(log: seq<Entry<T>>, cons: nat, objs: nat)
    requires forall i :: 0 <= i < |log| ==> log[i].con < cons && log[i].obj < objs
    ensures multiset(ByContainer(log, cons)) == multiset(Nodes(log))
    ensures multiset(ByObject(log, objs)) == multiset(Nodes(log))
  {
    if log == [] {
      ByNothing<T>(cons);
      ByNothing<T>(objs);
    } else {
      var p, e := log[..|log| - 1], log[|log| - 1];
      assert log == p + [e];
      WalksVisitAllOnce(p, cons, objs);
      assert Nodes(log) == Nodes(p) + [e.node];
      ByContainerAppended(p, log, e, cons);
      SameGain(ByContainer(p, cons), ByContainer(log, cons), Nodes(p), Nodes(log), e.con, cons, e.node);
      ByObjectAppended(p, log, e, objs);
      SameGain(ByObject(p, objs), ByObject(log, objs), Nodes(p), Nodes(log), e.obj, objs, e.node);
    }
  }

  /** An element of a container's list comes from the log. */
  lemma {:induction false} FromLogByContainer<T>(log: seq<Entry<T>>, c: nat, k: nat) returns (i: nat)
    requires k < |InContainer(log, c)|
    ensures i < |log| && log[i].con == c && log[i].node == InContainer(log, c)[k]
  {
    var p := log[..|log| - 1];
    if k < |InContainer(p, c)| {
      i := FromLogByContainer(p, c, k);
    } else {
      i := |log| - 1;
    }
  }

  lemma {:induction false} FromLogByObject<T>(log: seq<Entry<T>>, o: nat, k: nat) returns (i: nat)
    requires k < |InObject(log, o)|
    ensures i < |log| && log[i].obj == o && log[i].node == InObject(log, o)[k]
  {
    var p := log[..|log| - 1];
    if k < |InObject(p, o)| {
      i := FromLogByObject(p, o, k);
    } else {
      i := |log| - 1;
    }
  }

  // ---------- the sixteen-bit index ----------

  datatype Place = Place(con: nat, pos: nat)

  /** Where from position k on the header q stands; the length of the list if nowhere. */
  function PositionFrom(ps: seq<nat>, q: nat, k: nat): (j: nat)
    requires k <= |ps|
    ensures k <= j <= |ps|
    decreases |ps| - k
  {
    if k == |ps| || ps[k] == q then k else PositionFrom(ps, q, k + 1)
  }

  function PositionOf(ps: seq<nat>, q: nat): (j: nat)
    ensures j <= |ps|
  {
    PositionFrom(ps, q, 0)
  }

  lemma {:induction false} PositionIsFirst(ps: seq<nat>, q: nat, k: nat)
    requires k <= |ps|
    ensures var j := PositionFrom(ps, q, k); (j < |ps| ==> ps[j] == q) && forall i :: k <= i < j ==> ps[i] != q
    decreases |ps| - k
  {
    if k < |ps| && ps[k] != q { PositionIsFirst(ps, q, k + 1); }
  }

  /** A counter of eight bits. */
  function Low8(k: nat): (r: nat)
    ensures r < 0x100
  {
    k % 0x100
  }

  lemma {:induction false} CountsUp(k: nat)
    ensures (Low8(k) + 1) % 0x100 == Low8(k + 1)
  {
  }

  predicate Matches(names: seq<Option<Name>>, ps: seq<seq<nat>>, name: Name, q: nat, i: nat)
    requires i < |names| == |ps|
  {
    names[i] == Some(name) && PositionOf(ps[i], q) < |ps[i]|
  }

  /** The first section with header q in a container of the given name, from container i on. */
  function FindFrom(names: seq<Option<Name>>, ps: seq<seq<nat>>, name: Name, q: nat, i: nat): Option<Place>
    requires i <= |names| == |ps|
    decreases |names| - i
  {
    if i == |names| then None
    else if Matches(names, ps, name, q, i) then Some(Place(i, PositionOf(ps[i], q)))
    else FindFrom(names, ps, name, q, i + 1)
  }

  /** Both counters are eight bits wide. */
  function Code(place: Place): (c: nat)
    ensures c < 0x1_0000
  {
    Low8(place.con) * 0x100 + Low8(place.pos)
  }

  function Encode(found: Option<Place>): nat {
    if found.None? then 0 else Code(found.value)
  }

  function CodeFrom(names: seq<Option<Name>>, ps: seq<seq<nat>>, name: Name, q: nat, i: nat): nat
    requires i <= |names| == |ps|
  {
    Encode(FindFrom(names, ps, name, q, i))
  }

  lemma {:induction false} FindStep(names: seq<Option<Name>>, ps: seq<seq<nat>>, name: Name, q: nat, i: nat)
    requires i < |names| == |ps|
    ensures CodeFrom(names, ps, name, q, i)
            == if Matches(names, ps, name, q, i) then Low8(i) * 0x100 + Low8(PositionOf(ps[i], q))
               else CodeFrom(names, ps, name, q, i + 1)
  {
  }

  /** The first place from container i on at which both counters agree with the index. */
  function DecodeFrom(ps: seq<seq<nat>>, hi: nat, lo: nat, i: nat): Option<Place>
    requires i <= |ps|
    decreases |ps| - i
  {
    if i == |ps| then None
    else if Low8(i) == hi && lo < |ps[i]| then Some(Place(i, lo))
    else DecodeFrom(ps, hi, lo, i + 1)
  }

  function Decode(ps: seq<seq<nat>>, index: nat): Option<Place> {
    DecodeFrom(ps, index / 0x100, index % 0x100, 0)
  }

  /** The place is the first one with its code: nothing earlier wraps around to it. */
  ghost predicate Addressable(ps: seq<seq<nat>>, place: Place)
    requires place.con < |ps|
  {
    && place.pos < 0x100
    && forall i :: 0 <= i < place.con && Low8(i) == Low8(place.con) ==> |ps[i]| <= place.pos
  }

  lemma {:induction false} FirstDecoded(ps: seq<seq<nat>>, hi: nat, lo: nat, i: nat, con: nat)
    requires i <= con < |ps| && Low8(con) == hi && lo < |ps[con]|
    ensures var r := DecodeFrom(ps, hi, lo, i);
            r.Some? && i <= r.value.con <= con && r.value.pos == lo
            && (r.value.con == con <==> forall k :: i <= k < con && Low8(k) == hi ==> |ps[k]| <= lo)
    decreases con - i
  {
    if i < con && !(Low8(i) == hi && lo < |ps[i]|) {
      FirstDecoded(ps, hi, lo, i + 1, con);
    }
  }

  /**
   Decoding the index of a section gives that section back exactly if its position fits eight
   bits and no earlier container with the same eight-bit number is long enough to be met first.
   */
  lemma {:induction false} IndexRoundTripIff(ps: seq<seq<nat>>, place: Place)
    requires place.con < |ps| && place.pos < |ps[place.con]|
    ensures Decode(ps, Code(place)) == Some(place) <==> Addressable(ps, place)
  {
    var hi, lo := Low8(place.con), Low8(place.pos);
    assert Code(place) / 0x100 == hi && Code(place) % 0x100 == lo;
    FirstDecoded(ps, hi, lo, 0, place.con);
  }

  /** With at most 256 containers and at most 256 sections in each, every section is addressable. */
  lemma {:induction false} SmallTablesRoundTrip(ps: seq<seq<nat>>, place: Place)
    requires |ps| <= 0x100 && (forall i :: 0 <= i < |ps| ==> |ps[i]| <= 0x100)
    requires place.con < |ps| && place.pos < |ps[place.con]|
    ensures Decode(ps, Code(place)) == Some(place)
  {
    IndexRoundTripIff(ps, place);
  }

  lemma {:induction false} FoundPlace(names: seq<Option<Name>>, ps: seq<seq<nat>>, name: Name, q: nat, i: nat)
    requires i <= |names| == |ps|
    ensures var r := FindFrom(names, ps, name, q, i);
            r.Some? ==> i <= r.value.con < |ps| && r.value.pos < |ps[r.value.con]|
                        && names[r.value.con] == Some(name) && ps[r.value.con][r.value.pos] == q
    ensures FindFrom(names, ps, name, q, i).None?
            ==> forall k :: i <= k < |ps| && names[k] == Some(name) ==> q !in ps[k]
    decreases |names| - i
  {
    if i < |names| {
      PositionIsFirst(ps[i], q, 0);
      if !Matches(names, ps, name, q, i) { FoundPlace(names, ps, name, q, i + 1); }
    }
  }

  /**
   Round trip: the code of what the search finds decodes to it, exactly if nothing earlier wraps
   around to it.
   */
  lemma {:induction false} CodeRoundTripIff(names: seq<Option<Name>>, ps: seq<seq<nat>>, name: Name, q: nat)
    requires |names| == |ps| && FindFrom(names, ps, name, q, 0).Some?
    ensures var found := FindFrom(names, ps, name, q, 0);
            && found.value.con < |ps| && found.value.pos < |ps[found.value.con]|
            && names[found.value.con] == Some(name) && ps[found.value.con][found.value.pos] == q
            && (Decode(ps, CodeFrom(names, ps, name, q, 0)) == found <==> Addressable(ps, found.value))
  {
    FoundPlace(names, ps, name, q, 0);
    IndexRoundTripIff(ps, FindFrom(names, ps, name, q, 0).value);
  }

  ghost predicate Small(ps: seq<seq<nat>>) {
    |ps| <= 0x100 && forall i :: 0 <= i < |ps| ==> |ps[i]| <= 0x100
  }

  /** In a small table, with the first container nameless, a section that is there decodes and has no code 0. */
  lemma {:induction false} SmallCodesRoundTrip(names: seq<Option<Name>>, ps: seq<seq<nat>>, name: Name, q: nat, k: nat)
    requires |names| == |ps| && Small(ps) && k < |ps| && names[k] == Some(name) && q in ps[k] && names[0] == None
    ensures var r := Decode(ps, CodeFrom(names, ps, name, q, 0));
            && r.Some? && r.value.con < |ps| && r.value.pos < |ps[r.value.con]|
            && names[r.value.con] == Some(name) && ps[r.value.con][r.value.pos] == q
    ensures CodeFrom(names, ps, name, q, 0) != 0
  {
    FoundPlace(names, ps, name, q, 0);
    CodeRoundTripIff(names, ps, name, q);
    ZeroIsAbsentIff(names, ps, name, q);
  }

  /** The 257th section of a container has the code of its first one. */
  lemma {:induction false} IndexDecodesElsewhere(name: Name)
    ensures var names, ps := [None, Some(name)], [[], seq(0x101, i => i)];
            && FindFrom(names, ps, name, 0x100, 0) == Some(Place(1, 0x100))
            && Decode(ps, CodeFrom(names, ps, name, 0x100, 0)) == Some(Place(1, 0))
  {
    var s: seq<nat> := seq(0x101, i => i);
    var names: seq<Option<Name>>, ps := [None, Some(name)], [[], s];
    PositionIsFirst(s, 0x100, 0);
    assert s[PositionOf(s, 0x100)] == 0x100 by {
      if PositionOf(s, 0x100) == |s| { assert s[0x100] == 0x100; }
    }
    assert PositionOf([], 0x100) == 0;
    assert !Matches(names, ps, name, 0x100, 0) && Matches(names, ps, name, 0x100, 1);
    FindStep(names, ps, name, 0x100, 0);
    assert FindFrom(names, ps, name, 0x100, 0) == FindFrom(names, ps, name, 0x100, 1);
    FirstDecoded(ps, 1, 0, 0, 1);
  }

  /**
   The first container has no name, so that 0 is the code of a section that is there only if
   its container's number is a positive multiple of 256.
   */
  lemma {:induction false} ZeroIsAbsentIff(names: seq<Option<Name>>, ps: seq<seq<nat>>, name: Name, q: nat)
    requires |names| == |ps| > 0 && names[0] == None
    ensures var r := FindFrom(names, ps, name, q, 0);
            Encode(r) == 0 <==> (r.None? || (Low8(r.value.con) == 0 && r.value.con > 0 && Low8(r.value.pos) == 0))
  {
    FoundPlace(names, ps, name, q, 0);
  }
}

module Sections {
  import opened Machine
  import opened SectionSpec

  /** A section: next within its object file, chained within its container. */
  class SectionChain {
    const p: nat
    const obj: ObjectChain
    var next: SectionChain?
    var chained: SectionChain?

    /** next and chained are null because fresh memory is zero. */
    constructor (p: nat, obj: ObjectChain)
      ensures this.p == p && this.obj == obj && next == null && chained == null
    {
      this.p, this.obj, next, chained := p, obj, null, null;
    }
  }

  class SectionContainer {
    const name: Option<Name>
    var next: SectionContainer?
    var init: SectionChain?
    var last: SectionChain?

    constructor (name: Option<Name>)
      ensures this.name == name && next == null && init == null && last == null
    {
      this.name, next, init, last := name, null, null, null;
    }
  }

  class ObjectChain {
    var next: ObjectChain?
    var head: SectionChain?
    var tail: SectionChain?

    constructor ()
      ensures next == null && head == null && tail == null
    {
      next, head, tail := null, null, null;
    }
  }

  // ---------- lists ----------

  ghost predicate ContainerFollows(cs: seq<SectionContainer>, k: nat)
    requires k < |cs|
    reads cs`next
  {
    cs[k].next == if k + 1 < |cs| then cs[k + 1] else null
  }

  ghost predicate ObjectFollows(os: seq<ObjectChain>, k: nat)
    requires k < |os|
    reads os`next
  {
    os[k].next == if k + 1 < |os| then os[k + 1] else null
  }

  ghost predicate ChainFollows(c: seq<SectionChain>, k: nat)
    requires k < |c|
    reads c`chained
  {
    c[k].chained == if k + 1 < |c| then c[k + 1] else null
  }

  ghost predicate SectionFollows(c: seq<SectionChain>, k: nat)
    requires k < |c|
    reads c`next
  {
    c[k].next == if k + 1 < |c| then c[k + 1] else null
  }

  /** The container's chain is c, and its tail pointer is the last section. */
  ghost predicate Chained(sc: SectionContainer, c: seq<SectionChain>)
    reads sc`init, sc`last, c`chained
  {
    && sc.init == (if c == [] then null else c[0])
    && (c != [] ==> sc.last == c[|c| - 1])
    && forall k :: 0 <= k < |c| ==> ChainFollows(c, k)
  }

  /** The object's list is c, and its tail pointer is the last section. */
  ghost predicate Listed(oc: ObjectChain, c: seq<SectionChain>)
    reads oc`head, oc`tail, c`next
  {
    && oc.head == (if c == [] then null else c[0])
    && (c != [] ==> oc.tail == c[|c| - 1])
    && forall k :: 0 <= k < |c| ==> SectionFollows(c, k)
  }

  ghost predicate Different<T>(s: seq<T>) {
    forall i, j :: 0 <= i < j < |s| ==> s[i] != s[j]
  }

  type Log = seq<Entry<SectionChain>>

  /** No element of a container's list stands in another one's. */
  lemma {:induction false} ListsApart(log: Log, c: nat, d: nat, j: nat, k: nat)
    requires Different(Nodes(log)) && j < |InContainer(log, c)| && k < |InContainer(log, d)|
    requires InContainer(log, c)[j] == InContainer(log, d)[k]
    ensures c == d
  {
    var a := FromLogByContainer(log, c, j);
    var b := FromLogByContainer(log, d, k);
    assert Nodes(log)[a] == Nodes(log)[b];
  }

  lemma {:induction false} ObjectListsApart(log: Log, c: nat, d: nat, j: nat, k: nat)
    requires Different(Nodes(log)) && j < |InObject(log, c)| && k < |InObject(log, d)|
    requires InObject(log, c)[j] == InObject(log, d)[k]
    ensures c == d
  {
    var a := FromLogByObject(log, c, j);
    var b := FromLogByObject(log, d, k);
    assert Nodes(log)[a] == Nodes(log)[b];
  }

  lemma {:induction false} ChainInLog(log: Log, c: nat)
    ensures forall k :: 0 <= k < |InContainer(log, c)| ==> InContainer(log, c)[k] in Nodes(log)
  {
    forall k | 0 <= k < |InContainer(log, c)| ensures InContainer(log, c)[k] in Nodes(log) {
      var i := FromLogByContainer(log, c, k);
      assert Nodes(log)[i] == InContainer(log, c)[k];
    }
  }

  lemma {:induction false} ListInLog(log: Log, o: nat)
    ensures forall k :: 0 <= k < |InObject(log, o)| ==> InObject(log, o)[k] in Nodes(log)
  {
    forall k | 0 <= k < |InObject(log, o)| ensures InObject(log, o)[k] in Nodes(log) {
      var i := FromLogByObject(log, o, k);
      assert Nodes(log)[i] == InObject(log, o)[k];
    }
  }

  lemma {:induction false} ChainDifferent(log: Log, c: nat)
    requires Different(Nodes(log))
    ensures Different(InContainer(log, c))
            && forall k :: 0 <= k < |InContainer(log, c)| ==> InContainer(log, c)[k] in Nodes(log)
  {
    if log != [] {
      var p, e := log[..|log| - 1], log[|log| - 1];
      assert Nodes(log) == Nodes(p) + [e.node];
      PrefixDifferent(Nodes(p), e.node);
      ChainDifferent(p, c);
      assert InContainer(log, c) == InContainer(p, c) + if e.con == c then [e.node] else [];
    }
  }

  lemma {:induction false} PrefixDifferent(s: seq<SectionChain>, x: SectionChain)
    requires Different(s + [x])
    ensures Different(s) && x !in s
  {
    forall i, j | 0 <= i < j < |s| ensures s[i] != s[j] {
      assert (s + [x])[i] != (s + [x])[j];
    }
    forall i | 0 <= i < |s| ensures s[i] != x {
      assert (s + [x])[i] != (s + [x])[|s|];
    }
  }

  lemma {:induction false} ListDifferent(log: Log, o: nat)
    requires Different(Nodes(log))
    ensures Different(InObject(log, o)) && forall k :: 0 <= k < |InObject(log, o)| ==> InObject(log, o)[k] in Nodes(log)
  {
    if log != [] {
      var p, e := log[..|log| - 1], log[|log| - 1];
      assert Nodes(log) == Nodes(p) + [e.node];
      PrefixDifferent(Nodes(p), e.node);
      ListDifferent(p, o);
      assert InObject(log, o) == InObject(p, o) + if e.obj == o then [e.node] else [];
    }
  }

  lemma {:induction false} ElementApart(log: Log, c: nat, d: nat, k: nat)
    requires Different(Nodes(log)) && c != d && k < |InContainer(log, d)|
    ensures InContainer(log, d)[k] !in InContainer(log, c)
  {
    if InContainer(log, d)[k] in InContainer(log, c) {
      var j :| 0 <= j < |InContainer(log, c)| && InContainer(log, c)[j] == InContainer(log, d)[k];
      ListsApart(log, c, d, j, k);
    }
  }

  lemma {:induction false} ObjectElementApart(log: Log, c: nat, d: nat, k: nat)
    requires Different(Nodes(log)) && c != d && k < |InObject(log, d)|
    ensures InObject(log, d)[k] !in InObject(log, c)
  {
    if InObject(log, d)[k] in InObject(log, c) {
      var j :| 0 <= j < |InObject(log, c)| && InObject(log, c)[j] == InObject(log, d)[k];
      ObjectListsApart(log, c, d, j, k);
    }
  }

  /** Hangs a section behind the last one of a container's chain. */
  method AppendToContainer(sc: SectionContainer, node: SectionChain, ghost c: seq<SectionChain>)
    requires Chained(sc, c) && Different(c) && node !in c && node.chained == null
    modifies sc`init, sc`last, c`chained
    ensures Chained(sc, c + [node])
  {
    if sc.init != null {
      var last := sc.last;
      last.chained := node;
      sc.last := node;
    } else {
      sc.init := node;
      sc.last := node;
    }
    forall k | 0 <= k < |c| + 1 ensures ChainFollows(c + [node], k) {
      assert k < |c| ==> old(ChainFollows(c, k));
    }
  }

  /** Hangs a section behind the last one of an object's list. */
  method AppendToObject(oc: ObjectChain, node: SectionChain, ghost c: seq<SectionChain>)
    requires Listed(oc, c) && Different(c) && node !in c && node.next == null
    modifies oc`head, oc`tail, c`next
    ensures Listed(oc, c + [node])
  {
    if oc.head == null {
      oc.head := node;
    } else {
      oc.tail.next := node;
    }
    oc.tail := node;
    forall k | 0 <= k < |c| + 1 ensures SectionFollows(c + [node], k) {
      assert k < |c| ==> old(SectionFollows(c, k));
    }
  }

  // ---------- the link configuration ----------

  ghost predicate ContainersLinked(first: SectionContainer, last: SectionContainer, cs: seq<SectionContainer>)
    reads cs`next
  {
    && cs != [] && first == cs[0] && last == cs[|cs| - 1] && Different(cs)
    && forall k :: 0 <= k < |cs| ==> ContainerFollows(cs, k)
  }

  ghost predicate ObjectsLinked(first: ObjectChain, last: ObjectChain, os: seq<ObjectChain>)
    reads os`next
  {
    && os != [] && first == os[0] && last == os[|os| - 1] && Different(os)
    && forall k :: 0 <= k < |os| ==> ObjectFollows(os, k)
  }

  /** Every container's chain holds the sections allocated to it. */
  ghost predicate ContainersHold(cs: seq<SectionContainer>, log: Log)
    reads cs`init, cs`last, Nodes(log)`chained
  {
    forall c :: 0 <= c < |cs| ==> (ChainInLog(log, c); Chained(cs[c], InContainer(log, c)))
  }

  ghost predicate ObjectsHold(os: seq<ObjectChain>, log: Log)
    reads os`head, os`tail, Nodes(log)`next
  {
    forall o :: 0 <= o < |os| ==> (ListInLog(log, o); Listed(os[o], InObject(log, o)))
  }

  lemma {:induction false} ContainersHoldMore(cs: seq<SectionContainer>, log: Log, e: Entry<SectionChain>)
    requires e.con < |cs| && Chained(cs[e.con], InContainer(log, e.con) + [e.node])
    requires forall d :: 0 <= d < |cs| && d != e.con ==> Chained(cs[d], InContainer(log, d))
    ensures ContainersHold(cs, log + [e])
  {
    forall d | 0 <= d < |cs| ensures Chained(cs[d], InContainer(log + [e], d)) {
      InContainerAppended(log, e, d);
    }
  }

  /** A new container is empty. */
  lemma {:induction false} ContainersHoldNew(cs: seq<SectionContainer>, sc: SectionContainer, log: Log)
    requires ContainersHold(cs, log) && sc.init == null && InContainer(log, |cs|) == []
    ensures ContainersHold(cs + [sc], log)
  {
  }

  lemma {:induction false} ObjectsHoldNew(os: seq<ObjectChain>, oc: ObjectChain, log: Log)
    requires ObjectsHold(os, log) && oc.head == null && InObject(log, |os|) == []
    ensures ObjectsHold(os + [oc], log)
  {
  }

  lemma {:induction false} ObjectsHoldMore(os: seq<ObjectChain>, log: Log, e: Entry<SectionChain>)
    requires e.obj < |os| && Listed(os[e.obj], InObject(log, e.obj) + [e.node])
    requires forall d :: 0 <= d < |os| && d != e.obj ==> Listed(os[d], InObject(log, d))
    ensures ObjectsHold(os, log + [e])
  {
    forall d | 0 <= d < |os| ensures Listed(os[d], InObject(log + [e], d)) {
      InObjectAppended(log, e, d);
    }
  }

  lemma {:induction false} NothingBehind(log: Log, c: nat)
    requires forall i :: 0 <= i < |log| ==> log[i].con < c
    ensures InContainer(log, c) == []
  {
    if log != [] { NothingBehind(log[..|log| - 1], c); }
  }

  lemma {:induction false} NothingInNew(log: Log, o: nat)
    requires forall i :: 0 <= i < |log| ==> log[i].obj < o
    ensures InObject(log, o) == []
  {
    if log != [] { NothingInNew(log[..|log| - 1], o); }
  }

  ghost predicate LogFits(log: Log, cons: nat, objs: nat) {
    Different(Nodes(log)) && forall i :: 0 <= i < |log| ==> log[i].con < cons && log[i].obj < objs
  }

  lemma {:induction false} LogGrows(log: Log, e: Entry<SectionChain>, cons: nat, objs: nat)
    requires LogFits(log, cons, objs) && e.con < cons && e.obj < objs && e.node !in Nodes(log)
    ensures LogFits(log + [e], cons, objs) && Nodes(log + [e]) == Nodes(log) + [e.node]
  {
    assert Nodes(log + [e]) == Nodes(log) + [e.node];
  }

  function HeadersOf(c: seq<SectionChain>): (ps: seq<nat>)
    ensures |ps| == |c| && forall k :: 0 <= k < |ps| ==> ps[k] == c[k].p
  {
    seq(|c|, k requires 0 <= k < |c| => c[k].p)
  }

  class Config {
    var initialSection: SectionContainer
    var currentSection: SectionContainer
    var initialObject: ObjectChain
    var currentObject: ObjectChain
    ghost var containers: seq<SectionContainer>
    ghost var objects: seq<ObjectChain>
    ghost var log: Log

    ghost predicate Valid()
      reads this, containers, objects, Nodes(log)
    {
      && Linked()
      && LogFits(log, |containers|, |objects|)
      && ContainersHold(containers, log)
      && ObjectsHold(objects, log)
    }

    /** One container without a name and one object, as main sets them up. */
    constructor ()
      ensures Valid() && |containers| == 1 && |objects| == 1 && log == []
      ensures fresh(containers[0]) && fresh(objects[0])
    {
      var sc := new SectionContainer(None);
      var oc := new ObjectChain();
      initialSection, currentSection, initialObject, currentObject := sc, sc, oc, oc;
      containers, objects, log := [sc], [oc], [];
      new;
      assert ContainerFollows(containers, 0) && ObjectFollows(objects, 0);
    }

    /** The container's side of an allocation. */
    method LinkChain(sc: SectionContainer, node: SectionChain, ghost c: nat, ghost o: nat)
      requires c < |containers| && sc == containers[c] && Different(containers)
      requires Different(Nodes(log)) && ContainersHold(containers, log)
      requires node !in Nodes(log) && node.chained == null
      modifies sc`init, sc`last, Nodes(log)`chained
      ensures ContainersHold(containers, log + [Entry(node, c, o)])
    {
      ChainDifferent(log, c);
      AppendToContainer(sc, node, InContainer(log, c));
      forall d | 0 <= d < |containers| && d != c ensures Chained(containers[d], InContainer(log, d)) {
        ghost var l := InContainer(log, d);
        ChainInLog(log, d);
        assert old(Chained(containers[d], l));
        forall k | 0 <= k < |l| ensures ChainFollows(l, k) {
          assert old(ChainFollows(l, k));
          ElementApart(log, c, d, k);
        }
      }
      ContainersHoldMore(containers, log, Entry(node, c, o));
    }

    /** The object's side of an allocation. */
    method LinkList(oc: ObjectChain, node: SectionChain, ghost c: nat, ghost o: nat)
      requires o < |objects| && oc == objects[o] && Different(objects)
      requires Different(Nodes(log)) && ObjectsHold(objects, log)
      requires node !in Nodes(log) && node.next == null
      modifies oc`head, oc`tail, Nodes(log)`next
      ensures ObjectsHold(objects, log + [Entry(node, c, o)])
    {
      ListDifferent(log, o);
      AppendToObject(oc, node, InObject(log, o));
      forall d | 0 <= d < |objects| && d != o ensures Listed(objects[d], InObject(log, d)) {
        ghost var l := InObject(log, d);
        ListInLog(log, d);
        assert old(Listed(objects[d], l));
        forall k | 0 <= k < |l| ensures SectionFollows(l, k) {
          assert old(SectionFollows(l, k));
          ObjectElementApart(log, o, d, k);
        }
      }
      ObjectsHoldMore(objects, log, Entry(node, c, o));
    }

    ghost predicate Linked()
      reads this, containers`next, objects`next
    {
      && ContainersLinked(initialSection, currentSection, containers) && containers[0].name == None
      && ObjectsLinked(initialObject, currentObject, objects)
    }

    /** First the container's side; the object lists stay. */
    method LinkFirst(sc: SectionContainer, node: SectionChain, ghost c: nat, ghost o: nat)
      requires Linked() && c < |containers| && sc == containers[c] && Different(Nodes(log))
      requires ContainersHold(containers, log) && ObjectsHold(objects, log)
      requires node !in Nodes(log) && node.chained == null
      modifies sc`init, sc`last, Nodes(log)`chained
      ensures Linked() && ContainersHold(containers, log + [Entry(node, c, o)]) && ObjectsHold(objects, log)
    {
      LinkChain(sc, node, c, o);
      forall d | 0 <= d < |objects| ensures Listed(objects[d], InObject(log, d)) {
        ListInLog(log, d);
        assert old(Listed(objects[d], InObject(log, d)));
        forall k | 0 <= k < |InObject(log, d)| ensures SectionFollows(InObject(log, d), k) {
          assert old(SectionFollows(InObject(log, d), k));
        }
      }
    }

    /** Then the object's side; the containers stay. */
    method LinkSecond(oc: ObjectChain, node: SectionChain, ghost c: nat, ghost o: nat, ghost more: Log)
      requires Linked() && o < |objects| && oc == objects[o] && Different(Nodes(log))
      requires ContainersHold(containers, more) && ObjectsHold(objects, log)
      requires node !in Nodes(log) && node.next == null
      modifies oc`head, oc`tail, Nodes(log)`next
      ensures Linked() && ContainersHold(containers, more) && ObjectsHold(objects, log + [Entry(node, c, o)])
    {
      LinkList(oc, node, c, o);
      forall d | 0 <= d < |containers| ensures Chained(containers[d], InContainer(more, d)) {
        ChainInLog(more, d);
        assert old(Chained(containers[d], InContainer(more, d)));
        forall k | 0 <= k < |InContainer(more, d)| ensures ChainFollows(InContainer(more, d), k) {
          assert old(ChainFollows(InContainer(more, d), k));
        }
      }
    }

    /** The log catches up with the lists. */
    ghost method Record(e: Entry<SectionChain>)
      requires Linked() && LogFits(log, |containers|, |objects|)
      requires e.con < |containers| && e.obj < |objects| && e.node !in Nodes(log)
      requires ContainersHold(containers, log + [e]) && ObjectsHold(objects, log + [e])
      modifies this`log
      ensures Valid() && log == old(log) + [e]
    {
      LogGrows(log, e, |containers|, |objects|);
      log := log + [e];
    }

    method LinkBoth(sc: SectionContainer, oc: ObjectChain, node: SectionChain, ghost e: Entry<SectionChain>)
      requires Linked() && Different(Nodes(log))
      requires ContainersHold(containers, log) && ObjectsHold(objects, log)
      requires e.con < |containers| && sc == containers[e.con] && e.obj < |objects| && oc == objects[e.obj]
      requires e.node == node && node !in Nodes(log) && node.next == null && node.chained == null
      modifies sc`init, sc`last, oc`head, oc`tail, Nodes(log)`next, Nodes(log)`chained
      ensures Linked() && ContainersHold(containers, log + [e]) && ObjectsHold(objects, log + [e])
    {
      LinkFirst(sc, node, e.con, e.obj);
      LinkSecond(oc, node, e.con, e.obj, log + [e]);
    }

    /** One more section at the end of a container's chain and of an object's list. */
    method LinkSection(sc: SectionContainer, oc: ObjectChain, node: SectionChain, ghost e: Entry<SectionChain>)
      requires Valid() && e.con < |containers| && sc == containers[e.con] && e.obj < |objects| && oc == objects[e.obj]
      requires e.node == node && node !in Nodes(log) && node.next == null && node.chained == null
      modifies this`log, sc`init, sc`last, oc`head, oc`tail, Nodes(log)`next, Nodes(log)`chained
      ensures Valid() && log == old(log) + [e]
    {
      LinkBoth(sc, oc, node, e);
      Record(e);
    }

    /**
     alloc_section_chain. The section remembers the object file it was given; it is listed with
     the current one.
     */
    method AllocSection(p: nat, sc: SectionContainer, obj: ObjectChain?, ghost c: nat)
      returns (node: SectionChain, ghost e: Entry<SectionChain>)
      requires Valid() && c < |containers| && sc == containers[c]
      modifies this`log, sc`init, sc`last, currentObject`head, currentObject`tail, Nodes(log)`next, Nodes(log)`chained
      ensures Valid() && log == old(log) + [e] && fresh(node) && e == Entry(node, c, old(|objects|) - 1)
      ensures node.p == p && node.obj == if obj != null then obj else currentObject
    {
      var owner := if obj != null then obj else currentObject;
      node := NewSection(p, owner);
      e := Entry(node, c, |objects| - 1);
      LinkSection(sc, currentObject, node, e);
    }

    method NewSection(p: nat, obj: ObjectChain) returns (node: SectionChain)
      requires Valid()
      ensures Valid() && fresh(node) && node !in Nodes(log)
      ensures node.p == p && node.obj == obj && node.next == null && node.chained == null
    {
      node := new SectionChain(p, obj);
    }

    /** Hangs a container behind the last one; no chain and no list reads its next field. */
    method HangContainer(sc: SectionContainer, ghost cs: seq<SectionContainer>)
      requires ContainersHold(cs, log) && ObjectsHold(objects, log)
      requires ObjectsLinked(initialObject, currentObject, objects)
      modifies this`currentSection, currentSection`next
      ensures ContainersHold(cs, log) && ObjectsHold(objects, log)
      ensures ObjectsLinked(initialObject, currentObject, objects)
      ensures old(currentSection).next == sc && currentSection == sc
    {
      currentSection.next := sc;
      currentSection := sc;
    }

    method HangKeeping(sc: SectionContainer)
      requires Linked() && sc !in containers && sc.next == null
      requires ContainersHold(containers + [sc], log) && ObjectsHold(objects, log)
      modifies this`currentSection, currentSection`next
      ensures ContainersLinked(initialSection, currentSection, containers + [sc])
      ensures ObjectsLinked(initialObject, currentObject, objects)
      ensures ContainersHold(containers + [sc], log) && ObjectsHold(objects, log)
    {
      ghost var cs := containers + [sc];
      HangContainer(sc, cs);
      forall k | 0 <= k < |cs| ensures ContainerFollows(cs, k) {
        assert k < |containers| ==> old(ContainerFollows(containers, k));
      }
    }

    ghost method RecordContainer(sc: SectionContainer)
      requires ContainersLinked(initialSection, currentSection, containers + [sc])
      requires containers != [] && containers[0].name == None && ObjectsLinked(initialObject, currentObject, objects)
      requires LogFits(log, |containers|, |objects|)
      requires ContainersHold(containers + [sc], log) && ObjectsHold(objects, log)
      modifies this`containers
      ensures Valid() && containers == old(containers) + [sc]
    {
      containers := containers + [sc];
    }

    method NewContainer(name: Option<Name>) returns (sc: SectionContainer)
      requires Valid()
      ensures Valid() && fresh(sc) && sc !in containers && sc.name == name && sc.next == null && sc.init == null
    {
      sc := new SectionContainer(name);
    }

    /** alloc_section_container. */
    method AllocContainer(name: Option<Name>) returns (sc: SectionContainer)
      requires Valid()
      modifies this`currentSection, this`containers, currentSection`next
      ensures Valid() && fresh(sc) && sc.name == name && containers == old(containers) + [sc]
    {
      NothingBehind(log, |containers|);
      sc := NewContainer(name);
      ContainersHoldNew(containers, sc, log);
      HangKeeping(sc);
      RecordContainer(sc);
    }

    /** Hangs an object behind the last one; no chain and no list reads its next field. */
    method HangObject(oc: ObjectChain, ghost os: seq<ObjectChain>)
      requires ContainersHold(containers, log) && ObjectsHold(os, log)
      requires ContainersLinked(initialSection, currentSection, containers)
      modifies this`currentObject, currentObject`next
      ensures ContainersHold(containers, log) && ObjectsHold(os, log)
      ensures ContainersLinked(initialSection, currentSection, containers)
      ensures old(currentObject).next == oc && currentObject == oc
    {
      currentObject.next := oc;
      currentObject := oc;
    }

    method HangObjectKeeping(oc: ObjectChain)
      requires Linked() && oc !in objects && oc.next == null
      requires ContainersHold(containers, log) && ObjectsHold(objects + [oc], log)
      modifies this`currentObject, currentObject`next
      ensures ObjectsLinked(initialObject, currentObject, objects + [oc])
      ensures ContainersLinked(initialSection, currentSection, containers)
      ensures ContainersHold(containers, log) && ObjectsHold(objects + [oc], log)
    {
      ghost var os := objects + [oc];
      HangObject(oc, os);
      forall k | 0 <= k < |os| ensures ObjectFollows(os, k) {
        assert k < |objects| ==> old(ObjectFollows(objects, k));
      }
    }

    ghost method RecordObject(oc: ObjectChain)
      requires ContainersLinked(initialSection, currentSection, containers) && containers[0].name == None
      requires ObjectsLinked(initialObject, currentObject, objects + [oc])
      requires LogFits(log, |containers|, |objects|)
      requires ContainersHold(containers, log) && ObjectsHold(objects + [oc], log)
      modifies this`objects
      ensures Valid() && objects == old(objects) + [oc]
    {
      objects := objects + [oc];
    }

    method NewObject() returns (oc: ObjectChain)
      requires Valid()
      ensures Valid() && fresh(oc) && oc !in objects && oc.next == null && oc.head == null
    {
      oc := new ObjectChain();
    }

    /** __z__link__alloc_obj_chain. */
    method AllocObject() returns (oc: ObjectChain)
      requires Valid()
      modifies this`currentObject, this`objects, currentObject`next
      ensures Valid() && fresh(oc) && objects == old(objects) + [oc]
    {
      NothingInNew(log, |objects|);
      oc := NewObject();
      ObjectsHoldNew(objects, oc, log);
      HangObjectKeeping(oc);
      RecordObject(oc);
    }

    lemma {:induction false} ChainOf(k: nat)
      requires Valid() && k < |containers|
      ensures Chained(containers[k], InContainer(log, k)) && ContainerFollows(containers, k)
    {
      assert ContainersHold(containers, log);
    }

    lemma {:induction false} ListOf(k: nat)
      requires Valid() && k < |objects|
      ensures Listed(objects[k], InObject(log, k)) && ObjectFollows(objects, k)
    {
      assert ObjectsHold(objects, log);
    }

    /** A walk of one container's chain. */
    static method WalkChain(sc: SectionContainer, ghost c: seq<SectionChain>) returns (visited: seq<SectionChain>)
      requires Chained(sc, c)
      ensures visited == c
    {
      visited := [];
      var node := sc.init;
      while node != null
        invariant |visited| <= |c| && visited == c[..|visited|]
        invariant node == if |visited| < |c| then c[|visited|] else null
        decreases |c| - |visited|
      {
        assert ChainFollows(c, |visited|);
        visited := visited + [node];
        node := node.chained;
      }
    }

    static method WalkList(oc: ObjectChain, ghost c: seq<SectionChain>) returns (visited: seq<SectionChain>)
      requires Listed(oc, c)
      ensures visited == c
    {
      visited := [];
      var node := oc.head;
      while node != null
        invariant |visited| <= |c| && visited == c[..|visited|]
        invariant node == if |visited| < |c| then c[|visited|] else null
        decreases |c| - |visited|
      {
        assert SectionFollows(c, |visited|);
        visited := visited + [node];
        node := node.next;
      }
    }

    /** One container of a walk. */
    method VisitContainer(sc: SectionContainer, ghost k: nat) returns (part: seq<SectionChain>, next: SectionContainer?)
      requires Valid() && k < |containers| && sc == containers[k]
      ensures part == InContainer(log, k) && next == if k + 1 < |containers| then containers[k + 1] else null
      ensures Valid()
    {
      ChainOf(k);
      part := WalkChain(sc, InContainer(log, k));
      next := sc.next;
    }

    method VisitObject(oc: ObjectChain, ghost k: nat) returns (part: seq<SectionChain>, next: ObjectChain?)
      requires Valid() && k < |objects| && oc == objects[k]
      ensures part == InObject(log, k) && next == if k + 1 < |objects| then objects[k + 1] else null
      ensures Valid()
    {
      ListOf(k);
      part := WalkList(oc, InObject(log, k));
      next := oc.next;
    }

    /** Containers by next, their sections by this. */
    method WalkContainers() returns (visited: seq<SectionChain>)
      requires Valid()
      ensures visited == ByContainer(log, |containers|)
    {
      visited := [];
      var sc: SectionContainer? := initialSection;
      ghost var k := 0;
      while sc != null
        invariant Valid()
        invariant k <= |containers| && sc == if k < |containers| then containers[k] else null
        invariant visited == ByContainer(log, k)
        decreases |containers| - k
      {
        var part, next := VisitContainer(sc, k);
        visited, sc, k := visited + part, next, k + 1;
      }
    }

    /** Objects by next, their sections by next. */
    method WalkObjects() returns (visited: seq<SectionChain>)
      requires Valid()
      ensures visited == ByObject(log, |objects|)
    {
      visited := [];
      var oc: ObjectChain? := initialObject;
      ghost var k := 0;
      while oc != null
        invariant Valid()
        invariant k <= |objects| && oc == if k < |objects| then objects[k] else null
        invariant visited == ByObject(log, k)
        decreases |objects| - k
      {
        var part, next := VisitObject(oc, k);
        visited, oc, k := visited + part, next, k + 1;
      }
    }

    /** Either walk meets every section exactly once. */
    lemma {:induction false} WalksMeetAll()
      requires Valid()
      ensures multiset(ByContainer(log, |containers|)) == multiset(Nodes(log))
      ensures multiset(ByObject(log, |objects|)) == multiset(Nodes(log))
    {
      WalksVisitAllOnce(log, |containers|, |objects|);
    }

    /** match_section: the first container of that name. */
    method MatchSection(name: Name) returns (sc: SectionContainer?)
      requires Valid()
      ensures sc == null ==> forall k :: 0 <= k < |containers| ==> containers[k].name != Some(name)
      ensures sc != null ==> exists c :: 0 <= c < |containers| && IsFirstNamed(c, name) && sc == containers[c]
    {
      ghost var c := 0;
      sc := initialSection;
      while sc != null
        invariant c <= |containers| && sc == if c < |containers| then containers[c] else null
        invariant forall k :: 0 <= k < c ==> containers[k].name != Some(name)
        decreases |containers| - c
      {
        assert ContainerFollows(containers, c);
        if sc.name == Some(name) {
          assert IsFirstNamed(c, name);
          return;
        }
        sc, c := sc.next, c + 1;
      }
    }

    /** Container c has that name and none before it does. */
    ghost predicate IsFirstNamed(c: nat, name: Name)
      requires c < |containers|
      reads this, containers
    {
      containers[c].name == Some(name) && forall k :: 0 <= k < c ==> containers[k].name != Some(name)
    }

    // ---------- the index ----------

    ghost function ContainerNames(): (s: seq<Option<Name>>)
      reads this
      ensures |s| == |containers| && forall i :: 0 <= i < |s| ==> s[i] == containers[i].name
    {
      seq(|containers|, i requires 0 <= i < |containers| reads this => containers[i].name)
    }

    /** The header pointers in every container's chain. */
    ghost function Headers(): (s: seq<seq<nat>>)
      reads this
      ensures |s| == |containers| && forall i :: 0 <= i < |s| ==> s[i] == HeadersOf(InContainer(log, i))
    {
      seq(|containers|, i requires 0 <= i < |containers| reads this => HeadersOf(InContainer(log, i)))
    }

    /** The position of a header in one chain, counted in eight bits. */
    static method FindInChain(sc: SectionContainer, q: nat, ghost c: seq<SectionChain>) returns (found: bool, j: nat)
      requires Chained(sc, c)
      ensures found <==> PositionOf(HeadersOf(c), q) < |c|
      ensures j < 0x100 && (found ==> j == Low8(PositionOf(HeadersOf(c), q)))
    {
      ghost var k := 0;
      var node := sc.init;
      j := 0;
      ghost var ps := HeadersOf(c);
      while node != null
        invariant k <= |c| && j == Low8(k) && node == if k < |c| then c[k] else null
        invariant PositionOf(ps, q) == PositionFrom(ps, q, k)
        decreases |c| - k
      {
        assert ChainFollows(c, k);
        CountsUp(k);
        if node.p == q {
          return true, j;
        }
        node, j, k := node.chained, (j + 1) % 0x100, k + 1;
      }
      found := false;
    }

    method FindInContainer(
      sc: SectionContainer, name: Name, q: nat, ghost k: nat, ghost names: seq<Option<Name>>, ghost ps: seq<seq<nat>>)
      returns (found: bool, j: nat, next: SectionContainer?)
      requires Valid() && k < |containers| == |names| == |ps| && sc == containers[k]
      requires names[k] == sc.name && ps[k] == HeadersOf(InContainer(log, k))
      ensures next == if k + 1 < |containers| then containers[k + 1] else null
      ensures j < 0x100 && CodeFrom(names, ps, name, q, k) == if found then Low8(k) * 0x100 + j
              else CodeFrom(names, ps, name, q, k + 1)
      ensures Valid()
    {
      ChainOf(k);
      found, j, next := false, 0, sc.next;
      if sc.name == Some(name) {
        found, j := FindInChain(sc, q, InContainer(log, k));
      }
      FindStep(names, ps, name, q, k);
    }

    /** get_section_index_by_name. */
    method IndexByName(name: Name, q: nat) returns (index: nat)
      requires Valid()
      ensures index == CodeFrom(ContainerNames(), Headers(), name, q, 0)
    {
      var sc: SectionContainer? := initialSection;
      var i := 0;
      ghost var k := 0;
      ghost var names, ps := ContainerNames(), Headers();
      ghost var code := CodeFrom(names, ps, name, q, 0);
      while sc != null
        invariant Valid()
        invariant k <= |containers| && i == Low8(k) && sc == if k < |containers| then containers[k] else null
        invariant CodeFrom(names, ps, name, q, k) == code
        decreases |containers| - k
      {
        var found, j, next := FindInContainer(sc, name, q, k, names, ps);
        CountsUp(k);
        if found {
          return i * 0x100 + j;
        }
        sc, i, k := next, (i + 1) % 0x100, k + 1;
      }
      index := 0;
    }

    /** The first section of a chain whose eight-bit position is lo. */
    static method AtPosition(
      sc: SectionContainer, hit: bool, lo: nat, ghost c: seq<SectionChain>)
      returns (node: SectionChain?)
      requires Chained(sc, c) && lo < 0x100
      ensures node == if hit && lo < |c| then c[lo] else null
    {
      node := sc.init;
      var j := 0;
      ghost var k := 0;
      while node != null
        invariant k <= |c| && j == Low8(k) && node == if k < |c| then c[k] else null
        invariant hit ==> k <= lo
        decreases |c| - k
      {
        assert ChainFollows(c, k);
        if hit && j == lo {
          return;
        }
        node, j, k := node.chained, (j + 1) % 0x100, k + 1;
      }
    }

    method AtPlace(
      sc: SectionContainer, hit: bool, lo: nat, ghost k: nat)
      returns (node: SectionChain?, next: SectionContainer?)
      requires Valid() && k < |containers| && sc == containers[k] && lo < 0x100
      ensures node == if hit && lo < |InContainer(log, k)| then InContainer(log, k)[lo] else null
      ensures next == if k + 1 < |containers| then containers[k + 1] else null
      ensures Valid()
    {
      ChainOf(k);
      node := AtPosition(sc, hit, lo, InContainer(log, k));
      next := sc.next;
    }

    /** One round of the search: the section if both counters agree, or the next container. */
    method TryPlace(sc: SectionContainer, i: nat, hi: nat, lo: nat, ghost k: nat, ghost ps: seq<seq<nat>>)
      returns (node: SectionChain?, next: SectionContainer?, j: nat)
      requires Valid() && k < |containers| && sc == containers[k] && i == Low8(k) && lo < 0x100 && ps == Headers()
      ensures Valid() && j == Low8(k + 1) && next == if k + 1 < |containers| then containers[k + 1] else null
      ensures node == null ==> DecodeFrom(ps, hi, lo, k) == DecodeFrom(ps, hi, lo, k + 1)
      ensures node != null ==> lo < |InContainer(log, k)| && node == InContainer(log, k)[lo]
                               && DecodeFrom(ps, hi, lo, k) == Some(Place(k, lo))
    {
      CountsUp(k);
      node, next := AtPlace(sc, i == hi, lo, k);
      j := (i + 1) % 0x100;
    }

    /** get_section_chain_by_index. */
    method ChainByIndex(index: nat) returns (node: SectionChain?)
      requires Valid() && index < 0x1_0000
      ensures var r := Decode(Headers(), index);
              node == if r.Some? && r.value.con < |containers| && r.value.pos < |InContainer(log, r.value.con)|
                      then InContainer(log, r.value.con)[r.value.pos] else null
      ensures node == null <==> Decode(Headers(), index).None?
    {
      var sc: SectionContainer? := initialSection;
      var i := 0;
      ghost var k := 0;
      ghost var ps := Headers();
      while sc != null
        invariant Valid()
        invariant k <= |containers| && i == Low8(k) && sc == if k < |containers| then containers[k] else null
        invariant DecodeFrom(ps, index / 0x100, index % 0x100, k) == Decode(ps, index)
        decreases |containers| - k
      {
        node, sc, i := TryPlace(sc, i, index / 0x100, index % 0x100, k, ps);
        if node != null {
          return;
        }
        k := k + 1;
      }
      node := null;
    }

    /** From a header to its index and back, in a small table: a section with that header. */
    method FindAgain(name: Name, q: nat, ghost k: nat) returns (node: SectionChain)
      requires Valid() && Small(Headers()) && k < |containers|
      requires containers[k].name == Some(name) && q in Headers()[k]
      ensures node.p == q
    {
      var index := IndexByName(name, q);
      SmallCodesRoundTrip(ContainerNames(), Headers(), name, q, k);
      CodeIsSmall(ContainerNames(), Headers(), name, q);
      var found := ChainByIndex(index);
      node := found;
    }

    static lemma {:induction false} CodeIsSmall(names: seq<Option<Name>>, ps: seq<seq<nat>>, name: Name, q: nat)
      requires |names| == |ps|
      ensures CodeFrom(names, ps, name, q, 0) < 0x1_0000
    {
    }
  }
}
