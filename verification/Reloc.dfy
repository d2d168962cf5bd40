/** Relocation of COFF sections: words of the image are increased in place. */
module RelocSpec {
  import opened Machine
  import opened LittleEndian

  /** A word at a file offset to be adjusted: the address it is to reach and its own address. */
  datatype Reloc = Reloc(site: nat, kind: nat, dst: nat, src: nat)

  const ADDR64: nat := 1
  const ADDR32: nat := 2
  const ADDR32NB: nat := 3
  const REL32: nat := 4
  const REL32_SSPAN: nat := 0x14

  /** Bytes of the word that a kind of relocation writes; unsupported kinds write nothing. */
  function Width(kind: nat): nat {
    if kind == ADDR64 then 8
    else if kind == ADDR32 || kind == ADDR32NB || kind == REL32 || kind == REL32_SSPAN then 4
    else 0
  }

  /** What is added to the word. The image base and the address are added in 32 bits, also for a 64-bit word. */
  function Amount(r: Reloc, base: nat): int {
    if r.kind == ADDR64 || r.kind == ADDR32 then (base + r.dst) % 0x1_0000_0000
    else if r.kind == ADDR32NB then r.dst
    else r.dst - (r.src + 4)
  }

  function Wrap(v: int, n: nat): (w: nat)
    ensures w < if n == 8 then 0x1_0000_0000_0000_0000 else 0x1_0000_0000
  {
    if n == 8 then v % 0x1_0000_0000_0000_0000 else v % 0x1_0000_0000
  }

  predicate InRange(r: Reloc, n: nat) {
    r.site + Width(r.kind) <= n
  }

  function NewWord(d: seq<uint8>, r: Reloc, base: nat): nat
    requires InRange(r, |d|)
  {
    Wrap(LeAt(d, r.site, Width(r.kind)) + Amount(r, base), Width(r.kind))
  }

  /** The image with n bytes at offset o replaced. */
  function Stored(d: seq<uint8>, o: nat, s: seq<uint8>): (e: seq<uint8>)
    requires o + |s| <= |d|
    ensures |e| == |d|
  {
    d[..o] + s + d[o + |s|..]
  }

  function Fill(d: seq<uint8>, r: Reloc, base: nat): (e: seq<uint8>)
    requires InRange(r, |d|)
    ensures |e| == |d|
  {
    Stored(d, r.site, Le(NewWord(d, r, base), Width(r.kind)))
  }

  /** What one relocation makes of its word, by the number of its type; any other type leaves everything. */
  ghost predicate Adjusted(d: seq<uint8>, e: seq<uint8>, r: Reloc, base: nat) {
    && |e| == |d|
    && (r.kind == 1 ==> r.site + 8 <= |d| && LeAt(e, r.site, 8) == LongSum(LeAt(d, r.site, 8), r.dst, base))
    && (r.kind in {2, 3, 4, 0x14} ==>
          r.site + 4 <= |d| && LeAt(e, r.site, 4) == (LeAt(d, r.site, 4) + ShortAmount(r, base)) % 0x1_0000_0000)
    && (r.kind !in {1, 2, 3, 4, 0x14} ==> e == d)
  }

  /** Address and image base are added in 32 bits, to a word of 64. */
  function LongSum(word: nat, address: nat, base: nat): nat {
    (word + (address + base) % 0x1_0000_0000) % 0x1_0000_0000_0000_0000
  }

  /** By the number of its type: with the image base, without it, or as a distance from behind the word. */
  function ShortAmount(r: Reloc, base: nat): int {
    if r.kind == 2 then base + r.dst else if r.kind == 3 then r.dst else r.dst - (r.src + 4)
  }

  predicate AllInRange(rs: seq<Reloc>, n: nat) {
    forall r :: r in rs ==> InRange(r, n)
  }

  /** All relocations, in the order of the list. */
  function FillAll(d: seq<uint8>, rs: seq<Reloc>, base: nat): (e: seq<uint8>)
    requires AllInRange(rs, |d|)
    ensures |e| == |d|
  {
    if rs == [] then d else Fill(FillAll(d, rs[..|rs| - 1], base), rs[|rs| - 1], base)
  }

  predicate Inside(r: Reloc, i: nat) {
    r.site <= i < r.site + Width(r.kind)
  }

  predicate Apart(r: Reloc, s: Reloc) {
    r.site + Width(r.kind) <= s.site || s.site + Width(s.kind) <= r.site
  }

  ghost predicate Disjoint(rs: seq<Reloc>) {
    forall i, j :: 0 <= i < |rs| && 0 <= j < |rs| && i != j ==> Apart(rs[i], rs[j])
  }

  lemma {:induction false} StoredAt(d: seq<uint8>, o: nat, s: seq<uint8>, i: nat)
    requires o + |s| <= |d| && i < |d|
    ensures Stored(d, o, s)[i] == if o <= i < o + |s| then s[i - o] else d[i]
  {
  }

  /** Bytes outside every site stay. */
  lemma {:induction false} OutsideUntouched(d: seq<uint8>, rs: seq<Reloc>, base: nat, i: nat)
    requires AllInRange(rs, |d|) && i < |d| && forall r :: r in rs ==> !Inside(r, i)
    ensures FillAll(d, rs, base)[i] == d[i]
  {
    if rs != [] {
      var p, r := rs[..|rs| - 1], rs[|rs| - 1];
      OutsideUntouched(d, p, base, i);
      var e := FillAll(d, p, base);
      StoredAt(e, r.site, Le(NewWord(e, r, base), Width(r.kind)), i);
    }
  }

  lemma {:induction false} SameWord(d: seq<uint8>, e: seq<uint8>, o: nat, n: nat)
    requires o + n <= |d| && o + n <= |e| && forall i :: o <= i < o + n ==> d[i] == e[i]
    ensures LeAt(d, o, n) == LeAt(e, o, n)
    decreases n
  {
    if n > 0 { SameWord(d, e, o + 1, n - 1); }
  }

  lemma {:induction false} DisjointPrefix(rs: seq<Reloc>)
    requires rs != [] && Disjoint(rs)
    ensures Disjoint(rs[..|rs| - 1])
    ensures forall k :: 0 <= k < |rs| - 1 ==> Apart(rs[k], rs[|rs| - 1])
  {
  }

  /** A word apart from all sites so far is still the original one. */
  lemma {:induction false} WordWaits(d: seq<uint8>, p: seq<Reloc>, r: Reloc, base: nat)
    requires AllInRange(p, |d|) && InRange(r, |d|) && forall k :: 0 <= k < |p| ==> Apart(p[k], r)
    ensures NewWord(FillAll(d, p, base), r, base) == NewWord(d, r, base)
  {
    var e := FillAll(d, p, base);
    forall i | r.site <= i < r.site + Width(r.kind) ensures e[i] == d[i] {
      OutsideUntouched(d, p, base, i);
    }
    SameWord(d, e, r.site, Width(r.kind));
  }

  lemma {:induction false} FillLast(d: seq<uint8>, rs: seq<Reloc>, base: nat)
    requires rs != [] && AllInRange(rs, |d|) && Disjoint(rs)
    ensures var p, r := rs[..|rs| - 1], rs[|rs| - 1];
            InRange(r, |d|) && AllInRange(p, |d|) && Disjoint(p)
            && FillAll(d, rs, base) == Stored(FillAll(d, p, base), r.site, Le(NewWord(d, r, base), Width(r.kind)))
  {
    DisjointPrefix(rs);
    WordWaits(d, rs[..|rs| - 1], rs[|rs| - 1], base);
  }

  /** Every site ends up with the word its relocation asks for, whatever the others are. */
  lemma {:induction false} SiteFilled(d: seq<uint8>, rs: seq<Reloc>, base: nat, k: nat)
    requires AllInRange(rs, |d|) && Disjoint(rs) && k < |rs|
    ensures InRange(rs[k], |d|)
    ensures Holds(FillAll(d, rs, base), rs[k].site, Le(NewWord(d, rs[k], base), Width(rs[k].kind)))
    decreases |rs|
  {
    var p, r := rs[..|rs| - 1], rs[|rs| - 1];
    FillLast(d, rs, base);
    var e, s := FillAll(d, p, base), Le(NewWord(d, r, base), Width(r.kind));
    if k < |p| {
      SiteFilled(d, p, base, k);
      assert p[k] == rs[k] && Apart(rs[k], r);
      KeepsOthers(e, r.site, s, rs[k].site, Le(NewWord(d, rs[k], base), Width(rs[k].kind)));
    } else {
      StoredHolds(e, r.site, s);
    }
  }

  lemma {:induction false} StoredHolds(d: seq<uint8>, o: nat, s: seq<uint8>)
    requires o + |s| <= |d|
    ensures Holds(Stored(d, o, s), o, s)
  {
    forall i | 0 <= i < |s| ensures Stored(d, o, s)[o + i] == s[i] { StoredAt(d, o, s, o + i); }
  }

  lemma {:induction false} KeepsOthers(d: seq<uint8>, o: nat, s: seq<uint8>, x: nat, t: seq<uint8>)
    requires o + |s| <= |d| && Holds(d, x, t) && (o + |s| <= x || x + |t| <= o)
    ensures Holds(Stored(d, o, s), x, t)
  {
    forall i | 0 <= i < |t| ensures Stored(d, o, s)[x + i] == t[i] { StoredAt(d, o, s, x + i); }
  }

  /** The result does not depend on the order in which the relocations are processed. */
  lemma {:induction false} OrderDoesNotMatter(d: seq<uint8>, rs: seq<Reloc>, ss: seq<Reloc>, base: nat)
    requires AllInRange(rs, |d|) && Disjoint(rs) && multiset(rs) == multiset(ss)
    ensures AllInRange(ss, |d|) && FillAll(d, rs, base) == FillAll(d, ss, base)
  {
    SameMembers(rs, ss);
    PermutationDisjoint(rs, ss);
    forall i | 0 <= i < |d| ensures FillAll(d, rs, base)[i] == FillAll(d, ss, base)[i] {
      if r :| r in rs && Inside(r, i) {
        ByteOf(d, rs, base, r, i);
        ByteOf(d, ss, base, r, i);
      } else {
        OutsideUntouched(d, rs, base, i);
        OutsideUntouched(d, ss, base, i);
      }
    }
  }

  lemma {:induction false} ByteOf(d: seq<uint8>, rs: seq<Reloc>, base: nat, r: Reloc, i: nat)
    requires AllInRange(rs, |d|) && Disjoint(rs) && r in rs && Inside(r, i)
    ensures i < |d| && FillAll(d, rs, base)[i] == Le(NewWord(d, r, base), Width(r.kind))[i - r.site]
  {
    var k :| 0 <= k < |rs| && rs[k] == r;
    SiteFilled(d, rs, base, k);
    var s := Le(NewWord(d, r, base), Width(r.kind));
    assert FillAll(d, rs, base)[r.site + (i - r.site)] == s[i - r.site];
  }

  lemma {:induction false} SameMembers(rs: seq<Reloc>, ss: seq<Reloc>)
    requires multiset(rs) == multiset(ss)
    ensures |rs| == |ss| && forall r :: r in rs <==> r in ss
  {
    assert |multiset(rs)| == |rs| && |multiset(ss)| == |ss|;
    assert forall r :: (r in rs <==> r in multiset(rs)) && (r in ss <==> r in multiset(ss));
  }

  /** A value that stands at place i of a sequence stands once less often in the rest. */
  lemma {:induction false} WithoutPlace(s: seq<Reloc>, i: nat)
    requires i < |s|
    ensures multiset(s) == multiset(s[..i] + s[i + 1..]) + multiset{s[i]}
  {
    assert s == s[..i] + [s[i]] + s[i + 1..];
  }

  lemma {:induction false} CancelOne(a: multiset<Reloc>, b: multiset<Reloc>, v: Reloc)
    requires a + multiset{v} == b + multiset{v}
    ensures a == b
  {
    assert a == (a + multiset{v}) - multiset{v};
    assert b == (b + multiset{v}) - multiset{v};
  }

  lemma {:induction false} PermutationDisjoint(rs: seq<Reloc>, ss: seq<Reloc>)
    requires multiset(rs) == multiset(ss) && Disjoint(rs)
    ensures Disjoint(ss)
  {
    SameMembers(rs, ss);
    forall i, j | 0 <= i < |ss| && 0 <= j < |ss| && i != j ensures Apart(ss[i], ss[j]) {
      assert ss[i] in rs;
      var a :| 0 <= a < |rs| && rs[a] == ss[i];
      WithoutPlace(rs, a);
      WithoutPlace(ss, i);
      var rest, left := ss[..i] + ss[i + 1..], rs[..a] + rs[a + 1..];
      assert ss[j] in rest by {
        assert ss[j] == if j < i then rest[j] else rest[j - 1];
      }
      CancelOne(multiset(rest), multiset(left), ss[i]);
      assert ss[j] in multiset(left);
      var b :| 0 <= b < |left| && left[b] == ss[j];
      assert left[b] == if b < a then rs[b] else rs[b + 1];
    }
  }

  lemma {:induction false} FilledReads(d: seq<uint8>, r: Reloc, base: nat)
    requires InRange(r, |d|) && r.kind in {1, 2, 3, 4, 0x14}
    ensures LeAt(Fill(d, r, base), r.site, Width(r.kind)) == NewWord(d, r, base)
  {
    var w, v := Width(r.kind), NewWord(d, r, base);
    StoredHolds(d, r.site, Le(v, w));
    if w == 4 { WordSizes(v); } else { LongWordSize(); }
    LeReadsBack(Fill(d, r, base), r.site, v, w);
  }

  /** The word of a relocation is adjusted as its type asks. */
  lemma {:induction false} FilledAsAsked(d: seq<uint8>, r: Reloc, base: nat)
    requires InRange(r, |d|)
    ensures Adjusted(d, Fill(d, r, base), r, base)
  {
    if r.kind in {1, 2, 3, 4, 0x14} {
      FilledReads(d, r, base);
      if r.kind == 2 { BaseAdds(LeAt(d, r.site, 4), base, r.dst); }
    } else {
      WritesByType(d, r, base);
    }
  }

  // ---------- where the words lead ----------

  /**
   A relative word reaches its target, whatever the other relocations are: counted from behind the
   word, it leads to the target plus the addend that was there before, modulo 2^32.
   */
  lemma {:induction false} RelativeWordReaches(d: seq<uint8>, rs: seq<Reloc>, base: nat, k: nat)
    requires AllInRange(rs, |d|) && Disjoint(rs) && k < |rs| && rs[k].kind in {4, 0x14}
    ensures rs[k].site + 4 <= |d|
    ensures (LeAt(FillAll(d, rs, base), rs[k].site, 4) + rs[k].src + 4) % 0x1_0000_0000
            == (rs[k].dst + LeAt(d, rs[k].site, 4)) % 0x1_0000_0000
  {
    WordFilled(d, rs, base, k);
    Congruent(LeAt(d, rs[k].site, 4), rs[k].dst, rs[k].src);
  }

  /**
   A 64-bit word holds the absolute address of its target plus the addend exactly if that address
   fits 32 bits, because image base and address are added in 32 bits.
   */
  lemma {:induction false} AbsoluteWordReachesIff(d: seq<uint8>, rs: seq<Reloc>, base: nat, k: nat)
    requires AllInRange(rs, |d|) && Disjoint(rs) && k < |rs| && rs[k].kind == 1
    requires base < 0x1_0000_0000 && rs[k].dst < 0x1_0000_0000
    ensures var site, at := rs[k].site, base + rs[k].dst;
            && site + 8 <= |d|
            && (LeAt(FillAll(d, rs, base), site, 8) == (LeAt(d, site, 8) + at) % 0x1_0000_0000_0000_0000
                <==> at < 0x1_0000_0000)
  {
    assert rs[k] in rs;
    LongWordHolds(d, rs, base, k, LeAt(d, rs[k].site, 8));
    CarryLost(LeAt(d, rs[k].site, 8), base + rs[k].dst);
  }

  /** What a 64-bit word holds. */
  lemma {:induction false} LongWordHolds(d: seq<uint8>, rs: seq<Reloc>, base: nat, k: nat, word: nat)
    requires AllInRange(rs, |d|) && Disjoint(rs) && k < |rs| && rs[k].kind == ADDR64
    requires rs[k].site + 8 <= |d| && word == LeAt(d, rs[k].site, 8)
    ensures LeAt(FillAll(d, rs, base), rs[k].site, 8)
            == (word + (base + rs[k].dst) % 0x1_0000_0000) % 0x1_0000_0000_0000_0000
  {
    LongWordFilled(d, rs, base, k);
  }

  lemma {:induction false} CarryFigures(base: nat, dst: nat)
    requires base == 0x40000 && dst == 0xffff_ffff
    ensures (0 + (base + dst) % 0x1_0000_0000) % 0x1_0000_0000_0000_0000 == 0x3_ffff != base + dst
  {
  }

  /** A word that was zero, for address 0xffffffff in an image at 0x40000: the carry into the upper half is lost. */
  lemma {:induction false} CarryOfWordLost(d: seq<uint8>, rs: seq<Reloc>, base: nat, k: nat)
    requires AllInRange(rs, |d|) && Disjoint(rs) && k < |rs| && rs[k].kind == ADDR64
    requires rs[k].dst == 0xffff_ffff && base == 0x40000 && rs[k].site + 8 <= |d| && LeAt(d, rs[k].site, 8) == 0
    ensures LeAt(FillAll(d, rs, base), rs[k].site, 8) == 0x3_ffff != base + rs[k].dst
  {
    CarryFigures(base, rs[k].dst);
    LongWordHolds(d, rs, base, k, 0);
  }

  lemma {:induction false} CarryLost(word: nat, at: nat)
    requires at < 0x2_0000_0000
    ensures (word + at % 0x1_0000_0000) % 0x1_0000_0000_0000_0000 == (word + at) % 0x1_0000_0000_0000_0000
            <==> at < 0x1_0000_0000
  {
  }

  /** An eight-byte site reads back as its new word. */
  lemma {:induction false} LongWordFilled(d: seq<uint8>, rs: seq<Reloc>, base: nat, k: nat)
    requires AllInRange(rs, |d|) && Disjoint(rs) && k < |rs| && Width(rs[k].kind) == 8
    ensures InRange(rs[k], |d|) && LeAt(FillAll(d, rs, base), rs[k].site, 8) == NewWord(d, rs[k], base)
  {
    SiteFilled(d, rs, base, k);
    assert Pow256(8) == 0x1_0000_0000_0000_0000 by { LongWordSize(); }
    LeReadsBack(FillAll(d, rs, base), rs[k].site, NewWord(d, rs[k], base), 8);
  }

  lemma {:induction false} LongWordSize()
    ensures Pow256(8) == 0x1_0000_0000_0000_0000
  {
    assert Pow256(2) == 0x1_0000;
    assert Pow256(4) == 0x1_0000_0000;
    assert Pow256(6) == 0x1_0000_0000_0000;
  }

  /** A four-byte site reads back as its new word. */
  lemma {:induction false} WordFilled(d: seq<uint8>, rs: seq<Reloc>, base: nat, k: nat)
    requires AllInRange(rs, |d|) && Disjoint(rs) && k < |rs| && Width(rs[k].kind) == 4
    ensures InRange(rs[k], |d|) && LeAt(FillAll(d, rs, base), rs[k].site, 4) == NewWord(d, rs[k], base)
  {
    SiteFilled(d, rs, base, k);
    WordSizes(NewWord(d, rs[k], base));
    LeReadsBack(FillAll(d, rs, base), rs[k].site, NewWord(d, rs[k], base), 4);
  }

  /**
   A 32-bit absolute word holds its target plus image base plus the addend, modulo 2^32; one without
   image base holds target plus addend, whatever the base.
   */
  lemma {:induction false} ShortWordHolds(d: seq<uint8>, rs: seq<Reloc>, base: nat, k: nat)
    requires AllInRange(rs, |d|) && Disjoint(rs) && k < |rs| && rs[k].kind in {2, 3}
    ensures var site := rs[k].site;
            && site + 4 <= |d|
            && LeAt(FillAll(d, rs, base), site, 4)
               == (LeAt(d, site, 4) + rs[k].dst + (if rs[k].kind == 2 then base else 0)) % 0x1_0000_0000
  {
    WordFilled(d, rs, base, k);
    BaseAdds(LeAt(d, rs[k].site, 4), base, rs[k].dst);
  }

  lemma {:induction false} BaseAdds(w: nat, base: nat, dst: nat)
    ensures (w + (base + dst) % 0x1_0000_0000) % 0x1_0000_0000 == (w + dst + base) % 0x1_0000_0000
  {
  }

  /** The types of the format, by number: those that write, and how much. Any other type writes nothing. */
  lemma {:induction false} WritesByType(d: seq<uint8>, r: Reloc, base: nat)
    ensures Width(r.kind) == if r.kind == 1 then 8 else if r.kind in {2, 3, 4, 0x14} then 4 else 0
    ensures Width(r.kind) == 0 && InRange(r, |d|) ==> Fill(d, r, base) == d
  {
    if Width(r.kind) == 0 && InRange(r, |d|) {
      assert Le(NewWord(d, r, base), 0) == [];
    }
  }

  lemma {:induction false} Congruent(w: nat, dst: nat, src: nat)
    ensures var m := 0x1_0000_0000;
            ((w + (dst - (src + 4))) % m + src + 4) % m == (dst + w) % m
  {
  }
}

module Reloc {
  import opened Machine
  import opened LittleEndian
  import opened RelocSpec

  /** One byte more. */
  lemma {:induction false} NextByte(was: seq<uint8>, now: seq<uint8>, o: nat, done: seq<uint8>, b: uint8)
    requires o + |done| < |was| && now == (was[..o] + done + was[o + |done|..])[o + |done| := b]
    ensures now == was[..o] + (done + [b]) + was[o + |done| + 1..]
  {
  }

  /** Stores the n low bytes of v. */
  method StoreWord(image: array<uint8>, o: nat, v: nat, n: nat)
    requires o + n <= image.Length
    modifies image
    ensures image[..] == Stored(old(image[..]), o, Le(v, n))
  {
    var i, rest := 0, v;
    ghost var was, done := image[..], [];
    while i < n
      invariant i == |done| <= n && image[..] == was[..o] + done + was[o + i..] && Le(v, n) == done + Le(rest, n - i)
    {
      image[o + i] := (rest % 0x100) as uint8;
      NextByte(was, image[..], o, done, (rest % 0x100) as uint8);
      assert done + Le(rest, n - i) == done + [(rest % 0x100) as uint8] + Le(rest / 0x100, n - i - 1);
      i, rest, done := i + 1, rest / 0x100, done + [(rest % 0x100) as uint8];
    }
  }

  /** The word of the width of the type. */
  method FillWord(image: array<uint8>, r: Reloc, base: nat)
    requires InRange(r, image.Length)
    modifies image
    ensures image[..] == Fill(old(image[..]), r, base)
  {
    var w := Width(r.kind);
    if w == 0 {
      assert Le(NewWord(image[..], r, base), 0) == [];
      return;
    }
    var v := Wrap(LeAt(image[..], r.site, w) + Amount(r, base), w);
    StoreWord(image, r.site, v, w);
  }

  /** fill_address. */
  method FillAddress(image: array<uint8>, r: Reloc, base: nat)
    requires InRange(r, image.Length)
    modifies image
    ensures image[..] == Fill(old(image[..]), r, base) && Adjusted(old(image[..]), image[..], r, base)
  {
    FilledAsAsked(image[..], r, base);
    FillWord(image, r, base);
  }
}
