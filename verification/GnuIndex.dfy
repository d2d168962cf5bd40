/**
 The GNU hash section as the linker builds it: a Bloom filter in front of
 buckets and a chain of hash words.  Symbols are entered with consecutive
 indices from symoffset; no end-of-chain bit is ever written.
 */
module GnuSpec {
  import opened Machine
  import opened Hashes
  import opened Bitmap

  /** The filter word of a hash, and the two bits it sets there. */
  function FilterWord(h: nat, size: nat): (w: nat)
    requires size > 0
    ensures w < size
  {
    BitAnd(h / 64, size - 1)
  }

  function FilterBit1(h: nat): nat { h % 64 }

  function FilterBit2(h: nat, shift: nat): nat { h / Pow2(shift) % 64 }

  /** The test at the head of gnu_lookup_filtered. */
  ghost predicate Accepts(filter: seq<Bits>, shift: nat, h: nat)
    requires |filter| > 0 && forall i :: 0 <= i < |filter| ==> |filter[i]| == 64
  {
    var f := filter[FilterWord(h, |filter|)];
    f[FilterBit1(h)] && f[FilterBit2(h, shift)]
  }

  /** Hash word stored for a name: bit 0 cleared. */
  function HashWord(s: Name): nat {
    GnuHash(s) - GnuHash(s) % 2
  }

  function BucketOf(s: Name, nb: nat): (b: nat)
    requires nb > 0
    ensures b < nb
  {
    GnuHash(s) % nb
  }

  /** First position of the list that falls into bucket b; |log| if there is none. */
  function FirstInBucket(log: seq<Name>, nb: nat, b: nat): (k: nat)
    requires nb > 0
    ensures k <= |log|
    ensures k < |log| ==> BucketOf(log[k], nb) == b
    ensures forall j :: 0 <= j < k ==> BucketOf(log[j], nb) != b
  {
    if log == [] then 0
    else if BucketOf(log[0], nb) == b then 0
    else 1 + FirstInBucket(log[1..], nb, b)
  }

  function ChainWord(words: seq<nat>, nb: nat, k: nat): nat
    requires nb + k < |words|
  {
    words[nb + k]
  }

  function Head(log: seq<Name>, nb: nat, symoffset: nat, b: nat): nat
    requires nb > 0
  {
    if FirstInBucket(log, nb, b) < |log| then symoffset + FirstInBucket(log, nb, b) else 0
  }

  /** Buckets and chain words represent the list of names entered so far. */
  ghost predicate Represents(words: seq<nat>, nb: nat, symoffset: nat, log: seq<Name>) {
    && nb > 0 && symoffset > 0 && nb + |log| <= |words|
    && (forall k :: 0 <= k < |log| ==> ChainWord(words, nb, k) == HashWord(log[k]) && HashWord(log[k]) != 0)
    && (forall k :: |log| <= k < |words| - nb ==> ChainWord(words, nb, k) == 0)
    && (forall b :: 0 <= b < nb ==> words[b] == Head(log, nb, symoffset, b))
  }

  ghost predicate Filtered(filter: seq<Bits>, shift: nat, log: seq<Name>) {
    && |filter| > 0 && (forall i :: 0 <= i < |filter| ==> |filter[i]| == 64)
    && forall k :: 0 <= k < |log| ==> Accepts(filter, shift, GnuHash(log[k]))
  }

  /** Setting a hash keeps every bit already set, so nothing accepted before is rejected after. */
  function Set(filter: seq<Bits>, shift: nat, h: nat): (r: seq<Bits>)
    requires |filter| > 0 && forall i :: 0 <= i < |filter| ==> |filter[i]| == 64
    ensures |r| == |filter| && forall i :: 0 <= i < |r| ==> |r[i]| == 64
  {
    var w := FilterWord(h, |filter|);
    filter[w := Or(Or(filter[w], OneHot(64, FilterBit1(h))), OneHot(64, FilterBit2(h, shift)))]
  }

  lemma {:induction false} SetAccepts(filter: seq<Bits>, shift: nat, h: nat, g: nat)
    requires |filter| > 0 && forall i :: 0 <= i < |filter| ==> |filter[i]| == 64
    ensures Accepts(Set(filter, shift, h), shift, h)
    ensures Accepts(filter, shift, g) ==> Accepts(Set(filter, shift, h), shift, g)
  {
  }

  function SetAll(filter: seq<Bits>, shift: nat, hs: seq<nat>): (r: seq<Bits>)
    requires |filter| > 0 && forall i :: 0 <= i < |filter| ==> |filter[i]| == 64
    ensures |r| == |filter| && forall i :: 0 <= i < |r| ==> |r[i]| == 64
  {
    if hs == [] then filter else Set(SetAll(filter, shift, hs[..|hs| - 1]), shift, hs[|hs| - 1])
  }

  /** No false negatives after any run of insertions, for every filter size and shift. */
  lemma {:induction false} NoFalseNegatives(filter: seq<Bits>, shift: nat, hs: seq<nat>, k: nat)
    requires |filter| > 0 && forall i :: 0 <= i < |filter| ==> |filter[i]| == 64
    requires k < |hs|
    ensures Accepts(SetAll(filter, shift, hs), shift, hs[k])
  {
    var pre := hs[..|hs| - 1];
    if k < |pre| {
      NoFalseNegatives(filter, shift, pre, k);
    }
    SetAccepts(SetAll(filter, shift, pre), shift, hs[|hs| - 1], hs[k]);
  }

  /** The filter of a fresh table after the names of a list. */
  function FilterOf(size: nat, shift: nat, log: seq<Name>): (r: seq<Bits>)
    requires size > 0
    ensures |r| == size && forall i :: 0 <= i < |r| ==> |r[i]| == 64
  {
    if log == [] then Repeat(Repeat(false, 64), size)
    else Set(FilterOf(size, shift, log[..|log| - 1]), shift, GnuHash(log[|log| - 1]))
  }

  lemma {:induction false} FilterAppended(size: nat, shift: nat, log: seq<Name>, s: Name)
    requires size > 0
    ensures FilterOf(size, shift, log + [s]) == Set(FilterOf(size, shift, log), shift, GnuHash(s))
  {
    assert (log + [s])[..|log|] == log;
  }

  /** Name s sets bit x of word w of a filter of 2^k words of 64 bits. */
  ghost predicate SetsBit(s: Name, k: nat, shift: nat, w: nat, x: nat) {
    && GnuHash(s) / 64 % Pow2(k) == w
    && (GnuHash(s) % 64 == x || GnuHash(s) / Pow2(shift) % 64 == x)
  }

  /** The filter holds the bits of the format and no others: two for every name entered. */
  lemma {:induction false} FilterBits(k: nat, shift: nat, log: seq<Name>, w: nat, x: nat)
    requires w < Pow2(k) && x < 64
    ensures FilterOf(Pow2(k), shift, log)[w][x] <==> exists s :: s in log && SetsBit(s, k, shift, w, x)
  {
    if log != [] {
      var pre, s := log[..|log| - 1], log[|log| - 1];
      FilterBits(k, shift, pre, w, x);
      MaskIsRemainder(GnuHash(s) / 64, k, Pow2(k));
      assert log == pre + [s];
      SetAddsBits(FilterOf(Pow2(k), shift, pre), shift, GnuHash(s), w, x);
      assert FilterOf(Pow2(k), shift, log)[w][x] <==> FilterOf(Pow2(k), shift, pre)[w][x] || SetsBit(s, k, shift, w, x);
    }
  }

  lemma {:induction false} SetAddsBits(filter: seq<Bits>, shift: nat, h: nat, w: nat, x: nat)
    requires |filter| > 0 && forall i :: 0 <= i < |filter| ==> |filter[i]| == 64
    requires w < |filter| && x < 64
    ensures Set(filter, shift, h)[w][x]
            <==> filter[w][x] || (BitAnd(h / 64, |filter| - 1) == w && (h % 64 == x || h / Pow2(shift) % 64 == x))
  {
  }

  // ---------- one insertion ----------

  lemma {:induction false} FirstInBucketAppended(log: seq<Name>, s: Name, nb: nat, b: nat)
    requires nb > 0
    ensures FirstInBucket(log + [s], nb, b)
            == (if FirstInBucket(log, nb, b) < |log| then FirstInBucket(log, nb, b)
                else if BucketOf(s, nb) == b then |log| else |log| + 1)
  {
    if log == [] {
      assert [s][1..] == [] && [] + [s] == [s];
    } else {
      assert (log + [s])[1..] == log[1..] + [s];
      FirstInBucketAppended(log[1..], s, nb, b);
    }
  }

  /** The words after entering a name at the next chain position. */
  function Entered(words: seq<nat>, nb: nat, symoffset: nat, n: nat, s: Name): (r: seq<nat>)
    requires nb > 0 && nb + n < |words|
    ensures |r| == |words|
  {
    var b := BucketOf(s, nb);
    var w := if words[b] == 0 then words[b := symoffset + n] else words;
    w[nb + n := HashWord(s)]
  }

  lemma {:induction false} EnterRepresents(words: seq<nat>, nb: nat, symoffset: nat, log: seq<Name>, s: Name)
    requires Represents(words, nb, symoffset, log) && nb + |log| < |words| && HashWord(s) != 0
    ensures Represents(Entered(words, nb, symoffset, |log|, s), nb, symoffset, log + [s])
  {
    var r := Entered(words, nb, symoffset, |log|, s);
    forall k | 0 <= k < |log| + 1
      ensures ChainWord(r, nb, k) == HashWord((log + [s])[k]) && HashWord((log + [s])[k]) != 0
    {
      assert k < |log| ==> ChainWord(words, nb, k) == HashWord(log[k]);
    }
    forall k | |log| + 1 <= k < |r| - nb ensures ChainWord(r, nb, k) == 0 {
      assert ChainWord(words, nb, k) == 0;
    }
    forall c | 0 <= c < nb ensures r[c] == Head(log + [s], nb, symoffset, c) {
      assert words[c] == Head(log, nb, symoffset, c);
      FirstInBucketAppended(log, s, nb, c);
    }
  }

  /** The first zero chain word is the next one to be used. */
  lemma {:induction false} ZeroFromLength(words: seq<nat>, nb: nat, symoffset: nat, log: seq<Name>, k: nat)
    requires Represents(words, nb, symoffset, log) && nb + k < |words|
    ensures ChainWord(words, nb, k) == 0 <==> k >= |log|
  {
  }

  // ---------- lookup ----------

  /** The symbol table agrees with the list of names entered. */
  ghost predicate Named(log: seq<Name>, symoffset: nat, names: seq<Name>) {
    forall k :: 0 <= k < |log| ==> symoffset + k < |names| && names[symoffset + k] == log[k]
  }

  /** The chain walk leaves the loop at position k: a match, or an end-of-chain bit. */
  ghost predicate Stops(words: seq<nat>, nb: nat, symoffset: nat, names: seq<Name>, s: Name, k: nat)
    requires nb + k < |words|
  {
    var w := ChainWord(words, nb, k);
    || (GnuHash(s) / 2 == w / 2 && symoffset + k < |names| && names[symoffset + k] == s)
    || w % 2 == 1
  }

  /** The walk starts at or before the first occurrence of a present name, and that is where it stops. */
  lemma {:induction false} WalkFinds(
    words: seq<nat>, nb: nat, symoffset: nat, log: seq<Name>, names: seq<Name>, s: Name)
    requires Represents(words, nb, symoffset, log) && Named(log, symoffset, names) && s in log
    ensures var k0, n := FirstInBucket(log, nb, BucketOf(s, nb)), IndexOf(log, s);
            && k0 <= n < |log| && words[BucketOf(s, nb)] == symoffset + k0
            && Stops(words, nb, symoffset, names, s, n)
            && forall k :: k0 <= k < n ==> !Stops(words, nb, symoffset, names, s, k)
  {
    var b := BucketOf(s, nb);
    var k0, n := FirstInBucket(log, nb, b), IndexOf(log, s);
    assert n < |log| && log[n] == s;
    assert words[b] == Head(log, nb, symoffset, b);
    WalkStep(words, nb, symoffset, log, names, s, n);
    forall k | k0 <= k < n ensures !Stops(words, nb, symoffset, names, s, k) {
      WalkStep(words, nb, symoffset, log, names, s, k);
    }
  }

  /** What the walk meets at position k: never an end bit, and a match exactly at the first occurrence. */
  lemma {:induction false} WalkStep(
    words: seq<nat>, nb: nat, symoffset: nat, log: seq<Name>, names: seq<Name>, s: Name, k: nat)
    requires Represents(words, nb, symoffset, log) && Named(log, symoffset, names) && s in log && k <= IndexOf(log, s)
    ensures nb + k < |words| && symoffset + k < |names| && words[nb + k] % 2 == 0
    ensures GnuHash(s) / 2 == words[nb + k] / 2 && names[symoffset + k] == s <==> k == IndexOf(log, s)
  {
    var n := IndexOf(log, s);
    assert n < |log| && log[n] == s && names[symoffset + k] == log[k];
    assert ChainWord(words, nb, k) == HashWord(log[k]);
    ClearBit0(GnuHash(log[k]));
  }

  lemma {:induction false} ClearBit0(h: nat)
    ensures (h - h % 2) % 2 == 0 && (h - h % 2) / 2 == h / 2
  {
  }

  /** gnu_lookup_filtered reaches the chain walk. */
  ghost predicate Walks(words: seq<nat>, nb: nat, filter: seq<Bits>, shift: nat, s: Name)
    requires nb > 0 && nb <= |words| && Filtered(filter, shift, [])
  {
    Accepts(filter, shift, GnuHash(s)) && words[BucketOf(s, nb)] != 0
  }

  /**
   A walk ends inside the table exactly for the names entered: an absent name that
   gets as far as the chain meets neither a match nor an end-of-chain bit in any
   word of the table.
   */
  lemma {:induction false} WalkEndsIffPresent(
    words: seq<nat>, nb: nat, symoffset: nat, log: seq<Name>, names: seq<Name>, s: Name)
    requires Represents(words, nb, symoffset, log) && Named(log, symoffset, names) && GnuHash(s) >= 2
    ensures s in log
            <==> exists k :: FirstInBucket(log, nb, BucketOf(s, nb)) <= k < |words| - nb
                             && Stops(words, nb, symoffset, names, s, k)
  {
    if s in log {
      WalkFinds(words, nb, symoffset, log, names, s);
    } else {
      forall k | 0 <= k < |words| - nb ensures !Stops(words, nb, symoffset, names, s, k) {
        if k < |log| {
          assert ChainWord(words, nb, k) == HashWord(log[k]) && log[k] in log;
        } else {
          assert ChainWord(words, nb, k) == 0;
        }
      }
    }
  }

  /** A name that was entered is never turned away before the walk. */
  lemma {:induction false} PresentWalks(
    words: seq<nat>, nb: nat, symoffset: nat, log: seq<Name>, filter: seq<Bits>, shift: nat, s: Name)
    requires Represents(words, nb, symoffset, log) && Filtered(filter, shift, log) && s in log
    ensures Walks(words, nb, filter, shift, s)
  {
    var n := IndexOf(log, s);
    assert log[n] == s && words[BucketOf(s, nb)] == Head(log, nb, symoffset, BucketOf(s, nb));
    assert Accepts(filter, shift, GnuHash(log[n]));
  }
}

module GnuIndex {
  import opened Machine
  import opened Hashes
  import opened Bitmap
  import opened ElfDynamicSpec
  import opened GnuSpec

  class GnuHashTable {
    const nbuckets: nat
    const symoffset: nat
    const shift: nat
    var filter: array<Bits>   // bloom_size words of 64 bits
    var words: array<nat>     // buckets, then hash words
    ghost var log: seq<Name>  // the names entered, in order

    ghost predicate Valid()
      reads this, filter, words
    {
      && Filtered(filter[..], shift, log)
      && Represents(words[..], nbuckets, symoffset, log)
    }

    constructor (nb: nat, symoffset: nat, size: nat, shift: nat, capacity: nat)
      requires nb > 0 && symoffset > 0 && size > 0 && shift < 32
      ensures Valid() && log == [] && fresh(filter) && fresh(words)
      ensures this.nbuckets == nb && this.symoffset == symoffset && this.shift == shift
      ensures filter.Length == size && words.Length == nb + capacity && filter[..] == FilterOf(size, shift, [])
    {
      this.nbuckets, this.symoffset, this.shift := nb, symoffset, shift;
      filter := new Bits[size](_ => seq(64, _ => false));
      words := new nat[nb + capacity](_ => 0);
      log := [];
      new;
      BlankFilter(filter[..]);
    }

    static lemma {:induction false} BlankFilter(f: seq<Bits>)
      requires forall i :: 0 <= i < |f| ==> f[i] == seq(64, _ => false)
      ensures f == Repeat(Repeat(false, 64), |f|)
    {
      forall i | 0 <= i < |f| ensures f[i] == Repeat(false, 64) {
      }
    }

    method SetBloomBits(h: nat)
      requires Valid()
      modifies filter
      ensures filter[..] == Set(old(filter[..]), shift, h)
    {
      var shift1, shift2 := h % 64, h / Pow2(shift) % 64;
      var bit1, bit2 := OneHot(64, shift1), OneHot(64, shift2);
      var index := h / 64;
      var w := BitAnd(index, filter.Length - 1);
      filter[w] := Or(Or(filter[w], bit1), bit2);
    }

    /** check_gnu_hash_collision: a used bucket is followed to the first zero word. */
    method Store(h: nat, b: nat, i: nat, ghost s: Name)
      requires Valid() && h == GnuHash(s) && b == BucketOf(s, nbuckets)
      requires i == symoffset + |log| && nbuckets + |log| < words.Length
      modifies words
      ensures words[..] == Entered(old(words[..]), nbuckets, symoffset, |log|, s)
    {
      ghost var t, n := words[..], |log|;
      assert t[b] == Head(log, nbuckets, symoffset, b);
      if words[b] != 0 {
        var p := nbuckets + words[b] - symoffset;
        while words[p] != 0
          invariant words[..] == t && nbuckets <= p <= nbuckets + n < words.Length
          decreases words.Length - p
        {
          ZeroFromLength(t, nbuckets, symoffset, log, p - nbuckets);
          p := p + 1;
        }
        ZeroFromLength(t, nbuckets, symoffset, log, p - nbuckets);
        words[p] := h - h % 2;
      } else {
        words[b] := i;
        words[nbuckets + i - symoffset] := h - h % 2;
      }
    }

    /** add_gnu_hash_entry for symbol index i, the next one in sequence. */
    method Enter(s: Name, i: nat)
      requires Valid() && i == symoffset + |log| && nbuckets + |log| < words.Length && GnuHash(s) >= 2
      modifies this`log, filter, words
      ensures Valid() && log == old(log) + [s] && filter[..] == Set(old(filter[..]), shift, GnuHash(s))
    {
      var h := ComputeGnuHash(s);
      ghost var f, t := filter[..], words[..];
      SetBloomBits(h);
      forall k | 0 <= k < |log| + 1 ensures Accepts(Set(f, shift, h), shift, GnuHash((log + [s])[k])) {
        assert k < |log| ==> Accepts(f, shift, GnuHash(log[k]));
        SetAccepts(f, shift, h, GnuHash((log + [s])[k]));
      }
      FilteredHolds(f, Set(f, shift, h), log, s);
      Store(h, h % nbuckets, i, s);
      EnterRepresents(t, nbuckets, symoffset, log, s);
      log := log + [s];
    }

    lemma {:induction false} FilteredHolds(f: seq<Bits>, g: seq<Bits>, l: seq<Name>, s: Name)
      requires Filtered(f, shift, l) && |g| == |f| && (forall i :: 0 <= i < |g| ==> |g[i]| == 64)
      requires forall k :: 0 <= k < |l| + 1 ==> Accepts(g, shift, GnuHash((l + [s])[k]))
      ensures Filtered(g, shift, l + [s]) && Filtered(g, shift, l)
    {
      forall k | 0 <= k < |l| ensures Accepts(g, shift, GnuHash(l[k])) {
        assert (l + [s])[k] == l[k];
      }
    }

    /**
     find_sym2: the first index entered under the name, 0 if it was never entered, with the names
     read through the symbol and string tables. The walk is only started where it is known to end
     inside the table.
     */
    method FindSym2(s: Name, dynstr: seq<uint8>, dynsym: seq<Sym>, ghost size: nat, ghost names: seq<Name>)
      returns (r: nat)
      requires Valid() && Named(log, symoffset, names) && StringsOk(dynstr, size, dynsym, names)
      requires s in log || !Walks(words[..], nbuckets, filter[..], shift, s)
      ensures r == if s in log then symoffset + IndexOf(log, s) else 0
      ensures r != 0 ==> r < |names| && names[r] == s
    {
      if s in log { PresentWalks(words[..], nbuckets, symoffset, log, filter[..], shift, s); }
      var h := ComputeGnuHash(s);
      var f := filter[BitAnd(h / 64, filter.Length - 1)];
      if !f[h % 64] {
        return 0;
      }
      if !f[h / Pow2(shift) % 64] {
        return 0;
      }
      r := GnuLookup(h, s, dynstr, dynsym, size, names);
    }

    /** strcmp with the name of symbol i. */
    method IsNamed(s: Name, i: nat, dynstr: seq<uint8>, dynsym: seq<Sym>, ghost size: nat, ghost names: seq<Name>)
      returns (same: bool)
      requires i < |names| && StringsOk(dynstr, size, dynsym, names)
      ensures same <==> names[i] == s
    {
      assert NamedBy(dynstr, size, dynsym[i], names[i]);
      same := CString(dynstr, dynsym[i].st_name) == s;
    }

    /** One round of the walk: whether it stops at symbol i, with a match or at an end-of-chain bit. */
    method LookAt(
      h: nat, s: Name, i: nat, dynstr: seq<uint8>, dynsym: seq<Sym>, ghost size: nat, ghost names: seq<Name>)
      returns (same: bool, end: bool)
      requires Valid() && Named(log, symoffset, names) && StringsOk(dynstr, size, dynsym, names) && h == GnuHash(s)
      requires s in log && symoffset <= i <= symoffset + IndexOf(log, s)
      ensures !end && (same <==> i == symoffset + IndexOf(log, s))
    {
      WalkStep(words[..], nbuckets, symoffset, log, names, s, i - symoffset);
      var h2 := words[nbuckets + (i - symoffset)];
      same, end := false, h2 % 2 == 1;
      if h / 2 == h2 / 2 {
        same := IsNamed(s, i, dynstr, dynsym, size, names);
      }
    }

    /** gnu_lookup */
    method GnuLookup(
      h: nat, s: Name, dynstr: seq<uint8>, dynsym: seq<Sym>, ghost size: nat, ghost names: seq<Name>)
      returns (r: nat)
      requires Valid() && Named(log, symoffset, names) && StringsOk(dynstr, size, dynsym, names) && h == GnuHash(s)
      requires s in log || words[BucketOf(s, nbuckets)] == 0
      ensures r == if s in log then symoffset + IndexOf(log, s) else 0
    {
      r := 0;
      var i := words[h % nbuckets];
      if s in log { WalkFinds(words[..], nbuckets, symoffset, log, names, s); }
      if i == 0 {
        return;
      }
      while true
        invariant s in log && symoffset <= i <= symoffset + IndexOf(log, s)
        decreases symoffset + IndexOf(log, s) - i
      {
        var same, end := LookAt(h, s, i, dynstr, dynsym, size, names);
        if same {
          return i;
        }
        if end { break; }
        i := i + 1;
      }
    }
  }
}
