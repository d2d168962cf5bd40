/**
 The occupancy map of one heap page: 256 cells of 16 bytes, one bit each.
 The search reads the map as 32 bytes; marking a run writes it as four 64-bit
 little-endian words.  A w-bit machine word is the sequence of its bits, least
 significant first, so a little-endian word is the concatenation of its bytes.
 */
module Bitmap {

  const CELLS: nat := 256
  const MAP_BYTES: nat := 32

  type Bits = seq<bool>
  type Byte = b: Bits | |b| == 8 witness seq(8, _ => false)

  const FULL: Byte := seq(8, _ => true)
  const EMPTY: Byte := seq(8, _ => false)
  const ONE: Byte := EMPTY[0 := true]

  // ---------- machine words ----------

  function OneHot(width: nat, i: nat): (v: Bits)
    ensures |v| == width
  {
    seq(width, k => k == i)
  }

  predicate IsZero(v: Bits) {
    forall k :: 0 <= k < |v| ==> !v[k]
  }

  function Or(a: Bits, b: Bits): (r: Bits)
    requires |a| == |b|
    ensures |r| == |a|
  {
    seq(|a|, k requires 0 <= k < |a| => a[k] || b[k])
  }

  function And(a: Bits, b: Bits): (r: Bits)
    requires |a| == |b|
    ensures |r| == |a|
  {
    seq(|a|, k requires 0 <= k < |a| => a[k] && b[k])
  }

  /** v << 1 in a register as wide as v. */
  function Double(v: Bits): (r: Bits)
    requires |v| > 0
    ensures |r| == |v|
  {
    [false] + v[..|v| - 1]
  }

  lemma {:induction false} DoubleOneHot(width: nat, i: nat)
    requires 0 < width
    ensures i + 1 < width ==> Double(OneHot(width, i)) == OneHot(width, i + 1)
    ensures i + 1 == width ==> IsZero(Double(OneHot(width, i)))
    ensures i < width ==> !IsZero(OneHot(width, i))
  {
    assert i < width ==> OneHot(width, i)[i];
  }

  lemma {:induction false} TestBit(b: Byte, i: nat)
    requires i < 8
    ensures IsZero(And(b, OneHot(8, i))) <==> !b[i]
  {
    assert And(b, OneHot(8, i))[i] == b[i];
  }

  function LoadWord(b: seq<Byte>): (w: Bits)
    requires |b| == 8
    ensures |w| == 64
  {
    seq(64, k requires 0 <= k < 64 => b[k / 8][k % 8])
  }

  function StoreWord(w: Bits): (b: seq<Byte>)
    requires |w| == 64
    ensures |b| == 8
  {
    seq(8, j requires 0 <= j < 8 => w[8 * j..8 * j + 8])
  }

  // ---------- the map ----------

  /** Cell k of a 32-byte map is in use. */
  predicate Taken(bits: seq<Byte>, k: nat)
    requires |bits| == MAP_BYTES && k < CELLS
  {
    bits[k / 8][k % 8]
  }

  /** Cells a, ..., a+q-1 exist and are all free. */
  ghost predicate FreeRun(bits: seq<Byte>, a: nat, q: nat)
    requires |bits| == MAP_BYTES
  {
    a + q <= CELLS && forall k :: a <= k < a + q ==> !Taken(bits, k)
  }

  /** First fit: a is the least start of a free run of q cells. */
  ghost predicate LeastRun(bits: seq<Byte>, a: nat, q: nat)
    requires |bits| == MAP_BYTES
  {
    FreeRun(bits, a, q) && forall b: nat :: b < a ==> !FreeRun(bits, b, q)
  }

  ghost predicate NoRun(bits: seq<Byte>, q: nat)
    requires |bits| == MAP_BYTES
  {
    forall b: nat :: !FreeRun(bits, b, q)
  }

  /** No free run of q cells ends at or before cell n. */
  ghost predicate NoRunWithin(bits: seq<Byte>, n: nat, q: nat)
    requires |bits| == MAP_BYTES
  {
    forall b: nat :: b + q <= n ==> !FreeRun(bits, b, q)
  }

  lemma {:induction false} NoRunExtends(bits: seq<Byte>, n: nat, c: nat, q: nat)
    requires |bits| == MAP_BYTES && n < CELLS && c < q && c <= n
    requires NoRunWithin(bits, n, q) && Taken(bits, n - c)
    ensures NoRunWithin(bits, n + 1, q)
  {
    forall b: nat | b + q == n + 1 ensures !FreeRun(bits, b, q) {
      assert b <= n - c < b + q;
    }
  }

  /** The map after cells a, ..., b-1 have been marked. */
  ghost predicate Marked(before: seq<Byte>, after: seq<Byte>, a: nat, b: nat)
    requires |before| == MAP_BYTES && |after| == MAP_BYTES
  {
    forall k :: 0 <= k < CELLS ==> (Taken(after, k) <==> Taken(before, k) || a <= k < b)
  }

  lemma {:induction false} StoreAt(w: Bits, o: nat)
    requires |w| == 64 && o < 64
    ensures StoreWord(w)[o / 8][o % 8] == w[o]
  {
    var j, r := o / 8, o % 8;
    assert o == 8 * j + r && j < 8;
    assert StoreWord(w)[j] == w[8 * j..8 * j + 8];
    assert w[8 * j..8 * j + 8][r] == w[8 * j + r];
  }

  lemma {:induction false} LoadAt(b: seq<Byte>, o: nat)
    requires |b| == 8 && o < 64
    ensures LoadWord(b)[o] == b[o / 8][o % 8]
  {
  }

  lemma {:induction false} OrAt(a: Bits, i: nat, o: nat)
    requires i < |a| && o < |a|
    ensures Or(a, OneHot(|a|, i))[o] == (a[o] || o == i)
  {
  }

  /** Bit o of the word, as the bytes show it. */
  lemma {:induction false} WordBit(b: seq<Byte>, i: nat, o: nat)
    requires |b| == 8 && i < 64 && o < 64
    ensures StoreWord(Or(LoadWord(b), OneHot(64, i)))[o / 8][o % 8] == (b[o / 8][o % 8] || o == i)
  {
    LoadAt(b, o);
    OrAt(LoadWord(b), i, o);
    StoreAt(Or(LoadWord(b), OneHot(64, i)), o);
  }

  lemma {:induction false} CellOfWord(k: nat, w: nat, o: nat)
    requires k == 64 * w + o
    ensures k / 8 == 8 * w + o / 8 && k % 8 == o % 8
  {
  }

  /** The map after bit i of its word w has been set. */
  function WithBit(bits: seq<Byte>, w: nat, i: nat): (after: seq<Byte>)
    requires |bits| == MAP_BYTES && w < 4 && i < 64
    ensures |after| == MAP_BYTES
  {
    bits[..8 * w] + StoreWord(Or(LoadWord(bits[8 * w..8 * w + 8]), OneHot(64, i))) + bits[8 * w + 8..]
  }

  /** Writing a word with bit i set marks exactly cell 64*w+i, seen through the bytes. */
  lemma {:induction false} OrWordMarksCell(bits: seq<Byte>, w: nat, i: nat)
    requires |bits| == MAP_BYTES && w < 4 && i < 64
    ensures Marked(bits, WithBit(bits, w, i), 64 * w + i, 64 * w + i + 1)
  {
    var after := WithBit(bits, w, i);
    forall k | 0 <= k < CELLS
      ensures Taken(after, k) <==> Taken(bits, k) || k == 64 * w + i
    {
      if 64 * w <= k < 64 * w + 64 {
        var o := k - 64 * w;
        var b := bits[8 * w..8 * w + 8];
        WordBit(b, i, o);
        CellOfWord(k, w, o);
        assert after[8 * w + o / 8] == StoreWord(Or(LoadWord(b), OneHot(64, i)))[o / 8];
        assert b[o / 8] == bits[8 * w + o / 8];
      }
    }
  }

  /** The search before cell n, with the c cells before it free and no run found. */
  ghost predicate Searching(bits: seq<Byte>, n: nat, c: nat, q: nat)
    requires |bits| == MAP_BYTES
  {
    && n <= CELLS && c < q && c <= n && (n > 0 ==> c < n)
    && (forall k :: n - c <= k < n ==> !Taken(bits, k))
    && (c == n || Taken(bits, n - c - 1))
    && NoRunWithin(bits, n, q)
  }

  /** A free cell ends the least run, or extends the free cells before it. */
  lemma {:induction false} FreeCell(bits: seq<Byte>, n: nat, c: nat, q: nat)
    requires |bits| == MAP_BYTES && n < CELLS && Searching(bits, n, c, q) && !Taken(bits, n) && Taken(bits, 0)
    ensures c + 1 == q ==> 0 < n + 1 - q && LeastRun(bits, n + 1 - q, q)
    ensures c + 1 < q ==> Searching(bits, n + 1, c + 1, q)
  {
    if c + 1 < q { NoRunExtends(bits, n, c + 1, q); }
  }

  /** A taken cell starts the count again. */
  lemma {:induction false} TakenCell(bits: seq<Byte>, n: nat, c: nat, q: nat)
    requires |bits| == MAP_BYTES && n < CELLS && Searching(bits, n, c, q) && Taken(bits, n)
    ensures Searching(bits, n + 1, 0, q)
  {
    NoRunExtends(bits, n, 0, q);
  }

  /** The mask of bit i of byte j; behind the last bit of a byte it has been shifted out. */
  ghost predicate MaskAt(v: Bits, i: nat, j: nat) {
    |v| == 8 && i < 8 && if i == 0 && j > 0 then IsZero(v) else v == OneHot(8, i)
  }

  /** One round on the mask: whether cell i of the byte is free, and the mask of the next cell. */
  method TestCell(b: Byte, mask: Bits, i: nat, ghost j: nat) returns (free: bool, v: Bits)
    requires MaskAt(mask, i, j)
    ensures free <==> !b[i]
    ensures if i == 7 then MaskAt(v, 0, j + 1) else MaskAt(v, i + 1, j)
  {
    DoubleOneHot(8, i);
    TestBit(b, i);
    v := if IsZero(mask) then OneHot(8, 0) else mask;
    free := IsZero(And(b, v));
    v := Double(v);
  }

  /**
   First fit: a byte-wise scan with a one-bit mask v and a count c of
   consecutive free cells.  The bytes scanned are map[p..p+32].
   */
  method FindConsecutive(bin: array<Byte>, p0: nat, q: nat) returns (a: nat)
    requires p0 + MAP_BYTES <= bin.Length && 1 <= q <= 255
    requires Taken(bin[p0..p0 + MAP_BYTES], 0)
    ensures a < CELLS
    ensures a != 0 ==> LeastRun(bin[p0..p0 + MAP_BYTES], a, q)
    ensures a == 0 ==> NoRun(bin[p0..p0 + MAP_BYTES], q)
  {
    ghost var bits := bin[p0..p0 + MAP_BYTES];
    var p, v, i, j, c := p0, OneHot(8, 0), 0, 0, 0;
    ghost var n := 0;
    while j < 32
      invariant i < 8 && j <= 32 && p == p0 + j && (j == 32 ==> i == 0)
      invariant n == 8 * j + i && MaskAt(v, i, j) && Searching(bits, n, c, q)
      decreases 256 - 8 * j - i
    {
      assert bin[p] == bits[j] && n / 8 == j && n % 8 == i;
      var free;
      free, v := TestCell(bin[p], v, i, j);
      if free {
        FreeCell(bits, n, c, q);
        c := c + 1;
        if c == q {
          a := i + 1 + j * 8 - q;
          return;
        }
      } else {
        TakenCell(bits, n, c, q);
        c := 0;
      }
      n := n + 1;
      if i % 8 == 7 {
        p := p + 1;
        j := j + 1;
        i := 0;
      } else {
        i := i + 1;
      }
    }
    a := 0;
  }

  /** *p |= v on the 64-bit word at byte p. */
  method OrWordAt(bin: array<Byte>, p: nat, v: Bits)
    requires p + 8 <= bin.Length && |v| == 64
    modifies bin
    ensures bin[..] == old(bin[..])[..p] + StoreWord(Or(LoadWord(old(bin[..])[p..p + 8]), v)) + old(bin[..])[p + 8..]
  {
    var bytes := StoreWord(Or(LoadWord(bin[p..p + 8]), v));
    forall k | 0 <= k < 8 { bin[p + k] := bytes[k]; }
  }

  /** The OR into word w of the map that now stands at p0 sets one bit of that map. */
  method OrBit(
    bin: array<Byte>, p: nat, v: Bits, ghost all: seq<Byte>, ghost p0: nat, ghost now: seq<Byte>, ghost w: nat,
    ghost o: nat)
    requires p0 + MAP_BYTES <= |all| && |now| == MAP_BYTES && w < 4 && o < 64
    requires bin[..] == all[..p0] + now + all[p0 + MAP_BYTES..]
    requires p == p0 + 8 * w && v == OneHot(64, o)
    modifies bin
    ensures bin[..] == all[..p0] + WithBit(now, w, o) + all[p0 + MAP_BYTES..]
  {
    Spliced(all, p0, now, w, StoreWord(Or(LoadWord(now[8 * w..8 * w + 8]), v)));
    OrWordAt(bin, p, v);
  }

  /**
   Marks the run s, ..., s+q-1 by OR-ing one bit at a time into the 64-bit word
   under the cursor p; i and e are 8-bit counters.
   */
  method SetRun(bin: array<Byte>, p0: nat, s: nat, q: nat)
    requires p0 + MAP_BYTES <= bin.Length && 1 <= q && s + q <= CELLS
    modifies bin
    ensures Marked(old(bin[p0..p0 + MAP_BYTES]), bin[p0..p0 + MAP_BYTES], s, s + q)
    ensures bin[..p0] == old(bin[..p0]) && bin[p0 + MAP_BYTES..] == old(bin[p0 + MAP_BYTES..])
  {
    ghost var all, bits := bin[..], bin[p0..p0 + MAP_BYTES];
    var i, v, e, up, p := 0, OneHot(64, 0), (s + q - 1) % 256, false, p0;
    ghost var now, w, o := bits, 0, 0;  // the map so far, the word under p and the bit v stands for
    while i <= e
      invariant i <= 255 && i <= e + 1 && e == s + q - 1
      invariant i == 64 * w + o && o <= 64 && p == p0 + 8 * w && w < 4 && |v| == 64
      invariant up <==> o == 64
      invariant if o == 64 then IsZero(v) else v == OneHot(64, o)
      invariant |now| == MAP_BYTES && bin[..] == all[..p0] + now + all[p0 + MAP_BYTES..]
      invariant Marked(bits, now, s, if i < s then s else i)
      decreases 256 - i
    {
      if IsZero(v) { v := OneHot(64, 0); }
      if up {
        p, w, o := p + 8, w + 1, 0;
        up := false;
      }
      DoubleOneHot(64, o);
      WordEnd(w, o);
      if i % 64 == 63 {
        up := true;
      }
      if i >= s {
        OrBit(bin, p, v, all, p0, now, w, o);
        BitJoinsRun(bits, now, w, o, s, i);
        now := WithBit(now, w, o);
        if i == 255 { break; }
      }
      v := Double(v);
      i, o := Succ8(i), o + 1;
    }
  }

  /** The increment of an 8-bit counter. */
  function Succ8(i: nat): (r: nat)
    requires i < 256
    ensures i < 255 ==> r == i + 1
    ensures i == 255 ==> r == 0
  {
    (i + 1) % 256
  }

  lemma {:induction false} WordEnd(w: nat, o: nat)
    requires o < 64
    ensures (64 * w + o) % 64 == o
  {
  }

  /** The cell of the bit just set joins the run marked so far. */
  lemma {:induction false} BitJoinsRun(bits: seq<Byte>, now: seq<Byte>, w: nat, o: nat, s: nat, i: nat)
    requires |bits| == MAP_BYTES == |now| && w < 4 && o < 64 && i == 64 * w + o && s <= i
    requires Marked(bits, now, s, i)
    ensures Marked(bits, WithBit(now, w, o), s, i + 1)
  {
    OrWordMarksCell(now, w, o);
  }

  /** Replacing word w of the map inside the surrounding memory. */
  lemma {:induction false} Spliced(all: seq<Byte>, p0: nat, now: seq<Byte>, w: nat, b: seq<Byte>)
    requires p0 + MAP_BYTES <= |all| && |now| == MAP_BYTES && w < 4 && |b| == 8
    ensures var memory, p := all[..p0] + now + all[p0 + MAP_BYTES..], p0 + 8 * w;
            && memory[p..p + 8] == now[8 * w..8 * w + 8]
            && memory[..p] + b + memory[p + 8..]
               == all[..p0] + (now[..8 * w] + b + now[8 * w + 8..]) + all[p0 + MAP_BYTES..]
  {
  }
}
