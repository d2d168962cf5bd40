/** Fixed-width quantities shared by the components. */
module Machine {

  newtype uint8 = x: int | 0 <= x < 0x100

  function Repeat<T>(v: T, n: nat): (s: seq<T>)
    ensures |s| == n && forall i :: 0 <= i < n ==> s[i] == v
  {
    seq(n, _ => v)
  }

  function Zeros(n: nat): (z: seq<uint8>)
    ensures |z| == n && forall i :: 0 <= i < n ==> z[i] == 0
  {
    Repeat(0, n)
  }

  /** A C string without its terminator. */
  type Name = seq<uint8>

  datatype Option<T> = None | Some(value: T)

  function Pow2(k: nat): (r: nat)
    ensures r > 0
  {
    if k == 0 then 1 else 2 * Pow2(k - 1)
  }

  /** a & b on unsigned words. */
  function BitAnd(a: nat, b: nat): (r: nat)
    ensures r <= b
  {
    if a == 0 || b == 0 then 0 else (a % 2) * (b % 2) + 2 * BitAnd(a / 2, b / 2)
  }

  /** a ^ b on unsigned words. */
  function BitXor(a: nat, b: nat): nat {
    if a == 0 then b else if b == 0 then a else (a % 2 + b % 2) % 2 + 2 * BitXor(a / 2, b / 2)
  }

  /** k shifted left by n. */
  function Shifted(k: nat, n: nat): nat {
    if n == 0 then k else 2 * Shifted(k, n - 1)
  }

  lemma {:induction false} ShiftedIsProduct(k: nat, n: nat)
    ensures Shifted(k, n) == Pow2(n) * k
  {
    if n > 0 { ShiftedIsProduct(k, n - 1); }
  }

  /** Bits from position n up pass through an exclusive or with a word that has none there. */
  lemma {:induction false} XorPassesShifted(n: nat, y: nat, v: nat, k: nat)
    requires y < Pow2(n) && v < Pow2(n)
    ensures BitXor(y + Shifted(k, n), v) == BitXor(y, v) + Shifted(k, n)
  {
    if n > 0 {
      var x, w, p, q, m := y / 2, v / 2, y % 2, v % 2, Shifted(k, n - 1);
      XorPassesShifted(n - 1, x, w, k);
      XorStep(2 * (x + m) + p, y, v, x, w, p, q, m);
    }
  }

  /** One bit more: a is y with m added above its lowest bit. */
  lemma {:induction false} XorStep(a: nat, y: nat, v: nat, x: nat, w: nat, p: nat, q: nat, m: nat)
    requires y == 2 * x + p && v == 2 * w + q && p < 2 && q < 2 && a == 2 * (x + m) + p
    requires BitXor(x + m, w) == BitXor(x, w) + m
    ensures BitXor(a, v) == BitXor(y, v) + 2 * m
  {
    XorUnfold(a, v, x + m, w, p, q);
    XorUnfold(y, v, x, w, p, q);
  }

  lemma {:induction false} XorPassesHigh(n: nat, y: nat, v: nat, k: nat)
    requires y < Pow2(n) && v < Pow2(n)
    ensures BitXor(y + Pow2(n) * k, v) == BitXor(y, v) + Pow2(n) * k
  {
    ShiftedIsProduct(k, n);
    XorPassesShifted(n, y, v, k);
  }

  /** The lowest bit and the rest. */
  lemma {:induction false} XorUnfold(a: nat, b: nat, x: nat, y: nat, p: nat, q: nat)
    requires a == 2 * x + p && b == 2 * y + q && p < 2 && q < 2
    ensures BitXor(a, b) == (p + q) % 2 + 2 * BitXor(x, y)
  {
    assert a / 2 == x && b / 2 == y && a % 2 == p && b % 2 == q;
    if a == 0 || b == 0 {
      assert BitXor(x, y) == if a == 0 then y else x;
    }
  }

  lemma {:induction false} AndUnfold(a: nat, b: nat, x: nat, y: nat, p: nat)
    requires a == 2 * x + p && b == 2 * y + 1 && p < 2
    ensures BitAnd(a, b) == p + 2 * BitAnd(x, y)
  {
    assert a / 2 == x && b / 2 == y && a % 2 == p && b % 2 == 1;
    assert a == 0 ==> x == 0;
  }

  lemma {:induction false} MaskDrops(y: nat, q: nat, k: nat)
    requires y < Pow2(k)
    ensures BitAnd(y + Shifted(q, k), Pow2(k) - 1) == y
  {
    if k > 0 {
      MaskDrops(y / 2, q, k - 1);
      AndUnfold(y + Shifted(q, k), Pow2(k) - 1, y / 2 + Shifted(q, k - 1), Pow2(k - 1) - 1, y % 2);
    }
  }

  lemma {:induction false} MaskOf(a: nat, y: nat, q: nat, k: nat, p: nat)
    requires p == Pow2(k) && y < p && a == y + p * q
    ensures BitAnd(a, p - 1) == y
  {
    ShiftedIsProduct(q, k);
    MaskDrops(y, q, k);
  }

  lemma {:induction false} Divided(a: nat, p: nat)
    requires p > 0
    ensures a / p >= 0 && a % p < p && a == a % p + p * (a / p)
  {
  }

  /** Masking with 2^k - 1 is the remainder. */
  lemma {:induction false} MaskIsRemainder(a: nat, k: nat, p: nat)
    requires p == Pow2(k)
    ensures BitAnd(a, p - 1) == a % p
  {
    Divided(a, p);
    MaskOf(a, a % p, a / p, k, p);
  }

  // ---------- C strings ----------

  /** A name in characters. */
  function Ascii(s: string): (n: Name)
    requires forall i :: 0 <= i < |s| ==> ' ' <= s[i] <= '~'
    ensures |n| == |s| && forall i :: 0 <= i < |n| ==> n[i] as int == s[i] as int
  {
    seq(|s|, i requires 0 <= i < |s| => (s[i] as int) as uint8)
  }

  /** A name a C string can hold. */
  predicate IsName(s: Name) {
    forall i :: 0 <= i < |s| ==> s[i] != 0
  }

  /** The C string that starts at an offset: everything up to the next NUL. */
  function CString(bytes: seq<uint8>, o: nat): (s: seq<uint8>)
    decreases |bytes| - o
  {
    if o >= |bytes| || bytes[o] == 0 then [] else [bytes[o]] + CString(bytes, o + 1)
  }

  /** A name followed by a NUL reads back as that name. */
  lemma {:induction false} WrittenReadsBack(bytes: seq<uint8>, o: nat, s: seq<uint8>)
    requires o + |s| < |bytes| && bytes[o..o + |s|] == s && bytes[o + |s|] == 0 && IsName(s)
    ensures CString(bytes, o) == s
    decreases |s|
  {
    if s != [] {
      assert bytes[o] == s[0];
      assert bytes[o + 1..o + 1 + |s[1..]|] == s[1..];
      WrittenReadsBack(bytes, o + 1, s[1..]);
    }
  }

  /** A terminated C string reads the same in any memory that agrees on its bytes. */
  lemma {:induction false} SameString(a: seq<uint8>, b: seq<uint8>, o: nat)
    requires o + |CString(a, o)| < |a| && o + |CString(a, o)| < |b|
    requires a[o..o + |CString(a, o)| + 1] == b[o..o + |CString(a, o)| + 1]
    ensures CString(b, o) == CString(a, o)
    decreases |a| - o
  {
    var n := |CString(a, o)|;
    assert a[o] == a[o..o + n + 1][0] && b[o] == b[o..o + n + 1][0];
    if a[o] != 0 {
      assert a[o + 1..o + 1 + n] == a[o..o + n + 1][1..];
      assert b[o + 1..o + 1 + n] == b[o..o + n + 1][1..];
      SameString(a, b, o + 1);
    }
  }

  /** The first place of a name in a list; the length of the list if it is not there. */
  function IndexOf(names: seq<Name>, name: Name): (k: nat)
    ensures k <= |names|
    ensures k < |names| ==> names[k] == name
    ensures forall j :: 0 <= j < k ==> names[j] != name
  {
    if names == [] then 0 else if names[0] == name then 0 else 1 + IndexOf(names[1..], name)
  }
}
