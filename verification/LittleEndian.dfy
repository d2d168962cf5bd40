/** Words stored in byte sequences, least significant byte first. */
module LittleEndian {
  import opened Machine

  /** The n low bytes of v, least significant first. */
  function Le(v: nat, n: nat): (s: seq<uint8>)
    ensures |s| == n
  {
    if n == 0 then [] else [(v % 0x100) as uint8] + Le(v / 0x100, n - 1)
  }

  function LeAt(d: seq<uint8>, o: nat, n: nat): nat
    requires o + n <= |d|
    decreases n
  {
    if n == 0 then 0 else d[o] as nat + 0x100 * LeAt(d, o + 1, n - 1)
  }

  /** The bytes s stand at offset o. */
  ghost predicate Holds(d: seq<uint8>, o: nat, s: seq<uint8>) {
    o + |s| <= |d| && forall i {:trigger s[i]} :: 0 <= i < |s| ==> d[o + i] == s[i]
  }

  lemma {:induction false} HoldsSplit(d: seq<uint8>, o: nat, s: seq<uint8>, t: seq<uint8>)
    requires Holds(d, o, s + t)
    ensures Holds(d, o, s) && Holds(d, o + |s|, t)
  {
    forall i | 0 <= i < |s| ensures d[o + i] == s[i] { assert (s + t)[i] == s[i]; }
    forall i | 0 <= i < |t| ensures d[o + |s| + i] == t[i] { assert (s + t)[|s| + i] == t[i]; }
  }

  function Pow256(n: nat): (r: nat)
    ensures r > 0
  {
    if n == 0 then 1 else 0x100 * Pow256(n - 1)
  }

  lemma {:induction false} LeReadsBack(d: seq<uint8>, o: nat, v: nat, n: nat)
    requires Holds(d, o, Le(v, n)) && v < Pow256(n)
    ensures LeAt(d, o, n) == v
    decreases n
  {
    if n > 0 {
      HoldsSplit(d, o, [(v % 0x100) as uint8], Le(v / 0x100, n - 1));
      assert d[o + 0] == [(v % 0x100) as uint8][0];
      LeReadsBack(d, o + 1, v / 0x100, n - 1);
    }
  }

  lemma {:induction false} WordSizes(v: nat)
    requires v < 0x1_0000_0000
    ensures v < Pow256(4) && v < Pow256(8)
  {
    assert Pow256(2) == 0x1_0000;
    assert Pow256(4) == 0x1_0000_0000;
    assert Pow256(6) == 0x1_0000_0000_0000;
    assert Pow256(8) == 0x1_0000_0000_0000_0000;
  }
}
