/**
 The three string hashes of the linker, over names without their terminating NUL.
 Registers are natural numbers below a power of two: a shift is a multiplication
 or a division, and masking the low bits is a remainder.
 */
module Hashes {
  import opened Machine

  // ---------- elf_hash: a 32-bit register, the top nibble folded in and masked at every byte ----------

  function ElfStep(h: nat, c: uint8): (r: nat)
    ensures r < 0x1000_0000
  {
    var t := (16 * h + c as nat) % 0x1_0000_0000;
    var g := t / 0x1000_0000;   // bits 28..31
    (if g != 0 then BitXor(t, 16 * g) else t) % 0x1000_0000
  }

  function ElfHash(s: Name): (h: nat)
    ensures h < 0x1000_0000
  {
    if s == [] then 0 else ElfStep(ElfHash(s[..|s| - 1]), s[|s| - 1])
  }

  method ComputeElfHash(s: Name) returns (h: nat)
    ensures h == ElfHash(s)
  {
    h := 0;
    var i := 0;
    while i < |s|
      invariant i <= |s| && h == ElfHash(s[..i])
    {
      assert s[..i + 1][..i] == s[..i];
      h := (16 * h + s[i] as nat) % 0x1_0000_0000;
      var g := h / 0x1000_0000;
      if g != 0 {
        h := BitXor(h, 16 * g);
      }
      h := h % 0x1000_0000;
      i := i + 1;
    }
    assert s[..i] == s;
  }

  // ---------- sysv_hash: a 64-bit accumulator, masked once at the end ----------

  function SysvStep(h: nat, c: uint8): nat {
    var t := (16 * h + c as nat) % 0x1_0000_0000_0000_0000;
    BitXor(t, 16 * (t / 0x1000_0000 % 16))
  }

  function SysvState(s: Name): nat {
    if s == [] then 0 else SysvStep(SysvState(s[..|s| - 1]), s[|s| - 1])
  }

  method ComputeSysvHash(s: Name) returns (h: nat)
    ensures h == SysvState(s) % 0x1000_0000
  {
    h := 0;
    var i := 0;
    while i < |s|
      invariant i <= |s| && h == SysvState(s[..i])
    {
      assert s[..i + 1][..i] == s[..i];
      h := (16 * h + s[i] as nat) % 0x1_0000_0000_0000_0000;
      h := BitXor(h, 16 * (h / 0x1000_0000 % 16));
      i := i + 1;
    }
    assert s[..i] == s;
    h := h % 0x1000_0000;
  }

  /**
   The low 28 bits of the two registers agree before and after every byte.  The
   32-bit addition may carry out of bit 31; what it loses is never looked at.
   */
  lemma {:induction false} StepsAgree(e: nat, a: nat, c: uint8)
    requires e == a % 0x1000_0000
    ensures ElfStep(e, c) == SysvStep(a, c) % 0x1000_0000
  {
    LowWordsAgree(a, c as nat);
    FoldsAgree((16 * e + c as nat) % 0x1_0000_0000, (16 * a + c as nat) % 0x1_0000_0000_0000_0000 / 0x1_0000_0000);
  }

  lemma {:induction false} LowWordsAgree(a: nat, c: nat)
    ensures var u := (16 * a + c) % 0x1_0000_0000_0000_0000;
            u == (16 * (a % 0x1000_0000) + c) % 0x1_0000_0000 + 0x1_0000_0000 * (u / 0x1_0000_0000)
  {
    var x, y := 16 * a + c, 16 * (a % 0x1000_0000) + c;
    var u, q := x % 0x1_0000_0000_0000_0000, x / 0x1_0000_0000_0000_0000;
    assert x == u + 0x1_0000_0000 * (0x1_0000_0000 * q);
    assert x == y + 0x1_0000_0000 * (a / 0x1000_0000);
    AddMultiple(u, 0x1_0000_0000 * q);
    AddMultiple(y, a / 0x1000_0000);
  }

  lemma {:induction false} AddMultiple(y: nat, k: nat)
    ensures (y + 0x1_0000_0000 * k) % 0x1_0000_0000 == y % 0x1_0000_0000
  {
  }

  /** Folding the nibble of bits 28..31 into a register t + 2^32 k gives the low 28 bits that t alone gives. */
  lemma {:induction false} FoldsAgree(t: nat, k: nat)
    requires t < 0x1_0000_0000
    ensures var u, g := t + 0x1_0000_0000 * k, t / 0x1000_0000;
            (if g != 0 then BitXor(t, 16 * g) else t) % 0x1000_0000
            == BitXor(u, 16 * (u / 0x1000_0000 % 16)) % 0x1000_0000
  {
    var u, g := t + 0x1_0000_0000 * k, t / 0x1000_0000;
    TopNibble(t, k);
    TwoTo32();
    XorPassesHigh(32, t, 16 * g, k);
    DropHigh(BitXor(t, 16 * g), k);
  }

  lemma {:induction false} TopNibble(t: nat, k: nat)
    requires t < 0x1_0000_0000
    ensures (t + 0x1_0000_0000 * k) / 0x1000_0000 % 16 == t / 0x1000_0000
  {
    assert (t + 0x1000_0000 * (16 * k)) / 0x1000_0000 == t / 0x1000_0000 + 16 * k;
  }

  lemma {:induction false} TwoTo32()
    ensures Pow2(32) == 0x1_0000_0000
  {
    assert Pow2(8) == 0x100;
    assert Pow2(16) == 0x1_0000;
    assert Pow2(24) == 0x100_0000;
  }

  lemma {:induction false} DropHigh(x: nat, k: nat)
    ensures (x + 0x1_0000_0000 * k) % 0x1000_0000 == x % 0x1000_0000
  {
    DropMultiple(x, 16 * k);
  }

  lemma {:induction false} DropMultiple(x: nat, k: nat)
    ensures (x + 0x1000_0000 * k) % 0x1000_0000 == x % 0x1000_0000
  {
  }

  /** elf_hash and sysv_hash are the same function. */
  lemma {:induction false} ElfIsSysv(s: Name)
    ensures ElfHash(s) == SysvState(s) % 0x1000_0000
  {
    if s != [] {
      ElfIsSysv(s[..|s| - 1]);
      StepsAgree(ElfHash(s[..|s| - 1]), SysvState(s[..|s| - 1]), s[|s| - 1]);
    }
  }

  // ---------- gnu_hash: h = 33 h + c in a 64-bit accumulator, truncated to 32 bits on return ----------

  function GnuHash(s: Name): (h: nat)
    ensures h < 0x1_0000_0000
  {
    if s == [] then 5381 else (33 * GnuHash(s[..|s| - 1]) + s[|s| - 1] as nat) % 0x1_0000_0000
  }

  method ComputeGnuHash(s: Name) returns (h: nat)
    ensures h == GnuHash(s)
  {
    var a := 5381;
    var i := 0;
    while i < |s|
      invariant i <= |s| && 0 <= a < 0x1_0000_0000_0000_0000 && a % 0x1_0000_0000 == GnuHash(s[..i])
    {
      assert s[..i + 1][..i] == s[..i];
      TruncateLate(a, s[i] as nat);
      a := (a + a * 32 + s[i] as nat) % 0x1_0000_0000_0000_0000;
      i := i + 1;
    }
    assert s[..i] == s;
    h := a % 0x1_0000_0000;
  }

  lemma {:induction false} TruncateLate(a: nat, c: nat)
    ensures (33 * a + c) % 0x1_0000_0000_0000_0000 % 0x1_0000_0000 == (33 * (a % 0x1_0000_0000) + c) % 0x1_0000_0000
  {
    var x, y := 33 * a + c, 33 * (a % 0x1_0000_0000) + c;
    var u, q := x % 0x1_0000_0000_0000_0000, x / 0x1_0000_0000_0000_0000;
    assert x == u + 0x1_0000_0000 * (0x1_0000_0000 * q);
    assert x == y + 0x1_0000_0000 * (33 * (a / 0x1_0000_0000));
    AddMultiple(u, 0x1_0000_0000 * q);
    AddMultiple(y, 33 * (a / 0x1_0000_0000));
  }

  function Power33(n: nat): nat {
    if n == 0 then 1 else 33 * Power33(n - 1)
  }

  /** Every byte with a power of 33, the last one with 1. */
  function Weighted(s: Name): nat {
    if s == [] then 0 else s[0] as nat * Power33(|s| - 1) + Weighted(s[1..])
  }

  lemma {:induction false} WeightedAppended(s: Name, c: uint8)
    ensures Weighted(s + [c]) == 33 * Weighted(s) + c as nat
  {
    var t := s + [c];
    if s == [] {
      assert t[1..] == [] && Power33(0) == 1;
    } else {
      WeightedAppended(s[1..], c);
      assert t[1..] == s[1..] + [c];
      TimesOutside(s[0] as nat, Power33(|s| - 1));
    }
  }

  lemma {:induction false} TimesOutside(a: nat, p: nat)
    ensures a * (33 * p) == 33 * (a * p)
  {
  }

  lemma {:induction false} StepModulo(x: nat, c: nat)
    ensures (33 * (x % 0x1_0000_0000) + c) % 0x1_0000_0000 == (33 * x + c) % 0x1_0000_0000
  {
    assert 33 * x + c == 33 * (x % 0x1_0000_0000) + c + 0x1_0000_0000 * (33 * (x / 0x1_0000_0000));
    AddMultiple(33 * (x % 0x1_0000_0000) + c, 33 * (x / 0x1_0000_0000));
  }

  /** The value of the hash: 5381 and the bytes as digits to base 33, modulo 2^32. */
  lemma {:induction false} GnuHashIsPolynomial(s: Name)
    ensures GnuHash(s) == (5381 * Power33(|s|) + Weighted(s)) % 0x1_0000_0000
  {
    if s != [] {
      var p, c := s[..|s| - 1], s[|s| - 1];
      GnuHashIsPolynomial(p);
      assert s == p + [c];
      WeightedAppended(p, c);
      TimesOutside(5381, Power33(|p|));
      StepModulo(5381 * Power33(|p|) + Weighted(p), c as nat);
    }
  }
}
