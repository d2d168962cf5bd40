/**
 bipatch: a text script of byte insertions and deletions, its parser, and the
 interpreter that splices a file.
 */
module BipatchSpec {
  import opened Machine

  datatype Edit =
    | Insert(addr: nat, bytes: seq<uint8>)
    | Delete(addr: nat, len: nat)

  /** The record page holds 128 records of 32 bytes, the data page 4096 inserted bytes. */
  const RECORDS: nat := 128
  const DATA: nat := 0x1000

  /** How a run of read_patch ends; Fault is an access behind the mapped text or behind one of the two pages. */
  datatype Outcome =
    | Parsed(edits: seq<Edit>, updown: int)
    | Rejected
    | Fault

  // ---------- hexadecimal ----------

  predicate IsDigit(c: char) {
    '0' <= c <= '9' || 'a' <= c <= 'f'
  }

  /** The value of a hexadecimal digit; 0 for any other character. */
  function DigitValue(c: char): (d: nat)
    ensures d < 16
  {
    if '0' <= c <= '9' then (c - '0') as nat else if 'a' <= c <= 'f' then (c - 'a') as nat + 10 else 0
  }

  predicate AllDigits(ds: string) {
    forall i :: 0 <= i < |ds| ==> IsDigit(ds[i])
  }

  function DigitChar(d: nat): (c: char)
    requires d < 16
    ensures IsDigit(c) && DigitValue(c) == d
  {
    if d < 10 then '0' + d as char else 'a' + (d - 10) as char
  }

  /** The n low hexadecimal digits of v, most significant first. */
  function Hex(v: nat, n: nat): (s: string)
    ensures |s| == n && AllDigits(s)
  {
    if n == 0 then "" else Hex(v / 16, n - 1) + [DigitChar(v % 16)]
  }

  function Shl(w: nat, s: nat): nat {
    w * Pow2(s)
  }

  /** (digit << s) computed in a 32-bit int and widened to 64 bits: bit 31 is a sign. */
  function ShiftInt(d: nat, s: nat): nat {
    SignExtended(Shl(d, s) % 0x1_0000_0000)
  }

  /** A 32-bit int widened to 64 bits: bit 31 is copied into the upper word. */
  function SignExtended(w: nat): nat {
    if w < 0x8000_0000 then w else w + 0xffff_ffff_0000_0000
  }

  function Add64(a: nat, b: nat): (r: nat)
    ensures r < 0x1_0000_0000_0000_0000
  {
    (a + b) % 0x1_0000_0000_0000_0000
  }

  /** The first k digits, read from the right with a growing shift and added to r in 64 bits. */
  function SumDigits(ds: string, k: nat, s: nat, r: nat): nat
    requires k <= |ds|
  {
    if k == 0 then r else SumDigits(ds, k - 1, s + 4, Add64(r, ShiftInt(DigitValue(ds[k - 1]), s)))
  }

  const MINUS_ONE: nat := 0xffff_ffff_ffff_ffff

  /** ascii_to_bin on the n characters at the front of t, n counting the 0x. */
  function AsciiToBin(t: string, n: nat): nat
    requires n >= 2
  {
    if |t| < n || t[0] != '0' || t[1] != 'x' then MINUS_ONE
    else if AllDigits(t[2..n]) then SumDigits(t[2..n], n - 2, 0, 0) else MINUS_ONE
  }

  lemma {:induction false} PowTable()
    ensures Pow2(0) == 1 && Pow2(4) == 0x10 && Pow2(8) == 0x100 && Pow2(12) == 0x1000 && Pow2(16) == 0x1_0000
    ensures Pow2(20) == 0x10_0000 && Pow2(24) == 0x100_0000 && Pow2(28) == 0x1000_0000 && Pow2(32) == 0x1_0000_0000
  {
    assert Pow2(4) == 0x10;
    assert Pow2(8) == 0x100;
    assert Pow2(12) == 0x1000;
    assert Pow2(16) == 0x1_0000;
    assert Pow2(20) == 0x10_0000;
    assert Pow2(24) == 0x100_0000;
    assert Pow2(28) == 0x1000_0000;
  }

  function Pow16(n: nat): (r: nat)
    ensures r > 0
  {
    if n == 0 then 1 else 16 * Pow16(n - 1)
  }

  /** The digits and their values, character by character. */
  lemma {:induction false} HexDigits(c: char, d: nat)
    requires d < 16
    ensures IsDigit(c) <==> c in "0123456789abcdef"
    ensures DigitChar(d) == "0123456789abcdef"[d] && DigitValue("0123456789abcdef"[d]) == d
  {
    var digits := "0123456789abcdef";
    assert digits[0] == '0' && digits[1] == '1' && digits[2] == '2' && digits[3] == '3' && digits[4] == '4';
    assert digits[5] == '5' && digits[6] == '6' && digits[7] == '7' && digits[8] == '8' && digits[9] == '9';
    assert digits[10] == 'a' && digits[11] == 'b' && digits[12] == 'c' && digits[13] == 'd' && digits[14] == 'e';
    assert digits[15] == 'f';
  }

  /** Digit k of a number in n digits. */
  lemma {:induction false} HexDigitAt(v: nat, n: nat, k: nat)
    requires k < n
    ensures Hex(v, n)[k] == "0123456789abcdef"[v / Pow16(n - 1 - k) % 16]
    decreases n
  {
    if k == n - 1 {
      HexDigits('0', v % 16);
    } else {
      HexDigitAt(v / 16, n - 1, k);
      DividedTwice(v, Pow16(n - 2 - k));
    }
  }

  lemma {:induction false} DividedTwice(v: nat, p: nat)
    requires p > 0
    ensures v / 16 / p == v / (16 * p)
  {
    var q, r := v / 16 / p, v / 16 % p;
    assert v == 16 * (p * q + r) + v % 16;
    assert 16 * r + v % 16 < 16 * p;
    QuotientIs(v, 16 * p, q, 16 * r + v % 16);
  }

  lemma {:induction false} Multiples(m: nat, k: int)
    ensures k >= 1 ==> m * k >= m
    ensures k <= -1 ==> m * k + m <= 0
  {
    if k >= 1 { assert m * k == m + m * (k - 1) && m * (k - 1) >= 0; }
    if k <= -1 { assert m * k == m * (k + 1) - m && m * (k + 1) <= 0; }
  }

  lemma {:induction false} QuotientIs(v: nat, m: nat, q: nat, r: nat)
    requires m > 0 && r < m && v == m * q + r
    ensures v / m == q
  {
    Multiples(m, v / m - q);
    assert m * (v / m - q) == r - v % m;
  }

  lemma {:induction false} Pow16Table()
    ensures Pow16(2) == 0x100 && Pow16(8) == 0x1_0000_0000
  {
    assert Pow16(2) == 0x100;
    assert Pow16(4) == 0x1_0000;
    assert Pow16(6) == 0x100_0000;
  }

  /** A digit below bit 31 does not carry into it. */
  lemma {:induction false} NoCarry(q: nat, d: nat, m: nat)
    requires d < 16 && 16 * q * m < 0x8000_0000
    requires m in {1, 0x10, 0x100, 0x1000, 0x1_0000, 0x10_0000, 0x100_0000}
    ensures 16 * q * m + d * m < 0x8000_0000 && d * m < 0x1000_0000
  {
    if m == 1 {} else if m == 0x10 {} else if m == 0x100 {} else if m == 0x1000 {} else if m == 0x1_0000 {}
    else if m == 0x10_0000 {} else {}
  }

  lemma {:induction false} SmallDigit(d: nat, m: nat)
    requires d < 16
    requires m in {1, 0x10, 0x100, 0x1000, 0x1_0000, 0x10_0000, 0x100_0000}
    ensures d * m < 0x1000_0000
  {
    if m == 1 {} else if m == 0x10 {} else if m == 0x100 {} else if m == 0x1000 {} else if m == 0x1_0000 {}
    else if m == 0x10_0000 {} else {}
  }

  /** Adding the digit d of weight m to the more significant part 16 q m. */
  lemma {:induction false} DigitStep(q: nat, d: nat, m: nat)
    requires d < 16 && 16 * q * m + d * m < 0x1_0000_0000
    requires m in {1, 0x10, 0x100, 0x1000, 0x1_0000, 0x10_0000, 0x100_0000, 0x1000_0000}
    ensures (SignExtended(d * m % 0x1_0000_0000) + SignExtended(16 * q * m)) % 0x1_0000_0000_0000_0000
            == SignExtended(16 * q * m + d * m)
  {
    var high, low := 16 * q * m, d * m;
    if m == 0x1000_0000 {
      assert q == 0;
    } else {
      SmallDigit(d, m);
      if high < 0x8000_0000 { NoCarry(q, d, m); }
    }
    Sum(high, low);
  }

  lemma {:induction false} Sum(high: nat, low: nat)
    requires high + low < 0x1_0000_0000
    requires high == 0 || (low < 0x1000_0000 && (high < 0x8000_0000 ==> high + low < 0x8000_0000))
    ensures (SignExtended(low % 0x1_0000_0000) + SignExtended(high)) % 0x1_0000_0000_0000_0000
            == SignExtended(high + low)
  {
  }

  /** The number a digit string denotes. */
  function Value(ds: string): nat
  {
    if ds == "" then 0 else 16 * Value(ds[..|ds| - 1]) + DigitValue(ds[|ds| - 1])
  }

  lemma {:induction false} HexDenotes(v: nat, n: nat)
    requires v < Pow16(n)
    ensures Value(Hex(v, n)) == v
  {
    if n > 0 {
      HexDenotes(v / 16, n - 1);
      assert Hex(v, n)[..n - 1] == Hex(v / 16, n - 1);
    }
  }

  /** Summing digits from shift s up adds their value << s, with bit 31 copied upwards. */
  lemma {:induction false} SumIsValue(ds: string, k: nat, s: nat, r: nat)
    requires k <= |ds| && r < 0x1_0000_0000_0000_0000
    requires s in {0, 4, 8, 12, 16, 20, 24, 28, 32} && s + 4 * k <= 32 && Shl(Value(ds[..k]), s) < 0x1_0000_0000
    ensures SumDigits(ds, k, s, r) == Add64(r, SignExtended(Shl(Value(ds[..k]), s)))
  {
    if k > 0 {
      assert ds[..k][..k - 1] == ds[..k - 1];
      SumStep(Value(ds[..k - 1]), DigitValue(ds[k - 1]), s, r);
      SumIsValue(ds, k - 1, s + 4, Add64(r, ShiftInt(DigitValue(ds[k - 1]), s)));
    }
  }

  lemma {:induction false} SumStep(q: nat, d: nat, s: nat, r: nat)
    requires s in {0, 4, 8, 12, 16, 20, 24, 28} && d < 16 && Shl(16 * q + d, s) < 0x1_0000_0000
    ensures Shl(q, s + 4) < 0x1_0000_0000
    ensures Add64(Add64(r, ShiftInt(d, s)), SignExtended(Shl(q, s + 4))) == Add64(r, SignExtended(Shl(16 * q + d, s)))
  {
    DigitSum(q, d, s);
    AddAssociates(r, ShiftInt(d, s), SignExtended(Shl(q, s + 4)));
  }

  lemma {:induction false} AddAssociates(r: nat, a: nat, b: nat)
    ensures Add64(Add64(r, a), b) == Add64(r, Add64(a, b))
  {
  }

  lemma {:induction false} DigitSum(q: nat, d: nat, s: nat)
    requires s in {0, 4, 8, 12, 16, 20, 24, 28} && d < 16 && Shl(16 * q + d, s) < 0x1_0000_0000
    ensures Shl(q, s + 4) < 0x1_0000_0000
    ensures Add64(ShiftInt(d, s), SignExtended(Shl(q, s + 4))) == SignExtended(Shl(16 * q + d, s))
  {
    Weight(s);
    Distribute(q, d, Pow2(s));
    DigitStep(q, d, Pow2(s));
  }

  lemma {:induction false} Weight(s: nat)
    requires s in {0, 4, 8, 12, 16, 20, 24, 28}
    ensures Pow2(s) in {1, 0x10, 0x100, 0x1000, 0x1_0000, 0x10_0000, 0x100_0000, 0x1000_0000}
    ensures Pow2(s + 4) == 16 * Pow2(s)
  {
    PowTable();
  }

  lemma {:induction false} Distribute(q: nat, d: nat, m: nat)
    ensures (16 * q + d) * m == 16 * q * m + d * m && 16 * q * m == q * (16 * m)
  {
  }

  function HexText(v: nat, n: nat): (t: string)
    ensures |t| == n + 2
  {
    "0x" + Hex(v, n)
  }

  lemma {:induction false} HexSums(v: nat, n: nat)
    requires n <= 8 && v < Pow16(n) && v < 0x1_0000_0000
    ensures SumDigits(Hex(v, n), n, 0, 0) == SignExtended(v)
  {
    HexDenotes(v, n);
    assert Hex(v, n)[..n] == Hex(v, n);
    assert Pow2(0) == 1;
    SumIsValue(Hex(v, n), n, 0, 0);
    SignExtendedFits(v);
  }

  lemma {:induction false} SignExtendedFits(w: nat)
    requires w < 0x1_0000_0000
    ensures Add64(0, SignExtended(w)) == SignExtended(w)
    ensures SignExtended(w) == w <==> w < 0x8000_0000
    ensures SignExtended(w) == MINUS_ONE <==> w == 0xffff_ffff
  {
  }

  lemma {:induction false} TokenValue(v: nat, n: nat, rest: string)
    requires n <= 8 && v < Pow16(n) && v < 0x1_0000_0000
    ensures AsciiToBin(HexText(v, n) + rest, n + 2) == SignExtended(v)
  {
    HexSums(v, n);
    assert (HexText(v, n) + rest)[2..n + 2] == Hex(v, n);
  }

  /**
   ascii_to_bin recovers an 8-digit number exactly when it fits 31 bits; from
   0x80000000 on the result carries 32 sign bits, and 0xffffffff reads as the
   error value.
   */
  lemma {:induction false} EightDigitsIff31Bits(v: nat, rest: string)
    requires v < 0x1_0000_0000
    ensures AsciiToBin(HexText(v, 8) + rest, 10) == v <==> v < 0x8000_0000
    ensures AsciiToBin(HexText(v, 8) + rest, 10) == MINUS_ONE <==> v == 0xffff_ffff
  {
    Pow16Table();
    TokenValue(v, 8, rest);
    SignExtendedFits(v);
  }

  /** The offset 0x80000000 reads as 0xffffffff80000000. */
  lemma {:induction false} HighOffsetMisread(rest: string)
    ensures AsciiToBin(HexText(0x8000_0000, 8) + rest, 10) == 0xffff_ffff_8000_0000
  {
    Pow16Table();
    TokenValue(0x8000_0000, 8, rest);
  }

  lemma {:induction false} TwoDigits(v: nat, rest: string)
    requires v < 0x100
    ensures AsciiToBin(HexText(v, 2) + rest, 4) == v
  {
    Pow16Table();
    TokenValue(v, 2, rest);
  }

  // ---------- the parser, on the text that is still to be read ----------

  function FirstSpace(t: string): (k: nat)
    ensures k <= |t|
  {
    if t == "" || t[0] == ' ' then 0 else 1 + FirstSpace(t[1..])
  }

  function DropSpaces(t: string): (r: string)
    ensures |r| <= |t|
    ensures r != "" ==> r[0] != ' '
  {
    if t != "" && t[0] == ' ' then DropSpaces(t[1..]) else t
  }

  datatype Line =
    | Good(edit: Edit, rest: string)
    | Bad
    | Lost

  datatype Bytes = GoodBytes(bytes: seq<uint8>, rest: string) | BadBytes | NoRoom

  /** Bytes of the data page an edit takes. */
  function Inserted(e: Edit): nat {
    match e
    case Insert(_, bytes) => |bytes|
    case Delete(_, _) => 0
  }

  /** The bytes to insert, up to the end of the line; the data page has room for so many more. */
  function ParseBytes(t: string, room: nat): (r: Bytes)
    ensures r.GoodBytes? ==> |r.bytes| <= room
    decreases |t|
  {
    if t != "" && t[0] == '\n' then GoodBytes([], t)
    else
      var d := AsciiToBin(t, 4);
      if d == MINUS_ONE then BadBytes
      else if room == 0 then NoRoom
      else match ParseBytes(DropSpaces(t[4..]), room - 1)
        case GoodBytes(bytes, rest) => GoodBytes([(d % 0x100) as uint8] + bytes, rest)
        case BadBytes => BadBytes
        case NoRoom => NoRoom
  }

  /** What follows the address. */
  function ParseTail(insert: bool, addr: nat, t: string, room: nat): (r: Line)
    ensures r.Good? ==> Inserted(r.edit) <= room
  {
    if insert then
      match ParseBytes(t, room)
      case GoodBytes(bytes, rest) => Good(Insert(addr, bytes), rest)
      case BadBytes => Bad
      case NoRoom => Lost
    else
      var d := AsciiToBin(t, 4);
      if d == MINUS_ONE then Bad else Good(Delete(addr, d), t[4..])
  }

  /** The address and what follows. */
  function ParseAddress(insert: bool, t: string, room: nat): (r: Line)
    ensures r.Good? ==> Inserted(r.edit) <= room
  {
    var addr := AsciiToBin(t, 10);
    if addr == MINUS_ONE then Bad else ParseTail(insert, addr, DropSpaces(t[10..]), room)
  }

  /** One line, with so many records and bytes free. */
  function ParseLine(t: string, slots: nat, room: nat): (r: Line)
    requires t != ""
    ensures r.Good? ==> slots > 0 && Inserted(r.edit) <= room
  {
    if t[0] != '0' && t[0] != '1' then Bad
    else if slots == 0 then Lost
    else
      var k := FirstSpace(t[1..]);
      if k == |t| - 1 then Lost else ParseAddress(t[0] == '1', t[k + 2..], room)
  }

  lemma {:induction false} ParseBytesShrinks(t: string, room: nat)
    ensures var r := ParseBytes(t, room);
            r.GoodBytes? ==> |r.rest| <= |t| && r.rest != "" && r.rest[0] == '\n'
    decreases |t|
  {
    if !(t != "" && t[0] == '\n') && AsciiToBin(t, 4) != MINUS_ONE && room > 0 {
      ParseBytesShrinks(DropSpaces(t[4..]), room - 1);
    }
  }

  lemma {:induction false} ParseLineShrinks(t: string, slots: nat, room: nat)
    requires t != ""
    ensures var r := ParseLine(t, slots, room); r.Good? ==> |r.rest| < |t|
  {
    if ParseLine(t, slots, room).Good? {
      var u := t[FirstSpace(t[1..]) + 2..];
      ParseBytesShrinks(DropSpaces(u[10..]), room);
    }
  }

  function Gain(e: Edit): int {
    match e
    case Insert(_, bytes) => |bytes|
    case Delete(_, len) => 0 - len
  }

  function Updown(edits: seq<Edit>): int {
    if edits == [] then 0 else Gain(edits[0]) + Updown(edits[1..])
  }

  function Prepend(edits: seq<Edit>, r: Outcome): Outcome {
    match r
    case Parsed(more, updown) => Parsed(edits + more, Updown(edits) + updown)
    case _ => r
  }

  /** The script from a line on: lines up to the end of the text or an empty line. */
  function ParseLines(t: string, slots: nat, room: nat): Outcome
    decreases |t|, 1
  {
    if t == "" || t[0] == '\n' then Parsed([], 0)
    else
      ParseLineShrinks(t, slots, room);
      ParseBehind(ParseLine(t, slots, room), |t|, slots, room)
  }

  /** The script behind a line of a text of n characters. */
  function ParseBehind(line: Line, ghost n: nat, slots: nat, room: nat): Outcome
    requires line.Good? ==> slots > 0 && Inserted(line.edit) <= room && |line.rest| <= n
    decreases n, 0
  {
    match line
    case Good(e, rest) =>
      // one character is skipped after every edit; past the end of the text there is none
      if rest == "" then Rejected else Prepend([e], ParseLines(rest[1..], slots - 1, room - Inserted(e)))
    case Bad => Rejected
    case Lost => Fault
  }

  /** A line that is no command ends the script. */
  lemma {:induction false} LineStops(t: string, slots: nat, room: nat, line: Line)
    requires t != "" && t[0] != '\n' && line == ParseLine(t, slots, room) && !line.Good?
    ensures ParseLines(t, slots, room) == if line == Bad then Rejected else Fault
  {
    assert ParseLines(t, slots, room) == ParseBehind(line, |t|, slots, room);
  }

  /** The whole script, on empty pages. */
  function ParseScript(t: string): Outcome {
    ParseLines(t, RECORDS, DATA)
  }

  // ---------- the text form of a script ----------

  predicate WellFormed(e: Edit) {
    match e
    case Insert(addr, _) => addr < 0x8000_0000
    case Delete(addr, len) => addr < 0x8000_0000 && len < 0x100
  }

  function PrintBytes(bs: seq<uint8>): string {
    if bs == [] then "" else " " + HexText(bs[0] as nat, 2) + PrintBytes(bs[1..])
  }

  function PrintEdit(e: Edit): string {
    match e
    case Insert(addr, bytes) => "1 " + HexText(addr, 8) + PrintBytes(bytes) + "\n"
    case Delete(addr, len) => "0 " + HexText(addr, 8) + " " + HexText(len, 2) + "\n"
  }

  function Print(edits: seq<Edit>): string {
    if edits == [] then "" else PrintEdit(edits[0]) + Print(edits[1..])
  }

  function InsertedBy(edits: seq<Edit>): nat {
    if edits == [] then 0 else Inserted(edits[0]) + InsertedBy(edits[1..])
  }

  /** What the bytes of an insertion read as when there is room for so many. */
  function ReadAs(bs: seq<uint8>, rest: string, room: nat): Bytes {
    if |bs| <= room then GoodBytes(bs, rest) else NoRoom
  }

  /** A token that reads as a byte is that byte followed by what the rest of the line holds. */
  lemma {:induction false} TokenParses(t: string, b: uint8, more: string, bs: seq<uint8>, rest: string, room: nat)
    requires t != "" && t[0] == '0' && |t| >= 4 && AsciiToBin(t, 4) == b as nat && t[4..] == more
    requires room > 0 ==> ParseBytes(DropSpaces(more), room - 1) == ReadAs(bs, rest, room - 1)
    ensures ParseBytes(DropSpaces(" " + t), room) == ReadAs([b] + bs, rest, room)
  {
    assert (" " + t)[1..] == t;
    assert DropSpaces(" " + t) == t;
    FirstByte(t, b, DropSpaces(more), room);
  }

  lemma {:induction false} FirstByte(t: string, b: uint8, next: string, room: nat)
    requires t != "" && t[0] != '\n' && |t| >= 4 && AsciiToBin(t, 4) == b as nat && next == DropSpaces(t[4..])
    ensures room == 0 ==> ParseBytes(t, room) == NoRoom
    ensures room > 0 ==>
              ParseBytes(t, room)
              == match ParseBytes(next, room - 1)
                 case GoodBytes(bytes, rest) => GoodBytes([b] + bytes, rest)
                 case BadBytes => BadBytes
                 case NoRoom => NoRoom
  {
    assert (b as nat % 0x100) as uint8 == b;
  }

  lemma {:induction false} ByteParses(b: uint8, more: string, bs: seq<uint8>, rest: string, room: nat)
    requires room > 0 ==> ParseBytes(DropSpaces(more), room - 1) == ReadAs(bs, rest, room - 1)
    ensures ParseBytes(DropSpaces(" " + (HexText(b as nat, 2) + more)), room) == ReadAs([b] + bs, rest, room)
  {
    TwoDigits(b as nat, more);
    TokenParses(HexText(b as nat, 2) + more, b, more, bs, rest, room);
  }

  lemma {:induction false} PrintedBytesParse(bs: seq<uint8>, rest: string, room: nat)
    ensures ParseBytes(DropSpaces(PrintBytes(bs) + (['\n'] + rest)), room) == ReadAs(bs, ['\n'] + rest, room)
    decreases |bs|
  {
    var end := ['\n'] + rest;
    if bs == [] {
      assert PrintBytes(bs) + end == end;
    } else {
      var more := PrintBytes(bs[1..]) + end;
      if room > 0 { PrintedBytesParse(bs[1..], rest, room - 1); }
      ByteParses(bs[0], more, bs[1..], end, room);
      Regroup(bs, end);
      assert [bs[0]] + bs[1..] == bs;
    }
  }

  lemma {:induction false} Regroup(bs: seq<uint8>, end: string)
    requires bs != []
    ensures PrintBytes(bs) + end == " " + (HexText(bs[0] as nat, 2) + (PrintBytes(bs[1..]) + end))
  {
    var h, p := HexText(bs[0] as nat, 2), PrintBytes(bs[1..]);
    assert " " + h + p + end == " " + (h + (p + end));
  }

  /** What a printed edit reads as with so many records and bytes free. */
  function LineAs(e: Edit, rest: string, slots: nat, room: nat): Line {
    if slots > 0 && Inserted(e) <= room then Good(e, rest) else Lost
  }

  lemma {:induction false} PrintedTailParses(e: Edit, rest: string, room: nat)
    requires WellFormed(e)
    ensures var t := if e.Insert? then PrintBytes(e.bytes) + (['\n'] + rest)
            else " " + HexText(e.len, 2) + ['\n'] + rest;
            ParseTail(e.Insert?, e.addr, DropSpaces(t), room) == LineAs(e, ['\n'] + rest, 1, room)
  {
    match e {
      case Insert(addr, bytes) => PrintedBytesParse(bytes, rest, room);
      case Delete(addr, len) =>
        var t := HexText(len, 2) + (['\n'] + rest);
        assert " " + HexText(len, 2) + ['\n'] + rest == " " + t && (" " + t)[1..] == t && t[0] == '0';
        TwoDigits(len, ['\n'] + rest);
        assert t[4..] == ['\n'] + rest;
    }
  }

  /** A line is a command character, a space and the rest. */
  lemma {:induction false} LineSplits(c: char, u: string, slots: nat, room: nat)
    requires c == '0' || c == '1'
    ensures var addr := AsciiToBin(u, 10);
            ParseLine([c, ' '] + u, slots, room)
            == if slots == 0 then Lost
               else if addr == MINUS_ONE then Bad else ParseTail(c == '1', addr, DropSpaces(u[10..]), room)
  {
    var t := [c, ' '] + u;
    assert t[1..][0] == ' ' && t[2..] == u;
  }

  lemma {:induction false} PrintedLineParses(e: Edit, rest: string, slots: nat, room: nat)
    requires WellFormed(e)
    ensures ParseLine(PrintEdit(e) + rest, slots, room) == LineAs(e, ['\n'] + rest, slots, room)
  {
    var tail := if e.Insert? then PrintBytes(e.bytes) + (['\n'] + rest) else " " + HexText(e.len, 2) + ['\n'] + rest;
    var u := HexText(e.addr, 8) + tail;
    var c := if e.Insert? then '1' else '0';
    assert PrintEdit(e) + rest == [c, ' '] + u;
    LineSplits(c, u, slots, room);
    EightDigitsIff31Bits(e.addr, tail);
    assert u[10..] == tail;
    PrintedTailParses(e, rest, room);
  }

  lemma {:induction false} ScriptOfLine(t: string, e: Edit, rest: string, slots: nat, room: nat)
    requires t != "" && t[0] != '\n' && ParseLine(t, slots, room) == LineAs(e, ['\n'] + rest, slots, room)
    ensures ParseLines(t, slots, room)
            == if slots > 0 && Inserted(e) <= room then Prepend([e], ParseLines(rest, slots - 1, room - Inserted(e)))
               else Fault
  {
    if slots > 0 && Inserted(e) <= room {
      var tail := ['\n'] + rest;
      assert tail[1..] == rest;
      LineOfScript(t, e, tail, rest, slots, room, ParseLines(rest, slots - 1, room - Inserted(e)));
    }
  }

  lemma {:induction false} LineOfScript(
    t: string, e: Edit, tail: string, rest: string, slots: nat, room: nat, next: Outcome)
    requires t != "" && t[0] != '\n' && tail != "" && rest == tail[1..] && ParseLine(t, slots, room) == Good(e, tail)
    requires next == ParseLines(rest, slots - 1, room - Inserted(e))
    ensures ParseLines(t, slots, room) == Prepend([e], next)
  {
  }

  lemma {:induction false} PrependOne(e: Edit, edits: seq<Edit>)
    ensures Prepend([e], Parsed(edits, Updown(edits))) == Parsed([e] + edits, Updown([e] + edits))
  {
    assert Updown([e]) == Gain(e) + Updown([]);
    assert ([e] + edits)[1..] == edits;
  }

  lemma {:induction false} CommandFirst(e: Edit, rest: string)
    ensures PrintEdit(e) + rest != "" && (PrintEdit(e) + rest)[0] == if e.Insert? then '1' else '0'
  {
  }

  /** What a printed script reads as with so many records and bytes free. */
  function ScriptAs(edits: seq<Edit>, slots: nat, room: nat): Outcome {
    if |edits| <= slots && InsertedBy(edits) <= room then Parsed(edits, Updown(edits)) else Fault
  }

  ghost predicate ReadsAs(t: string, edits: seq<Edit>, slots: nat, room: nat) {
    ParseLines(t, slots, room) == ScriptAs(edits, slots, room)
  }

  /** What is left to read behind a command reads as that script. */
  ghost predicate ReadsOn(e: Edit, rest: string, edits: seq<Edit>, slots: nat, room: nat) {
    slots > 0 && Inserted(e) <= room ==> ReadsAs(rest, edits, slots - 1, room - Inserted(e))
  }

  lemma {:induction false} ScriptStep(
    e: Edit, rest: string, edits: seq<Edit>, slots: nat, room: nat, text: string, all: seq<Edit>)
    requires WellFormed(e) && ReadsOn(e, rest, edits, slots, room)
    requires text == PrintEdit(e) + rest && all == [e] + edits
    ensures ReadsAs(text, all, slots, room)
  {
    PrintedLineParses(e, rest, slots, room);
    CommandFirst(e, rest);
    ScriptOfLine(PrintEdit(e) + rest, e, rest, slots, room);
    PrependOne(e, edits);
    assert all[1..] == edits;
  }

  lemma {:induction false} MoreLinesParse(e: Edit, more: seq<Edit>, slots: nat, room: nat)
    requires forall e :: e in more ==> WellFormed(e)
    ensures ReadsOn(e, Print(more), more, slots, room)
    decreases |more|, 1
  {
    if slots > 0 && Inserted(e) <= room { PrintedLinesParse(more, slots - 1, room - Inserted(e)); }
  }

  lemma {:induction false} PrintedLinesParse(edits: seq<Edit>, slots: nat, room: nat)
    requires forall e :: e in edits ==> WellFormed(e)
    ensures ReadsAs(Print(edits), edits, slots, room)
    decreases |edits|, 0
  {
    if edits != [] {
      var e, more := edits[0], edits[1..];
      assert [e] + more == edits && WellFormed(e);
      MoreLinesParse(e, more, slots, room);
      ScriptStep(e, Print(more), more, slots, room, Print(edits), edits);
    }
  }

  /**
   Reading back the text of a well-formed script gives the script and its net growth exactly if
   it fits the two pages; otherwise a record or a byte is written behind one of them.
   */
  lemma {:induction false} PrintedScriptParsesIff(edits: seq<Edit>)
    requires forall e :: e in edits ==> WellFormed(e)
    ensures ParseScript(Print(edits)) == Parsed(edits, Updown(edits))
            <==> |edits| <= 128 && InsertedBy(edits) <= 4096
    ensures !(|edits| <= 128 && InsertedBy(edits) <= 4096) ==> ParseScript(Print(edits)) == Fault
  {
    PrintedLinesParse(edits, RECORDS, DATA);
  }

  // ---------- applying a script ----------

  /** Where the cursor stands after an edit that it met. */
  function After(e: Edit): nat {
    match e
    case Insert(addr, _) => addr
    case Delete(addr, len) => addr + len
  }

  predicate Fits(e: Edit, p: nat, n: nat) {
    p <= e.addr && After(e) <= n
  }

  /** Sorted and in range from edit k on: each starts at or behind the end of the one before. */
  predicate InOrder(edits: seq<Edit>, k: nat, p: nat, n: nat)
    decreases |edits| - k
  {
    k < |edits| ==> Fits(edits[k], p, n) && InOrder(edits, k + 1, After(edits[k]), n)
  }

  /** The file from p on, spliced: untouched bytes in order, insertions in place, deletions left out. */
  function Splice(input: seq<uint8>, edits: seq<Edit>, k: nat, p: nat): seq<uint8>
    requires p <= |input| && InOrder(edits, k, p, |input|)
    decreases |edits| - k
  {
    if k >= |edits| then input[p..]
    else
      var e := edits[k];
      input[p..e.addr] + ((if e.Insert? then e.bytes else []) + Splice(input, edits, k + 1, After(e)))
  }

  function Result(input: seq<uint8>, edits: seq<Edit>): seq<uint8>
    requires InOrder(edits, 0, 0, |input|)
  {
    Splice(input, edits, 0, 0)
  }

  lemma {:induction false} SpliceLength(input: seq<uint8>, edits: seq<Edit>, k: nat, p: nat)
    requires p <= |input| && k <= |edits| && InOrder(edits, k, p, |input|)
    ensures |Splice(input, edits, k, p)| == |input| - p + Updown(edits[k..])
    decreases |edits| - k
  {
    if k < |edits| {
      SpliceLength(input, edits, k + 1, After(edits[k]));
      assert edits[k..][1..] == edits[k + 1..];
    }
  }

  /** The result is as much longer than the input as read_patch has counted. */
  lemma {:induction false} ResultLength(input: seq<uint8>, edits: seq<Edit>)
    requires InOrder(edits, 0, 0, |input|)
    ensures |Result(input, edits)| == |input| + Updown(edits)
  {
    SpliceLength(input, edits, 0, 0);
    assert edits[0..] == edits;
  }

  /** The bytes that edit k and those behind it insert at the end of the input. */
  function Ends(edits: seq<Edit>, k: nat, n: nat): seq<uint8>
    decreases |edits| - k
  {
    if k >= |edits| then []
    else (if edits[k].Insert? && edits[k].addr == n then edits[k].bytes else []) + Ends(edits, k + 1, n)
  }

  predicate EndsWith(s: seq<uint8>, e: seq<uint8>) {
    |e| <= |s| && s[|s| - |e|..] == e
  }

  /** The splice ends with them. */
  lemma {:induction false} SpliceEnds(input: seq<uint8>, edits: seq<Edit>, k: nat, p: nat)
    requires p <= |input| && InOrder(edits, k, p, |input|)
    ensures EndsWith(Splice(input, edits, k, p), Ends(edits, k, |input|))
    ensures p == |input| ==> Splice(input, edits, k, p) == Ends(edits, k, |input|)
    decreases |edits| - k
  {
    if k < |edits| {
      var e := edits[k];
      SpliceEnds(input, edits, k + 1, After(e));
      var rest, more := Splice(input, edits, k + 1, After(e)), Ends(edits, k + 1, |input|);
      var bytes, last := if e.Insert? then e.bytes else [], if e.Insert? && e.addr == |input| then e.bytes else [];
      SplitEnd(input[p..e.addr], bytes, rest, last, more);
    }
  }

  lemma {:induction false} SplitEnd(a: seq<uint8>, b: seq<uint8>, rest: seq<uint8>, last: seq<uint8>, more: seq<uint8>)
    requires EndsWith(rest, more) && (last == [] || (last == b && rest == more))
    ensures EndsWith(a + (b + rest), last + more)
    ensures a == [] && b == last && rest == more ==> a + (b + rest) == last + more
  {
    var w := a + (b + rest);
    if last == [] {
      assert last + more == more && w[|w| - |more|..] == rest[|rest| - |more|..];
    } else {
      assert w[|a|..] == b + rest;
    }
  }

  /** The splice without what is inserted at the end of the input. */
  function Kept(input: seq<uint8>, edits: seq<Edit>): (s: seq<uint8>)
    requires InOrder(edits, 0, 0, |input|)
    ensures Result(input, edits) == s + Ends(edits, 0, |input|)
  {
    SpliceEnds(input, edits, 0, 0);
    var whole, e := Result(input, edits), Ends(edits, 0, |input|);
    assert whole == whole[..|whole| - |e|] + whole[|whole| - |e|..];
    whole[..|whole| - |e|]
  }

  /** The record read at position k of the page: behind the script it is zero, a deletion of nothing at 0. */
  function Record(edits: seq<Edit>, k: nat): Edit {
    if k < |edits| then edits[k] else Delete(0, 0)
  }

  /**
   Reading a record at position k leaves the mapped memory: the page is full, or it is gone,
   because read_patch unmaps what its cursor stands on and with no record that is the page.
   */
  predicate OffPage(edits: seq<Edit>, k: nat) {
    edits == [] || k >= RECORDS
  }

  /** Cursor in the input, output so far, position in the records. */
  datatype State = State(p: nat, out: seq<uint8>, k: nat)

  predicate Halted(input: seq<uint8>, room: nat, st: State) {
    st.p == |input| || |st.out| == room
  }

  /** One round of the loop of apply, with a record to read. */
  function Step(input: seq<uint8>, edits: seq<Edit>, st: State): State
    requires st.p < |input|
  {
    var e := Record(edits, st.k);
    if st.p == e.addr then
      match e
      case Insert(_, bytes) => State(st.p, st.out + bytes, st.k + 1)
      case Delete(_, len) => State(st.p + len, st.out, st.k + 1)
    else
      State(st.p + 1, st.out + [input[st.p]], st.k)
  }

  /** Where the last edit leaves the cursor. */
  function FinalPosition(edits: seq<Edit>): nat {
    if edits == [] then 0 else After(edits[|edits| - 1])
  }

  /** What is written and what is still to come make up the whole. */
  ghost predicate OnTrack(whole: seq<uint8>, input: seq<uint8>, edits: seq<Edit>, st: State) {
    && st.p <= |input|
    && InOrder(edits, st.k, st.p, |input|)
    && whole == st.out + Splice(input, edits, st.k, st.p)
    && (st.k >= |edits| ==> FinalPosition(edits) <= st.p)
    && Ends(edits, st.k, |input|) == Ends(edits, 0, |input|)
  }

  lemma {:induction false} StepKeepsTrack(whole: seq<uint8>, input: seq<uint8>, edits: seq<Edit>, st: State)
    requires OnTrack(whole, input, edits, st) && st.p < |input|
    ensures OnTrack(whole, input, edits, Step(input, edits, st))
  {
    if st.k >= |edits| {
      CopyBehind(whole, input, edits, st);
    } else if st.p == edits[st.k].addr {
      EditSplits(input, edits, st.k, st.p, st.out);
    } else {
      CopySplits(input, edits, st.k, st.p, st.out);
    }
  }

  lemma {:induction false} CopyBehind(whole: seq<uint8>, input: seq<uint8>, edits: seq<Edit>, st: State)
    requires OnTrack(whole, input, edits, st) && st.p < |input| && st.k >= |edits|
    ensures OnTrack(whole, input, edits, Step(input, edits, st))
  {
    if st.p != 0 {
      DropFirst(input, st.p);
      Regroups(st.out, [input[st.p]], input[st.p + 1..]);
    }
  }

  lemma {:induction false} DropFirst(s: seq<uint8>, p: nat)
    requires p < |s|
    ensures s[p..] == [s[p]] + s[p + 1..]
  {
  }

  lemma {:induction false} TakeFirst(s: seq<uint8>, p: nat, a: nat)
    requires p < a <= |s|
    ensures s[p..a] == [s[p]] + s[p + 1..a]
  {
  }

  lemma {:induction false} Regroups(a: seq<uint8>, b: seq<uint8>, c: seq<uint8>)
    ensures a + (b + c) == a + b + c
  {
  }

  lemma {:induction false} EditSplits(input: seq<uint8>, edits: seq<Edit>, k: nat, p: nat, out: seq<uint8>)
    requires p < |input| && k < |edits| && InOrder(edits, k, p, |input|) && p == edits[k].addr
    ensures out + Splice(input, edits, k, p)
            == out + (if edits[k].Insert? then edits[k].bytes else []) + Splice(input, edits, k + 1, After(edits[k]))
    ensures edits[k].Delete? ==> out + Splice(input, edits, k, p) == out + Splice(input, edits, k + 1, After(edits[k]))
  {
    assert input[p..p] == [];
    Regroups(out, if edits[k].Insert? then edits[k].bytes else [], Splice(input, edits, k + 1, After(edits[k])));
    assert out + [] == out;
  }

  lemma {:induction false} CopySplits(input: seq<uint8>, edits: seq<Edit>, k: nat, p: nat, out: seq<uint8>)
    requires p < |input| && k < |edits| && InOrder(edits, k, p, |input|) && p != edits[k].addr
    ensures InOrder(edits, k, p + 1, |input|)
    ensures out + Splice(input, edits, k, p) == out + [input[p]] + Splice(input, edits, k, p + 1)
  {
    CopyOne(input, edits, k, p);
    Regroups(out, [input[p]], Splice(input, edits, k, p + 1));
  }

  lemma {:induction false} CopyOne(input: seq<uint8>, edits: seq<Edit>, k: nat, p: nat)
    requires p < |input| && k < |edits| && InOrder(edits, k, p, |input|) && p != edits[k].addr
    ensures InOrder(edits, k, p + 1, |input|)
    ensures Splice(input, edits, k, p) == [input[p]] + Splice(input, edits, k, p + 1)
  {
    var a := edits[k].addr;
    var tail := (if edits[k].Insert? then edits[k].bytes else []) + Splice(input, edits, k + 1, After(edits[k]));
    TakeFirst(input, p, a);
    assert Splice(input, edits, k, p) == input[p..a] + tail;
    assert Splice(input, edits, k, p + 1) == input[p + 1..a] + tail;
    Regroups([input[p]], input[p + 1..a], tail);
  }

  function Round(input: seq<uint8>, edits: seq<Edit>, room: nat, st: State): State {
    if Halted(input, room, st) || st.p > |input| || OffPage(edits, st.k) then st else Step(input, edits, st)
  }

  lemma {:induction false} RoundKeepsTrack(whole: seq<uint8>, input: seq<uint8>, edits: seq<Edit>, room: nat, st: State)
    requires OnTrack(whole, input, edits, st)
    ensures OnTrack(whole, input, edits, Round(input, edits, room, st))
  {
    if st.p < |input| { StepKeepsTrack(whole, input, edits, st); }
  }

  lemma {:induction false} StartsOnTrack(whole: seq<uint8>, input: seq<uint8>, edits: seq<Edit>)
    requires InOrder(edits, 0, 0, |input|) && whole == Result(input, edits)
    ensures OnTrack(whole, input, edits, State(0, [], 0))
  {
    assert [] + whole == whole;
  }

  /** The state after n rounds, at the halt, or where the records leave the page. */
  function Rounds(input: seq<uint8>, edits: seq<Edit>, room: nat, n: nat): State {
    if n == 0 then State(0, [], 0)
    else
      Round(input, edits, room, Rounds(input, edits, room, n - 1))
  }

  lemma {:induction false} RoundsKeepTrack(whole: seq<uint8>, input: seq<uint8>, edits: seq<Edit>, room: nat, n: nat)
    requires InOrder(edits, 0, 0, |input|) && whole == Result(input, edits)
    ensures OnTrack(whole, input, edits, Rounds(input, edits, room, n))
  {
    if n == 0 {
      StartsOnTrack(whole, input, edits);
    } else {
      RoundsKeepTrack(whole, input, edits, room, n - 1);
      RoundKeepsTrack(whole, input, edits, room, Rounds(input, edits, room, n - 1));
    }
  }

  /** Whenever the loop stops, the output is the splice but for what is inserted at the end of the input. */
  lemma {:induction false} HaltedIsDone(whole: seq<uint8>, input: seq<uint8>, edits: seq<Edit>, room: nat, st: State)
    requires OnTrack(whole, input, edits, st) && Halted(input, room, st) && |whole| <= room
    ensures whole == st.out + Ends(edits, 0, |input|)
  {
    SpliceEnds(input, edits, st.k, st.p);
    assert st.out + [] == st.out;
  }

  lemma {:induction false} ReachesFinal(edits: seq<Edit>, k: nat, p: nat, n: nat)
    requires k < |edits| && InOrder(edits, k, p, n)
    ensures After(edits[k]) <= FinalPosition(edits)
    decreases |edits| - k
  {
    if k + 1 < |edits| { ReachesFinal(edits, k + 1, After(edits[k]), n); }
  }

  /** What is left to do: bytes to copy and records to meet. */
  function Left(input: seq<uint8>, edits: seq<Edit>, st: State): int {
    |input| - st.p + |edits| - st.k
  }

  lemma {:induction false} Progress(whole: seq<uint8>, input: seq<uint8>, edits: seq<Edit>, st: State)
    requires OnTrack(whole, input, edits, st) && st.p < |input| && st.k <= |edits| && FinalPosition(edits) > 0
    ensures var r := Step(input, edits, st); r.k <= |edits| && Left(input, edits, r) < Left(input, edits, st)
  {
  }

  lemma {:induction false} RoundProgress(whole: seq<uint8>, input: seq<uint8>, edits: seq<Edit>, room: nat, st: State)
    requires OnTrack(whole, input, edits, st) && st.k <= |edits| < RECORDS && (input == [] || FinalPosition(edits) > 0)
    ensures var r := Round(input, edits, room, st);
            && r.k <= |edits| && (Halted(input, room, st) ==> r == st)
            && (!Halted(input, room, st) ==> Left(input, edits, r) < Left(input, edits, st))
  {
    if !Halted(input, room, st) { Progress(whole, input, edits, st); }
  }

  lemma {:induction false} HaltsWithin(whole: seq<uint8>, input: seq<uint8>, edits: seq<Edit>, room: nat, n: nat)
    requires InOrder(edits, 0, 0, |input|) && whole == Result(input, edits)
    requires |edits| < RECORDS && (input == [] || FinalPosition(edits) > 0)
    ensures var st := Rounds(input, edits, room, n);
            st.k <= |edits| && (Halted(input, room, st) || Left(input, edits, st) <= |input| + |edits| - n)
  {
    if n > 0 {
      HaltsWithin(whole, input, edits, room, n - 1);
      RoundsKeepTrack(whole, input, edits, room, n - 1);
      RoundProgress(whole, input, edits, room, Rounds(input, edits, room, n - 1));
    }
  }

  /** While nothing moves the cursor off 0, the whole input is still to be written. */
  lemma {:induction false} StuckHasMore(input: seq<uint8>, edits: seq<Edit>, k: nat)
    requires InOrder(edits, k, 0, |input|) && FinalPosition(edits) == 0
    ensures |Splice(input, edits, k, 0)| >= |input|
    ensures k < |edits| ==> After(edits[k]) == 0
    decreases |edits| - k
  {
    if k < |edits| {
      ReachesFinal(edits, k, 0, |input|);
      StuckHasMore(input, edits, k + 1);
    }
  }

  lemma {:induction false} StuckGoesOn(whole: seq<uint8>, input: seq<uint8>, edits: seq<Edit>, room: nat, st: State)
    requires OnTrack(whole, input, edits, st) && st.p == 0 && FinalPosition(edits) == 0 && input != []
             && |whole| <= room
    ensures !Halted(input, room, st)
    ensures var next := Step(input, edits, st); next.p == 0 && next.k == st.k + 1
  {
    StuckHasMore(input, edits, st.k);
  }

  lemma {:induction false} StuckAtZero(input: seq<uint8>, edits: seq<Edit>, room: nat, n: nat)
    requires InOrder(edits, 0, 0, |input|) && FinalPosition(edits) == 0 && input != []
    requires |Result(input, edits)| <= room
    ensures var st := Rounds(input, edits, room, n);
            st.p == 0 && !Halted(input, room, st) && (edits != [] && n <= RECORDS ==> st.k == n)
  {
    if n > 0 {
      StuckAtZero(input, edits, room, n - 1);
      RoundsKeepTrack(Result(input, edits), input, edits, room, n - 1);
      StuckGoesOn(Result(input, edits), input, edits, room, Rounds(input, edits, room, n - 1));
    }
    RoundsKeepTrack(Result(input, edits), input, edits, room, n);
    StuckGoesOn(Result(input, edits), input, edits, room, Rounds(input, edits, room, n));
  }

  /**
   apply ends on an in-order script that leaves a zero record on its page exactly if the input is
   empty or some edit leaves the cursor off offset 0. Otherwise the zero records match one after
   the other, until the record cursor leaves the page with the input cursor still at offset 0.
   When it ends, the output is the splice but for what is inserted at the end of the input.
   */
  lemma {:induction false} HaltsIffMoves(input: seq<uint8>, edits: seq<Edit>, room: nat)
    requires InOrder(edits, 0, 0, |input|) && |edits| < RECORDS && |Result(input, edits)| <= room
    ensures (exists n: nat :: Halted(input, room, Rounds(input, edits, room, n)))
            <==> input == [] || FinalPosition(edits) > 0
    ensures var st := Rounds(input, edits, room, RECORDS);
            !(input == [] || FinalPosition(edits) > 0)
            ==> st.p == 0 && OffPage(edits, st.k) && (edits != [] ==> st.k == RECORDS)
    ensures forall n: nat :: Halted(input, room, Rounds(input, edits, room, n))
                             ==> Rounds(input, edits, room, n).out == Kept(input, edits)
  {
    forall n: nat | Halted(input, room, Rounds(input, edits, room, n))
      ensures Rounds(input, edits, room, n).out == Kept(input, edits)
    {
      RoundsKeepTrack(Result(input, edits), input, edits, room, n);
      HaltedIsDone(Result(input, edits), input, edits, room, Rounds(input, edits, room, n));
      SameFront(Rounds(input, edits, room, n).out, Kept(input, edits), Ends(edits, 0, |input|));
    }
    if input == [] || FinalPosition(edits) > 0 {
      var n := |input| + |edits|;
      HaltsWithin(Result(input, edits), input, edits, room, n);
      RoundsKeepTrack(Result(input, edits), input, edits, room, n);
      assert Halted(input, room, Rounds(input, edits, room, n));
    } else {
      forall n: nat ensures !Halted(input, room, Rounds(input, edits, room, n)) {
        StuckAtZero(input, edits, room, n);
      }
      StuckAtZero(input, edits, room, RECORDS);
    }
  }

  lemma {:induction false} SameFront(a: seq<uint8>, b: seq<uint8>, e: seq<uint8>)
    requires a + e == b + e
    ensures a == b
  {
    assert a == (a + e)[..|a|] && b == (b + e)[..|b|];
  }

  /**
   An in-range script yields its splice exactly if it moves the cursor, or has nothing to move
   it over, and inserts nothing at the end of the input.
   */
  lemma {:induction false} SplicesIff(input: seq<uint8>, edits: seq<Edit>, room: nat)
    requires InOrder(edits, 0, 0, |input|) && |edits| < RECORDS && |Result(input, edits)| <= room
    ensures (exists n: nat :: var st := Rounds(input, edits, room, n);
                              Halted(input, room, st) && st.out == Result(input, edits))
            <==> (input == [] || FinalPosition(edits) > 0) && Ends(edits, 0, |input|) == []
  {
    HaltsIffMoves(input, edits, room);
    var whole, kept, e := Result(input, edits), Kept(input, edits), Ends(edits, 0, |input|);
    assert whole == kept + e;
    if (input == [] || FinalPosition(edits) > 0) && e == [] {
      var n: nat :| Halted(input, room, Rounds(input, edits, room, n));
      assert Rounds(input, edits, room, n).out == kept == whole;
    }
  }

  lemma {:induction false} EndInsertion(input: seq<uint8>, edits: seq<Edit>)
    requires input == [7] && edits == [Insert(1, [8])]
    ensures InOrder(edits, 0, 0, |input|) && Ends(edits, 0, |input|) == [8] && Result(input, edits) == [7, 8]
    ensures FinalPosition(edits) > 0 && Kept(input, edits) == [7]
  {
    assert InOrder(edits, 1, 1, 1) && Splice(input, edits, 1, 1) == [];
    assert Ends(edits, 1, 1) == [];
    SameFront(Kept(input, edits), [7], [8]);
  }

  /** A byte inserted behind the last one of the input is lost. */
  lemma {:induction false} EndInsertionLost(input: seq<uint8>, edits: seq<Edit>)
    requires input == [7] && edits == [Insert(1, [8])]
    ensures InOrder(edits, 0, 0, |input|) && Result(input, edits) == [7, 8]
    ensures exists n: nat :: var st := Rounds(input, edits, 2, n); Halted(input, 2, st) && st.out == [7]
  {
    EndInsertion(input, edits);
    HaltsIffMoves(input, edits, 2);
  }

  /** A byte inserted before the only one of the input: the cursor stays at 0 until the records leave their page. */
  lemma {:induction false} FrontInsertionSticks(input: seq<uint8>, edits: seq<Edit>)
    requires input == [7] && edits == [Insert(0, [8])]
    ensures InOrder(edits, 0, 0, |input|) && Result(input, edits) == [8, 7]
    ensures !exists n: nat :: Halted(input, 2, Rounds(input, edits, 2, n))
    ensures Rounds(input, edits, 2, RECORDS).p == 0 && Rounds(input, edits, 2, RECORDS).k == RECORDS
  {
    assert InOrder(edits, 1, 0, 1) && Splice(input, edits, 1, 0) == [7];
    assert Splice(input, edits, 0, 0) == input[0..0] + [8] + [7];
    HaltsIffMoves(input, edits, 2);
  }

  // ---------- runs of any script ----------

  /** Where the loop rests, it stays. */
  lemma {:induction false} RestStays(input: seq<uint8>, edits: seq<Edit>, room: nat, m: nat, n: nat)
    requires m <= n
    requires var st := Rounds(input, edits, room, m); Round(input, edits, room, st) == st
    ensures Rounds(input, edits, room, n) == Rounds(input, edits, room, m)
    decreases n
  {
    if m < n { RestStays(input, edits, room, m, n - 1); }
  }

  lemma {:induction false} OutputGrows(input: seq<uint8>, edits: seq<Edit>, room: nat, m: nat, n: nat)
    requires m <= n
    ensures |Rounds(input, edits, room, m).out| <= |Rounds(input, edits, room, n).out|
    decreases n
  {
    if m < n { OutputGrows(input, edits, room, m, n - 1); }
  }

  /** Before a run ends, every round is a step with a record to read, and what it writes is in the end result. */
  lemma {:induction false} RunSteps(input: seq<uint8>, edits: seq<Edit>, room: nat, m: nat, n: nat, st: State)
    requires m <= n && Halted(input, room, Rounds(input, edits, room, n))
    requires st == Rounds(input, edits, room, m) && !Halted(input, room, st)
    ensures m < n && st.p < |input| && !OffPage(edits, st.k)
    ensures Rounds(input, edits, room, m + 1) == Step(input, edits, st)
    ensures |Step(input, edits, st).out| <= |Rounds(input, edits, room, n).out|
  {
    if st.p >= |input| || OffPage(edits, st.k) {
      RestStays(input, edits, room, m, n);
    } else {
      OutputGrows(input, edits, room, m + 1, n);
    }
  }

  /** An in-order script that moves the cursor ends within as many rounds as there are bytes and records. */
  lemma {:induction false} InOrderEnds(input: seq<uint8>, edits: seq<Edit>, room: nat)
    requires InOrder(edits, 0, 0, |input|) && |edits| < RECORDS && |Result(input, edits)| <= room
    requires input == [] || FinalPosition(edits) > 0
    ensures Halted(input, room, Rounds(input, edits, room, |input| + |edits|))
    ensures Rounds(input, edits, room, |input| + |edits|).out == Kept(input, edits)
  {
    var n := |input| + |edits|;
    HaltsIffMoves(input, edits, room);
    HaltsWithin(Result(input, edits), input, edits, room, n);
    RoundsKeepTrack(Result(input, edits), input, edits, room, n);
  }

  /** The first n bytes, with zeros where there are fewer. */
  function Cut(s: seq<uint8>, n: nat): (r: seq<uint8>)
    ensures |r| == n
  {
    if n <= |s| then s[..n] else s + Zeros(n - |s|)
  }

  lemma {:induction false} UpdownAppended(edits: seq<Edit>, e: Edit)
    ensures Updown(edits + [e]) == Updown(edits) + Gain(e)
  {
    if edits == [] {
      assert [] + [e] == [e];
      assert Updown([e]) == Gain(e) + Updown([]);
    } else {
      assert (edits + [e])[1..] == edits[1..] + [e];
      UpdownAppended(edits[1..], e);
    }
  }
}

module Bipatch {
  import opened Machine
  import opened BipatchSpec

  /** The character at a cursor; the mapping is zero behind the text. */
  function At(t: string, p: nat): char {
    if p < |t| then t[p] else '\0'
  }

  /** What is left to read from a cursor on. */
  function From(t: string, p: nat): string {
    if p <= |t| then t[p..] else ""
  }

  method ComputeAsciiToBin(t: string, begin: nat, end: nat) returns (r: nat)
    requires begin + 2 < end
    ensures r == AsciiToBin(From(t, begin), end - begin)
  {
    if At(t, begin) != '0' || At(t, begin + 1) != 'x' {
      return MINUS_ONE;
    }
    if !IsDigit(At(t, end - 1)) {
      assert end <= |t| ==> From(t, begin)[2..end - begin][end - begin - 3] == t[end - 1];
      return MINUS_ONE;
    }
    assert From(t, begin)[2..end - begin] == t[begin + 2..end];
    r := SumBackwards(t, begin + 2, end);
  }

  /** The digit loop, from the last character to the first. */
  method SumBackwards(t: string, first: nat, end: nat) returns (r: nat)
    requires first <= end <= |t|
    ensures r == if AllDigits(t[first..end]) then SumDigits(t[first..end], end - first, 0, 0) else MINUS_ONE
  {
    ghost var ds := t[first..end];
    var x, s := end, 0;
    r := 0;
    while x != first
      invariant first <= x <= end
      invariant forall i :: x - first <= i < |ds| ==> IsDigit(ds[i])
      invariant SumDigits(ds, |ds|, 0, 0) == SumDigits(ds, x - first, s, r)
      decreases x
    {
      x := x - 1;
      assert ds[x - first] == t[x];
      if !IsDigit(t[x]) {
        return MINUS_ONE;
      }
      r, s := Add64(r, ShiftInt(DigitValue(t[x]), s)), s + 4;
    }
  }

  // ---------- read_patch ----------

  method SkipToSpace(t: string, begin: nat) returns (p: nat)
    requires begin <= |t|
    ensures p == begin + FirstSpace(t[begin..])
  {
    p := begin;
    while p < |t| && t[p] != ' '
      invariant begin <= p <= |t| && begin + FirstSpace(t[begin..]) == p + FirstSpace(t[p..])
    {
      assert t[p..][1..] == t[p + 1..];
      p := p + 1;
    }
  }

  method SkipSpaces(t: string, begin: nat) returns (p: nat)
    requires begin <= |t|
    ensures begin <= p <= |t| && t[p..] == DropSpaces(t[begin..])
  {
    p := begin;
    while At(t, p) == ' '
      invariant begin <= p <= |t| && DropSpaces(t[p..]) == DropSpaces(t[begin..])
      decreases |t| - p
    {
      assert t[p..][1..] == t[p + 1..];
      p := p + 1;
    }
  }

  /** The two-digit tokens of an insertion, up to the end of the line or of the data page. */
  method ReadBytes(t: string, begin: nat, room: nat) returns (r: Bytes, p: nat)
    requires begin <= |t|
    ensures r == ParseBytes(t[begin..], room)
    ensures r.GoodBytes? ==> p <= |t| && r.rest == t[p..]
  {
    BeforeNothing(ParseBytes(t[begin..], room));
    r, p := ReadTokens(t, begin, room, ParseBytes(t[begin..], room));
  }

  /** The bytes are those read so far followed by what the cursor stands on. */
  ghost predicate BytesSoFar(whole: Bytes, t: string, p: nat, bytes: seq<uint8>, left: nat) {
    p <= |t| && whole == Before(bytes, ParseBytes(t[p..], left))
  }

  /** The tokens one after the other; whole is what they denote. */
  method ReadTokens(t: string, begin: nat, room: nat, ghost whole: Bytes) returns (r: Bytes, p: nat)
    requires BytesSoFar(whole, t, begin, [], room)
    ensures r == whole && (r.GoodBytes? ==> p <= |t| && r.rest == t[p..])
  {
    var bytes, left := [], room;
    p := begin;
    while At(t, p) != '\n'
      invariant p <= |t| && BytesSoFar(whole, t, p, bytes, left)
      decreases |t| - p
    {
      var d, q := ReadToken(t, p, left, bytes, whole);
      if d == MINUS_ONE {
        return BadBytes, p;
      }
      if left == 0 {
        return NoRoom, p;
      }
      bytes, left, p := bytes + [(d % 0x100) as uint8], left - 1, q;
    }
    LineEnds(whole, t, p, bytes, left);
    r := GoodBytes(bytes, t[p..]);
  }

  /** One token and the spaces behind it. */
  method ReadToken(t: string, p: nat, left: nat, ghost bytes: seq<uint8>, ghost whole: Bytes) returns (d: nat, q: nat)
    requires BytesSoFar(whole, t, p, bytes, left) && At(t, p) != '\n'
    ensures d == MINUS_ONE ==> whole == BadBytes
    ensures d != MINUS_ONE && left == 0 ==> whole == NoRoom
    ensures d != MINUS_ONE && left > 0 ==>
              p < q <= |t| && BytesSoFar(whole, t, q, bytes + [(d % 0x100) as uint8], left - 1)
  {
    q := p;
    d := ComputeAsciiToBin(t, p, p + 4);
    TokensEnd(whole, t, p, bytes, left, d);
    if d != MINUS_ONE && left > 0 {
      q := SkipSpaces(t, p + 4);
      BytesStep(whole, t, p, q, d, bytes, bytes + [(d % 0x100) as uint8], left);
    }
  }

  /** Where a token is missing, or room for it. */
  lemma {:induction false} TokensEnd(whole: Bytes, t: string, p: nat, bytes: seq<uint8>, left: nat, d: nat)
    requires BytesSoFar(whole, t, p, bytes, left) && (p == |t| || t[p] != '\n') && d == AsciiToBin(t[p..], 4)
    ensures d == MINUS_ONE ==> whole == BadBytes
    ensures d != MINUS_ONE && left == 0 ==> whole == NoRoom
  {
  }

  lemma {:induction false} LineEnds(whole: Bytes, t: string, p: nat, bytes: seq<uint8>, left: nat)
    requires p < |t| && t[p] == '\n' && BytesSoFar(whole, t, p, bytes, left)
    ensures whole == GoodBytes(bytes, t[p..])
  {
    assert bytes + [] == bytes;
  }

  lemma {:induction false} BytesStep(
    whole: Bytes, t: string, p: nat, q: nat, d: nat, bytes: seq<uint8>, more: seq<uint8>, left: nat)
    requires p + 4 <= q <= |t| && d == AsciiToBin(t[p..], 4) != MINUS_ONE && t[p] != '\n' && left > 0
    requires t[q..] == DropSpaces(t[p + 4..]) && more == bytes + [(d % 0x100) as uint8]
    requires BytesSoFar(whole, t, p, bytes, left)
    ensures BytesSoFar(whole, t, q, more, left - 1)
  {
    assert t[p..][4..] == t[p + 4..];
    var b := (d % 0x100) as uint8;
    match ParseBytes(t[q..], left - 1) {
      case GoodBytes(rest, _) => assert bytes + ([b] + rest) == more + rest;
      case _ =>
    }
  }

  lemma {:induction false} BeforeNothing(r: Bytes)
    ensures Before([], r) == r
  {
    match r {
      case GoodBytes(more, _) => assert [] + more == more;
      case _ =>
    }
  }

  function Before(bytes: seq<uint8>, r: Bytes): Bytes {
    match r
    case GoodBytes(more, rest) => GoodBytes(bytes + more, rest)
    case _ => r
  }

  /** One line, with so many records and bytes free. */
  method ReadLine(t: string, begin: nat, slots: nat, room: nat) returns (line: Line, p: nat)
    requires begin < |t|
    ensures line == ParseLine(t[begin..], slots, room)
    ensures line.Good? ==> begin < p <= |t| && line.rest == t[p..]
  {
    p := begin;
    var c := t[p];
    FirstOf(t, p);
    if c != '1' && c != '0' {
      return Bad, p;
    }
    if slots == 0 {
      return Lost, p;
    }
    p := SkipToSpace(t, p + 1);
    if p == |t| {
      return Lost, p;
    }
    p := p + 1;
    LineFrom(t, begin, p, slots, room);
    line, p := ReadAddress(t, p, c == '1', room);
  }

  lemma {:induction false} FirstOf(t: string, p: nat)
    requires p < |t|
    ensures t[p..] != "" && t[p..][0] == t[p] && t[p..][1..] == t[p + 1..]
  {
  }

  lemma {:induction false} LineFrom(t: string, begin: nat, p: nat, slots: nat, room: nat)
    requires begin < |t| && (t[begin] == '0' || t[begin] == '1') && slots > 0
    requires p == begin + 2 + FirstSpace(t[begin + 1..]) && p <= |t|
    ensures ParseLine(t[begin..], slots, room) == ParseAddress(t[begin] == '1', t[p..], room)
  {
    FirstOf(t, begin);
    DropDrop(t, begin, p);
  }

  lemma {:induction false} DropDrop(t: string, begin: nat, p: nat)
    requires begin <= p <= |t|
    ensures t[begin..][p - begin..] == t[p..]
  {
  }

  method ReadAddress(t: string, begin: nat, insert: bool, room: nat) returns (line: Line, p: nat)
    requires begin <= |t|
    ensures line == ParseAddress(insert, t[begin..], room)
    ensures line.Good? ==> begin <= p <= |t| && line.rest == t[p..]
  {
    p := begin;
    var addr := ComputeAsciiToBin(t, p, p + 10);
    if addr == MINUS_ONE {
      return Bad, p;
    }
    assert t[p..][10..] == t[p + 10..];
    p := SkipSpaces(t, p + 10);
    line, p := ReadTail(t, p, insert, addr, room);
  }

  method ReadTail(t: string, begin: nat, insert: bool, addr: nat, room: nat) returns (line: Line, p: nat)
    requires begin <= |t|
    ensures line == ParseTail(insert, addr, t[begin..], room)
    ensures line.Good? ==> begin <= p <= |t| && line.rest == t[p..]
  {
    p := begin;
    if insert {
      var r, e := ReadBytes(t, p, room);
      match r {
        case BadBytes => return Bad, p;
        case NoRoom => return Lost, p;
        case GoodBytes(bytes, rest) =>
          ParseBytesShrinks(t[begin..], room);
          return Good(Insert(addr, bytes), rest), e;
      }
    }
    var d := ComputeAsciiToBin(t, p, p + 4);
    if d == MINUS_ONE {
      return Bad, p;
    }
    assert t[p..][4..] == t[p + 4..];
    return Good(Delete(addr, d), t[p + 4..]), p + 4;
  }

  /** What the rest of the script reads as from cursor p on, also one past the end of the text. */
  function Rest(t: string, p: nat, slots: nat, room: nat): Outcome {
    if p <= |t| then ParseLines(t[p..], slots, room) else Rejected
  }

  lemma {:induction false} PrependTwice(edits: seq<Edit>, e: Edit, r: Outcome)
    ensures Prepend(edits, Prepend([e], r)) == Prepend(edits + [e], r)
  {
    UpdownAppended(edits, e);
    match r {
      case Parsed(more, updown) =>
        assert edits + ([e] + more) == edits + [e] + more;
        assert Updown([e]) == Gain(e) + Updown([]);
      case _ =>
    }
  }

  /** What the rest of the script reads as, by cursor, records and bytes free. */
  type Reading = (nat, nat, nat) -> Outcome

  ghost predicate Reads(rest: Reading, t: string) {
    forall p: nat, slots: nat, room: nat {:trigger Rest(t, p, slots, room)} ::
      rest(p, slots, room) == Rest(t, p, slots, room)
  }

  /** The script is the edits read so far followed by what the cursor stands on. */
  ghost predicate ReadSoFar(
    whole: Outcome, rest: Reading, p: nat, slots: nat, room: nat, edits: seq<Edit>, updown: int)
  {
    whole == Prepend(edits, rest(p, slots, room)) && updown == Updown(edits)
  }

  lemma {:induction false} LineStep(
    whole: Outcome, t: string, rest: Reading, p: nat, q: nat, slots: nat, room: nat, edits: seq<Edit>, updown: int,
    e: Edit)
    requires Reads(rest, t) && ReadSoFar(whole, rest, p, slots, room, edits, updown)
    requires p < q <= |t| && t[p] != '\n' && ParseLine(t[p..], slots, room) == Good(e, t[q..])
    ensures slots > 0 && Inserted(e) <= room
    ensures ReadSoFar(whole, rest, q + 1, slots - 1, room - Inserted(e), edits + [e], updown + Gain(e))
  {
    var after := Rest(t, q + 1, slots - 1, room - Inserted(e));
    UpdownAppended(edits, e);
    if q < |t| {
      InnerLine(t, p, q, slots, room, e, after);
    } else {
      LastLine(t[p..], e, t[q..], slots, room);
      assert Rest(t, p, slots, room) == Rejected;
    }
    PrependTwice(edits, e, after);
  }

  lemma {:induction false} LineFails(
    whole: Outcome, t: string, rest: Reading, p: nat, slots: nat, room: nat, edits: seq<Edit>, updown: int)
    requires Reads(rest, t) && ReadSoFar(whole, rest, p, slots, room, edits, updown) && p < |t| && t[p] != '\n'
    ensures ParseLine(t[p..], slots, room) == Bad ==> whole == Rejected
    ensures ParseLine(t[p..], slots, room) == Lost ==> whole == Fault
  {
    RestEnds(t, p, slots, room);
  }

  lemma {:induction false} InnerLine(t: string, p: nat, q: nat, slots: nat, room: nat, e: Edit, after: Outcome)
    requires p < q < |t| && t[p] != '\n' && ParseLine(t[p..], slots, room) == Good(e, t[q..])
    requires after == ParseLines(t[q + 1..], slots - 1, room - Inserted(e))
    ensures Rest(t, p, slots, room) == Prepend([e], after)
  {
    assert t[q..][1..] == t[q + 1..];
    LineOfScript(t[p..], e, t[q..], t[q + 1..], slots, room, after);
  }

  /** A line that the text ends in, with no character behind it. */
  lemma {:induction false} LastLine(t: string, e: Edit, tail: string, slots: nat, room: nat)
    requires t != "" && t[0] != '\n' && tail == "" && ParseLine(t, slots, room) == Good(e, tail)
    ensures ParseLines(t, slots, room) == Rejected
  {
  }

  /** One edit more, or why there is none. */
  method ReadEdit(
    t: string, ghost rest: Reading, p: nat, slots: nat, room: nat, ghost whole: Outcome, ghost edits: seq<Edit>,
    ghost updown: int)
    returns (line: Line, q: nat)
    requires Reads(rest, t) && p < |t| && t[p] != '\n' && ReadSoFar(whole, rest, p, slots, room, edits, updown)
    ensures line.Good? ==>
              && p < q <= |t| && slots > 0 && Inserted(line.edit) <= room
              && ReadSoFar(whole, rest, q + 1, slots - 1, room - Inserted(line.edit), edits + [line.edit],
                           updown + Gain(line.edit))
    ensures line.Bad? ==> whole == Rejected
    ensures line.Lost? ==> whole == Fault
  {
    line, q := ReadLine(t, p, slots, room);
    LineFails(whole, t, rest, p, slots, room, edits, updown);
    if line.Good? {
      LineStep(whole, t, rest, p, q, slots, room, edits, updown, line.edit);
    }
  }

  /** read_patch, on empty record and data pages. */
  method ReadPatch(t: string) returns (r: Outcome)
    ensures r == ParseScript(t)
  {
    ghost var rest := (p: nat, slots: nat, room: nat) => Rest(t, p, slots, room);
    NothingRead(t, rest, ParseScript(t));
    r := ReadEdits(t, rest, ParseScript(t));
  }

  /** The edits one after the other; whole is what the text denotes. */
  method ReadEdits(t: string, ghost rest: Reading, ghost whole: Outcome) returns (r: Outcome)
    requires Reads(rest, t) && ReadSoFar(whole, rest, 0, RECORDS, DATA, [], 0)
    ensures r == whole
  {
    var p, slots, room, edits, updown := 0, RECORDS, DATA, [], 0;
    while p != |t| && At(t, p) != '\n'
      invariant p <= |t| + 1 && ReadSoFar(whole, rest, p, slots, room, edits, updown)
      decreases |t| + 1 - p
    {
      if p > |t| {
        PastEnd(whole, t, rest, p, slots, room, edits, updown);
        return Rejected;
      }
      var line, q := ReadEdit(t, rest, p, slots, room, whole, edits, updown);
      match line {
        case Bad => return Rejected;
        case Lost => return Fault;
        case Good(e, _) =>
          p, slots, room, edits, updown := q + 1, slots - 1, room - Inserted(e), edits + [e], updown + Gain(e);
      }
    }
    AllRead(whole, t, rest, p, slots, room, edits, updown);
    r := Parsed(edits, updown);
  }

  /** The NUL behind the text is no command. */
  lemma {:induction false} PastEnd(
    whole: Outcome, t: string, rest: Reading, p: nat, slots: nat, room: nat, edits: seq<Edit>, updown: int)
    requires p > |t| && Reads(rest, t) && ReadSoFar(whole, rest, p, slots, room, edits, updown)
    ensures whole == Rejected
  {
    assert Rest(t, p, slots, room) == Rejected;
  }

  lemma {:induction false} AllRead(
    whole: Outcome, t: string, rest: Reading, p: nat, slots: nat, room: nat, edits: seq<Edit>, updown: int)
    requires Reads(rest, t) && ReadSoFar(whole, rest, p, slots, room, edits, updown)
    requires p <= |t| && (p == |t| || t[p] == '\n')
    ensures whole == Parsed(edits, updown)
  {
    RestEnds(t, p, slots, room);
    assert edits + [] == edits;
  }

  /** Where reading stops. */
  lemma {:induction false} RestEnds(t: string, p: nat, slots: nat, room: nat)
    requires p <= |t|
    ensures p == |t| || t[p] == '\n' ==> Rest(t, p, slots, room) == Parsed([], 0)
    ensures p < |t| && t[p] != '\n' && ParseLine(t[p..], slots, room) == Bad ==> Rest(t, p, slots, room) == Rejected
    ensures p < |t| && t[p] != '\n' && ParseLine(t[p..], slots, room) == Lost ==> Rest(t, p, slots, room) == Fault
  {
    if p < |t| && t[p] != '\n' && !ParseLine(t[p..], slots, room).Good? {
      LineStops(t[p..], slots, room, ParseLine(t[p..], slots, room));
    }
  }

  lemma {:induction false} NothingRead(t: string, rest: Reading, r: Outcome)
    requires Reads(rest, t) && r == ParseScript(t)
    ensures ReadSoFar(r, rest, 0, RECORDS, DATA, [], 0)
  {
    assert t[0..] == t && Rest(t, 0, RECORDS, DATA) == r;
    match r {
      case Parsed(more, _) => assert [] + more == more;
      case _ =>
    }
  }

  // ---------- apply ----------

  /** The insertion loop. */
  method CopyBytes(bytes: seq<uint8>, out: array<uint8>, begin: nat) returns (q: nat)
    requires begin + |bytes| <= out.Length
    modifies out
    ensures q == begin + |bytes| && out[..q] == old(out[..begin]) + bytes && out[q..] == old(out[q..])
  {
    q := begin;
    var e := 0;
    while e != |bytes|
      invariant e <= |bytes| && q == begin + e
      invariant out[..q] == old(out[..begin]) + bytes[..e] && out[q..] == old(out[q..])
      decreases |bytes| - e
    {
      assert out[q + 1..] == out[q..][1..];
      out[q] := bytes[e];
      assert bytes[..e + 1] == bytes[..e] + [bytes[e]];
      e, q := e + 1, q + 1;
    }
    assert bytes[..e] == bytes;
  }

  /** One round, on the output buffer. */
  method ApplyOnce(input: seq<uint8>, edits: seq<Edit>, out: array<uint8>, p: nat, q: nat, k: nat)
    returns (p1: nat, q1: nat, k1: nat)
    requires p < |input| && q <= out.Length && !OffPage(edits, k)
    requires |Step(input, edits, State(p, out[..q], k)).out| <= out.Length
    modifies out
    ensures q1 <= out.Length && State(p1, out[..q1], k1) == old(Step(input, edits, State(p, out[..q], k)))
    ensures q <= q1 && out[q1..] == old(out[q1..])
  {
    var e := Record(edits, k);
    p1, q1, k1 := p, q, k;
    if p == e.addr {
      match e {
        case Insert(_, bytes) => q1 := CopyBytes(bytes, out, q);
        case Delete(_, len) => p1 := p + len;
      }
      k1 := k + 1;
    } else {
      assert out[q + 1..] == out[q..][1..];
      out[q] := input[p];
      p1, q1 := p + 1, q + 1;
    }
  }

  /** apply, for any script and any room with which the loop ends, after at most n rounds. */
  method Apply(input: seq<uint8>, edits: seq<Edit>, out: array<uint8>, ghost n: nat)
    requires Halted(input, out.Length, Rounds(input, edits, out.Length, n))
    requires |Rounds(input, edits, out.Length, n).out| <= out.Length
    modifies out
    ensures var done := Rounds(input, edits, out.Length, n).out; out[..] == done + old(out[..])[|done|..]
  {
    ghost var was, m := out[..], 0;
    var p: nat, q: nat, k: nat := 0, 0, 0;
    assert out[..0] == [];
    while p != |input| && q != out.Length
      invariant q <= out.Length && m <= n && out[q..] == was[q..]
      invariant State(p, out[..q], k) == Rounds(input, edits, out.Length, m)
      decreases n - m
    {
      p, q, k := ApplyRound(input, edits, out, p, q, k, m, n, was);
      m := m + 1;
    }
    RestStays(input, edits, out.Length, m, n);
    assert out[..] == out[..q] + out[q..];
  }

  /** One round of a run that ends. */
  method ApplyRound(
    input: seq<uint8>, edits: seq<Edit>, out: array<uint8>, p: nat, q: nat, k: nat, ghost m: nat, ghost n: nat,
    ghost was: seq<uint8>)
    returns (p1: nat, q1: nat, k1: nat)
    requires q <= out.Length && m <= n && p != |input| && q != out.Length
    requires Halted(input, out.Length, Rounds(input, edits, out.Length, n))
    requires |Rounds(input, edits, out.Length, n).out| <= out.Length
    requires State(p, out[..q], k) == Rounds(input, edits, out.Length, m)
    requires |was| == out.Length && out[q..] == was[q..]
    modifies out
    ensures q1 <= out.Length && m < n && State(p1, out[..q1], k1) == Rounds(input, edits, out.Length, m + 1)
    ensures out[q1..] == was[q1..]
  {
    ghost var st, now := State(p, out[..q], k), out[..];
    RunSteps(input, edits, out.Length, m, n, st);
    p1, q1, k1 := ApplyOnce(input, edits, out, p, q, k);
    Later(was, now, st.out, q1, out[q1..]);
  }

  /** Memory behind the cursor that was as at first still is, further on. */
  lemma {:induction false} Later(was: seq<uint8>, now: seq<uint8>, done: seq<uint8>, q: nat, rest: seq<uint8>)
    requires |done| <= q <= |now| == |was| && now[|done|..] == was[|done|..] && rest == now[q..]
    ensures rest == was[q..]
  {
    assert now[q..] == now[|done|..][q - |done|..];
    assert was[q..] == was[|done|..][q - |done|..];
  }

  // ---------- apply_patch ----------

  /** (size + 0x1000) & 0xfffff000 for a size whose sum fits 32 bits. */
  function MapSize(size: nat): (m: nat)
    requires size + 0x1000 < 0x1_0000_0000
    ensures size < m <= size + 0x1000 && m % 0x1000 == 0
  {
    (size + 0x1000) / 0x1000 * 0x1000
  }

  /** The mapped output, for a file of that size. */
  function RoomOf(input: seq<uint8>, updown: int): (room: nat)
    requires |input| + updown + 0xfff < 0x1_0000_0000
  {
    if |input| + updown <= 0 then 0 else MapSize(|input| + updown - 1)
  }

  /**
   The output file: one byte is written behind output_file_size to set the length, then the
   mapped pages are filled and saved. For an empty result the size wraps to 2^64 - 1: the seek
   to it fails, so the byte becomes the file, nothing is mapped and nothing is saved.
   */
  method ApplyPatch(input: seq<uint8>, edits: seq<Edit>, updown: int, ghost n: nat)
    returns (file: seq<uint8>, saved: bool)
    requires |input| + updown + 0xfff < 0x1_0000_0000
    requires var room := RoomOf(input, updown);
             room > 0 ==> Halted(input, room, Rounds(input, edits, room, n))
                          && |Rounds(input, edits, room, n).out| <= room
    ensures saved <==> |input| + updown > 0
    ensures file == if saved then Cut(Rounds(input, edits, RoomOf(input, updown), n).out, |input| + updown) else [0]
  {
    var size := |input| - 1 + updown;
    if size < 0 {
      return [0], false;
    }
    var out := new uint8[MapSize(size)](_ => 0);
    ghost var done, blank := Rounds(input, edits, RoomOf(input, updown), n).out, out[..];
    Apply(input, edits, out, n);
    file, saved := out[..size + 1], true;
    assert file == Cut(done, size + 1) by {
      assert forall i :: |done| <= i < out.Length ==> out[..][i] == blank[|done|..][i - |done|] == 0;
    }
  }

  /** For an in-order script that moves the cursor: the splice, with zeros for what is inserted at the end. */
  method ApplyInOrder(input: seq<uint8>, edits: seq<Edit>, updown: int) returns (file: seq<uint8>, saved: bool)
    requires InOrder(edits, 0, 0, |input|) && updown == Updown(edits) && |edits| < RECORDS
    requires input == [] || FinalPosition(edits) > 0
    requires |Result(input, edits)| + 0x1000 <= 0x1_0000_0000
    ensures saved <==> Result(input, edits) != []
    ensures file == if saved then Kept(input, edits) + Zeros(|Ends(edits, 0, |input|)|) else [0]
  {
    ResultLength(input, edits);
    if Result(input, edits) != [] { InOrderEnds(input, edits, RoomOf(input, updown)); }
    file, saved := ApplyPatch(input, edits, updown, |input| + |edits|);
  }

  /**
   The whole tool on the text form of a well-formed, in-order script: the output file is the
   splice exactly if the splice is not empty and only zeros are inserted at the end of the input.
   */
  method Run(text: string, input: seq<uint8>, ghost edits: seq<Edit>) returns (file: seq<uint8>, saved: bool)
    requires text == Print(edits) && forall e :: e in edits ==> WellFormed(e)
    requires InOrder(edits, 0, 0, |input|) && (input == [] || FinalPosition(edits) > 0)
    requires |edits| < RECORDS && InsertedBy(edits) <= DATA
    requires |Result(input, edits)| + 0x1000 <= 0x1_0000_0000
    ensures saved <==> Result(input, edits) != []
    ensures var ends := Ends(edits, 0, |input|);
            file == Result(input, edits) <==> saved && ends == Zeros(|ends|)
  {
    PrintedScriptParsesIff(edits);
    var parsed := ReadPatch(text);
    file, saved := ApplyInOrder(input, parsed.edits, parsed.updown);
    SameBack(Kept(input, edits), Ends(edits, 0, |input|), Zeros(|Ends(edits, 0, |input|)|));
  }

  lemma {:induction false} SameBack(a: seq<uint8>, b: seq<uint8>, c: seq<uint8>)
    ensures a + b == a + c <==> b == c
  {
    assert b == (a + b)[|a|..] && c == (a + c)[|a|..];
  }
}
