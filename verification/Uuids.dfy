/**
 128-bit uuids: the text form of section 4 of RFC 9562, its order against the byte order, and the
 two 64-bit halves.
 */
module Uuids {
  import opened Bytes

  type Byte = bv8
  type Uuid = u: seq<Byte> | |u| == 16 witness seq(16, i => 0)

  // ---------- Hexadecimal text ----------

  const HEX: string := "0123456789ABCDEF"

  function Digit(n: Byte): char
    requires n < 16
  {
    HEX[n as int]
  }

  function HexByte(b: Byte): string {
    [Digit((b >> 4) & 0xF), Digit(b & 0xF)]
  }

  function Hex(bytes: seq<Byte>): (h: string)
    ensures |h| == 2 * |bytes|
  {
    if bytes == [] then [] else HexByte(bytes[0]) + Hex(bytes[1..])
  }

  /** 8-4-4-4-12 with dashes. */
  function Dashed(h: string): string
    requires |h| == 32
  {
    h[..8] + "-" + h[8..12] + "-" + h[12..16] + "-" + h[16..20] + "-" + h[20..]
  }

  function ToText(u: Uuid): string {
    Dashed(Hex(u))
  }

  /** The value std::from_chars gives a character in base 16. */
  function HexValue(c: char): Option<Byte> {
    if '0' <= c <= '9' then Some((c as int - '0' as int) as Byte)
    else if 'A' <= c <= 'F' then Some((c as int - 'A' as int + 10) as Byte)
    else if 'a' <= c <= 'f' then Some((c as int - 'a' as int + 10) as Byte)
    else None
  }

  predicate IsHex(c: char) {
    HexValue(c).Some?
  }

  function NoDashes(s: string): string {
    if s == [] then [] else (if s[0] == '-' then [] else [s[0]]) + NoDashes(s[1..])
  }

  /** The byte of two digits, the high one first. */
  function PairValue(high: char, low: char): Byte
    requires IsHex(high) && IsHex(low)
  {
    (HexValue(high).value << 4) | HexValue(low).value
  }

  /** The bytes of the leading pairs of hexadecimal digits. */
  function DecodePairs(t: string): (b: seq<Byte>)
    ensures 2 * |b| <= |t|
  {
    if |t| < 2 || !IsHex(t[0]) || !IsHex(t[1]) then []
    else [PairValue(t[0], t[1])] + DecodePairs(t[2..])
  }

  function Zeros(n: nat): (z: seq<Byte>)
    ensures |z| == n
  {
    seq(n, i => 0)
  }

  /** FromString: a bad length gives zeros, a bad digit keeps the bytes before it. */
  function FromText(s: string): Uuid {
    var t := NoDashes(s);
    if |t| != 32 then Zeros(16) else DecodePairs(t) + Zeros(16 - |DecodePairs(t)|)
  }

  predicate AllHex(t: string) {
    forall i :: 0 <= i < |t| ==> IsHex(t[i])
  }

  predicate Accepted(s: string) {
    |NoDashes(s)| == 32 && AllHex(NoDashes(s))
  }

  function Upper(c: char): char {
    if 'a' <= c <= 'f' then (c as int - 32) as char else c
  }

  function UpperText(t: string): (r: string)
    ensures |r| == |t|
  {
    seq(|t|, i requires 0 <= i < |t| => Upper(t[i]))
  }

  // ---------- Reading back what was written ----------

  /** The code of the k-th digit. */
  function DigitCode(k: nat): int {
    if k < 10 then 48 + k else 55 + k
  }

  lemma DigitTable(k: nat)
    requires k < 16
    ensures HEX[k] as int == DigitCode(k)
  {
  }

  lemma DigitValue(n: Byte)
    requires n < 16
    ensures HexValue(Digit(n)) == Some(n) && Digit(n) != '-' && Upper(Digit(n)) == Digit(n)
  {
    var k := n as int;
    DigitTable(k);
    assert k as Byte == n;
  }

  lemma SmallByte(k: int)
    requires 0 <= k < 16
    ensures k as Byte < 16 && (k as Byte) as int == k
  {
  }

  lemma ValueDigit(c: char)
    requires IsHex(c)
    ensures HexValue(c).value < 16 && Digit(HexValue(c).value) == Upper(c)
  {
    var k := if c <= '9' then c as int - 48 else if c <= 'F' then c as int - 55 else c as int - 87;
    SmallByte(k);
    DigitTable(k);
    assert HexValue(c).value == k as Byte;
    assert Digit(k as Byte) == HEX[k];
    assert HEX[k] as int == Upper(c) as int;
  }

  lemma Nibbles(b: Byte)
    ensures (((b >> 4) & 0xF) << 4) | (b & 0xF) == b
  {
  }

  lemma Joined(h: Byte, l: Byte)
    requires h < 16 && l < 16
    ensures (((h << 4) | l) >> 4) & 0xF == h && ((h << 4) | l) & 0xF == l
  {
  }

  lemma {:induction false} DecodeHex(bytes: seq<Byte>)
    ensures DecodePairs(Hex(bytes)) == bytes
    ensures '-' !in Hex(bytes)
  {
    if bytes != [] {
      var b, rest := bytes[0], Hex(bytes[1..]);
      DecodeHex(bytes[1..]);
      assert DecodePairs(HexByte(b) + rest) == [b] + DecodePairs(rest) && '-' !in HexByte(b) by { DecodePair(b, rest); }
      assert Hex(bytes) == HexByte(b) + rest;
    }
  }

  lemma DecodePair(b: Byte, rest: string)
    ensures DecodePairs(HexByte(b) + rest) == [b] + DecodePairs(rest)
    ensures '-' !in HexByte(b)
  {
    DigitValue((b >> 4) & 0xF);
    DigitValue(b & 0xF);
    Nibbles(b);
    assert (HexByte(b) + rest)[2..] == rest;
  }

  lemma {:induction false} NoDashesAppend(s: string, t: string)
    ensures NoDashes(s + t) == NoDashes(s) + NoDashes(t)
  {
    if s == [] {
      assert s + t == t;
    } else {
      assert (s + t)[1..] == s[1..] + t;
      NoDashesAppend(s[1..], t);
    }
  }

  lemma {:induction false} NoDashesKeeps(s: string)
    requires '-' !in s
    ensures NoDashes(s) == s
  {
    if s != [] {
      NoDashesKeeps(s[1..]);
    }
  }

  lemma PartDashed(part: string, rest: string)
    requires '-' !in part
    ensures NoDashes(part + "-" + rest) == part + NoDashes(rest)
  {
    assert part + "-" + rest == part + ("-" + rest);
    NoDashesAppend(part, "-" + rest);
    NoDashesKeeps(part);
    DashFirst("-" + rest, rest);
  }

  lemma DashFirst(s: string, rest: string)
    requires |s| > 0 && s[0] == '-' && s[1..] == rest
    ensures NoDashes(s) == NoDashes(rest)
  {
  }

  lemma UndashDashed(h: string)
    requires |h| == 32 && '-' !in h
    ensures NoDashes(Dashed(h)) == h
  {
    var r4 := h[20..];
    var r3 := h[16..20] + "-" + r4;
    var r2 := h[12..16] + "-" + r3;
    var r1 := h[8..12] + "-" + r2;
    assert Dashed(h) == h[..8] + "-" + r1;
    NoDashesKeeps(r4);
    PartDashed(h[16..20], r4);
    PartDashed(h[12..16], r3);
    PartDashed(h[8..12], r2);
    PartDashed(h[..8], r1);
    assert h == h[..8] + (h[8..12] + (h[12..16] + (h[16..20] + h[20..])));
  }

  /** FromString undoes ToString. */
  lemma TextRoundTrip(u: Uuid)
    ensures Accepted(ToText(u)) && FromText(ToText(u)) == u
  {
    DecodeHex(u);
    UndashDashed(Hex(u));
    DecodedAllHex(Hex(u));
    assert u + Zeros(0) == u;
  }

  /** All pairs decode exactly when every character is a hexadecimal digit. */
  lemma {:induction false} DecodedAllHex(t: string)
    requires |t| % 2 == 0
    ensures 2 * |DecodePairs(t)| == |t| <==> AllHex(t)
  {
    if t != [] {
      DecodedAllHex(t[2..]);
      if AllHex(t) {
        assert AllHex(t[2..]);
      }
      if IsHex(t[0]) && IsHex(t[1]) && AllHex(t[2..]) {
        forall i | 0 <= i < |t| ensures IsHex(t[i]) {
          if i >= 2 {
            assert t[i] == t[2..][i - 2];
          }
        }
      }
    }
  }

  lemma {:induction false} HexDecode(t: string)
    requires |t| % 2 == 0 && AllHex(t)
    ensures Hex(DecodePairs(t)) == UpperText(t)
  {
    if t != [] {
      var h, l := HexValue(t[0]).value, HexValue(t[1]).value;
      ValueDigit(t[0]);
      ValueDigit(t[1]);
      Joined(h, l);
      HexDecode(t[2..]);
      assert UpperText(t) == [Upper(t[0]), Upper(t[1])] + UpperText(t[2..]);
      assert DecodePairs(t)[1..] == DecodePairs(t[2..]);
    }
  }

  /** ToString after FromString is the upper-case canonical form of every accepted string. */
  lemma CanonicalForm(s: string)
    requires Accepted(s)
    ensures ToText(FromText(s)) == Dashed(UpperText(NoDashes(s)))
  {
    var t := NoDashes(s);
    DecodedAllHex(t);
    HexDecode(t);
    assert DecodePairs(t) + Zeros(0) == DecodePairs(t);
  }

  // ---------- The text, character by character ----------

  /** Where the two digits of byte i stand: four dashes follow bytes 3, 5, 7 and 9. */
  function PlaceOf(i: nat): nat {
    2 * i + if i < 4 then 0 else if i < 6 then 1 else if i < 8 then 2 else if i < 10 then 3 else 4
  }

  lemma {:induction false} HexAt(bytes: seq<Byte>, i: nat)
    requires i < |bytes|
    ensures Hex(bytes)[2 * i] == HEX[((bytes[i] >> 4) & 0xF) as int]
    ensures Hex(bytes)[2 * i + 1] == HEX[(bytes[i] & 0xF) as int]
  {
    var h := HexByte(bytes[0]) + Hex(bytes[1..]);
    if i > 0 {
      HexAt(bytes[1..], i - 1);
      assert h[2 * i] == Hex(bytes[1..])[2 * (i - 1)] && h[2 * i + 1] == Hex(bytes[1..])[2 * (i - 1) + 1];
    }
  }

  lemma DashedAt(h: string, i: nat)
    requires |h| == 32 && i < 16
    ensures PlaceOf(i) + 1 < |Dashed(h)| == 36
    ensures Dashed(h)[PlaceOf(i)] == h[2 * i] && Dashed(h)[PlaceOf(i) + 1] == h[2 * i + 1]
  {
  }

  /** 36 characters: dashes at 8, 13, 18 and 23, and each byte as two upper-case digits, high one first. */
  lemma TextExact(u: Uuid)
    ensures var t := ToText(u);
      && |t| == 36 && t[8] == '-' && t[13] == '-' && t[18] == '-' && t[23] == '-'
      && forall i :: 0 <= i < 16 ==>
           && t[PlaceOf(i)] == "0123456789ABCDEF"[((u[i] >> 4) & 0xF) as int]
           && t[PlaceOf(i) + 1] == "0123456789ABCDEF"[(u[i] & 0xF) as int]
  {
    forall i | 0 <= i < 16
      ensures ToText(u)[PlaceOf(i)] == HEX[((u[i] >> 4) & 0xF) as int]
      ensures ToText(u)[PlaceOf(i) + 1] == HEX[(u[i] & 0xF) as int]
    {
      HexAt(u, i);
      DashedAt(Hex(u), i);
    }
  }

  /** Lower-case digits count as their upper-case forms, and nothing else is touched. */
  lemma UpperExact(c: char)
    ensures Upper(c) ==
      if c == 'a' then 'A' else if c == 'b' then 'B' else if c == 'c' then 'C'
      else if c == 'd' then 'D' else if c == 'e' then 'E' else if c == 'f' then 'F' else c
  {
  }

  lemma {:induction false} DecodedAt(t: string, i: nat)
    requires 2 * i + 2 <= |t|
    ensures i < |DecodePairs(t)| <==> AllHex(t[..2 * i + 2])
    ensures i < |DecodePairs(t)| ==>
      IsHex(t[2 * i]) && IsHex(t[2 * i + 1]) && DecodePairs(t)[i] == PairValue(t[2 * i], t[2 * i + 1])
  {
    var p := t[..2 * i + 2];
    assert p[0] == t[0] && p[1] == t[1];
    if IsHex(t[0]) && IsHex(t[1]) && i > 0 {
      DecodedAt(t[2..], i - 1);
      assert t[2..][..2 * i] == p[2..];
      AllHexTail(p);
    }
  }

  lemma AllHexTail(p: string)
    requires |p| >= 2 && IsHex(p[0]) && IsHex(p[1])
    ensures AllHex(p) <==> AllHex(p[2..])
  {
    forall j | 2 <= j < |p| ensures p[j] == p[2..][j - 2] {
    }
  }

  /**
   A text without 32 characters besides its dashes gives zeros. Otherwise a byte is what its two digits
   say as long as all characters up to them are digits, and zero from the first other one on.
   */
  lemma FromTextExact(s: string, i: nat)
    requires i < 16
    ensures var t := NoDashes(s);
      && (|t| != 32 ==> FromText(s)[i] == 0)
      && (|t| == 32 && AllHex(t[..2 * i + 2]) ==>
            && IsHex(t[2 * i]) && IsHex(t[2 * i + 1])
            && FromText(s)[i] == PairValue(t[2 * i], t[2 * i + 1]))
      && (|t| == 32 && !AllHex(t[..2 * i + 2]) ==> FromText(s)[i] == 0)
  {
    if |NoDashes(s)| == 32 {
      DecodedAt(NoDashes(s), i);
    }
  }

  // ---------- Order ----------

  /** The sign of std::string::compare. */
  function CompareText(s: string, t: string): int {
    if s == [] || t == [] then |s| - |t|
    else if s[0] < t[0] then -1
    else if s[0] > t[0] then 1
    else CompareText(s[1..], t[1..])
  }

  /** Byte-lexicographic order. */
  function CompareBytes(u: seq<Byte>, v: seq<Byte>): int {
    if u == [] || v == [] then |u| - |v|
    else if u[0] < v[0] then -1
    else if u[0] > v[0] then 1
    else CompareBytes(u[1..], v[1..])
  }

  lemma {:induction false} CompareAppend(a: string, a': string, b: string, b': string)
    requires |a| == |a'|
    ensures CompareText(a + b, a' + b') == if CompareText(a, a') != 0 then CompareText(a, a') else CompareText(b, b')
  {
    if a == [] {
      assert a + b == b && a' + b' == b';
    } else {
      assert (a + b)[1..] == a[1..] + b && (a' + b')[1..] == a'[1..] + b';
      CompareAppend(a[1..], a'[1..], b, b');
    }
  }

  lemma DigitOrder(m: Byte, n: Byte)
    requires m < 16 && n < 16
    ensures Digit(m) < Digit(n) <==> m < n
    ensures Digit(m) == Digit(n) <==> m == n
  {
    DigitTable(m as int);
    DigitTable(n as int);
    assert m < n <==> m as int < n as int;
    assert m == n <==> m as int == n as int;
  }

  lemma NibbleOrder(b: Byte, c: Byte)
    ensures var h, l, h', l' := (b >> 4) & 0xF, b & 0xF, (c >> 4) & 0xF, c & 0xF;
      && (b < c <==> h < h' || (h == h' && l < l'))
      && (b == c <==> h == h' && l == l')
  {
  }

  lemma HexByteOrder(b: Byte, c: Byte)
    ensures CompareText(HexByte(b), HexByte(c)) == if b < c then -1 else if b > c then 1 else 0
  {
    NibbleOrder(b, c);
    NibbleOrder(c, b);
    DigitOrder((b >> 4) & 0xF, (c >> 4) & 0xF);
    DigitOrder((c >> 4) & 0xF, (b >> 4) & 0xF);
    DigitOrder(b & 0xF, c & 0xF);
    DigitOrder(c & 0xF, b & 0xF);
    CompareTwo(HexByte(b), HexByte(c));
  }

  lemma CompareTwo(x: string, y: string)
    requires |x| == |y| == 2
    ensures CompareText(x, y) ==
      if x[0] != y[0] then (if x[0] < y[0] then -1 else 1)
      else if x[1] != y[1] then (if x[1] < y[1] then -1 else 1) else 0
  {
    assert x[1..][1..] == [] && y[1..][1..] == [];
    assert CompareText(x[1..], y[1..]) ==
      if x[1] != y[1] then (if x[1] < y[1] then -1 else 1) else CompareText([], []);
  }

  lemma {:induction false} HexOrder(u: seq<Byte>, v: seq<Byte>)
    requires |u| == |v|
    ensures CompareText(Hex(u), Hex(v)) == CompareBytes(u, v)
  {
    if u != [] {
      HexByteOrder(u[0], v[0]);
      CompareAppend(HexByte(u[0]), HexByte(v[0]), Hex(u[1..]), Hex(v[1..]));
      HexOrder(u[1..], v[1..]);
    }
  }

  lemma {:induction false} ComparePart(p: string, p': string, x: string, x': string, y: string, y': string)
    requires |p| == |p'| && CompareText(x, x') == CompareText(y, y')
    ensures CompareText(p + "-" + x, p' + "-" + x') == CompareText(p + y, p' + y')
  {
    assert p + "-" + x == p + ("-" + x) && p' + "-" + x' == p' + ("-" + x');
    CompareAppend(p, p', "-" + x, "-" + x');
    CompareAppend(p, p', y, y');
    CompareAppend("-", "-", x, x');
    assert "-"[1..] == "";
    assert CompareText("-", "-") == CompareText("", "");
  }

  lemma ComparePieces(a: string, a': string, b: string, b': string, c: string, c': string,
                      d: string, d': string, e: string, e': string)
    requires |a| == |a'| && |b| == |b'| && |c| == |c'| && |d| == |d'|
    ensures CompareText(a + "-" + (b + "-" + (c + "-" + (d + "-" + e))),
                        a' + "-" + (b' + "-" + (c' + "-" + (d' + "-" + e'))))
         == CompareText(a + (b + (c + (d + e))), a' + (b' + (c' + (d' + e'))))
  {
    ComparePart(d, d', e, e', e, e');
    ComparePart(c, c', d + "-" + e, d' + "-" + e', d + e, d' + e');
    ComparePart(b, b', c + "-" + (d + "-" + e), c' + "-" + (d' + "-" + e'), c + (d + e), c' + (d' + e'));
    ComparePart(a, a', b + "-" + (c + "-" + (d + "-" + e)), b' + "-" + (c' + "-" + (d' + "-" + e')),
                b + (c + (d + e)), b' + (c' + (d' + e')));
  }

  lemma DashedPieces(h: string)
    requires |h| == 32
    ensures Dashed(h) == h[..8] + "-" + (h[8..12] + "-" + (h[12..16] + "-" + (h[16..20] + "-" + h[20..])))
    ensures h == h[..8] + (h[8..12] + (h[12..16] + (h[16..20] + h[20..])))
  {
  }

  lemma DashedOrder(h: string, k: string)
    requires |h| == |k| == 32
    ensures CompareText(Dashed(h), Dashed(k)) == CompareText(h, k)
  {
    DashedPieces(h);
    DashedPieces(k);
    ComparePieces(h[..8], k[..8], h[8..12], k[8..12], h[12..16], k[12..16], h[16..20], k[16..20], h[20..], k[20..]);
  }

  lemma {:induction false} CompareBytesZero(u: seq<Byte>, v: seq<Byte>)
    requires |u| == |v|
    ensures CompareBytes(u, v) == 0 <==> u == v
  {
    if u != [] {
      CompareBytesZero(u[1..], v[1..]);
      assert u == [u[0]] + u[1..] && v == [v[0]] + v[1..];
    }
  }

  /** CompareTo on the text agrees with the byte order, and is zero exactly on equal uuids. */
  lemma CompareToIsByteOrder(u: Uuid, v: Uuid)
    ensures CompareText(ToText(u), ToText(v)) == CompareBytes(u, v)
    ensures CompareText(ToText(u), ToText(v)) == 0 <==> u == v
  {
    DashedOrder(Hex(u), Hex(v));
    HexOrder(u, v);
    CompareBytesZero(u, v);
  }

  /** The smaller uuid has the smaller byte at the first place where the two differ. */
  lemma {:induction false} CompareBytesExact(u: seq<Byte>, v: seq<Byte>)
    requires |u| == |v|
    ensures CompareBytes(u, v) < 0 <==> exists k :: 0 <= k < |u| && u[..k] == v[..k] && u[k] < v[k]
  {
    if u != [] {
      CompareBytesExact(u[1..], v[1..]);
      if u[0] == v[0] {
        if k :| 0 <= k < |u[1..]| && u[1..][..k] == v[1..][..k] && u[1..][k] < v[1..][k] {
          assert u[..k + 1] == [u[0]] + u[1..][..k] && v[..k + 1] == [v[0]] + v[1..][..k];
          assert u[k + 1] < v[k + 1];
        }
        if k :| 0 <= k < |u| && u[..k] == v[..k] && u[k] < v[k] {
          assert k > 0;
          assert u[1..][..k - 1] == u[..k][1..] && v[1..][..k - 1] == v[..k][1..];
          assert u[1..][k - 1] < v[1..][k - 1];
        }
      } else {
        assert u[..0] == v[..0];
        forall k | 0 < k < |u| ensures u[..k] != v[..k] {
          assert u[..k][0] != v[..k][0];
        }
      }
    }
  }

  // ---------- 64-bit halves ----------

  /** The getters' loop: shift left by a byte and or the next byte in. */
  function Fold(bytes: seq<Byte>): bv64 {
    if bytes == [] then 0
    else (Fold(bytes[..|bytes| - 1]) << 8) | (bytes[|bytes| - 1] as bv64)
  }

  /** The parcel's single shift expression. */
  function ShiftWord(b: seq<Byte>): bv64
    requires |b| == 8
  {
    ((b[0] as bv64) << 56) | ((b[1] as bv64) << 48) | ((b[2] as bv64) << 40) | ((b[3] as bv64) << 32) |
    ((b[4] as bv64) << 24) | ((b[5] as bv64) << 16) | ((b[6] as bv64) << 8) | (b[7] as bv64)
  }

  /** The constructor's masks and shifts, for one half. */
  function SplitWord(w: bv64): (b: seq<Byte>)
    ensures |b| == 8
  {
    [((w & 0xFF00000000000000) >> 56) as Byte, ((w & 0x00FF000000000000) >> 48) as Byte,
     ((w & 0x0000FF0000000000) >> 40) as Byte, ((w & 0x000000FF00000000) >> 32) as Byte,
     ((w & 0x00000000FF000000) >> 24) as Byte, ((w & 0x0000000000FF0000) >> 16) as Byte,
     ((w & 0x000000000000FF00) >> 8) as Byte, (w & 0x00000000000000FF) as Byte]
  }

  function MostBits(u: Uuid): bv64 {
    Fold(u[..8])
  }

  function LeastBits(u: Uuid): bv64 {
    Fold(u[8..])
  }

  function FromHalves(most: bv64, least: bv64): Uuid {
    SplitWord(most) + SplitWord(least)
  }

  lemma FoldStep(b: seq<Byte>, k: nat)
    requires k < |b|
    ensures Fold(b[..k + 1]) == (Fold(b[..k]) << 8) | (b[k] as bv64)
  {
    assert b[..k + 1][..k] == b[..k];
  }

  function Nested(b0: Byte, b1: Byte, b2: Byte, b3: Byte, b4: Byte, b5: Byte, b6: Byte, b7: Byte): bv64 {
    (((((((((((((((b0 as bv64) << 8) | (b1 as bv64)) << 8) | (b2 as bv64)) << 8) | (b3 as bv64)) << 8)
    | (b4 as bv64)) << 8) | (b5 as bv64)) << 8) | (b6 as bv64)) << 8) | (b7 as bv64))
  }

  lemma NestedIsShift(b: seq<Byte>)
    requires |b| == 8
    ensures Nested(b[0], b[1], b[2], b[3], b[4], b[5], b[6], b[7]) == ShiftWord(b)
  {
  }

  lemma ShiftIn(x: bv64, acc: bv64)
    requires acc == 0
    ensures (acc << 8) | x == x
  {
  }

  lemma FoldOne(b: seq<Byte>)
    requires |b| == 8
    ensures Fold(b[..1]) == b[0] as bv64
  {
    FoldStep(b, 0);
    ShiftIn(b[0] as bv64, Fold(b[..0]));
  }

  /** The byte-folding loop computes the explicit shift expression. */
  lemma FoldIsShift(b: seq<Byte>)
    requires |b| == 8
    ensures Fold(b) == ShiftWord(b)
  {
    NestedIsShift(b);
    FoldOne(b);
    FoldStep(b, 1);
    FoldStep(b, 2);
    FoldStep(b, 3);
    FoldStep(b, 4);
    FoldStep(b, 5);
    FoldStep(b, 6);
    FoldStep(b, 7);
    assert b[..8] == b;
  }

  lemma SplitShift(b: seq<Byte>)
    requires |b| == 8
    ensures SplitWord(ShiftWord(b)) == b
  {
  }

  lemma ShiftSplit(w: bv64)
    ensures ShiftWord(SplitWord(w)) == w
  {
  }

  /** The constructor inverts the getters ... */
  lemma WordPlaces(b: seq<Byte>)
    requires |b| == 8
    ensures ShiftWord(b) >> 56 == b[0] as bv64 && (ShiftWord(b) >> 48) & 0xFF == b[1] as bv64
    ensures (ShiftWord(b) >> 40) & 0xFF == b[2] as bv64 && (ShiftWord(b) >> 32) & 0xFF == b[3] as bv64
    ensures (ShiftWord(b) >> 24) & 0xFF == b[4] as bv64 && (ShiftWord(b) >> 16) & 0xFF == b[5] as bv64
    ensures (ShiftWord(b) >> 8) & 0xFF == b[6] as bv64 && ShiftWord(b) & 0xFF == b[7] as bv64
  {
  }

  /** Big-endian halves: byte 0 is the top of the most significant one, byte 15 the bottom of the other. */
  lemma HalvesPlaces(u: Uuid)
    ensures MostBits(u) >> 56 == u[0] as bv64 && MostBits(u) & 0xFF == u[7] as bv64
    ensures LeastBits(u) >> 56 == u[8] as bv64 && LeastBits(u) & 0xFF == u[15] as bv64
  {
    FoldIsShift(u[..8]);
    FoldIsShift(u[8..]);
    WordPlaces(u[..8]);
    WordPlaces(u[8..]);
  }

  lemma HalvesOfUuid(u: Uuid)
    ensures FromHalves(MostBits(u), LeastBits(u)) == u
  {
    FoldIsShift(u[..8]);
    FoldIsShift(u[8..]);
    SplitShift(u[..8]);
    SplitShift(u[8..]);
    assert u == u[..8] + u[8..];
  }

  /** ... and the getters invert the constructor. */
  lemma UuidOfHalves(most: bv64, least: bv64)
    ensures MostBits(FromHalves(most, least)) == most
    ensures LeastBits(FromHalves(most, least)) == least
  {
    var u := FromHalves(most, least);
    assert u[..8] == SplitWord(most) && u[8..] == SplitWord(least);
    FoldIsShift(u[..8]);
    FoldIsShift(u[8..]);
    ShiftSplit(most);
    ShiftSplit(least);
  }

  // ---------- The loops ----------

  lemma {:induction false} HexAppend(bytes: seq<Byte>, b: Byte)
    ensures Hex(bytes + [b]) == Hex(bytes) + HexByte(b)
  {
    if bytes == [] {
      assert bytes + [b] == [b] && [b][1..] == [];
      assert Hex([b]) == HexByte(b) + Hex([]);
    } else {
      assert (bytes + [b])[1..] == bytes[1..] + [b];
      HexAppend(bytes[1..], b);
    }
  }

  /** The digit loop of ToString. */
  method WriteHex(bytes: seq<Byte>) returns (tmp: string)
    ensures tmp == Hex(bytes)
  {
    tmp := "";
    for i := 0 to |bytes|
      invariant tmp == Hex(bytes[..i])
    {
      HexAppend(bytes[..i], bytes[i]);
      assert bytes[..i + 1] == bytes[..i] + [bytes[i]];
      tmp := tmp + HexByte(bytes[i]);
    }
    assert bytes[..|bytes|] == bytes;
  }

  method ToString(u: Uuid) returns (ret: string)
    ensures ret == ToText(u)
  {
    var tmp := WriteHex(u);
    ret := tmp[..8] + "-" + tmp[8..12] + "-" + tmp[12..16] + "-" + tmp[16..20] + "-" + tmp[20..];
  }

  /** The find-and-replace loop at the start of FromString. */
  method RemoveDashes(name: string) returns (tmp: string)
    ensures tmp == NoDashes(name)
  {
    tmp := name;
    var pos := 0;
    while pos < |tmp|
      invariant pos <= |tmp| && '-' !in tmp[..pos]
      invariant NoDashes(tmp) == NoDashes(name)
      decreases |tmp| - pos
    {
      if tmp[pos] == '-' {
        DropDash(tmp, pos);
        tmp := tmp[..pos] + tmp[pos + 1..];
      } else {
        pos := pos + 1;
      }
    }
    NoDashesKeeps(tmp);
  }

  lemma DropDash(s: string, pos: nat)
    requires pos < |s| && s[pos] == '-'
    ensures NoDashes(s[..pos] + s[pos + 1..]) == NoDashes(s)
  {
    assert s == s[..pos] + s[pos..];
    NoDashesAppend(s[..pos], s[pos..]);
    NoDashesAppend(s[..pos], s[pos + 1..]);
    DashFirst(s[pos..], s[pos + 1..]);
  }

  /** std::from_chars on the i-th pair of characters. */
  method ReadPair(t: string, i: nat) returns (ok: bool, b: Byte)
    requires 2 * i + 2 <= |t|
    ensures DecodePairs(t[2 * i..]) == if ok then [b] + DecodePairs(t[2 * (i + 1)..]) else []
  {
    assert t[2 * i..][2..] == t[2 * (i + 1)..];
    ok, b := false, 0;
    var h, l := HexValue(t[2 * i]), HexValue(t[2 * i + 1]);
    if h.Some? && l.Some? {
      ok, b := true, (h.value << 4) | l.value;
    }
  }

  /** The first i bytes are decoded and the rest is still zero. */
  ghost predicate Filling(t: string, u: seq<Byte>, i: nat, done: seq<Byte>) {
    && |done| == i <= 16 && 2 * i <= |t| == 32
    && u == done + Zeros(16 - i)
    && DecodePairs(t) == done + DecodePairs(t[2 * i..])
  }

  lemma FillOneMore(t: string, u: seq<Byte>, i: nat, done: seq<Byte>, b: Byte)
    requires Filling(t, u, i, done) && i < 16
    requires DecodePairs(t[2 * i..]) == [b] + DecodePairs(t[2 * (i + 1)..])
    ensures Filling(t, u[i := b], i + 1, done + [b])
  {
    Regrouped(DecodePairs(t), done, b, DecodePairs(t[2 * (i + 1)..]));
    SetNext(u, i, done, b);
  }

  lemma Regrouped(all: seq<Byte>, done: seq<Byte>, b: Byte, rest: seq<Byte>)
    requires all == done + ([b] + rest)
    ensures all == done + [b] + rest
  {
  }

  lemma SetNext(u: seq<Byte>, i: nat, done: seq<Byte>, b: Byte)
    requires i < 16 && |done| == i && u == done + Zeros(16 - i)
    ensures u[i := b] == done + [b] + Zeros(15 - i)
  {
  }

  lemma FillEnds(t: string, u: seq<Byte>, i: nat, done: seq<Byte>)
    requires Filling(t, u, i, done) && DecodePairs(t[2 * i..]) == []
    ensures u == DecodePairs(t) + Zeros(16 - |DecodePairs(t)|)
  {
    assert done + [] == done;
  }

  /** The digit loop of FromString: fills bytes until a pair is not two hexadecimal digits. */
  method FillBytes(tmp: string) returns (u: Uuid)
    requires |tmp| == 32
    ensures u == DecodePairs(tmp) + Zeros(16 - |DecodePairs(tmp)|)
  {
    u := Zeros(16);
    ghost var done: seq<Byte> := [];
    assert tmp[0..] == tmp && [] + Zeros(16) == u && [] + DecodePairs(tmp) == DecodePairs(tmp);
    var i, ok := 0, true;
    while i < 16 && ok
      invariant 0 <= i <= 16 && Filling(tmp, u, i, done)
      invariant !ok ==> DecodePairs(tmp[2 * i..]) == []
      decreases 16 - i, ok
    {
      var b;
      ok, b := ReadPair(tmp, i);
      if ok {
        FillOneMore(tmp, u, i, done, b);
        u := u[i := b];
        done := done + [b];
        i := i + 1;
      }
    }
    assert ok ==> tmp[2 * i..] == [];
    FillEnds(tmp, u, i, done);
  }

  method FromString(name: string) returns (u: Uuid)
    ensures u == FromText(name)
  {
    var tmp := RemoveDashes(name);
    if |tmp| != 32 {
      return Zeros(16);
    }
    u := FillBytes(tmp);
  }

  /** The operator < of the map key: the first differing byte decides. */
  method Less(u: Uuid, v: Uuid) returns (less: bool)
    ensures less <==> CompareBytes(u, v) < 0
  {
    var i := 0;
    while i < 16
      invariant 0 <= i <= 16
      invariant CompareBytes(u, v) == CompareBytes(u[i..], v[i..])
    {
      assert u[i..][1..] == u[i + 1..] && v[i..][1..] == v[i + 1..];
      if u[i] != v[i] {
        return u[i] < v[i];
      }
      i := i + 1;
    }
    less := false;
  }

  method Equals(u: Uuid, v: Uuid) returns (equal: bool)
    ensures equal <==> CompareText(ToText(u), ToText(v)) == 0
  {
    assert CompareText(ToText(u), ToText(v)) == 0 <==> u == v by { CompareToIsByteOrder(u, v); }
    for i := 0 to 16
      invariant forall k :: 0 <= k < i ==> u[k] == v[k]
    {
      if u[i] != v[i] {
        return false;
      }
    }
    assert u == v;
    equal := true;
  }

  /** GetMostSignificantBits and GetLeastSignificantBits. */
  method GetHalves(u: Uuid) returns (most: bv64, least: bv64)
    ensures most == MostBits(u) && least == LeastBits(u)
  {
    most, least := 0, 0;
    for i := 0 to 8
      invariant most == Fold(u[..8][..i])
    {
      FoldStep(u[..8], i);
      most := (most << 8) | (u[i] as bv64);
    }
    for i := 8 to 16
      invariant least == Fold(u[8..][..i - 8])
    {
      FoldStep(u[8..], i - 8);
      least := (least << 8) | (u[i] as bv64);
    }
    assert u[..8][..8] == u[..8] && u[8..][..8] == u[8..];
  }

  /** One half of ConvertFromMostAndLeastBit, its eight turns written out: shift, then mask. */
  function ShiftOut(w: bv64): seq<Byte> {
    [((w >> 56) & 0xFF) as Byte, ((w >> 48) & 0xFF) as Byte, ((w >> 40) & 0xFF) as Byte, ((w >> 32) & 0xFF) as Byte,
     ((w >> 24) & 0xFF) as Byte, ((w >> 16) & 0xFF) as Byte, ((w >> 8) & 0xFF) as Byte, (w & 0xFF) as Byte]
  }

  /** The two 64-bit constructors agree. */
  lemma ShiftOutIsSplit(w: bv64)
    ensures ShiftOut(w) == SplitWord(w)
  {
  }

  // ---------- Uuids as map keys ----------

  lemma {:induction false} CompareBytesMirror(u: seq<Byte>, v: seq<Byte>)
    requires |u| == |v|
    ensures CompareBytes(v, u) == -CompareBytes(u, v)
  {
    if u != [] {
      CompareBytesMirror(u[1..], v[1..]);
    }
  }

  lemma {:induction false} CompareBytesTransitive(u: seq<Byte>, v: seq<Byte>, w: seq<Byte>)
    requires |u| == |v| == |w| && CompareBytes(u, v) <= 0 && CompareBytes(v, w) <= 0
    ensures CompareBytes(u, w) <= 0
  {
    if u != [] && u[0] == v[0] == w[0] {
      CompareBytesTransitive(u[1..], v[1..], w[1..]);
    }
  }

  /** operator < orders uuids totally: of two different ones exactly one is less. */
  lemma LessIsTotalOrder(u: Uuid, v: Uuid, w: Uuid)
    ensures !(CompareBytes(u, u) < 0)
    ensures u != v ==> (CompareBytes(u, v) < 0 <==> !(CompareBytes(v, u) < 0))
    ensures CompareBytes(u, v) < 0 && CompareBytes(v, w) < 0 ==> CompareBytes(u, w) < 0
  {
    CompareBytesZero(u, u);
    CompareBytesZero(u, v);
    CompareBytesMirror(u, v);
    if CompareBytes(u, v) < 0 && CompareBytes(v, w) < 0 {
      CompareBytesTransitive(u, v, w);
      CompareBytesZero(u, w);
      CompareBytesMirror(u, v);
    }
  }
}
