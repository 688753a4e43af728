/**
 Bytes, fixed-width little-endian words and the optional value shared by the other modules.
 */
module Bytes {
  type uint8 = n: int | 0 <= n < 0x100
  type uint16 = n: int | 0 <= n < 0x1_0000
  type uint32 = n: int | 0 <= n < 0x1_0000_0000

  type Buffer = seq<uint8>

  datatype Option<+T> = None | Some(value: T)

  const SIZE_T_LIMIT: nat := 0x1_0000_0000_0000_0000

  /** 256 to the k. */
  function Pow256(k: nat): (p: nat)
    ensures p > 0
  {
    if k == 0 then 1 else 256 * Pow256(k - 1)
  }

  lemma WordRanges()
    ensures Pow256(2) == 0x1_0000
    ensures Pow256(8) == SIZE_T_LIMIT
  {
    assert Pow256(1) == 256 * Pow256(0);
    assert Pow256(3) == 256 * Pow256(2);
    assert Pow256(4) == 256 * Pow256(3);
    assert Pow256(5) == 256 * Pow256(4);
    assert Pow256(6) == 256 * Pow256(5);
    assert Pow256(7) == 256 * Pow256(6);
  }

  /** The memory image of a k-byte unsigned integer on a little-endian machine. */
  function LittleEndian(n: nat, k: nat): (b: Buffer)
    ensures |b| == k
  {
    seq(k, i requires 0 <= i => n / Pow256(i) % 256)
  }

  /** The unsigned integer a little-endian machine reads from b. */
  function FromLittleEndian(b: Buffer): (n: nat)
    ensures n < Pow256(|b|)
  {
    if b == [] then 0 else b[0] + 256 * FromLittleEndian(b[1..])
  }

  /** Byte 0 is the low byte and the others encode the rest of the number. */
  lemma LittleEndianStep(n: nat, k: nat)
    requires k > 0
    ensures LittleEndian(n, k) == [n % 256] + LittleEndian(n / 256, k - 1)
  {
    var b, c := LittleEndian(n, k), [n % 256] + LittleEndian(n / 256, k - 1);
    forall i | 0 <= i < k ensures b[i] == c[i] {
      if i > 0 {
        DivDiv(n, 256, Pow256(i - 1));
      }
    }
  }

  /** The low byte comes first. */
  lemma LowByteFirst()
    ensures LittleEndian(0x0201, 2) == [0x01, 0x02]
    ensures FromLittleEndian([0x01, 0x02]) == 0x0201
  {
    LittleEndianStep(0x0201, 2);
    LittleEndianStep(0x02, 1);
    assert [0x01, 0x02][1..] == [0x02] && [0x02][1..] == [];
    assert FromLittleEndian([0x02]) == 0x02 + 256 * FromLittleEndian([]);
    assert FromLittleEndian([0x01, 0x02]) == 0x01 + 256 * FromLittleEndian([0x02]);
  }

  lemma DivDiv(n: nat, a: nat, c: nat)
    requires a > 0 && c > 0
    ensures a * c > 0
    ensures n / (a * c) == n / a / c
  {
    var q, r := n / a, n % a;
    var q', r' := q / c, q % c;
    assert n == a * (c * q' + r') + r;
    assert a * (c * q' + r') == (a * c) * q' + a * r';
    var rest := a * r' + r;
    assert a * r' <= a * (c - 1) by { MulLe(a, r', c - 1); }
    assert a * (c - 1) == a * c - a;
    assert 0 <= rest < a * c;
    DivUnique(n, a * c, q', rest);
  }

  lemma MulLe(a: nat, x: int, y: int)
    requires x <= y
    ensures a * x <= a * y
  {
  }

  lemma DivUnique(n: nat, m: nat, q: int, r: int)
    requires m > 0 && 0 <= r < m && n == m * q + r
    ensures n / m == q
  {
    var q' := n / m;
    var r' := n % m;
    assert n == m * q' + r';
    assert m * (q - q') == r' - r;
    if q > q' {
      MulLe(m, 1, q - q');
    } else if q < q' {
      MulLe(m, q - q', -1);
    }
  }

  lemma {:induction false} ReadBack(n: nat, k: nat)
    requires n < Pow256(k)
    ensures FromLittleEndian(LittleEndian(n, k)) == n
  {
    if k > 0 {
      LittleEndianStep(n, k);
      ReadBack(n / 256, k - 1);
      assert LittleEndian(n, k)[1..] == LittleEndian(n / 256, k - 1);
    }
  }

  lemma {:induction false} WriteBack(b: Buffer)
    ensures LittleEndian(FromLittleEndian(b), |b|) == b
  {
    if b != [] {
      LittleEndianStep(FromLittleEndian(b), |b|);
      WriteBack(b[1..]);
      assert FromLittleEndian(b) / 256 == FromLittleEndian(b[1..]);
    }
  }
}
