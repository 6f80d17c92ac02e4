/** What a written frame looks like on the wire, byte by byte. */
module WireProofs {
  import opened Text
  import opened WebSocket

  // ---------------------------------------------------------------- division

  lemma {:induction false} QuotientIsUnique(a: nat, d: nat, q: nat, r: nat)
    requires d > 0 && r < d && a == d * q + r
    ensures a / d == q
  {
    var k, m := a / d, a % d;
    assert a == d * k + m && 0 <= m < d;
    if k < q { ProductGap(d, k, q); }
    if q < k { ProductGap(d, q, k); }
  }

  lemma {:induction false} ProductGap(d: nat, x: nat, y: nat)
    requires x < y
    ensures d * x + d <= d * y
  {
    assert d * (x + 1) == d * x + d;
    MultiplyIsMonotone(d, x + 1, y);
  }

  lemma {:induction false} MultiplyIsMonotone(d: nat, x: nat, y: nat)
    requires x <= y
    ensures d * x <= d * y
  {}

  lemma {:induction false} Distribute(c: nat, p: nat, q: nat, t: nat)
    ensures c * (p * q + t) == (c * p) * q + c * t
  {}

  lemma {:induction false} DivideTwice(a: nat, c: nat, p: nat)
    requires c > 0 && p > 0
    ensures c * p > 0 && a / c / p == a / (c * p)
  {
    MultiplyIsMonotone(c, 1, p);
    Recompose(a, c, p, a / c, a % c, a / c / p, a / c % p);
  }

  lemma {:induction false} Recompose(a: nat, c: nat, p: nat, b: nat, r: nat, q: nat, t: nat)
    requires c > 0 && p > 0 && c * p > 0 && a == c * b + r && r < c && b == p * q + t && t < p
    ensures a / (c * p) == q
  {
    Distribute(c, p, q, t);
    ProductGap(c, t, p);
    QuotientIsUnique(a, c * p, q, c * t + r);
  }

  // ---------------------------------------------------------------- exclusive or

  function Bit(i: nat, a: nat): nat { a / Pow2(i) % 2 }

  lemma {:induction false} BitShifts(i: nat, a: nat)
    requires i > 0
    ensures Bit(i, a) == Bit(i - 1, a / 2)
  {
    DivideTwice(a, 2, Pow2(i - 1));
  }

  /** Each of the low `k` bits is set if and only if the two bits differ. */
  lemma {:induction false} XorBitwise(k: nat, a: nat, b: nat, i: nat)
    requires i < k
    ensures Bit(i, XorBits(k, a, b)) == if Bit(i, a) == Bit(i, b) then 0 else 1
  {
    var x := XorBits(k, a, b);
    assert x / 2 == XorBits(k - 1, a / 2, b / 2);
    if i > 0 {
      XorBitwise(k - 1, a / 2, b / 2, i - 1);
      BitShifts(i, x);
      BitShifts(i, a);
      BitShifts(i, b);
    }
  }

  lemma {:induction false} XorOfBits(k: nat, a: nat)
    requires a < Pow2(k)
    ensures XorBits(k, a, 0) == a && XorBits(k, a, a) == 0
  {
    if k > 0 { XorOfBits(k - 1, a / 2); }
  }

  /** Bytes combine bit by bit; nothing changes under zero, and a byte cancels itself. */
  lemma {:induction false} XorOfBytes(a: Byte, b: Byte)
    ensures forall i: nat :: i < 8 ==> Bit(i, Xor(a, b)) == if Bit(i, a) == Bit(i, b) then 0 else 1
    ensures Xor(a, 0) == a && Xor(a, a) == 0
  {
    forall i: nat | i < 8 ensures Bit(i, Xor(a, b)) == if Bit(i, a) == Bit(i, b) then 0 else 1 { XorBitwise(8, a, b, i); }
    EightBits();
    XorOfBits(8, a);
  }

  lemma {:induction false} EightBits()
    ensures Pow2(8) == 256
  {
    assert Pow2(4) == 16;
  }

  // ---------------------------------------------------------------- places of the length

  /** The byte at place `j` of `k` carries that many 256s. */
  lemma {:induction false} BigEndianByte(k: nat, v: nat, j: nat)
    requires j < k
    ensures BigEndian(k, v)[j] == v / Pow256(k - 1 - j) % 256
  {
    if j < k - 1 {
      BigEndianByte(k - 1, v / 256, j);
      DivideTwice(v, 256, Pow256(k - 2 - j));
    }
  }

  /** The byte at place `j` of an eight-byte length. */
  function Place(n: nat, j: int): nat
    requires 0 <= j < 8
  {
    n / Pow256(7 - j) % 256
  }

  /** The two header bytes and the length: final bit and opcode; mask bit and the length itself, or
      126 and two bytes, or 127 and eight, most significant first. */
  ghost predicate HeaderBytes(e: seq<Byte>, opcode: Byte, masked: bool, n: nat) {
    var flag := if masked then 128 else 0;
    && |e| >= HeaderSize(n) && e[0] == 128 + opcode
    && (n < 126 ==> e[1] == flag + n)
    && (126 <= n <= 0xffff ==> e[1] == flag + 126 && e[2] == n / 256 && e[3] == n % 256)
    && (n > 0xffff ==> e[1] == flag + 127 && forall j :: 0 <= j < 8 ==> e[2 + j] == Place(n, j))
  }

  function HeaderSize(n: nat): nat { if n < 126 then 2 else if n <= 0xffff then 4 else 10 }

  lemma {:induction false} LengthFieldBytes(m: Mask, n: nat)
    requires n < 0x8000_0000_0000_0000
    ensures var l, flag := LengthField(m, n), if m.Key? then 128 else 0;
            && |l| == HeaderSize(n) - 1
            && (n < 126 ==> l[0] == flag + n)
            && (126 <= n <= 0xffff ==> l[0] == flag + 126 && l[1] == n / 256 && l[2] == n % 256)
            && (n > 0xffff ==> l[0] == flag + 127 && forall j :: 0 <= j < 8 ==> l[1 + j] == Place(n, j))
  {
    if 126 <= n <= 0xffff {
      TwoBytes(n);
    } else if n > 0xffff {
      forall j | 0 <= j < 8 ensures LengthField(m, n)[1 + j] == Place(n, j) { BigEndianByte(8, n, j); }
    }
  }

  lemma {:induction false} TwoBytes(n: nat)
    requires n <= 0xffff
    ensures BigEndian(2, n) == [n / 256, n % 256]
  {
    BigEndianByte(2, n, 0);
    BigEndianByte(2, n, 1);
    assert Pow256(1) == 256 && Pow256(0) == 1;
  }

  lemma {:induction false} PartsInPlace(a: seq<Byte>, b: seq<Byte>, c: seq<Byte>, d: seq<Byte>)
    ensures var e := a + b + c + d;
            && (forall i :: 0 <= i < |a| ==> e[i] == a[i]) && (forall i :: 0 <= i < |b| ==> e[|a| + i] == b[i])
            && (forall i :: 0 <= i < |c| ==> e[|a| + |b| + i] == c[i]) && (forall i :: 0 <= i < |d| ==> e[|a| + |b| + |c| + i] == d[i])
  {}

  /** Every byte of a written frame: the header, the key, and each payload byte combined with the
      key byte of its place; without a key the payload as it is. */
  lemma {:induction false} WireBytes(f: Frame, m: Mask)
    requires f.opcode < 128 && ValidMask(m) && |f.payload| < 0x8000_0000_0000_0000
    ensures var e, h := Encode(f, m), HeaderSize(|f.payload|);
            && HeaderBytes(e, f.opcode, m.Key?, |f.payload|)
            && |e| == h + (if m.Key? then 4 else 0) + |f.payload|
            && (m.Key? ==> forall i :: 0 <= i < 4 ==> e[h + i] == m.key[i])
            && (m.Key? ==> forall i :: 0 <= i < |f.payload| ==> e[h + 4 + i] == Xor(f.payload[i], m.key[i % 4]))
            && (m.NoMask? ==> forall i :: 0 <= i < |f.payload| ==> e[h + i] == f.payload[i])
  {
    var n := |f.payload|;
    var first: seq<Byte> := [SetHighBit(f.opcode)];
    var l, key, body := LengthField(m, n), KeyBytes(m), Apply(m, f.payload);
    LengthFieldBytes(m, n);
    PartsInPlace(first, l, key, body);
    assert Encode(f, m) == first + l + key + body;
  }
}
