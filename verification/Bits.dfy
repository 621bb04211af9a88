/** Bits packed into bytes, most significant bit first, as DAF::Bitset keeps them. */
module Bits {
  import opened Lexicographic

  /** bit_mask */
  function Mask(k: nat): bv8
    requires k < 8
  {
    if k == 0 then 0x80 else if k == 1 then 0x40 else if k == 2 then 0x20 else if k == 3 then 0x10
    else if k == 4 then 0x08 else if k == 5 then 0x04 else if k == 6 then 0x02 else 0x01
  }

  predicate BitAt(b: bv8, k: nat)
    requires k < 8
  {
    b & Mask(k) != 0
  }

  function SetBit(b: bv8, k: nat, val: bool): bv8
    requires k < 8
  {
    if val then b | Mask(k) else b & !Mask(k)
  }

  /** bit_bytes */
  function Bytes(n: nat): nat { n / 8 + if n % 8 != 0 then 1 else 0 }

  lemma SetBitSets(b: bv8, k: nat, val: bool, i: nat)
    requires k < 8 && i < 8
    ensures BitAt(SetBit(b, k, val), i) == if i == k then val else BitAt(b, i)
  {
  }

  lemma MaskBit(j: nat, k: nat)
    requires j < 8 && k < 8
    ensures BitAt(Mask(j), k) <==> j == k
  {
  }

  lemma AndBit(a: bv8, b: bv8, k: nat)
    requires k < 8
    ensures BitAt(a & b, k) == (BitAt(a, k) && BitAt(b, k))
  {
  }

  lemma OrBit(a: bv8, b: bv8, k: nat)
    requires k < 8
    ensures BitAt(a | b, k) == (BitAt(a, k) || BitAt(b, k))
  {
  }

  lemma NotBit(a: bv8, k: nat)
    requires k < 8
    ensures BitAt(!a, k) == !BitAt(a, k)
  {
  }

  lemma XorIs(a: bv8, b: bv8)
    ensures a ^ b == (a | b) & !(a & b)
  {
  }

  lemma XorBit(a: bv8, b: bv8, k: nat)
    requires k < 8
    ensures BitAt(a ^ b, k) == (BitAt(a, k) != BitAt(b, k))
  {
    hide BitAt;
    XorIs(a, b);
    AndBit(a | b, !(a & b), k);
    OrBit(a, b, k);
    NotBit(a & b, k);
    AndBit(a, b, k);
  }

  lemma FullByte(k: nat)
    requires k < 8
    ensures BitAt(0xFF, k) && !BitAt(0, k)
  {
  }

  /** Two bytes with the same bits are the same; otherwise the first bit that differs decides their order. */
  lemma ByteOrder(a: bv8, b: bv8) returns (k: nat)
    requires a != b
    ensures k < 8 && BitAt(a, k) != BitAt(b, k)
    ensures forall i :: 0 <= i < k ==> BitAt(a, i) == BitAt(b, i)
    ensures a < b <==> BitAt(b, k)
  {
    k := if BitAt(a, 0) != BitAt(b, 0) then 0 else if BitAt(a, 1) != BitAt(b, 1) then 1
         else if BitAt(a, 2) != BitAt(b, 2) then 2 else if BitAt(a, 3) != BitAt(b, 3) then 3
         else if BitAt(a, 4) != BitAt(b, 4) then 4 else if BitAt(a, 5) != BitAt(b, 5) then 5
         else if BitAt(a, 6) != BitAt(b, 6) then 6 else 7;
  }

  // ----- bytes in a row

  predicate BitOf(s: seq<bv8>, i: nat)
    requires i / 8 < |s|
  {
    BitAt(s[i / 8], i % 8)
  }

  lemma BytesCover(n: nat)
    ensures n <= 8 * Bytes(n) < n + 8
    ensures forall i: nat :: i < 8 * Bytes(n) <==> i / 8 < Bytes(n)
  {
  }

  lemma PartialByte(n: nat)
    ensures n % 8 != 0 ==> Bytes(n) == n / 8 + 1
  {
  }

  /** The first n bits. */
  function Unpack(s: seq<bv8>, n: nat): (bits: seq<bool>)
    requires Bytes(n) <= |s|
    ensures |bits| == n
    ensures forall i :: 0 <= i < n ==> i / 8 < |s| && bits[i] == BitOf(s, i)
  {
    BytesCover(n);
    seq(n, i requires 0 <= i < n => BitOf(s, i))
  }

  /** No bit is set between the n-th and the end of its byte. */
  ghost predicate Padded(s: seq<bv8>, n: nat)
    requires Bytes(n) <= |s|
  {
    forall i :: n <= i < 8 * Bytes(n) && i / 8 < |s| ==> !BitOf(s, i)
  }

  lemma SetBitOf(s: seq<bv8>, j: nat, val: bool, i: nat)
    requires j / 8 < |s| && i / 8 < |s|
    ensures BitOf(s[j / 8 := SetBit(s[j / 8], j % 8, val)], i) == if i == j then val else BitOf(s, i)
  {
    if i / 8 == j / 8 { SetBitSets(s[j / 8], j % 8, val, i % 8); }
  }

  function Ints(bits: seq<bool>): (ints: seq<int>)
    ensures |ints| == |bits| && forall i :: 0 <= i < |bits| ==> ints[i] == if bits[i] then 1 else 0
  {
    seq(|bits|, i requires 0 <= i < |bits| => if bits[i] then 1 else 0)
  }

  /** memcmp of bytes i to n - 1: the sign of the first difference. */
  function Memcmp(a: seq<bv8>, b: seq<bv8>, i: nat, n: nat): int
    requires i <= n <= |a| && n <= |b|
    decreases n - i
  {
    if i == n then 0
    else if a[i] < b[i] then -1
    else if a[i] > b[i] then 1
    else Memcmp(a, b, i + 1, n)
  }

  lemma {:induction false} MemcmpAt(a: seq<bv8>, b: seq<bv8>, i: nat, n: nat) returns (j: nat)
    requires i <= n <= |a| && n <= |b|
    ensures i <= j <= n && (forall l :: i <= l < j ==> a[l] == b[l])
    ensures j == n ==> Memcmp(a, b, i, n) == 0
    ensures j < n ==> a[j] != b[j] && Memcmp(a, b, i, n) == if a[j] < b[j] then -1 else 1
    decreases n - i
  {
    if i == n || a[i] != b[i] { j := i; } else { j := MemcmpAt(a, b, i + 1, n); }
  }

  lemma EqualBytesEqualBits(a: seq<bv8>, b: seq<bv8>, n: nat)
    requires Bytes(n) <= |a| && Bytes(n) <= |b| && forall i :: 0 <= i < Bytes(n) ==> a[i] == b[i]
    ensures Unpack(a, n) == Unpack(b, n)
  {
    hide BitAt;
    BytesCover(n);
    forall i | 0 <= i < n ensures Unpack(a, n)[i] == Unpack(b, n)[i] { assert i / 8 < Bytes(n); }
  }

  lemma BitsFollowBytes(a: seq<bv8>, b: seq<bv8>, n: nat, j: nat, k: nat)
    requires Bytes(n) <= |a| && Bytes(n) <= |b| && Padded(a, n) && Padded(b, n)
    requires j < Bytes(n) && (forall i :: 0 <= i < j ==> a[i] == b[i])
    requires k < 8 && BitAt(a[j], k) != BitAt(b[j], k) && (forall i :: 0 <= i < k ==> BitAt(a[j], i) == BitAt(b[j], i))
    ensures 8 * j + k < n && BitOf(a, 8 * j + k) == BitAt(a[j], k) && BitOf(b, 8 * j + k) == BitAt(b[j], k)
    ensures forall i :: 0 <= i < 8 * j + k ==> BitOf(a, i) == BitOf(b, i)
  {
    hide BitAt;
    BytesCover(n);
    var p := 8 * j + k;
    assert p / 8 == j && p % 8 == k;
    assert BitOf(a, p) != BitOf(b, p);
    forall i | 0 <= i < p ensures BitOf(a, i) == BitOf(b, i) {
      if i / 8 == j { assert i % 8 < k; }
    }
  }

  /** The first byte that differs decides, by the first bit in it that differs. */
  lemma FirstByteDecides(a: seq<bv8>, b: seq<bv8>, n: nat, j: nat)
    requires Bytes(n) <= |a| && Bytes(n) <= |b| && Padded(a, n) && Padded(b, n)
    requires j < Bytes(n) && a[j] != b[j] && (forall i :: 0 <= i < j ==> a[i] == b[i])
    ensures LexSign(Ints(Unpack(a, n)), Ints(Unpack(b, n))) == if a[j] < b[j] then -1 else 1
  {
    hide BitAt, LexSign, Padded, Bytes, Unpack, BitOf;
    var x, y := Ints(Unpack(a, n)), Ints(Unpack(b, n));
    var k := ByteOrder(a[j], b[j]);
    BitsFollowBytes(a, b, n, j, k);
    LexSignAt(x, y, 8 * j + k);
  }

  /** Because the padding is zero and the first bit is the most significant one, comparing bytes is comparing bits. */
  lemma ByteOrderIsBitOrder(a: seq<bv8>, b: seq<bv8>, n: nat)
    requires Bytes(n) <= |a| && Bytes(n) <= |b| && Padded(a, n) && Padded(b, n)
    ensures Memcmp(a, b, 0, Bytes(n)) == LexSign(Ints(Unpack(a, n)), Ints(Unpack(b, n)))
  {
    hide LexSign, Memcmp, Padded, Bytes, Unpack;
    var j := MemcmpAt(a, b, 0, Bytes(n));
    if j == Bytes(n) {
      EqualBytesEqualBits(a, b, n);
      LexSignZero(Ints(Unpack(a, n)), Ints(Unpack(b, n)));
    } else {
      FirstByteDecides(a, b, n, j);
    }
  }
}
