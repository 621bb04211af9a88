/** DAF::Bitset (daf/Bitset.cpp): a mutable sequence of bits kept in a byte buffer. */
module Bitset {
  import opened Bits
  import opened Lexicographic
  import opened Options

  const INT_MAX := 0x7fff_ffff
  const SIZE_MAX := 0xffff_ffff_ffff_ffff

  /** The cast of a size_t to int */
  function AsInt(n: nat): int {
    var low := n % 0x1_0000_0000;
    if low <= INT_MAX then low else low - 0x1_0000_0000
  }

  /** The check of a size refuses exactly the sizes above INT_MAX if and only if the cast loses no upper half. */
  lemma SizeCheckIsRightIff(n: nat)
    requires n <= SIZE_MAX
    ensures (AsInt(n) >= 0 <==> n <= INT_MAX) <==> n <= 0xffff_ffff || n % 0x1_0000_0000 > INT_MAX
  {
    if n <= 0xffff_ffff { assert n % 0x1_0000_0000 == n; }
  }

  datatype Outcome = Done | IllegalArgument | IndexOutOfRange

  // ----- meaning of the operations, on sequences of bits

  datatype Op = And | Or | Xor

  predicate Apply(op: Op, x: bool, y: bool) {
    match op
    case And => x && y
    case Or => x || y
    case Xor => x != y
  }

  /** The binary operators work on the common prefix; the rest of the left operand stays. */
  function Combined(op: Op, a: seq<bool>, b: seq<bool>): (r: seq<bool>)
    ensures |r| == |a|
  {
    seq(|a|, i requires 0 <= i < |a| => if i < |b| then Apply(op, a[i], b[i]) else a[i])
  }

  function Flipped(a: seq<bool>): (r: seq<bool>)
    ensures |r| == |a|
  {
    seq(|a|, i requires 0 <= i < |a| => !a[i])
  }

  function Repeated(n: nat, val: bool): (r: seq<bool>)
    ensures |r| == n
  {
    seq(n, i => val)
  }

  predicate AgreeOnCommonPrefix(a: seq<bool>, b: seq<bool>) {
    forall i :: 0 <= i < |a| && i < |b| ==> a[i] == b[i]
  }

  /** Shorter first, then by the first bit that differs. */
  function Order(a: seq<bool>, b: seq<bool>): int {
    if |a| == |b| then LexSign(Ints(a), Ints(b)) else Sign(|a|, |b|)
  }

  lemma IntsEqual(a: seq<bool>, b: seq<bool>)
    ensures Ints(a) == Ints(b) <==> a == b
  {
    if Ints(a) == Ints(b) {
      assert |a| == |b|;
      forall i | 0 <= i < |a| ensures a[i] == b[i] { assert Ints(a)[i] == Ints(b)[i]; }
    }
  }

  /** compare_to is a total order, and only a sequence itself compares as equal to it. */
  lemma OrderIsTotal(a: seq<bool>, b: seq<bool>, c: seq<bool>)
    ensures Order(a, b) == 0 <==> a == b
    ensures Order(b, a) == -Order(a, b)
    ensures Order(a, b) <= 0 && Order(b, c) <= 0 ==> Order(a, c) <= 0
  {
    hide LexSign, Ints;
    if |a| == |b| {
      LexSignZero(Ints(a), Ints(b));
      LexSignFlips(Ints(a), Ints(b));
      IntsEqual(a, b);
      if |b| == |c| && Order(a, b) <= 0 && Order(b, c) <= 0 { LexSignTransitive(Ints(a), Ints(b), Ints(c)); }
    }
  }

  /** Shorter comes first; of equal lengths, the one that has a zero where they first differ. */
  lemma OrderAtFirstDifference(a: seq<bool>, b: seq<bool>, k: nat)
    ensures |a| < |b| ==> Order(a, b) < 0
    ensures |a| == |b| && k < |a| && a[..k] == b[..k] && a[k] != b[k] ==> (Order(a, b) < 0 <==> b[k])
  {
    if |a| == |b| && k < |a| && a[..k] == b[..k] && a[k] != b[k] {
      forall i | 0 <= i < k ensures Ints(a)[i] == Ints(b)[i] { assert a[..k][i] == b[..k][i]; }
      LexSignAt(Ints(a), Ints(b), k);
    }
  }

  /** operator == is not an equivalence: for operands of given lengths it is transitive if and only if the middle one
      is not the shortest. */
  lemma PrefixEqualityIsTransitiveIff(l: nat, m: nat, n: nat)
    ensures
      (forall a, b, c :: |a| == l && |b| == m && |c| == n && AgreeOnCommonPrefix(a, b) && AgreeOnCommonPrefix(b, c) ==>
         AgreeOnCommonPrefix(a, c))
      <==> l <= m || n <= m
  {
    if l <= m || n <= m {
      forall a, b, c | |a| == l && |b| == m && |c| == n && AgreeOnCommonPrefix(a, b) && AgreeOnCommonPrefix(b, c)
        ensures AgreeOnCommonPrefix(a, c)
      {
        forall i | 0 <= i < l && i < n ensures a[i] == c[i] { assert a[i] == b[i] == c[i]; }
      }
    } else {
      var a, b, c := Repeated(l, true), Repeated(m, true), seq(n, i => i < m);
      assert AgreeOnCommonPrefix(a, b) && AgreeOnCommonPrefix(b, c);
      assert a[m] != c[m];
      assert !AgreeOnCommonPrefix(a, c);
    }
  }

  /** operator == and compare_to agree on all operands of given lengths if and only if the lengths are the same. */
  lemma EqualityIsOrderIff(l: nat, m: nat)
    ensures (forall a, b :: |a| == l && |b| == m ==> (AgreeOnCommonPrefix(a, b) <==> Order(a, b) == 0)) <==> l == m
  {
    hide Order;
    forall a: seq<bool>, b: seq<bool> | l == m && |a| == l && |b| == m
      ensures AgreeOnCommonPrefix(a, b) <==> Order(a, b) == 0
    {
      EqualityIsOrder(a, b);
    }
    if l != m {
      var a, b := Repeated(l, true), Repeated(m, true);
      OrderIsTotal(a, b, b);
      assert AgreeOnCommonPrefix(a, b) && Order(a, b) != 0;
    }
  }

  /** On single operands they differ exactly for a sequence and a proper prefix of it. */
  lemma EqualityIsOrder(a: seq<bool>, b: seq<bool>)
    ensures (AgreeOnCommonPrefix(a, b) <==> Order(a, b) == 0) <==> (|a| == |b| || !AgreeOnCommonPrefix(a, b))
  {
    OrderIsTotal(a, b, b);
    if |a| != |b| {
      assert Order(a, b) != 0;
    } else if AgreeOnCommonPrefix(a, b) {
      assert a == b;
    } else {
      assert a != b;
    }
  }

  /** Combining with zeros and with ones: and clears or keeps, or keeps or sets, xor keeps or flips. */
  lemma CombiningWithConstants(a: seq<bool>, n: nat)
    requires |a| <= n
    ensures Combined(And, a, Repeated(n, false)) == Repeated(|a|, false) && Combined(And, a, Repeated(n, true)) == a
    ensures Combined(Or, a, Repeated(n, false)) == a && Combined(Or, a, Repeated(n, true)) == Repeated(|a|, true)
    ensures Combined(Xor, a, Repeated(n, false)) == a && Combined(Xor, a, Repeated(n, true)) == Flipped(a)
  {
  }

  /** The bits of the left operand behind the end of the right one stay. */
  lemma CombiningLeavesTheRest(op: Op, a: seq<bool>, b: seq<bool>)
    requires |b| <= |a|
    ensures Combined(op, a, b) == Combined(op, a[..|b|], b) + a[|b|..]
  {
  }

  /** The operator ~ of two operands, xor with ones, is flip. */
  lemma ComplementIsFlip(a: seq<bool>)
    ensures Combined(Xor, Repeated(|a|, true), a) == Flipped(a)
    ensures Flipped(Flipped(a)) == a
  {
  }

  /** Combining a sequence with itself leaves it alone, except under xor. */
  lemma SelfCombination(op: Op, a: seq<bool>)
    ensures Combined(op, a, a) == a <==> op != Xor || a == Repeated(|a|, false)
  {
    if op == Xor && Combined(op, a, a) == a {
      forall i | 0 <= i < |a| ensures !a[i] { assert Combined(op, a, a)[i] == a[i]; }
      assert a == Repeated(|a|, false);
    }
  }

  /** The first i bits of b written behind a, with zeros for the rest */
  ghost function Written(a: seq<bool>, b: seq<bool>, i: nat): (r: seq<bool>)
    requires i <= |b|
    ensures |r| == |a| + |b|
  {
    a + b[..i] + Repeated(|b| - i, false)
  }

  lemma WrittenStart(a: seq<bool>, b: seq<bool>)
    ensures Written(a, b, 0) == a + Repeated(|b|, false)
  {
    assert b[..0] == [];
    assert a + [] == a;
  }

  lemma WrittenStep(a: seq<bool>, b: seq<bool>, i: nat)
    requires i <= |b|
    ensures i == |b| ==> Written(a, b, i) == a + b
    ensures i < |b| ==> Written(a, b, i)[|a| + i := b[i]] == Written(a, b, i + 1)
    ensures a == b && i < |b| ==> Written(a, b, i)[i] == b[i]
  {
    if i < |b| { assert Written(a, b, i)[|a| + i := b[i]] == Written(a, b, i + 1); }
  }

  /** The first i bits of a slice of n bits, with zeros for the rest */
  ghost function Filled(w: seq<bool>, pos: nat, n: nat, i: nat): (r: seq<bool>)
    requires i <= n && pos + n <= |w|
    ensures |r| == n
  {
    w[pos..pos + i] + Repeated(n - i, false)
  }

  lemma FilledStep(w: seq<bool>, pos: nat, n: nat, i: nat)
    requires i <= n && pos + n <= |w|
    ensures i == 0 ==> Filled(w, pos, n, i) == Repeated(n, false)
    ensures i == n ==> Filled(w, pos, n, i) == w[pos..pos + n]
    ensures i < n ==> Filled(w, pos, n, i)[i := w[pos + i]] == Filled(w, pos, n, i + 1)
  {
    if i < n { assert Filled(w, pos, n, i)[i := w[pos + i]] == Filled(w, pos, n, i + 1); }
  }

  /** The bits behind a gap of n at pos moved forward as far as position to */
  ghost function Shifted(v: seq<bool>, pos: nat, n: nat, to: nat): (r: seq<bool>)
    requires pos <= to <= to + n <= |v|
    ensures |r| == |v|
  {
    v[..pos] + v[pos + n..to + n] + v[to..]
  }

  lemma ShiftedStep(v: seq<bool>, pos: nat, n: nat, to: nat)
    requires pos <= to <= to + n <= |v|
    ensures to == pos ==> Shifted(v, pos, n, to) == v
    ensures to + n == |v| ==> Shifted(v, pos, n, to)[..to] == v[..pos] + v[pos + n..]
    ensures to + n < |v| ==> Shifted(v, pos, n, to)[to + n] == v[to + n]
    ensures to + n < |v| ==> Shifted(v, pos, n, to)[to := v[to + n]] == Shifted(v, pos, n, to + 1)
  {
    if to + n < |v| { assert Shifted(v, pos, n, to)[to := v[to + n]] == Shifted(v, pos, n, to + 1); }
  }

  // ----- one bit of a byte: class bitraits

  function BitraitsOp(op: Op, byte: bv8, k: nat, val: bool): bv8
    requires k < 8
  {
    match op
    case And => if !val then byte & !Mask(k) else byte
    case Or => if val then byte | Mask(k) else byte
    case Xor => if val then byte ^ Mask(k) else if byte & Mask(k) != 0 then byte else byte & !Mask(k)
  }

  lemma BitraitsOpBit(op: Op, byte: bv8, k: nat, val: bool)
    requires k < 8
    ensures BitraitsOp(op, byte, k, val) == SetBit(byte, k, Apply(op, BitAt(byte, k), val))
  {
  }

  function ByteOp(op: Op, a: bv8, b: bv8): bv8 {
    match op
    case And => a & b
    case Or => a | b
    case Xor => a ^ b
  }

  lemma ByteOpBit(op: Op, a: bv8, b: bv8, k: nat)
    requires k < 8
    ensures BitAt(ByteOp(op, a, b), k) == Apply(op, BitAt(a, k), BitAt(b, k))
  {
    hide BitAt;
    AndBit(a, b, k); OrBit(a, b, k); XorBit(a, b, k);
  }

  lemma UnpackIs(s: seq<bv8>, n: nat, bits: seq<bool>)
    requires Bytes(n) <= |s| && |bits| == n
    requires forall i :: 0 <= i < n && i / 8 < |s| ==> BitOf(s, i) == bits[i]
    ensures Unpack(s, n) == bits
  {
  }

  lemma MaskedBit(s: seq<bv8>, n: nat, mask: bv8, i: nat)
    requires n / 8 < |s| && i / 8 < |s| && i / 8 <= n / 8
    requires forall k: nat :: k < 8 ==> BitAt(mask, k) == (k < n % 8)
    ensures BitOf(s[n / 8 := s[n / 8] & mask], i) == (BitOf(s, i) && i < n)
  {
    hide BitAt;
    if i / 8 == n / 8 { AndBit(s[n / 8], mask, i % 8); }
  }

  /** Writing a bit of the buffer writes that bit of the sequence. */
  lemma PutBitValue(s: seq<bv8>, n: nat, j: nat, byte: bv8, val: bool)
    requires Bytes(n) <= |s| && Padded(s, n) && j < n && j / 8 < |s|
    requires byte == SetBit(s[j / 8], j % 8, val)
    ensures Padded(s[j / 8 := byte], n)
    ensures Unpack(s[j / 8 := byte], n) == Unpack(s, n)[j := val]
  {
    hide BitAt, BitOf, Bytes, SetBit;
    var t := s[j / 8 := byte];
    forall i: nat | i / 8 < |s| ensures BitOf(t, i) == if i == j then val else BitOf(s, i) {
      SetBitOf(s, j, val, i);
    }
    UnpackIs(t, n, Unpack(s, n)[j := val]);
  }

  /** Combining a whole byte combines its eight bits. */
  lemma PutByteValue(op: Op, s: seq<bv8>, n: nat, j: nat, b: bv8)
    requires Bytes(n) <= |s| && Padded(s, n) && 8 * (j + 1) <= n && j < |s|
    ensures Padded(s[j := ByteOp(op, s[j], b)], n)
    ensures forall i: nat :: i < n ==>
      Unpack(s[j := ByteOp(op, s[j], b)], n)[i] ==
      (if i / 8 == j then Apply(op, Unpack(s, n)[i], BitAt(b, i % 8)) else Unpack(s, n)[i])
  {
    hide BitAt, Bytes, ByteOp, Apply;
    var t := s[j := ByteOp(op, s[j], b)];
    forall i: nat | i / 8 < |s|
      ensures BitOf(t, i) == if i / 8 == j then Apply(op, BitOf(s, i), BitAt(b, i % 8)) else BitOf(s, i)
    {
      if i / 8 == j { ByteOpBit(op, s[j], b, i % 8); }
    }
  }

  lemma FlippedBytes(s: seq<bv8>, t: seq<bv8>, n: nat)
    requires Bytes(n) <= |s| && Bytes(n) <= |t|
    requires forall l :: 0 <= l < Bytes(n) ==> t[l] == s[l] ^ 0xFF
    ensures Unpack(t, n) == Flipped(Unpack(s, n))
  {
    hide BitAt;
    BytesCover(n);
    forall i | 0 <= i < n ensures Unpack(t, n)[i] == !Unpack(s, n)[i] {
      assert i / 8 < Bytes(n);
      XorBit(s[i / 8], 0xFF, i % 8);
      FullByte(i % 8);
    }
  }

  /** Comparing the whole bytes before position p compares the bits there. */
  lemma BytesCompare(a: seq<bv8>, b: seq<bv8>, p: nat, m: nat, n: nat)
    requires p % 8 == 0 && p <= m && p <= n && Bytes(m) <= |a| && Bytes(n) <= |b|
    ensures p / 8 <= |a| && p / 8 <= |b|
    ensures Memcmp(a, b, 0, p / 8) == 0 <==> forall i :: 0 <= i < p ==> Unpack(a, m)[i] == Unpack(b, n)[i]
  {
    hide BitAt, Memcmp;
    BytesCover(m);
    BytesCover(n);
    assert p / 8 <= Bytes(m) && p / 8 <= Bytes(n);
    var j := MemcmpAt(a, b, 0, p / 8);
    if j == p / 8 {
      forall i | 0 <= i < p ensures Unpack(a, m)[i] == Unpack(b, n)[i] { assert i / 8 < j; }
    } else {
      var k := ByteOrder(a[j], b[j]);
      var i := 8 * j + k;
      assert i / 8 == j && i % 8 == k;
      assert Unpack(a, m)[i] != Unpack(b, n)[i];
    }
  }

  lemma SameBytes(s: seq<bv8>, t: seq<bv8>, n: nat)
    requires Bytes(n) <= |s| && Bytes(n) <= |t| && Padded(s, n)
    requires forall l :: 0 <= l < Bytes(n) ==> s[l] == t[l]
    ensures Padded(t, n) && Unpack(t, n) == Unpack(s, n)
  {
    hide BitAt;
    EqualBytesEqualBits(s, t, n);
    forall i | n <= i < 8 * Bytes(n) && i / 8 < |t| ensures !BitOf(t, i) { assert i / 8 < Bytes(n) && !BitOf(s, i); }
  }

  /** Zero bytes behind padded ones are zero bits. */
  lemma GrownValue(s: seq<bv8>, t: seq<bv8>, n: nat, m: nat)
    requires Bytes(n) <= |s| && Bytes(m) <= |t| && Padded(s, n) && n <= m
    requires forall l :: 0 <= l < Bytes(n) ==> t[l] == s[l]
    requires forall l :: Bytes(n) <= l < Bytes(m) ==> t[l] == 0
    ensures Padded(t, m) && Unpack(t, m) == Unpack(s, n) + Repeated(m - n, false)
  {
    hide BitAt, Bytes, Unpack;
    BytesCover(n);
    BytesCover(m);
    forall i: nat | i / 8 < Bytes(m) ensures BitOf(t, i) == (i < n && BitOf(s, i)) {
      if i / 8 < Bytes(n) {
        assert n <= i ==> !BitOf(s, i);
      } else {
        FullByte(i % 8);
      }
    }
    UnpackIs(t, m, Unpack(s, n) + Repeated(m - n, false));
  }

  lemma UnpackPrefix(s: seq<bv8>, n: nat, m: nat)
    requires m <= n && Bytes(n) <= |s|
    ensures Bytes(m) <= |s| && Unpack(s, m) == Unpack(s, n)[..m]
  {
    hide BitAt;
  }

  lemma WholeBytesArePadded(s: seq<bv8>, n: nat)
    requires Bytes(n) <= |s| && n % 8 == 0
    ensures Padded(s, n)
  {
    assert 8 * Bytes(n) == n;
  }

  /** Masking the last byte clears the padding and keeps the bits. */
  lemma TrimmedIsPadded(s: seq<bv8>, n: nat, mask: bv8)
    requires Bytes(n) <= |s| && n % 8 != 0
    requires forall k: nat :: k < 8 ==> BitAt(mask, k) == (k < n % 8)
    ensures n / 8 < |s| && Padded(s[n / 8 := s[n / 8] & mask], n)
    ensures Unpack(s[n / 8 := s[n / 8] & mask], n) == Unpack(s, n)
  {
    hide BitAt, BitOf, Bytes, Unpack;
    PartialByte(n);
    BytesCover(n);
    var t := s[n / 8 := s[n / 8] & mask];
    forall i: nat | i < 8 * Bytes(n)
      ensures i / 8 < |s| && BitOf(t, i) == (BitOf(s, i) && i < n)
    {
      MaskedBit(s, n, mask, i);
    }
    UnpackIs(t, n, Unpack(s, n));
  }

  class Bitset {
    var bits: nat
    var buffer: array<bv8>

    ghost predicate Stored()
      reads this, buffer
    {
      Bytes(bits) <= buffer.Length && Padded(buffer[..], bits)
    }

    /** No more bits than an int can count, as the operations on several bits take for granted, but for reset */
    ghost predicate Valid()
      reads this, buffer
    {
      bits <= INT_MAX && Stored()
    }

    /** The number of the byte that holds a bit fits the int it is cast to. */
    ghost predicate InReach(bit: nat)
      reads this
    {
      bit < bits ==> bit / 8 <= INT_MAX
    }

    ghost function Value(): (v: seq<bool>)
      requires Stored()
      reads this, buffer
      ensures |v| == bits
    {
      Unpack(buffer[..], bits)
    }

    constructor (n: nat, val: bool)
      ensures Stored() && fresh(buffer) && Value() == Repeated(n, val)
    {
      var b: bv8 := if val then 0xFF else 0;
      bits := n;
      buffer := new bv8[Bytes(n)](_ => b);
      new;
      hide BitAt, Bytes;
      forall i | i / 8 < buffer.Length && 0 <= i ensures BitOf(buffer[..], i) == val { FullByte(i % 8); }
      if val {
        TrimBits();
      }
      UnpackIs(buffer[..], bits, Repeated(n, val));
    }

    /** The first n bits of a byte, one bit at a time. */
    method BlockMask(n: nat) returns (mask: bv8)
      requires n < 8
      ensures forall k: nat :: k < 8 ==> BitAt(mask, k) == (k < n)
    {
      hide BitAt, Mask;
      mask := 0;
      forall k: nat | k < 8 ensures !BitAt(mask, k) { FullByte(k); }
      var bit := n;
      while bit > 0
        invariant 0 <= bit <= n
        invariant forall k: nat :: k < 8 ==> BitAt(mask, k) == (bit <= k < n)
      {
        bit := bit - 1;
        ghost var was := mask;
        mask := mask | Mask(bit);
        forall k: nat | k < 8 ensures BitAt(mask, k) == (bit <= k < n) {
          OrBit(was, Mask(bit), k);
          MaskBit(bit, k);
        }
      }
    }

    method PutByte(j: nat, byte: bv8)
      requires j < buffer.Length
      modifies buffer
      ensures buffer[..] == old(buffer[..])[j := byte]
    {
      buffer[j] := byte;
    }

    method TrimBits()
      requires Bytes(bits) <= buffer.Length
      modifies buffer
      ensures Stored()
      ensures Value() == Unpack(old(buffer[..]), bits)
    {
      hide BitAt, BitOf, Unpack, Bytes, Padded;
      PartialByte(bits);
      if bits % 8 == 0 {
        WholeBytesArePadded(buffer[..], bits);
      } else {
        var mask := BlockMask(bits % 8);
        TrimmedIsPadded(buffer[..], bits, mask);
        PutByte(bits / 8, buffer[bits / 8] & mask);
      }
    }

    /** operator [] const */
    method Get(bit: nat) returns (r: Option<bool>)
      requires Stored() && InReach(bit)
      ensures r == if bit < bits then Some(Value()[bit]) else None
    {
      if bit < bits {
        r := Some(buffer[bit / 8] & Mask(bit % 8) != 0);
      } else {
        r := None;
      }
    }

    /** operator [] followed by the assignment of bitraits */
    method Put(bit: nat, val: bool) returns (outcome: Outcome)
      requires Stored() && InReach(bit)
      modifies buffer
      ensures Stored() && outcome == if bit < bits then Done else IndexOutOfRange
      ensures Value() == if bit < bits then old(Value())[bit := val] else old(Value())
    {
      hide BitAt, BitOf, SetBit, Unpack, Padded;
      if bit >= bits {
        return IndexOutOfRange;
      }
      BytesCover(bits);
      var byte := SetBit(buffer[bit / 8], bit % 8, val);
      PutBitValue(buffer[..], bits, bit, byte, val);
      PutByte(bit / 8, byte);
      outcome := Done;
    }

    /** operator [] followed by operator &=, |= or ^= of bitraits */
    method PutOp(op: Op, bit: nat, val: bool) returns (outcome: Outcome)
      requires Stored() && InReach(bit)
      modifies buffer
      ensures Stored() && outcome == if bit < bits then Done else IndexOutOfRange
      ensures Value() == if bit < bits then old(Value())[bit := Apply(op, old(Value())[bit], val)] else old(Value())
    {
      hide BitAt, SetBit, BitraitsOp, Padded;
      if bit >= bits {
        return IndexOutOfRange;
      }
      BytesCover(bits);
      var byte := BitraitsOp(op, buffer[bit / 8], bit % 8, val);
      BitraitsOpBit(op, buffer[bit / 8], bit % 8, val);
      assert Value()[bit] == BitAt(buffer[bit / 8], bit % 8);
      PutBitValue(buffer[..], bits, bit, byte, Apply(op, Value()[bit], val));
      PutByte(bit / 8, byte);
      outcome := Done;
    }

    /** One bit assigned from a bit of another sequence, or of this one */
    method CopyBit(to: nat, other: Bitset, from: nat) returns (outcome: Outcome)
      requires Valid() && other.Valid() && (this != other ==> buffer != other.buffer)
      modifies buffer
      ensures Valid() && other.Valid() && (this != other ==> other.Value() == old(other.Value()))
      ensures outcome == if to < bits && from < other.bits then Done else IndexOutOfRange
      ensures Value() == if outcome == Done then old(Value())[to := old(other.Value())[from]] else old(Value())
    {
      hide BitAt, Bytes, Padded, Unpack;
      var val := other.Get(from);
      if val == None {
        return IndexOutOfRange;
      }
      outcome := Put(to, val.value);
    }

    /** operator &=, |= and ^=: bit by bit down to a byte boundary, then byte by byte. */
    method Combine(op: Op, other: Bitset)
      requires Valid() && other.Valid() && (this != other ==> buffer != other.buffer)
      modifies buffer
      ensures Valid()
      ensures Value() == if this == other then old(Value()) else Combined(op, old(Value()), other.Value())
    {
      hide BitAt, Apply, ByteOp, Unpack, Bytes, Padded;
      if this != other {
        var bit: nat := if bits < other.bits then bits else other.bits;
        ghost var a, b, n := Value(), other.Value(), bit;
        while bit > 0
          invariant bit <= n && Valid()
          invariant forall i :: 0 <= i < bits ==> Value()[i] == if bit <= i < n then Apply(op, a[i], b[i]) else a[i]
        {
          if bit % 8 != 0 {
            bit := bit - 1;
            var val := other.Get(bit);
            var _ := PutOp(op, bit, val.value);
          } else {
            var i := bit / 8 - 1;
            CombineByte(op, i, other);
            bit := bit - 8;
          }
        }
        assert Value() == Combined(op, a, b);
      }
    }

    method CombineByte(op: Op, j: nat, other: Bitset)
      requires Valid() && other.Valid() && buffer != other.buffer
      requires 8 * (j + 1) <= bits && 8 * (j + 1) <= other.bits
      modifies buffer
      ensures Valid()
      ensures forall i :: 0 <= i < bits ==>
        Value()[i] == (if i / 8 == j then Apply(op, old(Value())[i], other.Value()[i]) else old(Value())[i])
    {
      hide BitAt, Apply, Padded;
      BytesCover(bits);
      BytesCover(other.bits);
      assert j < Bytes(bits) && j < Bytes(other.bits);
      PutByteValue(op, buffer[..], bits, j, other.buffer[j]);
      PutByte(j, ByteOp(op, buffer[j], other.buffer[j]));
    }

    /** compare_to */
    method CompareTo(other: Bitset) returns (r: int)
      requires Valid() && other.Valid()
      ensures Sign(r, 0) == Order(Value(), other.Value())
    {
      hide LexSign, Memcmp;
      if this == other {
        OrderIsTotal(Value(), Value(), Value());
        return 0;
      }
      if bits == other.bits && Bytes(bits) > 0 {
        ByteOrderIsBitOrder(buffer[..], other.buffer[..], bits);
        return Memcmp(buffer[..], other.buffer[..], 0, Bytes(bits));
      }
      if bits == other.bits {
        OrderIsTotal(Value(), other.Value(), Value());
      }
      r := bits - other.bits;
    }

    /** operator == */
    method Equals(other: Bitset) returns (r: bool)
      requires Valid() && other.Valid()
      ensures r == AgreeOnCommonPrefix(Value(), other.Value())
    {
      hide BitAt, Order, Memcmp, Unpack, Bytes, Padded;
      var order := CompareTo(other);
      if order == 0 {
        OrderIsTotal(Value(), other.Value(), Value());
        return true;
      }
      ghost var a, b := Value(), other.Value();
      var bit: nat := if bits < other.bits then bits else other.bits;
      ghost var n := bit;
      while bit > 0
        invariant bit <= n
        invariant forall i :: bit <= i < n ==> a[i] == b[i]
      {
        if bit % 8 != 0 {
          bit := bit - 1;
          var x := Get(bit);
          var y := other.Get(bit);
          if x != y {
            return false;
          }
        } else {
          BytesCompare(buffer[..], other.buffer[..], bit, bits, other.bits);
          return Memcmp(buffer[..], other.buffer[..], 0, bit / 8) == 0;
        }
      }
      r := true;
    }

    /** flip */
    method Flip()
      requires Valid()
      modifies buffer
      ensures Valid() && Value() == Flipped(old(Value()))
    {
      hide BitAt, Unpack, Padded, BitOf;
      BytesCover(bits);
      ghost var s := buffer[..];
      var i := Bytes(bits);
      while i > 0
        invariant i <= Bytes(bits)
        invariant forall l :: 0 <= l < buffer.Length ==> buffer[l] == if i <= l < Bytes(bits) then s[l] ^ 0xFF else s[l]
      {
        i := i - 1;
        buffer[i] := buffer[i] ^ 0xFF;
      }
      FlippedBytes(s, buffer[..], bits);
      TrimBits();
    }

    /** The copying constructor */
    constructor Copy(other: Bitset)
      requires other.Valid()
      ensures Valid() && fresh(buffer) && Value() == other.Value()
    {
      bits := other.bits;
      buffer := new bv8[Bytes(other.bits)];
      new;
      CopyBytes(other);
    }

    method CopyBytes(other: Bitset)
      requires other.Valid() && bits == other.bits && buffer.Length == Bytes(bits) && buffer != other.buffer
      modifies buffer
      ensures Valid() && Value() == other.Value()
    {
      hide BitAt, Bytes;
      ghost var s := other.buffer[..];
      assert Padded(s, bits);
      forall i | 0 <= i < Bytes(bits) { buffer[i] := other.buffer[i]; }
      assert s == other.buffer[..];
      assert forall l :: 0 <= l < Bytes(bits) ==> s[l] == buffer[..][l];
      SameBytes(s, buffer[..], bits);
    }

    /** operator = */
    method Assign(other: Bitset)
      requires Valid() && other.Valid() && (this != other ==> buffer != other.buffer)
      modifies this
      ensures Valid() && Value() == old(other.Value()) && (buffer == old(buffer) || fresh(buffer))
    {
      if this != other {
        bits := other.bits;
        buffer := new bv8[Bytes(bits)];
        CopyBytes(other);
      }
    }

    /** The constructor of the source, which throws for a size that its check refuses */
    static method Create(n: nat, val: bool) returns (outcome: Outcome, r: Bitset?)
      requires n <= SIZE_MAX
      ensures outcome == if AsInt(n) >= 0 then Done else IllegalArgument
      ensures outcome == Done <==> r != null
      ensures r != null ==> fresh(r) && fresh(r.buffer) && r.Stored() && r.Value() == Repeated(n, val)
    {
      if AsInt(n) < 0 {
        return IllegalArgument, null;
      }
      r := new Bitset(n, val);
      outcome := Done;
    }

    /** reset, with the same check */
    method Reset(n: nat, val: bool) returns (outcome: Outcome)
      requires Stored() && n <= SIZE_MAX
      modifies this
      ensures Stored() && outcome == if AsInt(n) >= 0 then Done else IllegalArgument
      ensures Value() == if outcome == Done then Repeated(n, val) else old(Value())
      ensures buffer == old(buffer) || fresh(buffer)
    {
      if AsInt(n) < 0 {
        return IllegalArgument;
      }
      var b := new Bitset(n, val);
      bits, buffer := n, b.buffer;
      outcome := Done;
    }

    /** The buffer enlarged with zeros */
    method Grow(total: nat)
      requires Valid() && bits <= total <= INT_MAX
      modifies this
      ensures Valid() && bits == total && (buffer == old(buffer) || fresh(buffer))
      ensures Value() == old(Value()) + Repeated(total - old(bits), false)
    {
      hide BitAt, Bytes, Padded, Unpack;
      ghost var s := buffer[..];
      var n := Bytes(bits);
      if Bytes(total) > n {
        var p := new bv8[Bytes(total)](_ => 0);
        forall i | 0 <= i < n { p[i] := buffer[i]; }
        buffer := p;
      }
      GrownValue(s, buffer[..], bits, total);
      bits := total;
    }

    /** operator +=, which reads the length of its operand again after enlarging its own */
    method Append(other: Bitset) returns (outcome: Outcome)
      requires Valid() && other.Valid() && (this != other ==> buffer != other.buffer)
      modifies this, buffer
      ensures Valid() && (buffer == old(buffer) || fresh(buffer))
      ensures outcome ==
        if old(other.bits) == 0 then Done
        else if old(bits + other.bits) > INT_MAX then IllegalArgument
        else if this == other then IndexOutOfRange
        else Done
      ensures Value() == if old(bits + other.bits) > INT_MAX then old(Value()) else old(Value()) + old(other.Value())
    {
      hide BitAt, Bytes, Padded, Unpack, Written;
      ghost var a, b := Value(), other.Value();
      var pos := bits;
      if other.bits == 0 {
        assert a + b == a;
        return Done;
      }
      var total := pos + other.bits;
      if total > INT_MAX {
        return IllegalArgument;
      }
      Grow(total);
      WrittenStart(a, b);
      var i, left := 0, other.bits;
      while left > 0
        invariant Valid() && bits == |a| + |b| && (buffer == old(buffer) || fresh(buffer))
        invariant this != other ==> other.buffer == old(other.buffer) != buffer && other.Valid() && other.Value() == b
        invariant i <= |b| && pos == |a| + i && left + i == if this == other then bits else |b|
        invariant Value() == Written(a, b, i)
      {
        left := left - 1;
        WrittenStep(a, b, i);
        outcome := CopyBit(pos, other, i);
        if outcome != Done {
          return outcome;
        }
        pos, i := pos + 1, i + 1;
      }
      WrittenStep(a, b, i);
      TrimBits();
      outcome := Done;
    }

    /** The loop of subits */
    method FillFrom(other: Bitset, pos: nat)
      requires Valid() && other.Valid() && this != other && buffer != other.buffer
      requires pos + bits <= other.bits && Value() == Repeated(bits, false)
      modifies buffer
      ensures Valid() && Value() == other.Value()[pos..pos + bits]
    {
      hide BitAt, BitOf, Bytes, Padded, Unpack, Filled, Repeated;
      ghost var w, n := other.Value(), bits;
      FilledStep(w, pos, n, 0);
      var i := 0;
      while i < bits
        invariant Valid() && other.Valid() && other.Value() == w && bits == n
        invariant i <= n && Value() == Filled(w, pos, n, i)
      {
        FilledStep(w, pos, n, i);
        var _ := CopyBit(i, other, pos + i);
        i := i + 1;
      }
      FilledStep(w, pos, n, i);
    }

    /** subits: null for a position out of range; a negative length, cast to size_t, takes the rest */
    method Subits(pos: int, len: int) returns (r: Bitset?)
      requires Valid()
      ensures r == null <==> !(0 <= pos < bits)
      ensures r != null ==> fresh(r) && fresh(r.buffer) && r.Valid()
      ensures r != null ==> r.bits == if 0 <= len < bits - pos then len else bits - pos
      ensures r != null ==> r.Value() == Value()[pos..pos + r.bits]
    {
      if !(0 <= pos < bits) {
        return null;
      }
      var n: nat := bits - pos;
      if 0 <= len < n {
        n := len;
      }
      r := new Bitset(n, false);
      r.FillFrom(this, pos);
    }

    /** erase: the bits behind the gap are moved forward one by one, and the bytes behind them stay allocated */
    method Erase(pos: int, len: int) returns (outcome: Outcome)
      requires Valid()
      modifies this, buffer
      ensures Valid() && buffer == old(buffer)
      ensures outcome == if 0 <= pos < old(bits) then Done else IndexOutOfRange
      ensures bits == old(bits) -
        if !(0 <= pos < old(bits)) then 0 else if 0 <= len < old(bits) - pos then len else old(bits) - pos
      ensures Value() ==
        if outcome == Done then old(Value())[..pos] + old(Value())[pos + (old(bits) - bits)..] else old(Value())
    {
      hide BitAt, Bytes, Padded, Unpack, Shifted;
      if !(0 <= pos < bits) {
        return IndexOutOfRange;
      }
      var n: nat := bits - pos;
      if 0 <= len < n {
        n := len;
      }
      var to := CloseGap(pos, n);
      UnpackPrefix(buffer[..], bits, to);
      bits := to;
      TrimBits();
      outcome := Done;
    }

    /** The loop of erase: the bits behind the gap are moved to its start. */
    method CloseGap(pos: nat, n: nat) returns (to: nat)
      requires Valid() && pos + n <= bits
      modifies buffer
      ensures Valid() && to == bits - n
      ensures Value()[..to] == old(Value())[..pos] + old(Value())[pos + n..]
    {
      hide BitAt, BitOf, Bytes, Padded, Unpack, Shifted;
      ghost var v := Value();
      var from := pos + n;
      to := pos;
      ShiftedStep(v, pos, n, to);
      while bits > from
        invariant Valid() && bits == |v| && pos <= to && from == to + n <= bits
        invariant Value() == Shifted(v, pos, n, to)
      {
        ShiftedStep(v, pos, n, to);
        var _ := CopyBit(to, this, from);
        to, from := to + 1, from + 1;
      }
      ShiftedStep(v, pos, n, to);
    }
  }
}
