/** Comparison of sequences of integers at their first difference. */
module Lexicographic {

  function Sign(a: int, b: int): int { if a < b then -1 else if a > b then 1 else 0 }

  /** The sign of the first difference. */
  function LexSign(a: seq<int>, b: seq<int>): (r: int)
    requires |a| == |b|
    ensures -1 <= r <= 1
  {
    if a == [] then 0 else if a[0] != b[0] then Sign(a[0], b[0]) else LexSign(a[1..], b[1..])
  }

  lemma {:induction false} LexSignAt(a: seq<int>, b: seq<int>, k: nat)
    requires |a| == |b| && k <= |a| && (forall i :: 0 <= i < k ==> a[i] == b[i])
    requires k == |a| || a[k] != b[k]
    ensures LexSign(a, b) == if k == |a| then 0 else Sign(a[k], b[k])
  {
    if k > 0 { LexSignAt(a[1..], b[1..], k - 1); }
  }

  lemma {:induction false} LexSignZero(a: seq<int>, b: seq<int>)
    requires |a| == |b|
    ensures LexSign(a, b) == 0 <==> a == b
  {
    if a != [] {
      LexSignZero(a[1..], b[1..]);
      assert a == [a[0]] + a[1..] && b == [b[0]] + b[1..];
    }
  }

  lemma {:induction false} LexSignFlips(a: seq<int>, b: seq<int>)
    requires |a| == |b|
    ensures LexSign(b, a) == -LexSign(a, b)
  {
    if a != [] { LexSignFlips(a[1..], b[1..]); }
  }

  lemma {:induction false} LexSignTransitive(a: seq<int>, b: seq<int>, c: seq<int>)
    requires |a| == |b| == |c| && LexSign(a, b) <= 0 && LexSign(b, c) <= 0
    ensures LexSign(a, c) <= 0
  {
    if a != [] && a[0] == b[0] == c[0] { LexSignTransitive(a[1..], b[1..], c[1..]); }
  }

  /** Where two different sequences first differ. */
  lemma {:induction false} FirstDifference(a: seq<int>, b: seq<int>) returns (k: nat)
    requires |a| == |b| && a != b
    ensures k < |a| && a[k] != b[k] && forall i :: 0 <= i < k ==> a[i] == b[i]
  {
    if a[0] != b[0] {
      k := 0;
    } else {
      assert a == [a[0]] + a[1..] && b == [b[0]] + b[1..];
      k := FirstDifference(a[1..], b[1..]);
      k := k + 1;
    }
  }
}
